/** The outer loop both loaders share: `for (start = 0; start < n; start +=
    size)`, one submission per chunk `data.subList(start, min(start + size, n))`,
    and the first chunk that cannot be prepared ends the loop by an exception. */
module ChunkedRuns {
  import opened Records
  import opened Chunking

  /** How a loader prepares one chunk whose first record has absolute index
      `start`: the group it submits, or `None` when the chunk holds a record
      that cannot be encoded. */
  type Step<L> = (seq<Record>, nat) -> Option<L>

  /** What the loop submits from chunk start `start` on, and how it ends:
      `error` is the exception the loader raises when `step` fails. */
  function ChunkedRun<L>(data: seq<Record>, step: Step<L>, error: LoadError, size: nat, start: nat): Run<L>
    requires 0 < size
    decreases |data| - start
  {
    if start >= |data| then Run([], Pass)
    else
      match step(data[start..ChunkEnd(start, size, |data|)], start)
      case None => Run([], Fail(error))
      case Some(group) =>
        var rest := ChunkedRun(data, step, error, size, start + size);
        Run([group] + rest.log, rest.outcome)
  }

  /** `step` fails on a chunk exactly when one of its records cannot be encoded. */
  ghost predicate FailsOnUnencodable<L>(step: Step<L>, encode: Encoder) {
    forall batch: seq<Record>, start: nat :: step(batch, start).Some? <==> AllEncode(batch, encode)
  }

  /** `step` does not depend on where the chunks are cut: the empty chunk gives
      the empty group, and two adjacent pieces, ids continuing, give the
      concatenation of their groups. */
  ghost predicate Concatenates<T>(step: Step<seq<T>>) {
    && (forall start: nat :: step([], start) == Some([]))
    && (forall whole: seq<Record>, start: nat, cut: nat {:trigger step(whole, start), whole[..cut]}
          | cut <= |whole| && step(whole[..cut], start).Some? && step(whole[cut..], start + cut).Some?
          :: step(whole, start) == Some(step(whole[..cut], start).value + step(whole[cut..], start + cut).value))
  }

  /** One submission per chunk, in chunk order: every chunk is submitted when all
      of them can be prepared, and otherwise the run stops, raising `error`,
      before the first chunk holding a record that cannot be encoded. */
  lemma {:induction false} RunStopsAtFailingChunk<L>(data: seq<Record>, step: Step<L>, error: LoadError,
                                                      encode: Encoder, size: nat, start: nat)
    requires 0 < size && FailsOnUnencodable(step, encode)
    ensures var run := ChunkedRun(data, step, error, size, start);
      var cs := Chunks(data, size, start);
      && |run.log| <= |cs|
      && (run.outcome == Pass <==> |run.log| == |cs|)
      && (run.outcome != Pass ==> run.outcome == Fail(error) && !AllEncode(cs[|run.log|], encode))
    decreases |data| - start
  {
    if start < |data| {
      var batch := data[start..ChunkEnd(start, size, |data|)];
      assert Chunks(data, size, start) == [batch] + Chunks(data, size, start + size);
      if step(batch, start).Some? {
        RunStopsAtFailingChunk(data, step, error, encode, size, start + size);
      }
    }
  }

  /** The `k`-th submission is chunk `k` prepared at offset `start + k * size`. */
  lemma {:induction false} RunGroup<L>(data: seq<Record>, step: Step<L>, error: LoadError, size: nat, start: nat, k: nat)
    requires 0 < size
    requires k < |ChunkedRun(data, step, error, size, start).log|
    ensures k < |Chunks(data, size, start)|
    ensures step(Chunks(data, size, start)[k], start + k * size)
         == Some(ChunkedRun(data, step, error, size, start).log[k])
    decreases k
  {
    var batch := data[start..ChunkEnd(start, size, |data|)];
    assert Chunks(data, size, start) == [batch] + Chunks(data, size, start + size);
    if k > 0 {
      RunGroup(data, step, error, size, start + size, k - 1);
      MulSucc(k - 1, size);
    }
  }

  /** The run fails exactly when some record cannot be encoded, and then it stops
      at the chunk holding the first such record `f`: `c <= f < c + size` where
      `c` is the start of the first chunk not submitted. */
  lemma {:induction false} RunStopsAtFirstFailure<L>(data: seq<Record>, step: Step<L>, error: LoadError,
                                                      encode: Encoder, size: nat, start: nat, f: nat)
    requires 0 < size && FailsOnUnencodable(step, encode)
    requires start <= f <= |data|
    requires forall j | start <= j < f :: encode(data[j]).Some?
    requires f < |data| ==> encode(data[f]).None?
    ensures var run := ChunkedRun(data, step, error, size, start);
      var c := start + |run.log| * size;
      && (run.outcome == Pass <==> f == |data|)
      && (run.outcome != Pass ==> c <= f < c + size)
    decreases |data| - start
  {
    if start < |data| {
      var end := ChunkEnd(start, size, |data|);
      var batch := data[start..end];
      if f < end {
        assert batch[f - start] == data[f];
      } else {
        assert AllEncode(batch, encode) by {
          forall i | 0 <= i < |batch| ensures encode(batch[i]).Some? {
            assert batch[i] == data[start + i];
          }
        }
        if end < |data| {
          RunStopsAtFirstFailure(data, step, error, encode, size, end, f);
          MulSucc(|ChunkedRun(data, step, error, size, end).log|, size);
        }
      }
    }
  }

  /** Unfolding one submitted chunk. */
  lemma RunCons<L>(data: seq<Record>, step: Step<L>, error: LoadError, size: nat, start: nat)
    requires 0 < size && start < |data|
    requires step(data[start..ChunkEnd(start, size, |data|)], start).Some?
    ensures var run := ChunkedRun(data, step, error, size, start);
      var rest := ChunkedRun(data, step, error, size, start + size);
      && run.log == [step(data[start..ChunkEnd(start, size, |data|)], start).value] + rest.log
      && run.outcome == rest.outcome
  {
  }

  lemma FlattenCons<T>(group: seq<T>, rest: seq<seq<T>>)
    ensures Flatten([group] + rest) == group + Flatten(rest)
  {
    FlattenAppend([group], rest);
    assert Flatten([group]) == group + Flatten([]);
  }

  /** Two adjacent ranges of the input prepared apart give the group of their union. */
  lemma CommitAppend<T>(data: seq<Record>, step: Step<seq<T>>, start: nat, end: nat, c: nat, ga: seq<T>, gb: seq<T>)
    requires start <= end <= c <= |data| && Concatenates(step)
    requires step(data[start..end], start) == Some(ga)
    requires step(data[end..c], end) == Some(gb)
    ensures step(data[start..c], start) == Some(ga + gb)
  {
    var whole := data[start..c];
    var cut := end - start;
    assert whole[..cut] == data[start..end];
    assert whole[cut..] == data[end..c];
  }

  /** The input a run has committed: all of it on success, and the whole chunks
      before the failing one otherwise. */
  function CommittedEnd<L>(run: Run<L>, n: nat, size: nat, start: nat): nat {
    if run.outcome == Pass then n else start + |run.log| * size
  }

  /** The induction step of `RunCommitted`: one submitted chunk in front of a run
      that already satisfies it. */
  lemma RunCommittedStep<T>(data: seq<Record>, step: Step<seq<T>>, error: LoadError, size: nat, start: nat)
    requires 0 < size && start < |data| && Concatenates(step)
    requires step(data[start..ChunkEnd(start, size, |data|)], start).Some?
    requires var end := ChunkEnd(start, size, |data|);
      var rest := ChunkedRun(data, step, error, size, start + size);
      var c := CommittedEnd(rest, |data|, size, end);
      end < |data| ==> c <= |data| && step(data[end..c], end) == Some(Flatten(rest.log))
    ensures var run := ChunkedRun(data, step, error, size, start);
      var c := CommittedEnd(run, |data|, size, start);
      c <= |data| && step(data[start..c], start) == Some(Flatten(run.log))
  {
    var n := |data|;
    var end := ChunkEnd(start, size, n);
    var group := step(data[start..end], start).value;
    var rest := ChunkedRun(data, step, error, size, start + size);
    RunCons(data, step, error, size, start);
    FlattenCons(group, rest.log);
    if end == n {
      assert rest.log == [] && rest.outcome == Pass;
      assert group + Flatten(rest.log) == group;
    } else {
      MulSucc(|rest.log|, size);
      CommitAppend(data, step, start, end, CommittedEnd(rest, n, size, end), group, Flatten(rest.log));
    }
  }

  /** For a step that does not depend on the cut, the submissions, concatenated,
      are the group of the committed input `data[start..c]` prepared in one
      piece: `c` is the end of the input on success, and the start of the chunk
      that failed otherwise. */
  lemma {:induction false} RunCommitted<T>(data: seq<Record>, step: Step<seq<T>>, error: LoadError, size: nat, start: nat)
    requires 0 < size && start <= |data| && Concatenates(step)
    ensures var run := ChunkedRun(data, step, error, size, start);
      var c := CommittedEnd(run, |data|, size, start);
      c <= |data| && step(data[start..c], start) == Some(Flatten(run.log))
    decreases |data| - start
  {
    var n := |data|;
    if start == n || step(data[start..ChunkEnd(start, size, n)], start).None? {
      assert data[start..start] == [];
    } else {
      var end := ChunkEnd(start, size, n);
      if end < n {
        RunCommitted(data, step, error, size, end);
      }
      RunCommittedStep(data, step, error, size, start);
    }
  }
}
