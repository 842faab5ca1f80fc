/** The batched-statement loader (`BatchInsertRepository.insertAll`): chunks of at
    most 5,000 records, each bound row by row and submitted as one `batchUpdate`. */
module BatchInsert {
  import opened Records
  import opened Chunking
  import opened Store
  import opened ChunkedRuns

  const BatchSize: nat := 5_000

  /** The statement setter built for one chunk: the chunk and its start offset `jump`. */
  datatype RowSetter = RowSetter(batch: seq<Record>, jump: nat) {

    function GetBatchSize(): nat {
      |batch|
    }

    /** `setValues(ps, i)`: id `i + jump` and the JSON of `batch[i]`; `None` stands
        for the `SQLException` thrown when the record cannot be encoded. */
    function SetValues(encode: Encoder, i: nat): Option<Row>
      requires i < GetBatchSize()
    {
      match encode(batch[i])
      case None => None
      case Some(json) => Some(Row(i + jump, json))
    }
  }

  /** What `batchUpdate` binds: `setValues` for every `i` from `from` up to
      `getBatchSize()`, in order; the first failing row aborts the whole group. */
  function BindFrom(setter: RowSetter, encode: Encoder, from: nat): Option<seq<Row>>
    requires from <= setter.GetBatchSize()
    decreases setter.GetBatchSize() - from
  {
    if from == setter.GetBatchSize() then Some([])
    else
      match setter.SetValues(encode, from)
      case None => None
      case Some(row) =>
        match BindFrom(setter, encode, from + 1)
        case None => None
        case Some(rows) => Some([row] + rows)
  }

  function BindAll(setter: RowSetter, encode: Encoder): Option<seq<Row>> {
    BindFrom(setter, encode, 0)
  }

  /** Row `j - lo` of `rows` is `(j, encode(data[j]))`. */
  predicate RowAt(rows: seq<Row>, data: seq<Record>, encode: Encoder, lo: nat, j: nat)
    requires lo <= j < |data| && j - lo < |rows|
  {
    encode(data[j]).Some? && rows[j - lo] == Row(j, encode(data[j]).value)
  }

  /** `rows` are the rows `(j, encode(data[j]))` for j = lo .. hi-1, in order. */
  predicate IsRowsOf(rows: seq<Row>, data: seq<Record>, encode: Encoder, lo: nat, hi: nat) {
    && lo <= hi <= |data|
    && |rows| == hi - lo
    && forall j | lo <= j < hi :: RowAt(rows, data, encode, lo, j)
  }

  lemma {:induction false} BindFromRows(setter: RowSetter, encode: Encoder, from: nat)
    requires from <= setter.GetBatchSize()
    ensures var b := setter.batch;
      && (BindFrom(setter, encode, from).Some? <==> forall j | from <= j < |b| :: encode(b[j]).Some?)
      && (BindFrom(setter, encode, from).Some? ==>
            var rows := BindFrom(setter, encode, from).value;
            && |rows| == |b| - from
            && forall j | from <= j < |b| :: rows[j - from] == Row(j + setter.jump, encode(b[j]).value))
    decreases setter.GetBatchSize() - from
  {
    if from < setter.GetBatchSize() {
      BindFromRows(setter, encode, from + 1);
    }
  }

  /** A group binds exactly `getBatchSize()` rows, row `i` being `(i + jump,
      encode(batch[i]))`, and it binds at all exactly when every record encodes. */
  lemma BindAllRows(setter: RowSetter, encode: Encoder)
    ensures BindAll(setter, encode).Some? <==> AllEncode(setter.batch, encode)
    ensures BindAll(setter, encode).Some? ==>
              var rows := BindAll(setter, encode).value;
              && |rows| == setter.GetBatchSize()
              && forall i | 0 <= i < |rows| :: rows[i] == Row(i + setter.jump, encode(setter.batch[i]).value)
  {
    BindFromRows(setter, encode, 0);
  }

  /** The preparation of one chunk by `insertAll`: the rows `batchUpdate` binds
      with the setter for that chunk and its start offset. */
  function BindStep(encode: Encoder): Step<seq<Row>> {
    (batch: seq<Record>, jump: nat) => BindAll(RowSetter(batch, jump), encode)
  }

  /** What the `for` loop of `insertAll` submits from chunk start `start` on, and
      how it ends. */
  function InsertAllRun(data: seq<Record>, encode: Encoder, size: nat, start: nat): Run<seq<Row>>
    requires 0 < size
  {
    ChunkedRun(data, BindStep(encode), SqlConversionError, size, start)
  }

  /** Binding a chunk fails exactly when one of its records cannot be encoded. */
  lemma BindStepFailsOnUnencodable(encode: Encoder)
    ensures FailsOnUnencodable(BindStep(encode), encode)
  {
    forall batch: seq<Record>, jump: nat
      ensures BindStep(encode)(batch, jump).Some? <==> AllEncode(batch, encode)
    {
      BindAllRows(RowSetter(batch, jump), encode);
    }
  }

  /** Binding does not depend on where the chunks are cut. */
  lemma BindStepConcatenates(encode: Encoder)
    ensures Concatenates(BindStep(encode))
  {
    forall jump: nat
      ensures BindStep(encode)([], jump) == Some([])
    {
      BindAllRows(RowSetter([], jump), encode);
    }
    forall whole: seq<Record>, jump: nat, cut: nat
      | cut <= |whole| && BindStep(encode)(whole[..cut], jump).Some?
        && BindStep(encode)(whole[cut..], jump + cut).Some?
      ensures BindStep(encode)(whole, jump)
           == Some(BindStep(encode)(whole[..cut], jump).value + BindStep(encode)(whole[cut..], jump + cut).value)
    {
      BindAllSplit(whole, encode, jump, cut);
    }
  }

  lemma BindAllSplit(whole: seq<Record>, encode: Encoder, jump: nat, cut: nat)
    requires cut <= |whole|
    requires BindAll(RowSetter(whole[..cut], jump), encode).Some?
    requires BindAll(RowSetter(whole[cut..], jump + cut), encode).Some?
    ensures BindAll(RowSetter(whole, jump), encode)
         == Some(BindAll(RowSetter(whole[..cut], jump), encode).value
                 + BindAll(RowSetter(whole[cut..], jump + cut), encode).value)
  {
    var left := whole[..cut];
    var right := whole[cut..];
    BindAllRows(RowSetter(left, jump), encode);
    BindAllRows(RowSetter(right, jump + cut), encode);
    assert AllEncode(whole, encode) by {
      forall i | 0 <= i < |whole| ensures encode(whole[i]).Some? {
        if i < cut {
          assert left[i] == whole[i];
        } else {
          assert right[i - cut] == whole[i];
        }
      }
    }
    BindAllRows(RowSetter(whole, jump), encode);
    var rows := BindAll(RowSetter(whole, jump), encode).value;
    var joined := BindAll(RowSetter(left, jump), encode).value + BindAll(RowSetter(right, jump + cut), encode).value;
    assert |rows| == |joined|;
    forall i | 0 <= i < |rows| ensures rows[i] == joined[i] {
      if i < cut {
        assert left[i] == whole[i];
      } else {
        assert right[i - cut] == whole[i];
      }
    }
    assert rows == joined;
  }

  /** `row` is the row stored for record `j`: id `j`, payload the JSON of `data[j]`. */
  predicate RowOf(row: Row, data: seq<Record>, encode: Encoder, j: nat) {
    j < |data| && row.id == j && encode(data[j]) == Some(row.payload)
  }

  /** The `k`-th submitted group is chunk `k` bound at offset `k * 5000`: its
      rows are `(j, encode(data[j]))` for the chunk's indices `j`, at most 5,000 of them. */
  lemma InsertAllGroup(data: seq<Record>, encode: Encoder, k: nat)
    requires k < |InsertAllRun(data, encode, BatchSize, 0).log|
    ensures var group := InsertAllRun(data, encode, BatchSize, 0).log[k];
      var first := k * BatchSize;
      && first < |data|
      && 0 < |group| <= BatchSize
      && |group| == ChunkEnd(first, BatchSize, |data|) - first
      && forall i | 0 <= i < |group| :: RowOf(group[i], data, encode, first + i)
  {
    RunGroup(data, BindStep(encode), SqlConversionError, BatchSize, 0, k);
    ChunksAt(data, BatchSize, 0, k);
    var first := k * BatchSize;
    var chunk := data[first..ChunkEnd(first, BatchSize, |data|)];
    BindAllRows(RowSetter(chunk, first), encode);
    assert forall i | 0 <= i < |chunk| :: chunk[i] == data[first + i];
  }

  /** What `insertAll` does with the whole input: it succeeds exactly when every
      record encodes, and then it has submitted one group per chunk, which,
      concatenated, are `(j, encode(data[j]))` for j = 0 .. n-1 (dense, unique,
      0-based ids); otherwise it fails with `batchUpdate`'s exception, caused by
      the setter's SQLException, having committed the whole chunks before the
      first failing record, all of their rows and nothing from that chunk on. */
  lemma InsertAllOutcome(data: seq<Record>, encode: Encoder)
    ensures var run := InsertAllRun(data, encode, BatchSize, 0);
      var rows := Flatten(run.log);
      && (run.outcome == Pass <==> AllEncode(data, encode))
      && (run.outcome == Pass ==>
            && |run.log| == |Chunks(data, BatchSize, 0)|
            && |rows| == |data|
            && forall j | 0 <= j < |data| :: RowOf(rows[j], data, encode, j))
      && (run.outcome != Pass ==>
            var c := |run.log| * BatchSize;
            && run.outcome == Fail(SqlConversionError)
            && c <= FirstFailure(data, encode) < c + BatchSize
            && |rows| == c
            && forall j | 0 <= j < c :: RowOf(rows[j], data, encode, j))
  {
    var step := BindStep(encode);
    var run := InsertAllRun(data, encode, BatchSize, 0);
    BindStepFailsOnUnencodable(encode);
    BindStepConcatenates(encode);
    RunStopsAtFirstFailure(data, step, SqlConversionError, encode, BatchSize, 0, FirstFailure(data, encode));
    RunStopsAtFailingChunk(data, step, SqlConversionError, encode, BatchSize, 0);
    RunCommitted(data, step, SqlConversionError, BatchSize, 0);
    var c := CommittedEnd(run, |data|, BatchSize, 0);
    var prefix := data[0..c];
    BindAllRows(RowSetter(prefix, 0), encode);
    assert forall j | 0 <= j < c :: prefix[j] == data[j];
  }

  /** A successful run makes ceil(n / 5000) `batchUpdate` calls: none for an
      empty input. */
  lemma InsertAllCalls(data: seq<Record>, encode: Encoder)
    requires AllEncode(data, encode)
    ensures |InsertAllRun(data, encode, BatchSize, 0).log| == (|data| + BatchSize - 1) / BatchSize
    ensures data == [] ==> InsertAllRun(data, encode, BatchSize, 0).log == []
  {
    InsertAllOutcome(data, encode);
    ChunksCeil(data, BatchSize);
  }

  /** The stored rows do not depend on the chunk size. */
  lemma InsertAllRowsIndependentOfChunkSize(data: seq<Record>, encode: Encoder, size1: nat, size2: nat)
    requires 0 < size1 && 0 < size2
    requires AllEncode(data, encode)
    ensures InsertAllRun(data, encode, size1, 0).outcome == Pass
    ensures InsertAllRun(data, encode, size2, 0).outcome == Pass
    ensures Flatten(InsertAllRun(data, encode, size1, 0).log) == Flatten(InsertAllRun(data, encode, size2, 0).log)
  {
    var step := BindStep(encode);
    var f := FirstFailure(data, encode);
    BindStepFailsOnUnencodable(encode);
    BindStepConcatenates(encode);
    RunStopsAtFirstFailure(data, step, SqlConversionError, encode, size1, 0, f);
    RunStopsAtFirstFailure(data, step, SqlConversionError, encode, size2, 0, f);
    RunCommitted(data, step, SqlConversionError, size1, 0);
    RunCommitted(data, step, SqlConversionError, size2, 0);
  }

  /** The repository: a `JdbcTemplate` to the table and the JSON encoder. */
  class BatchInsertRepository {
    const jdbcTemplate: Database
    const objectMapper: Encoder

    constructor (jdbcTemplate: Database, objectMapper: Encoder)
      ensures this.jdbcTemplate == jdbcTemplate && this.objectMapper == objectMapper
    {
      this.jdbcTemplate := jdbcTemplate;
      this.objectMapper := objectMapper;
    }

    /** `insertAll(data)`: the store receives exactly the groups of
        `InsertAllRun(data, objectMapper, BatchSize, 0)`, and its outcome is returned. */
    method InsertAll(data: seq<Record>) returns (o: Outcome)
      modifies jdbcTemplate
      ensures var run := InsertAllRun(data, objectMapper, BatchSize, 0);
        o == run.outcome && jdbcTemplate.batches == old(jdbcTemplate.batches) + run.log
      ensures jdbcTemplate.frames == old(jdbcTemplate.frames)
    {
      var start := 0;
      while start < |data|
        invariant jdbcTemplate.batches + InsertAllRun(data, objectMapper, BatchSize, start).log
               == old(jdbcTemplate.batches) + InsertAllRun(data, objectMapper, BatchSize, 0).log
        invariant InsertAllRun(data, objectMapper, BatchSize, start).outcome
               == InsertAllRun(data, objectMapper, BatchSize, 0).outcome
        invariant jdbcTemplate.frames == old(jdbcTemplate.frames)
        decreases |data| - start
      {
        var end := Min(start + BatchSize, |data|);
        var batch := data[start..end];
        var jump := start;
        var rows := BindAll(RowSetter(batch, jump), objectMapper);
        if rows.None? {
          return Fail(SqlConversionError);
        }
        ghost var rest := InsertAllRun(data, objectMapper, BatchSize, start + BatchSize);
        assert InsertAllRun(data, objectMapper, BatchSize, start).log == [rows.value] + rest.log;
        jdbcTemplate.BatchUpdate(rows.value);
        start := start + BatchSize;
      }
      return Pass;
    }
  }
}
