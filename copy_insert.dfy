/** The bulk-copy loader (`CopyInsertRepository.copyInsertAllInBatches`): chunks
    of at most 50,000 records, each framed as CSV text and streamed by one `copyIn`. */
module CopyInsert {
  import opened Records
  import opened Chunking
  import opened Store
  import opened CsvQuoting
  import opened DecimalText
  import opened ChunkedRuns

  const CopyBatchSize: nat := 50_000

  /** The line written for the record with absolute index `id`:
      `<id>;"<json with every quote doubled>"` and a line feed. */
  function Line(id: nat, json: string): string {
    Decimal(id) + [';', Quote] + Escape(json) + [Quote, '\n']
  }

  /** The number of leading decimal digits of `s`. */
  function LeadingDigits(s: string): (k: nat)
    ensures k <= |s| && AllDigits(s[..k])
    ensures k < |s| ==> !IsDigit(s[k])
  {
    if s == [] || !IsDigit(s[0]) then 0
    else
      var k := 1 + LeadingDigits(s[1..]);
      assert forall i | 1 <= i < k :: s[..k][i] == s[1..][..k - 1][i - 1];
      k
  }

  /** The reading of one row at the head of a frame under `FORMAT csv, DELIMITER
      ';', QUOTE '"'`: a decimal id, the delimiter, a quoted field and a line
      feed; the rest of the text comes back with the row. */
  function ReadRow(t: string): (r: Option<((nat, string), string)>)
    ensures r.Some? ==> |r.value.1| < |t|
  {
    var k := LeadingDigits(t);
    if k == 0 || |t| < k + 2 || t[k] != ';' || t[k + 1] != Quote then None
    else
      match ReadField(t[k + 2..])
      case None => None
      case Some((field, rest)) =>
        if rest != [] && rest[0] == '\n' then Some(((ParseDecimal(t[..k]), field), rest[1..]))
        else None
  }

  /** The rows COPY reads from a frame, in order. */
  function ReadFrame(t: string): Option<seq<(nat, string)>>
    decreases |t|
  {
    if t == [] then Some([])
    else
      match ReadRow(t)
      case None => None
      case Some((row, rest)) =>
        match ReadFrame(rest)
        case None => None
        case Some(rows) => Some([row] + rows)
  }

  lemma {:induction false} LeadingDigitsOfPrefix(d: string, rest: string)
    requires AllDigits(d)
    requires rest != [] && !IsDigit(rest[0])
    ensures LeadingDigits(d + rest) == |d|
  {
    if d != [] {
      assert (d + rest)[1..] == d[1..] + rest;
      LeadingDigitsOfPrefix(d[1..], rest);
    } else {
      assert d + rest == rest;
    }
  }

  lemma ReadRowOfPieces(t: string, k: nat, field: string, more: string)
    requires 0 < k && k + 2 <= |t| && LeadingDigits(t) == k
    requires t[k] == ';' && t[k + 1] == Quote
    requires ReadField(t[k + 2..]) == Some((field, ['\n'] + more))
    ensures ReadRow(t) == Some(((ParseDecimal(t[..k]), field), more))
  {
    assert (['\n'] + more)[1..] == more;
  }

  lemma ReadRowOfParts(d: string, tail: string, json: string, more: string)
    requires 0 < |d| && AllDigits(d)
    requires ReadField(tail) == Some((json, ['\n'] + more))
    ensures ReadRow(d + ([';', Quote] + tail)) == Some(((ParseDecimal(d), json), more))
  {
    var rest := [';', Quote] + tail;
    var t := d + rest;
    LeadingDigitsOfPrefix(d, rest);
    assert t[..|d|] == d;
    assert t[|d| + 2..] == tail;
    ReadRowOfPieces(t, |d|, json, more);
  }

  lemma LineParts(d: string, e: string, more: string)
    ensures d + [';', Quote] + e + [Quote, '\n'] + more == d + ([';', Quote] + (e + [Quote] + (['\n'] + more)))
  {
  }

  /** A line at the head of a frame reads back as its id and the original JSON,
      quotes intact, and reading goes on right after it. */
  lemma ReadRowOfLine(id: nat, json: string, more: string)
    ensures ReadRow(Line(id, json) + more) == Some(((id, json), more))
  {
    ReadFieldOfEscape(json, ['\n'] + more);
    ReadRowOfParts(Decimal(id), Escape(json) + [Quote] + (['\n'] + more), json, more);
    LineParts(Decimal(id), Escape(json), more);
    ParseDecimalOfDecimal(id);
  }

  lemma {:induction false} CountCharAbsent(s: string, c: char)
    requires forall i | 0 <= i < |s| :: s[i] != c
    ensures CountChar(s, c) == 0
  {
    if s != [] {
      CountCharAbsent(s[1..], c);
    }
  }

  lemma CountNewlinesOfParts(d: string, e: string)
    requires AllDigits(d)
    ensures CountChar(d + [';', Quote] + e + [Quote, '\n'], '\n') == 1 + CountChar(e, '\n')
  {
    CountCharAbsent(d, '\n');
    CountCharAppend(d, [';', Quote], '\n');
    CountCharAppend(d + [';', Quote], e, '\n');
    CountCharAppend(d + [';', Quote] + e, [Quote, '\n'], '\n');
    CountCharAbsent([';', Quote], '\n');
    assert [Quote, '\n'][1..] == ['\n'];
    assert ['\n'][1..] == [];
  }

  /** A line holds one line feed more than its JSON. */
  lemma LineNewlines(id: nat, json: string)
    ensures CountChar(Line(id, json), '\n') == 1 + CountChar(json, '\n')
  {
    CountNewlinesOfParts(Decimal(id), Escape(json));
    EscapeKeepsOtherChars(json, '\n');
  }

  /** The `StringBuilder` appends of one record produce its line. */
  lemma AppendLine(sb: string, id: nat, json: string)
    ensures sb + Decimal(id) + [';'] + [Quote] + Escape(json) + [Quote] + ['\n'] == sb + Line(id, json)
  {
    AppendParts(sb, Decimal(id), Escape(json));
  }

  lemma AppendParts(sb: string, d: string, e: string)
    ensures sb + d + [';'] + [Quote] + e + [Quote] + ['\n'] == sb + (d + [';', Quote] + e + [Quote, '\n'])
  {
  }

  /** The text the inner loop has appended to `sb` after its first `k` records,
      for a chunk whose first record has absolute index `start`; `None` when one
      of those records cannot be encoded. */
  function FramePrefix(batch: seq<Record>, start: nat, encode: Encoder, k: nat): Option<string>
    requires k <= |batch|
  {
    if k == 0 then Some([])
    else
      match FramePrefix(batch, start, encode, k - 1)
      case None => None
      case Some(prefix) =>
        match encode(batch[k - 1])
        case None => None
        case Some(json) => Some(prefix + Line(start + k - 1, json))
  }

  /** The frame streamed for a whole chunk. */
  function FrameOf(batch: seq<Record>, start: nat, encode: Encoder): Option<string> {
    FramePrefix(batch, start, encode, |batch|)
  }

  /** The lines of a fully encodable chunk, line `i` carrying id `start + i`. */
  function LinesOf(batch: seq<Record>, start: nat, encode: Encoder): seq<string>
    requires AllEncode(batch, encode)
  {
    seq(|batch|, i requires 0 <= i < |batch| => Line(start + i, encode(batch[i]).value))
  }

  /** The rows a fully encodable chunk should become: `(start + i, JSON of batch[i])`. */
  function Written(batch: seq<Record>, start: nat, encode: Encoder): seq<(nat, string)>
    requires AllEncode(batch, encode)
  {
    seq(|batch|, i requires 0 <= i < |batch| => (start + i, encode(batch[i]).value))
  }

  lemma LinesOfTail(batch: seq<Record>, start: nat, encode: Encoder)
    requires AllEncode(batch, encode) && batch != []
    ensures AllEncode(batch[1..], encode)
    ensures LinesOf(batch, start, encode)
         == [Line(start, encode(batch[0]).value)] + LinesOf(batch[1..], start + 1, encode)
    ensures Written(batch, start, encode)
         == [(start, encode(batch[0]).value)] + Written(batch[1..], start + 1, encode)
  {
    assert forall i | 0 <= i < |batch[1..]| :: batch[1..][i] == batch[i + 1];
  }

  lemma ReadFrameCons(line: string, more: string, row: (nat, string), rows: seq<(nat, string)>)
    requires line != []
    requires ReadRow(line + more) == Some((row, more))
    requires ReadFrame(more) == Some(rows)
    ensures ReadFrame(line + more) == Some([row] + rows)
  {
  }

  /** The lines of a chunk read back as exactly its rows, in order. */
  lemma {:induction false} ReadFrameOfLines(batch: seq<Record>, start: nat, encode: Encoder)
    requires AllEncode(batch, encode)
    ensures ReadFrame(Flatten(LinesOf(batch, start, encode))) == Some(Written(batch, start, encode))
    decreases |batch|
  {
    if batch == [] {
      assert LinesOf(batch, start, encode) == [] && Written(batch, start, encode) == [];
    } else {
      var json := encode(batch[0]).value;
      var line := Line(start, json);
      LinesOfTail(batch, start, encode);
      var rest := LinesOf(batch[1..], start + 1, encode);
      assert Flatten([line] + rest) == line + Flatten(rest);
      ReadFrameOfLines(batch[1..], start + 1, encode);
      ReadRowOfLine(start, json, Flatten(rest));
      ReadFrameCons(line, Flatten(rest), (start, json), Written(batch[1..], start + 1, encode));
    }
  }

  lemma {:induction false} FramePrefixSome(batch: seq<Record>, start: nat, encode: Encoder, k: nat)
    requires k <= |batch|
    ensures FramePrefix(batch, start, encode, k).Some? <==> forall i | 0 <= i < k :: encode(batch[i]).Some?
  {
    if k > 0 {
      FramePrefixSome(batch, start, encode, k - 1);
    }
  }

  /** A frame is built exactly when every record of the chunk encodes. */
  lemma FrameOfSome(batch: seq<Record>, start: nat, encode: Encoder)
    ensures FrameOf(batch, start, encode).Some? <==> AllEncode(batch, encode)
  {
    FramePrefixSome(batch, start, encode, |batch|);
  }

  lemma {:induction false} FramePrefixLines(batch: seq<Record>, start: nat, encode: Encoder, k: nat)
    requires AllEncode(batch, encode) && k <= |batch|
    ensures FramePrefix(batch, start, encode, k) == Some(Flatten(LinesOf(batch, start, encode)[..k]))
  {
    var lines := LinesOf(batch, start, encode);
    if k == 0 {
      assert lines[..0] == [];
    } else {
      FramePrefixLines(batch, start, encode, k - 1);
      assert lines[..k] == lines[..k - 1] + [lines[k - 1]];
      FlattenAppend(lines[..k - 1], [lines[k - 1]]);
      assert Flatten([lines[k - 1]]) == lines[k - 1];
    }
  }

  /** The frame is the concatenation of one line per record, in order. */
  lemma FrameOfLines(batch: seq<Record>, start: nat, encode: Encoder)
    requires AllEncode(batch, encode)
    ensures FrameOf(batch, start, encode) == Some(Flatten(LinesOf(batch, start, encode)))
  {
    FramePrefixLines(batch, start, encode, |batch|);
    assert LinesOf(batch, start, encode)[..|batch|] == LinesOf(batch, start, encode);
  }

  /** The lines of two adjacent pieces, ids continuing, are the lines of the whole. */
  lemma LinesOfAppend(a: seq<Record>, b: seq<Record>, start: nat, encode: Encoder)
    requires AllEncode(a, encode) && AllEncode(b, encode)
    ensures AllEncode(a + b, encode)
    ensures LinesOf(a + b, start, encode) == LinesOf(a, start, encode) + LinesOf(b, start + |a|, encode)
  {
    assert forall i | |a| <= i < |a + b| :: (a + b)[i] == b[i - |a|];
    assert forall i | 0 <= i < |a| :: (a + b)[i] == a[i];
  }

  /** Chunking is transparent: the frames of two adjacent pieces, their second id
      continuing the first, concatenate to the frame of the whole. */
  lemma FrameOfAppend(a: seq<Record>, b: seq<Record>, start: nat, encode: Encoder, fa: string, fb: string)
    requires FrameOf(a, start, encode) == Some(fa)
    requires FrameOf(b, start + |a|, encode) == Some(fb)
    ensures FrameOf(a + b, start, encode) == Some(fa + fb)
  {
    FrameOfSome(a, start, encode);
    FrameOfSome(b, start + |a|, encode);
    LinesOfAppend(a, b, start, encode);
    FrameOfLines(a, start, encode);
    FrameOfLines(b, start + |a|, encode);
    FrameOfLines(a + b, start, encode);
    FlattenAppend(LinesOf(a, start, encode), LinesOf(b, start + |a|, encode));
  }

  lemma {:induction false} FramePrefixNewlines(batch: seq<Record>, start: nat, encode: Encoder, k: nat)
    requires k <= |batch| && FramePrefix(batch, start, encode, k).Some?
    requires forall i | 0 <= i < |batch| :: encode(batch[i]).Some? ==> '\n' !in encode(batch[i]).value
    ensures CountChar(FramePrefix(batch, start, encode, k).value, '\n') == k
  {
    if k > 0 {
      var prefix := FramePrefix(batch, start, encode, k - 1).value;
      var json := encode(batch[k - 1]).value;
      FramePrefixNewlines(batch, start, encode, k - 1);
      CountCharAppend(prefix, Line(start + k - 1, json), '\n');
      LineNewlines(start + k - 1, json);
      assert forall i | 0 <= i < |json| :: json[i] != '\n';
      CountCharAbsent(json, '\n');
    }
  }

  /** With an encoder that writes no raw line feed (compact JSON), a chunk's frame
      has exactly one line feed per record. */
  lemma FrameNewlines(batch: seq<Record>, start: nat, encode: Encoder, frame: string)
    requires FrameOf(batch, start, encode) == Some(frame)
    requires forall i | 0 <= i < |batch| :: encode(batch[i]).Some? ==> '\n' !in encode(batch[i]).value
    ensures CountChar(frame, '\n') == |batch|
  {
    FramePrefixNewlines(batch, start, encode, |batch|);
  }

  /** The preparation of one chunk by `copyInsertAllInBatches`: its frame. */
  function FrameStep(encode: Encoder): Step<string> {
    (batch: seq<Record>, start: nat) => FrameOf(batch, start, encode)
  }

  /** What the outer `for` loop of `copyInsertAllInBatches` streams from chunk
      start `start` on, and how it ends. */
  function CopyRun(data: seq<Record>, encode: Encoder, size: nat, start: nat): Run<string>
    requires 0 < size
  {
    ChunkedRun(data, FrameStep(encode), EncodingError, size, start)
  }

  /** Framing a chunk fails exactly when one of its records cannot be encoded. */
  lemma FrameStepFailsOnUnencodable(encode: Encoder)
    ensures FailsOnUnencodable(FrameStep(encode), encode)
  {
    forall batch: seq<Record>, start: nat
      ensures FrameStep(encode)(batch, start).Some? <==> AllEncode(batch, encode)
    {
      FrameOfSome(batch, start, encode);
    }
  }

  /** Framing does not depend on where the chunks are cut. */
  lemma FrameStepConcatenates(encode: Encoder)
    ensures Concatenates(FrameStep(encode))
  {
    forall whole: seq<Record>, start: nat, cut: nat
      | cut <= |whole| && FrameStep(encode)(whole[..cut], start).Some?
        && FrameStep(encode)(whole[cut..], start + cut).Some?
      ensures FrameStep(encode)(whole, start)
           == Some(FrameStep(encode)(whole[..cut], start).value + FrameStep(encode)(whole[cut..], start + cut).value)
    {
      assert whole == whole[..cut] + whole[cut..];
      FrameOfAppend(whole[..cut], whole[cut..], start, encode,
                    FrameOf(whole[..cut], start, encode).value, FrameOf(whole[cut..], start + cut, encode).value);
    }
  }

  /** The `k`-th streamed frame is chunk `k` framed from id `k * 50000`: one line
      per record of the chunk, at most 50,000 of them. */
  lemma CopyFrame(data: seq<Record>, encode: Encoder, k: nat)
    requires k < |CopyRun(data, encode, CopyBatchSize, 0).log|
    ensures k * CopyBatchSize < |data|
    ensures var first := k * CopyBatchSize;
      var chunk := data[first..ChunkEnd(first, CopyBatchSize, |data|)];
      && 0 < |chunk| <= CopyBatchSize
      && AllEncode(chunk, encode)
      && CopyRun(data, encode, CopyBatchSize, 0).log[k] == Flatten(LinesOf(chunk, first, encode))
      && ReadFrame(CopyRun(data, encode, CopyBatchSize, 0).log[k]) == Some(Written(chunk, first, encode))
  {
    StreamedFrame(data, encode, k);
    var first := k * CopyBatchSize;
    ChunkFrame(data[first..ChunkEnd(first, CopyBatchSize, |data|)], first, encode,
               CopyRun(data, encode, CopyBatchSize, 0).log[k]);
  }

  /** The `k`-th streamed frame is the frame of chunk `k`. */
  lemma StreamedFrame(data: seq<Record>, encode: Encoder, k: nat)
    requires k < |CopyRun(data, encode, CopyBatchSize, 0).log|
    ensures k * CopyBatchSize < |data|
    ensures var first := k * CopyBatchSize;
      var chunk := data[first..ChunkEnd(first, CopyBatchSize, |data|)];
      && 0 < |chunk| <= CopyBatchSize
      && FrameOf(chunk, first, encode) == Some(CopyRun(data, encode, CopyBatchSize, 0).log[k])
  {
    RunGroup(data, FrameStep(encode), EncodingError, CopyBatchSize, 0, k);
    ChunksAt(data, CopyBatchSize, 0, k);
  }

  /** A built frame is the lines of its chunk, and reads back as its rows. */
  lemma ChunkFrame(chunk: seq<Record>, first: nat, encode: Encoder, frame: string)
    requires FrameOf(chunk, first, encode) == Some(frame)
    ensures AllEncode(chunk, encode)
    ensures frame == Flatten(LinesOf(chunk, first, encode))
    ensures ReadFrame(frame) == Some(Written(chunk, first, encode))
  {
    FrameOfSome(chunk, first, encode);
    FrameOfLines(chunk, first, encode);
    ReadFrameOfLines(chunk, first, encode);
  }

  /** With an encoder that writes no raw line feed (compact JSON), every streamed
      frame holds exactly one line feed per record of its chunk. */
  lemma CopyFrameNewlines(data: seq<Record>, encode: Encoder, k: nat)
    requires k < |CopyRun(data, encode, CopyBatchSize, 0).log|
    requires forall j | 0 <= j < |data| :: encode(data[j]).Some? ==> '\n' !in encode(data[j]).value
    ensures var first := k * CopyBatchSize;
      first < |data|
      && CountChar(CopyRun(data, encode, CopyBatchSize, 0).log[k], '\n') == ChunkEnd(first, CopyBatchSize, |data|) - first
  {
    StreamedFrame(data, encode, k);
    var first := k * CopyBatchSize;
    var chunk := data[first..ChunkEnd(first, CopyBatchSize, |data|)];
    assert forall i | 0 <= i < |chunk| :: chunk[i] == data[first + i];
    FrameNewlines(chunk, first, encode, CopyRun(data, encode, CopyBatchSize, 0).log[k]);
  }

  /** What `copyInsertAllInBatches` does with the whole input: it succeeds exactly
      when every record encodes, and then it has streamed one frame per chunk,
      which, concatenated, are the lines of all records with ids 0 .. n-1 in
      order and read back as exactly the rows `(j, JSON of data[j])`; otherwise
      it fails with the encoder's exception having streamed the whole chunks
      before the first failing record, all of their lines, and nothing from that
      chunk on. */
  lemma CopyOutcome(data: seq<Record>, encode: Encoder)
    ensures var run := CopyRun(data, encode, CopyBatchSize, 0);
      && (run.outcome == Pass <==> AllEncode(data, encode))
      && (run.outcome == Pass ==>
            && |run.log| == |Chunks(data, CopyBatchSize, 0)|
            && Flatten(run.log) == Flatten(LinesOf(data, 0, encode))
            && ReadFrame(Flatten(run.log)) == Some(Written(data, 0, encode)))
      && (run.outcome != Pass ==>
            var c := |run.log| * CopyBatchSize;
            && run.outcome == Fail(EncodingError)
            && c <= FirstFailure(data, encode) < c + CopyBatchSize
            && AllEncode(data[..c], encode)
            && Flatten(run.log) == Flatten(LinesOf(data[..c], 0, encode))
            && ReadFrame(Flatten(run.log)) == Some(Written(data[..c], 0, encode)))
  {
    var step := FrameStep(encode);
    var run := CopyRun(data, encode, CopyBatchSize, 0);
    FrameStepFailsOnUnencodable(encode);
    RunStopsAtFirstFailure(data, step, EncodingError, encode, CopyBatchSize, 0, FirstFailure(data, encode));
    RunStopsAtFailingChunk(data, step, EncodingError, encode, CopyBatchSize, 0);
    CopyCommitted(data, encode);
    if run.outcome == Pass {
      assert data[..|data|] == data;
    }
  }

  /** The frames streamed, concatenated, are the frame of the committed input
      `data[..c]` built in one piece. */
  lemma CopyCommitted(data: seq<Record>, encode: Encoder)
    ensures var run := CopyRun(data, encode, CopyBatchSize, 0);
      var c := CommittedEnd(run, |data|, CopyBatchSize, 0);
      && c <= |data|
      && AllEncode(data[..c], encode)
      && Flatten(run.log) == Flatten(LinesOf(data[..c], 0, encode))
      && ReadFrame(Flatten(run.log)) == Some(Written(data[..c], 0, encode))
  {
    var run := CopyRun(data, encode, CopyBatchSize, 0);
    FrameStepConcatenates(encode);
    RunCommitted(data, FrameStep(encode), EncodingError, CopyBatchSize, 0);
    var c := CommittedEnd(run, |data|, CopyBatchSize, 0);
    assert data[0..c] == data[..c];
    ChunkFrame(data[..c], 0, encode, Flatten(run.log));
  }

  /** A successful run makes ceil(n / 50000) `copyIn` calls: none for an empty
      input. */
  lemma CopyCalls(data: seq<Record>, encode: Encoder)
    requires AllEncode(data, encode)
    ensures |CopyRun(data, encode, CopyBatchSize, 0).log| == (|data| + CopyBatchSize - 1) / CopyBatchSize
    ensures data == [] ==> CopyRun(data, encode, CopyBatchSize, 0).log == []
  {
    CopyOutcome(data, encode);
    ChunksCeil(data, CopyBatchSize);
  }

  /** The repository: the `DataSource` behind the `JdbcTemplate`, and the encoder. */
  class CopyInsertRepository {
    const dataSource: Database
    const objectMapper: Encoder

    constructor (jdbcTemplate: Database, objectMapper: Encoder)
      ensures this.dataSource == jdbcTemplate && this.objectMapper == objectMapper
    {
      this.dataSource := jdbcTemplate;
      this.objectMapper := objectMapper;
    }

    /** The inner loop of `copyInsertAllInBatches` for one chunk starting at
        absolute index `start`: the text appended to the `StringBuilder`, or
        `None` where `writeValueAsString` throws (which leaves the method). */
    method BuildFrame(batch: seq<Record>, start: nat) returns (sb: Option<string>)
      ensures sb == FrameOf(batch, start, objectMapper)
    {
      var text: string := [];
      var batchIndex := 0;
      while batchIndex < |batch|
        invariant batchIndex <= |batch|
        invariant FramePrefix(batch, start, objectMapper, batchIndex) == Some(text)
      {
        var row := batch[batchIndex];
        var encoded := objectMapper(row);
        if encoded.None? {
          FramePrefixSome(batch, start, objectMapper, |batch|);
          return None;
        }
        var json := Escape(encoded.value);
        AppendLine(text, batchIndex + start, encoded.value);
        text := text + Decimal(batchIndex + start) + [';'] + [Quote] + json + [Quote] + ['\n'];
        batchIndex := batchIndex + 1;
      }
      return Some(text);
    }

    /** `copyInsertAllInBatches(data)`: the store receives exactly the frames of
        `CopyRun(data, objectMapper, CopyBatchSize, 0)`, and its outcome is returned. */
    method CopyInsertAllInBatches(data: seq<Record>) returns (o: Outcome)
      modifies dataSource
      ensures var run := CopyRun(data, objectMapper, CopyBatchSize, 0);
        o == run.outcome && dataSource.frames == old(dataSource.frames) + run.log
      ensures dataSource.batches == old(dataSource.batches)
    {
      var start := 0;
      while start < |data|
        invariant dataSource.frames + CopyRun(data, objectMapper, CopyBatchSize, start).log
               == old(dataSource.frames) + CopyRun(data, objectMapper, CopyBatchSize, 0).log
        invariant CopyRun(data, objectMapper, CopyBatchSize, start).outcome
               == CopyRun(data, objectMapper, CopyBatchSize, 0).outcome
        invariant dataSource.batches == old(dataSource.batches)
        decreases |data| - start
      {
        var end := Min(start + CopyBatchSize, |data|);
        var batch := data[start..end];
        var sb := BuildFrame(batch, start);
        if sb.None? {
          return Fail(EncodingError);
        }
        ghost var rest := CopyRun(data, objectMapper, CopyBatchSize, start + CopyBatchSize);
        assert CopyRun(data, objectMapper, CopyBatchSize, start).log == [sb.value] + rest.log;
        dataSource.CopyIn(sb.value);
        start := start + CopyBatchSize;
      }
      return Pass;
    }
  }
}
