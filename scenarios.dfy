/** The two scenarios of the integration test, stated over the model: the
    records `generateData(size)` builds, handed to the dispatcher. */
module IntegrationScenarios {
  import opened Records
  import opened Chunking
  import opened Store
  import opened DecimalText
  import opened BatchInsert
  import opened CopyInsert
  import opened InsertService

  /** The record the test generates for logical id `id`: its `id`, the name
      `item-"<id>"` with the quotes inside it, and `value = id * 10`. */
  function Item(id: nat): Record {
    map["id" := Number(id), "name" := Text("item-\"" + Decimal(id) + "\""), "value" := Number(id * 10)]
  }

  /** `generateData(size)`: logical ids 1 .. size, in order. */
  function GenerateData(size: nat): (data: seq<Record>)
    ensures |data| == size
    ensures forall i | 0 <= i < size :: "id" in data[i] && data[i]["id"] == Number(i + 1)
  {
    seq(size, i requires 0 <= i < size => Item(i + 1))
  }

  /** The first generated record, the one stored under row id 0. */
  lemma FirstItem()
    ensures Item(1)["id"] == Number(1)
    ensures Item(1)["name"] == Text("item-\"1\"")
  {
    assert Decimal(1) == ['1'];
  }

  /** `shouldInsertUsingBatch_WhenBelowThreshold`: 99,999 records take the
      batched path, which submits 20 groups holding 99,999 rows in all; the row
      with id 0 carries the JSON of the record whose `id` is 1 and whose name is
      `item-"1"`. */
  lemma BatchScenario(encode: Encoder)
    requires AllEncode(GenerateData(99_999), encode)
    ensures var data := GenerateData(99_999);
      var run := InsertAllRun(data, encode, BatchSize, 0);
      var rows := Flatten(run.log);
      && ChooseLoader(|data|) == Batched
      && run.outcome == Pass
      && |run.log| == 20
      && |rows| == 99_999
      && RowOf(rows[0], data, encode, 0)
      && data[0] == Item(1)
  {
    var data := GenerateData(99_999);
    assert data[0] == Item(1);
    InsertAllOutcome(data, encode);
    var rows := Flatten(InsertAllRun(data, encode, BatchSize, 0).log);
    assert RowOf(rows[0], data, encode, 0);
    ChunkCountExact(data, BatchSize, 20);
  }

  /** `shouldInsertUsingCopy_WhenAboveThreshold`: 1,000,000 records take the
      copy path, which streams 20 frames; read back, they hold 1,000,000 rows,
      among them the ids 1, 75,000, 150,000 and 999,999 the test looks up, and
      the row with id 0 carries the JSON of the first record, quotes intact. */
  lemma CopyScenario(encode: Encoder)
    requires AllEncode(GenerateData(1_000_000), encode)
    ensures var data := GenerateData(1_000_000);
      var run := CopyRun(data, encode, CopyBatchSize, 0);
      && ChooseLoader(|data|) == Copy
      && run.outcome == Pass
      && |run.log| == 20
      && ReadFrame(Flatten(run.log)).Some?
      && var table := ReadFrame(Flatten(run.log)).value;
         && |table| == 1_000_000
         && table[1].0 == 1 && table[75_000].0 == 75_000
         && table[150_000].0 == 150_000 && table[999_999].0 == 999_999
         && data[0] == Item(1)
         && encode(data[0]) == Some(table[0].1)
         && table[0].0 == 0
  {
    var data := GenerateData(1_000_000);
    assert data[0] == Item(1);
    CopyOutcome(data, encode);
    var table := Written(data, 0, encode);
    assert table[0] == (0, encode(data[0]).value);
    ChunkCountExact(data, CopyBatchSize, 20);
  }

  /** An input that fits in one chunk and holds a record that cannot be
      encoded, wherever it sits, leaves nothing stored: the batched loader
      raises batchUpdate's exception (caused by the setter's SQLException),
      the copy loader the encoder's exception. */
  lemma SingleChunkFailure(data: seq<Record>, encode: Encoder)
    requires |data| <= BatchSize && !AllEncode(data, encode)
    ensures InsertAllRun(data, encode, BatchSize, 0) == Run([], Fail(SqlConversionError))
    ensures CopyRun(data, encode, CopyBatchSize, 0) == Run([], Fail(EncodingError))
  {
    InsertAllOutcome(data, encode);
    CopyOutcome(data, encode);
  }

  /** The test's setup: one database behind both repositories, the service over
      them, and one `insert` of `size` generated records. The database then
      holds what the chosen loader submitted and nothing else. */
  method RunInsert(size: nat, encode: Encoder) returns (o: Outcome, db: Database)
    requires AllEncode(GenerateData(size), encode)
    ensures o == Pass
    ensures size <= CopyThreshold ==>
      db.batches == InsertAllRun(GenerateData(size), encode, BatchSize, 0).log && db.frames == []
    ensures CopyThreshold < size ==>
      db.frames == CopyRun(GenerateData(size), encode, CopyBatchSize, 0).log && db.batches == []
  {
    db := new Database();
    var batchRepository := new BatchInsertRepository(db, encode);
    var copyRepository := new CopyInsertRepository(db, encode);
    var service := new JsonInsertService(batchRepository, copyRepository);
    var data := GenerateData(size);
    InsertAllOutcome(data, encode);
    CopyOutcome(data, encode);
    o := service.Insert(data);
  }
}
