/** The dispatcher (`JsonInsertService.insert`): lists of at most 100,000 records
    go to the batched loader, longer ones to the copy loader. */
module InsertService {
  import opened Records
  import opened Chunking
  import opened Store
  import opened BatchInsert
  import opened CopyInsert

  const CopyThreshold: nat := 100_000

  /** The two loading strategies. */
  datatype Loader = Batched | Copy

  /** The strategy `insert` picks for a list of `size` records. */
  function ChooseLoader(size: nat): Loader {
    if size <= CopyThreshold then Batched else Copy
  }

  /** The threshold itself still goes to the batched loader; one more record
      goes to the copy loader. */
  lemma ChooseLoaderBoundary()
    ensures ChooseLoader(100_000) == Batched
    ensures ChooseLoader(100_001) == Copy
  {
  }

  /** The choice is monotone in the size: a list shorter than one that is
      batched is batched, and a list longer than one that is copied is copied. */
  lemma ChooseLoaderMonotone(a: nat, b: nat)
    requires a <= b
    ensures ChooseLoader(b) == Batched ==> ChooseLoader(a) == Batched
    ensures ChooseLoader(a) == Copy ==> ChooseLoader(b) == Copy
  {
  }

  /** The rows of the batched loader as (id, payload) pairs, the shape COPY reads. */
  function AsPairs(rows: seq<Row>): seq<(nat, string)> {
    seq(|rows|, i requires 0 <= i < |rows| => (rows[i].id, rows[i].payload))
  }

  /** Whichever loader the dispatcher picks, a fully encodable list ends up as
      the same table: the rows `batchUpdate` binds are exactly the rows COPY
      reads from the streamed frames. */
  lemma LoadersAgree(data: seq<Record>, encode: Encoder)
    requires AllEncode(data, encode)
    ensures var batched := InsertAllRun(data, encode, BatchSize, 0);
      var copied := CopyRun(data, encode, CopyBatchSize, 0);
      && batched.outcome == Pass && copied.outcome == Pass
      && ReadFrame(Flatten(copied.log)) == Some(AsPairs(Flatten(batched.log)))
  {
    InsertAllOutcome(data, encode);
    CopyOutcome(data, encode);
    var rows := Flatten(InsertAllRun(data, encode, BatchSize, 0).log);
    var written := Written(data, 0, encode);
    assert forall j | 0 <= j < |data| :: RowOf(rows[j], data, encode, j);
    assert AsPairs(rows) == written;
  }

  class JsonInsertService {
    const batchRepository: BatchInsertRepository
    const copyRepository: CopyInsertRepository

    constructor (batchRepository: BatchInsertRepository, copyRepository: CopyInsertRepository)
      ensures this.batchRepository == batchRepository && this.copyRepository == copyRepository
    {
      this.batchRepository := batchRepository;
      this.copyRepository := copyRepository;
    }

    /** `insert(data)`: the list goes unchanged to the loader `ChooseLoader`
        picks, that loader's submissions reach its store, its outcome (its
        exception) comes back unchanged, and the other loader submits nothing.
        The two repositories may share one database, as the integration test
        sets them up. */
    method Insert(data: seq<Record>) returns (o: Outcome)
      modifies batchRepository.jdbcTemplate, copyRepository.dataSource
      ensures ChooseLoader(|data|) == Batched ==>
        var run := InsertAllRun(data, batchRepository.objectMapper, BatchSize, 0);
        && o == run.outcome
        && batchRepository.jdbcTemplate.batches == old(batchRepository.jdbcTemplate.batches) + run.log
        && batchRepository.jdbcTemplate.frames == old(batchRepository.jdbcTemplate.frames)
        && copyRepository.dataSource.frames == old(copyRepository.dataSource.frames)
        && (copyRepository.dataSource != batchRepository.jdbcTemplate ==>
              copyRepository.dataSource.batches == old(copyRepository.dataSource.batches))
      ensures ChooseLoader(|data|) == Copy ==>
        var run := CopyRun(data, copyRepository.objectMapper, CopyBatchSize, 0);
        && o == run.outcome
        && copyRepository.dataSource.frames == old(copyRepository.dataSource.frames) + run.log
        && copyRepository.dataSource.batches == old(copyRepository.dataSource.batches)
        && batchRepository.jdbcTemplate.batches == old(batchRepository.jdbcTemplate.batches)
        && (batchRepository.jdbcTemplate != copyRepository.dataSource ==>
              batchRepository.jdbcTemplate.frames == old(batchRepository.jdbcTemplate.frames))
    {
      if |data| <= CopyThreshold {
        o := batchRepository.InsertAll(data);
      } else {
        o := copyRepository.CopyInsertAllInBatches(data);
      }
    }
  }
}
