# Bulk JSON ingestion into PostgreSQL: a Dafny model

This project models the bulk-ingestion core of `batch-insert-spring-java`.
A list of records (`List<Map<String, Object>>`) is stored in a table
`json_table (id, payload jsonb)`. The record at position `j` goes to the row
with id `j`, and its payload is the record's JSON text. There are three pieces:

- **The dispatcher**, `JsonInsertService.insert`. It sends lists of at most
  100,000 records to the batched loader and longer lists to the copy loader.
- **The batched loader**, `BatchInsertRepository.insertAll`.
  - It cuts the list into chunks of at most 5,000 records.
  - It binds one `(i + jump, JSON)` row per record of a chunk.
  - It submits each chunk with one `batchUpdate`.
  - A record that cannot be encoded makes the setter throw
    `SQLException("Erro ao converter para JSON")`, which ends `batchUpdate`
    and the run with an exception caused by it.
- **The copy loader**, `CopyInsertRepository.copyInsertAllInBatches`.
  - It cuts the list into chunks of at most 50,000 records.
  - For each chunk, a nested loop builds a CSV text frame with one line
    `<id>;"<JSON with every quote doubled>"` per record.
  - It streams each frame with one `copyIn`.
  - A record that cannot be encoded stops the loop, with the encoder's
    exception, before that chunk's `copyIn`.

How the model is built:

- **The database** is a class, `Store.Database`. It keeps a log of what it
  received: the groups of rows from `batchUpdate` and the frames from `copyIn`.
- **Jackson's `writeValueAsString`** is an abstract encoder
  `Record -> Option<string>`. `None` is the exception.
- **The repositories and the service** are classes. Their methods keep the
  source's loops and are proved against specification functions
  (`InsertAllRun`, `CopyRun`).
- **Both loaders share one outer loop.** It is specified once in `ChunkedRuns`,
  over an abstract "prepare one chunk" step. Its lemmas cover four things:
  - the chunk bounds;
  - where a run stops;
  - which submission is which chunk;
  - that chunking is transparent.
- **The CSV side has its own reader.** `CsvQuoting.ReadField` and
  `CopyInsert.ReadRow` / `ReadFrame` read a frame the way COPY reads
  `FORMAT csv, DELIMITER ';', QUOTE '"'` input. The round-trip lemmas are
  stated against this reader.
- **The integration test's two scenarios** are restated as lemmas in
  `IntegrationScenarios`: 99,999 records and 1,000,000 records.

Files: `records.dfy`, `chunking.dfy`, `decimal_text.dfy`, `csv_quoting.dfy`,
`store.dfy`, `chunked_run.dfy`, `batch_insert.dfy`, `copy_insert.dfy`,
`insert_service.dfy`, `scenarios.dfy`.

## Model

| member | source | states |
|---|---|---|
| Chunking.ChunkEnd | src/main/java/dev/cezar/batch/postgresql/service/BatchInsertRepository.java:28 | `min(start + size, n)`: at most `n` and at most `start + size`, equal to one of them, and past `start` whenever `start < n` |
| Chunking.Chunks | src/main/java/dev/cezar/batch/postgresql/service/BatchInsertRepository.java:27-29 | the chunks the `for` loop visits from `start` on, in order; the body is the model, and `ChunksCover`, `ChunksCount`, `ChunksAt` and `ChunksCeil` state its properties |
| Chunking.ChunksCover | src/main/java/dev/cezar/batch/postgresql/service/BatchInsertRepository.java:27-29 | the chunks, concatenated in loop order, are exactly the input from `start` on: no gap, no overlap |
| Chunking.ChunksCount | src/main/java/dev/cezar/batch/postgresql/service/BatchInsertRepository.java:27 | the loop visits `c` chunks with `(c-1)*size < n - start <= c*size`, and none exactly when nothing is left |
| Chunking.ChunksAt | src/main/java/dev/cezar/batch/postgresql/service/BatchInsertRepository.java:27-29 | chunk `k` is `s[start + k*size .. min(start + k*size + size, n)]`, begins inside the input, is non-empty and holds at most `size` elements |
| Chunking.ChunkCountExact | src/main/java/dev/cezar/batch/postgresql/service/BatchInsertRepository.java:27 | any `count` with `(count-1)*size < n <= count*size` is the number of chunks |
| Chunking.ChunksCeil | src/main/java/dev/cezar/batch/postgresql/service/BatchInsertRepository.java:27 | the number of chunks is `ceil(n / size)`, that is `(n + size - 1) / size` |
| Chunking.Int32 | src/main/java/dev/cezar/batch/postgresql/service/BatchInsertRepository.java:28 | Java `int` wrap-around lands in `[-2^31, 2^31)` and leaves in-range values unchanged |
| Chunking.ChunkEndInt32 | src/main/java/dev/cezar/batch/postgresql/service/BatchInsertRepository.java:28 | `Math.min(start + size, data.size())` with the sum evaluated as a Java `int`, as written; the body is the model, and `ChunkEndInt32OverflowsBatched`, `ChunkEndInt32OverflowsCopy` and `ChunkEndInt32Agrees` state its properties |
| Chunking.ChunkEndInt32OverflowsBatched | src/main/java/dev/cezar/batch/postgresql/service/BatchInsertRepository.java:27-28 | with 32-bit `start + batchSize` the end of the chunk at 2,147,480,000 is negative for every list longer than that |
| Chunking.ChunkEndInt32OverflowsCopy | src/main/java/dev/cezar/batch/postgresql/service/CopyInsertRepository.java:32-33 | the same for the copy loader's chunk at 2,147,450,000 |
| Chunking.ChunkEndInt32Agrees | src/main/java/dev/cezar/batch/postgresql/service/BatchInsertRepository.java:28 | where `start + size` fits in an `int`, the as-written end equals `ChunkEnd` |
| Records.FirstFailure | src/main/java/dev/cezar/batch/postgresql/service/BatchInsertRepository.java:37-41 | the position of the first record the encoder rejects (or `n`): every record before it encodes, it does not, and it is `n` exactly when all encode |
| DecimalText.Decimal | src/main/java/dev/cezar/batch/postgresql/service/CopyInsertRepository.java:41 | the text `append(batchIndex + start)` writes is non-empty, all digits, with no leading zero |
| DecimalText.ParseDecimalOfDecimal | src/main/java/dev/cezar/batch/postgresql/service/CopyInsertRepository.java:41 | reading the written digits back gives the index |
| DecimalText.DecimalInjective | src/main/java/dev/cezar/batch/postgresql/service/CopyInsertRepository.java:41 | distinct indices are written as distinct texts |
| CsvQuoting.Escape | src/main/java/dev/cezar/batch/postgresql/service/CopyInsertRepository.java:40 | `replace("\"", "\"\"")` lengthens the text by exactly its number of quotes |
| CsvQuoting.ReadField | src/main/java/dev/cezar/batch/postgresql/service/CopyInsertRepository.java:30 | COPY's reading of a quoted field (`QUOTE '"'`), opening quote consumed: up to the first quote that is not doubled, each doubled quote read as one; it always consumes input, and `ReadFieldOfEscape` / `EscapeOfReadField` tie it to `Escape` |
| CsvQuoting.ReadFieldOfEscape | src/main/java/dev/cezar/batch/postgresql/service/CopyInsertRepository.java:40-45 | an escaped JSON text followed by the closing quote reads back as the JSON itself, quotes intact, and the field ends at that closing quote: the escaped text has no lone quote |
| CsvQuoting.EscapeOfReadField | src/main/java/dev/cezar/batch/postgresql/service/CopyInsertRepository.java:40 | conversely, every text that reads as a field is the escaping of that field, the closing quote, and a rest that does not start with a quote |
| CsvQuoting.EscapeKeepsOtherChars | src/main/java/dev/cezar/batch/postgresql/service/CopyInsertRepository.java:40 | escaping changes the count of no character other than the quote |
| CsvQuoting.EscapeWithoutQuotes | src/main/java/dev/cezar/batch/postgresql/service/CopyInsertRepository.java:40 | a text without quotes is written unchanged |
| Store.Database.constructor | src/test/java/dev/cezar/batch/postgresql/JsonBulkInsertIntegrationTest.java:53-60 | a new table has received nothing |
| Store.Database.BatchUpdate | src/main/java/dev/cezar/batch/postgresql/service/BatchInsertRepository.java:31 | one `batchUpdate` appends exactly its group of rows to the store and streams nothing |
| Store.Database.CopyIn | src/main/java/dev/cezar/batch/postgresql/service/CopyInsertRepository.java:50 | one `copyIn` appends exactly its frame and submits no group |
| ChunkedRuns.ChunkedRun | src/main/java/dev/cezar/batch/postgresql/service/BatchInsertRepository.java:27-31 | the shared outer `for` loop: one prepared group per chunk, in order, stopping with the loader's error at the first chunk that cannot be prepared; the body is the model, and `RunStopsAtFailingChunk`, `RunGroup`, `RunStopsAtFirstFailure` and `RunCommitted` state its properties |
| ChunkedRuns.RunStopsAtFailingChunk | src/main/java/dev/cezar/batch/postgresql/service/BatchInsertRepository.java:27-41 | the shared loop submits a prefix of the chunks in order; it succeeds exactly when it submits all of them; otherwise it raises the loader's error, and the first chunk not submitted holds a record that cannot be encoded |
| ChunkedRuns.RunGroup | src/main/java/dev/cezar/batch/postgresql/service/BatchInsertRepository.java:27-31 | submission `k` is chunk `k` prepared at offset `k * size` |
| ChunkedRuns.RunStopsAtFirstFailure | src/main/java/dev/cezar/batch/postgresql/service/BatchInsertRepository.java:27-41 | the run fails exactly when some record cannot be encoded, and then it stops at the chunk holding the first such record: `c <= f < c + size` with `c` the start of the first chunk not submitted |
| ChunkedRuns.RunCommitted | src/main/java/dev/cezar/batch/postgresql/service/BatchInsertRepository.java:27-31 | for a step that does not depend on where the input is cut, the submissions concatenated equal the committed input (all of it on success, the whole chunks before the failing one otherwise) prepared in one piece from offset 0 |
| BatchInsert.RowSetter.GetBatchSize | src/main/java/dev/cezar/batch/postgresql/service/BatchInsertRepository.java:46-48 | `getBatchSize()` returns `batch.size()`; the body is the model, and `BindAllRows` states that a bound group has exactly that many rows |
| BatchInsert.RowSetter.SetValues | src/main/java/dev/cezar/batch/postgresql/service/BatchInsertRepository.java:33-43 | `setValues(ps, i)`: id `i + jump` and the JSON of `batch[i]`, or the `SQLException` when the record cannot be encoded; the body is the model, and `BindAllRows` states the rows it yields |
| BatchInsert.BindFrom | src/main/java/dev/cezar/batch/postgresql/service/BatchInsertRepository.java:31-48 | the `setValues` calls `batchUpdate` makes for `i` from `from` up to `getBatchSize()`, the first failing one aborting the group; the body is the model, and `BindFromRows` states its result |
| BatchInsert.BindAll | src/main/java/dev/cezar/batch/postgresql/service/BatchInsertRepository.java:31-48 | the group `batchUpdate` binds for one chunk; the body is the model, and `BindAllRows`, `BindAllSplit` and `BindStepFailsOnUnencodable` state its properties |
| BatchInsert.BindAllRows | src/main/java/dev/cezar/batch/postgresql/service/BatchInsertRepository.java:33-48 | `batchUpdate` binds a group exactly when every record of the chunk encodes; the group then holds `getBatchSize()` = `batch.size()` rows, and row `i` is `(i + jump, encode(batch[i]))` |
| BatchInsert.BindStepFailsOnUnencodable | src/main/java/dev/cezar/batch/postgresql/service/BatchInsertRepository.java:37-41 | binding a chunk fails exactly when one of its records cannot be encoded: the setter's `SQLException` aborts the group, so `batchUpdate` raises an exception caused by it and nothing is skipped |
| BatchInsert.BindStepConcatenates | src/main/java/dev/cezar/batch/postgresql/service/BatchInsertRepository.java:30-35 | binding two adjacent pieces, the second with the offset continued, gives the rows of binding the whole |
| BatchInsert.BindAllSplit | src/main/java/dev/cezar/batch/postgresql/service/BatchInsertRepository.java:30-35 | the same for one cut of one input |
| BatchInsert.InsertAllRun | src/main/java/dev/cezar/batch/postgresql/service/BatchInsertRepository.java:27-49 | what the `for` loop of `insertAll` submits from chunk start `start` on, and how it ends; the body is the model, and `InsertAllOutcome`, `InsertAllGroup`, `InsertAllCalls` and `InsertAllRowsIndependentOfChunkSize` state its properties, while `BatchInsertRepository.InsertAll` is proved against it |
| BatchInsert.InsertAllGroup | src/main/java/dev/cezar/batch/postgresql/service/BatchInsertRepository.java:27-48 | submitted group `k` holds chunk `k`'s rows: between 1 and 5,000 of them, as many as the chunk has records, row `i` being `(k*5000 + i, encode(data[k*5000 + i]))` |
| BatchInsert.InsertAllOutcome | src/main/java/dev/cezar/batch/postgresql/service/BatchInsertRepository.java:22-51 | `insertAll` succeeds exactly when every record encodes. It then submits one group per chunk, and the groups concatenated are the rows `(j, encode(data[j]))` for j = 0..n-1: dense, unique, 0-based ids. It fails otherwise, with `batchUpdate`'s exception caused by the setter's `SQLException`, after submitting exactly the whole chunks before the first failing record with all their rows |
| BatchInsert.InsertAllCalls | src/main/java/dev/cezar/batch/postgresql/service/BatchInsertRepository.java:27-31 | a successful run makes `ceil(n / 5000)` `batchUpdate` calls, none for an empty list |
| BatchInsert.InsertAllRowsIndependentOfChunkSize | src/main/java/dev/cezar/batch/postgresql/service/BatchInsertRepository.java:23-36 | the stored rows are the same whatever the chunk size |
| BatchInsert.BatchInsertRepository.constructor | src/main/java/dev/cezar/batch/postgresql/service/BatchInsertRepository.java:17-20 | keeps the template and the encoder it is given |
| BatchInsert.BatchInsertRepository.InsertAll | src/main/java/dev/cezar/batch/postgresql/service/BatchInsertRepository.java:22-51 | the `for` loop leaves the store's groups equal to the old ones followed by exactly those of `InsertAllRun`, touches no frame, and returns that run's outcome |
| CopyInsert.LeadingDigits | src/main/java/dev/cezar/batch/postgresql/service/CopyInsertRepository.java:41 | the length of the run of digits that starts a line: all of it digits, and the character after it is not a digit |
| CopyInsert.ReadRow | src/main/java/dev/cezar/batch/postgresql/service/CopyInsertRepository.java:30 | reading a row out of a frame consumes at least one character |
| CopyInsert.ReadFrame | src/main/java/dev/cezar/batch/postgresql/service/CopyInsertRepository.java:30 | the rows COPY reads from a frame in order; the body is the model, and `ReadFrameOfLines`, `CopyFrame` and `CopyOutcome` state what it reads from the loader's frames |
| CopyInsert.ReadRowOfLine | src/main/java/dev/cezar/batch/postgresql/service/CopyInsertRepository.java:41-46 | a written line at the head of a frame reads back as `(its id, the original JSON)`, and reading resumes right after it |
| CopyInsert.Line | src/main/java/dev/cezar/batch/postgresql/service/CopyInsertRepository.java:41-46 | the line appended for one record, `<id>;"<escaped json>"` and a line feed; the body is the model, and `AppendLine`, `ReadRowOfLine` and `LineNewlines` state its properties |
| CopyInsert.LineNewlines | src/main/java/dev/cezar/batch/postgresql/service/CopyInsertRepository.java:41-46 | a line has exactly one line feed more than its JSON |
| CopyInsert.AppendLine | src/main/java/dev/cezar/batch/postgresql/service/CopyInsertRepository.java:41-46 | the six `append`s for one record add exactly that record's line to the builder |
| CopyInsert.FramePrefix | src/main/java/dev/cezar/batch/postgresql/service/CopyInsertRepository.java:36-47 | the `StringBuilder` text after the inner loop's first `k` records, or the encoder's failure; the body is the model, `BuildFrame` is proved against it, and `FramePrefixSome` / `FramePrefixLines` state its properties |
| CopyInsert.FrameOf | src/main/java/dev/cezar/batch/postgresql/service/CopyInsertRepository.java:36-47 | the frame built for a whole chunk; the body is the model, and `FrameOfSome`, `FrameOfLines`, `FrameOfAppend` and `FrameNewlines` state its properties |
| CopyInsert.FrameOfSome | src/main/java/dev/cezar/batch/postgresql/service/CopyInsertRepository.java:38-47 | a chunk's frame is built exactly when every record of the chunk encodes |
| CopyInsert.FrameOfLines | src/main/java/dev/cezar/batch/postgresql/service/CopyInsertRepository.java:38-47 | the frame is one line per record, in order, line `i` with id `start + i` |
| CopyInsert.ReadFrameOfLines | src/main/java/dev/cezar/batch/postgresql/service/CopyInsertRepository.java:38-47 | those lines read back as exactly the rows `(start + i, JSON of batch[i])` |
| CopyInsert.FrameOfAppend | src/main/java/dev/cezar/batch/postgresql/service/CopyInsertRepository.java:32-41 | the frames of two adjacent pieces, ids continuing, concatenate to the frame of the whole |
| CopyInsert.FrameNewlines | src/main/java/dev/cezar/batch/postgresql/service/CopyInsertRepository.java:36-47 | with an encoder that writes no raw line feed (compact JSON), a frame has exactly `batch.size()` line feeds |
| CopyInsert.FrameStepFailsOnUnencodable | src/main/java/dev/cezar/batch/postgresql/service/CopyInsertRepository.java:38-40 | framing a chunk fails exactly when one of its records cannot be encoded |
| CopyInsert.FrameStepConcatenates | src/main/java/dev/cezar/batch/postgresql/service/CopyInsertRepository.java:32-41 | framing does not depend on where the chunks are cut |
| CopyInsert.CopyRun | src/main/java/dev/cezar/batch/postgresql/service/CopyInsertRepository.java:32-52 | what the outer `for` loop of `copyInsertAllInBatches` streams from chunk start `start` on, and how it ends; the body is the model, and `CopyOutcome`, `CopyFrame`, `CopyFrameNewlines` and `CopyCalls` state its properties, while `CopyInsertRepository.CopyInsertAllInBatches` is proved against it |
| CopyInsert.CopyFrame | src/main/java/dev/cezar/batch/postgresql/service/CopyInsertRepository.java:32-50 | streamed frame `k` is chunk `k` (1 to 50,000 records, all encodable) written from id `k*50000`: its lines, which read back as exactly the chunk's rows |
| CopyInsert.StreamedFrame | src/main/java/dev/cezar/batch/postgresql/service/CopyInsertRepository.java:32-50 | streamed frame `k` is the frame built for chunk `k`, a non-empty chunk of at most 50,000 records |
| CopyInsert.ChunkFrame | src/main/java/dev/cezar/batch/postgresql/service/CopyInsertRepository.java:36-47 | a built frame comes from an encodable chunk, is its lines, and reads back as its rows |
| CopyInsert.CopyFrameNewlines | src/main/java/dev/cezar/batch/postgresql/service/CopyInsertRepository.java:36-50 | with compact JSON, streamed frame `k` has exactly as many line feeds as chunk `k` has records |
| CopyInsert.CopyOutcome | src/main/java/dev/cezar/batch/postgresql/service/CopyInsertRepository.java:23-55 | `copyInsertAllInBatches` succeeds exactly when every record encodes. It then streams one frame per chunk; the frames concatenated are the lines of all records with ids 0..n-1 and read back as exactly `(j, JSON of data[j])`. It fails with the encoder's exception otherwise, after streaming exactly the whole chunks before the first failing record |
| CopyInsert.CopyCommitted | src/main/java/dev/cezar/batch/postgresql/service/CopyInsertRepository.java:32-50 | the streamed frames concatenated are the one-piece frame of the committed prefix, and read back as its rows |
| CopyInsert.CopyCalls | src/main/java/dev/cezar/batch/postgresql/service/CopyInsertRepository.java:32-50 | a successful run makes `ceil(n / 50000)` `copyIn` calls, none for an empty list |
| CopyInsert.CopyInsertRepository.constructor | src/main/java/dev/cezar/batch/postgresql/service/CopyInsertRepository.java:18-21 | takes the template's data source and the encoder |
| CopyInsert.CopyInsertRepository.BuildFrame | src/main/java/dev/cezar/batch/postgresql/service/CopyInsertRepository.java:36-47 | the nested loop's `StringBuilder` ends as the chunk's frame, or the loop leaves at the first record that cannot be encoded |
| CopyInsert.CopyInsertRepository.CopyInsertAllInBatches | src/main/java/dev/cezar/batch/postgresql/service/CopyInsertRepository.java:23-55 | the outer loop leaves the store's frames equal to the old ones followed by exactly those of `CopyRun` (no `copyIn` for a chunk that fails), submits no group, and returns that run's outcome |
| InsertService.ChooseLoader | src/main/java/br/tc/tcmgo/batch/postgresql/service/JsonInsertService.java:20 | the `data.size() <= COPY_THRESHOLD` test; the body is the model, and `ChooseLoaderBoundary`, `ChooseLoaderMonotone` and `JsonInsertService.Insert` state its properties |
| InsertService.ChooseLoaderBoundary | src/main/java/br/tc/tcmgo/batch/postgresql/service/JsonInsertService.java:8-20 | 100,000 records still go to the batched loader and 100,001 go to the copy loader |
| InsertService.ChooseLoaderMonotone | src/main/java/br/tc/tcmgo/batch/postgresql/service/JsonInsertService.java:20 | a list no longer than a batched one is batched, and a list no shorter than a copied one is copied |
| InsertService.LoadersAgree | src/main/java/br/tc/tcmgo/batch/postgresql/service/JsonInsertService.java:19-25 | for a fully encodable list both loaders succeed and store the same table: the rows COPY reads from the frames are the rows `batchUpdate` binds |
| InsertService.JsonInsertService.constructor | src/main/java/br/tc/tcmgo/batch/postgresql/service/JsonInsertService.java:13-17 | keeps the two repositories it is given |
| InsertService.JsonInsertService.Insert | src/main/java/br/tc/tcmgo/batch/postgresql/service/JsonInsertService.java:19-25 | at most 100,000 records: the batched loader's run reaches its store and its outcome comes back, and no frame is streamed. More: the copy loader's run does and no group is submitted. This holds also when both repositories share one database |
| IntegrationScenarios.GenerateData | src/test/java/dev/cezar/batch/postgresql/JsonBulkInsertIntegrationTest.java:124-133 | `generateData(size)` yields `size` records whose `id` runs 1..size in order |
| IntegrationScenarios.Item | src/test/java/dev/cezar/batch/postgresql/JsonBulkInsertIntegrationTest.java:126-131 | the record `generateData` builds for one `id`: `id`, `name = "item-\"" + id + "\""` and `value = id * 10`; the body is the model, and `FirstItem` states the fields the test checks |
| IntegrationScenarios.FirstItem | src/test/java/dev/cezar/batch/postgresql/JsonBulkInsertIntegrationTest.java:127-129 | the first generated record has `id` 1 and name `item-"1"` |
| IntegrationScenarios.BatchScenario | src/test/java/dev/cezar/batch/postgresql/JsonBulkInsertIntegrationTest.java:84-98 | 99,999 records take the batched path, which succeeds with 20 groups and 99,999 rows; row id 0 holds the JSON of the record with `id` 1 |
| IntegrationScenarios.CopyScenario | src/test/java/dev/cezar/batch/postgresql/JsonBulkInsertIntegrationTest.java:103-121 | 1,000,000 records take the copy path, which succeeds with 20 frames reading back as 1,000,000 rows, among them ids 1, 75,000, 150,000 and 999,999; row id 0 holds the JSON of the record with `id` 1, quotes intact |
| IntegrationScenarios.SingleChunkFailure | src/main/java/dev/cezar/batch/postgresql/service/BatchInsertRepository.java:40-41 | an input within one chunk that holds an unencodable record anywhere stores nothing, under either loader, and each raises its own error |
| IntegrationScenarios.RunInsert | src/test/java/dev/cezar/batch/postgresql/JsonBulkInsertIntegrationTest.java:42-67 | the test's wiring, one database shared by both repositories and the service over them: one `insert` of generated records succeeds, and the database then holds exactly the chosen loader's submissions |

## Left out

- JDBC and PostgreSQL plumbing:
  - the connection (`dataSource.getConnection`, `unwrap(PGConnection)`, `getCopyAPI`, try-with-resources);
  - the `PreparedStatement` setters;
  - the SQL texts.

  The store is a log of what `batchUpdate` and `copyIn` receive.
- The row counts are not modelled. The `int[]` that `batchUpdate` returns is discarded, and the count `copyIn` returns only reaches the console through `System.out.println`.
- Jackson's `ObjectMapper.writeValueAsString` is an abstract, deterministic encoder that may fail. JSON syntax and key order are not modelled; the scenarios state the payload as "the JSON of the record".
- The UTF-8 encoding and the `ByteArrayInputStream` of a frame are not modelled. Frames are strings.
- The `System.out.println` of each copy batch is console output only.
- The database's own behaviour is not modelled: primary-key collisions, `jsonb` validation, transactions and autocommit. Neither loader catches a store rejection, so a rejected submission would end the run like an encoding failure.
- `CopyInsert.ReadFrame` reads only the shape of text the copy loader writes: a decimal id, `;`, a quoted field and a line feed. It is not a full model of PostgreSQL's CSV parser.
- Concurrency: the code is sequential and has no shared state.
- Indices are unbounded integers. The 32-bit `int` arithmetic of `start + size` is modelled separately in `Chunking.ChunkEndInt32` (see Findings).
- The exception type `insertAll` raises is not modelled. `insertAll` declares no checked exception, so the setter's `SQLException` reaches the caller inside the unchecked exception `batchUpdate` raises (Spring translates it). `SqlConversionError` only labels that outcome, and a rejection by the store would end the run the same way.
- Errors carry no chunk offset. The source's exceptions carry none: the one caused by `SQLException("Erro ao converter para JSON")` and the encoder's own exception. `LoadError` therefore only says which of the two fails. The committed prefix is stated by `InsertAllOutcome` and `CopyOutcome` instead.
- The test's wiring, as written, differs from the source:
  - it calls three-argument repository constructors (schema, template, encoder), while the source's constructors take two, and the model ignores the schema;
  - it imports `JsonInsertService` from the repositories' package, while the source declares it in a different one.
- `JsonInsertService.java` itself (lines 1-4) sits in package `br.tc.tcmgo.batch.postgresql.service` and imports neither `BatchInsertRepository` nor `CopyInsertRepository`, which live in `dev.cezar.batch.postgresql.service`. As written the file does not resolve those two types, unless its own package holds classes of the same names; the model links the service to the two repositories regardless.
- The test's container, connection pool, schema creation and per-test table cleanup are not modelled. `RunInsert` starts from an empty `Database`.

## Findings

| source | as written | input that shows it | evidently intended | confidence | as-written member | corrected member |
|---|---|---|---|---|---|---|
| src/main/java/dev/cezar/batch/postgresql/service/BatchInsertRepository.java:27-28 | `start + batchSize` and `start += batchSize` are `int` sums, which wrap past 2,147,483,647 | a list of more than 2,147,480,000 records: at `start` = 2,147,480,000 the sum wraps negative, so `end` is negative and `subList(start, end)` throws | the chunk end is `min(start + size, n)` in exact arithmetic | low: the list would need over two billion elements; not executed | Chunking.ChunkEndInt32OverflowsBatched | Chunking.ChunkEnd |
