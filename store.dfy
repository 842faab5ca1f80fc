/** The target table as the loaders reach it: through `JdbcTemplate.batchUpdate`
    (one executed group of bound rows per call) and through the connection's
    `CopyManager.copyIn` (one streamed text frame per call). */
module Store {

  /** A bound row of `INSERT INTO json_table (id, payload) VALUES (?, ?::jsonb)`. */
  datatype Row = Row(id: nat, payload: string)

  class Database {
    /** Each group submitted by `batchUpdate`, in submission order. */
    ghost var batches: seq<seq<Row>>
    /** Each frame streamed by `copyIn`, in submission order. */
    ghost var frames: seq<string>

    constructor ()
      ensures batches == [] && frames == []
    {
      batches, frames := [], [];
    }

    /** One round trip executing a group of rows. */
    method BatchUpdate(rows: seq<Row>)
      modifies this
      ensures batches == old(batches) + [rows]
      ensures frames == old(frames)
    {
      batches := batches + [rows];
    }

    /** One `COPY json_table (id, payload) FROM STDIN WITH (FORMAT csv,
        DELIMITER ';', QUOTE '"')` streaming `frame`. */
    method CopyIn(frame: string)
      modifies this
      ensures frames == old(frames) + [frame]
      ensures batches == old(batches)
    {
      frames := frames + [frame];
    }
  }
}
