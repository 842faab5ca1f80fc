/** Records handed to the loaders, the JSON encoder they call, and the
    outcome of a loader run. */
module Records {

  datatype Option<+T> = None | Some(value: T)

  /** A value held by a record field: numbers, strings and nested structures. */
  datatype Value =
    | Null
    | Bool(b: bool)
    | Number(n: int)
    | Text(s: string)
    | List(items: seq<Value>)
    | Nested(fields: map<string, Value>)

  /** A record is a mapping from field names to values (`Map<String, Object>`). */
  type Record = map<string, Value>

  /** The JSON encoder (`ObjectMapper.writeValueAsString`): deterministic, and
      `None` where the value graph cannot be serialised. */
  type Encoder = Record -> Option<string>

  /** Every record of `batch` can be encoded. */
  predicate AllEncode(batch: seq<Record>, encode: Encoder) {
    forall i | 0 <= i < |batch| :: encode(batch[i]).Some?
  }

  /** The position of the first record that cannot be encoded, or `|data|`. */
  function FirstFailure(data: seq<Record>, encode: Encoder): (f: nat)
    ensures f <= |data|
    ensures forall i | 0 <= i < f :: encode(data[i]).Some?
    ensures f < |data| ==> encode(data[f]).None?
    ensures f == |data| <==> AllEncode(data, encode)
  {
    if data == [] then 0
    else if encode(data[0]).None? then 0
    else
      var f := 1 + FirstFailure(data[1..], encode);
      assert forall i | 1 <= i < f :: data[i] == data[1..][i - 1];
      f
  }

  /** Why a loader run stopped. */
  datatype LoadError =
    | SqlConversionError  // `batchUpdate`'s exception, caused by the row setter's `SQLException("Erro ao converter para JSON")`
    | EncodingError       // the encoder's own exception, propagated unchanged

  datatype Outcome = Pass | Fail(error: LoadError)

  /** What one loader run submitted to the store, in order, and how it ended. */
  datatype Run<L> = Run(log: seq<L>, outcome: Outcome)
}
