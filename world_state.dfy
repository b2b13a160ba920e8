/** The world state the contract reads and writes through its stub: a map from
    keys to stored values, and the shape of what is stored there. */
module WorldState {

  datatype Option<+T> = None | Some(value: T)

  /** A JSON scalar. The seeded records hold numbers; the contract API hands the
      caller's arguments over as strings; either is stored as given. */
  datatype Scalar = Number(n: int) | Text(s: string)

  /** An asset record as JSON.parse returns it. `docType` is present only on the
      records InitLedger writes. */
  datatype Asset = Asset(
    ID: string,
    Stat: string,
    Size: Scalar,
    Model: string,
    AppraisedValue: Scalar,
    docType: Option<string>)

  /** A stored value: the deterministic JSON encoding of an asset record, or raw
      text that JSON.parse rejects. */
  datatype Value = Doc(asset: Asset) | Raw(text: string)

  /** The zero-length value; getState returns it for a key that holds nothing. */
  const EMPTY: Value := Raw("")

  type Store = map<string, Value>

  /** The errors the contract throws. `Malformed` is the SyntaxError of JSON.parse. */
  datatype Error =
    | AlreadyExists(id: string)
    | NotFound(id: string)
    | NotRepaired(id: string)
    | NotControlled(id: string)
    | Malformed(text: string)

  datatype Result<+T> = Ok(value: T) | Err(error: Error)

  /** The deterministic encoding of a record before it is put: key order is fixed
      by the record's shape, so the result depends only on the field values. */
  function Encode(a: Asset): (v: Value)
    ensures v != EMPTY
  {
    Doc(a)
  }

  /** JSON.parse of a stored value: the record it encodes, or nothing when the
      text is not JSON. */
  function Parse(v: Value): (r: Option<Asset>)
    ensures r.None? <==> v.Raw?
    ensures r.Some? ==> Encode(r.value) == v
  {
    if v.Doc? then Some(v.asset) else None
  }

  /** Decoding what was encoded gives back the same record. */
  lemma ParseEncode(a: Asset)
    ensures Parse(Encode(a)) == Some(a)
  {
  }

  /** getState: the value under `id`, or the empty value when there is none. */
  function Lookup(ws: Store, id: string): (v: Value)
    ensures id in ws ==> v == ws[id]
    ensures id !in ws ==> v == EMPTY
  {
    if id in ws then ws[id] else EMPTY
  }

  /** AssetExists: the store holds a non-empty value under `id`. */
  predicate Exists(ws: Store, id: string)
    ensures Exists(ws, id) <==> id in ws && ws[id] != EMPTY
  {
    Lookup(ws, id) != EMPTY
  }
}
