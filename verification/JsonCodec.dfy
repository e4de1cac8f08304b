/** What the normaliser needs to know about reading and writing JSON text. */
module JsonCodec {
  import opened Wrappers
  import opened Json
  import opened JsonCanonical

  /** `serde_json::from_str` and `serde_json::to_string` for `Value`; parsing
      rejects anything nested deeper than `limit`. */
  datatype Codec = Codec(decode: string -> Option<Value>, encode: Value -> string, limit: nat)

  /** A lower bound on the length of any text that denotes `v`. */
  function Weight(v: Value): (w: nat)
    ensures w > 0
    decreases v
  {
    match v
    case Str(text) => |text| + 1
    case Arr(items) => 1 + ItemsWeight(items)
    case Obj(fields) => 1 + FieldsWeight(fields)
    case _ => 1
  }

  function ItemsWeight(items: seq<Value>): nat
    decreases items
  {
    if items == [] then 0 else 1 + Weight(items[0]) + ItemsWeight(items[1..])
  }

  function FieldsWeight(fields: seq<Field>): nat
    decreases fields
  {
    if fields == [] then 0
    else
      assert fields[0].value < fields[0];
      1 + Weight(fields[0].value) + FieldsWeight(fields[1..])
  }

  function Depth(v: Value): nat
    decreases v
  {
    match v
    case Arr(items) => 1 + ItemsDepth(items)
    case Obj(fields) => 1 + FieldsDepth(fields)
    case _ => 0
  }

  function ItemsDepth(items: seq<Value>): nat
    decreases items
  {
    if items == [] then 0 else Deeper(Depth(items[0]), ItemsDepth(items[1..]))
  }

  function FieldsDepth(fields: seq<Field>): nat
    decreases fields
  {
    if fields == [] then 0
    else
      assert fields[0].value < fields[0];
      Deeper(Depth(fields[0].value), FieldsDepth(fields[1..]))
  }

  function Deeper(m: nat, n: nat): nat {
    if m < n then n else m
  }

  predicate StartsWithBrace(text: string) {
    text != [] && text[0] == '{'
  }

  /** What parsing yields: objects iterate in key order because `Map` is a
      `BTreeMap`; the text is at least as long as the value weighs. */
  ghost predicate ReadsWell(c: Codec, text: string) {
    match c.decode(text)
    case Some(v) =>
      AllAscending(v) && Depth(v) <= c.limit && Weight(v) <= |text| && (StartsWithBrace(text) ==> v.Obj?)
    case None => true
  }

  /** Printing an object gives text in braces, and printed text reads back. */
  ghost predicate WritesWell(c: Codec, v: Value) {
    && (v.Obj? ==> StartsWithBrace(c.encode(v)))
    && (AllAscending(v) && Depth(v) <= c.limit ==> c.decode(c.encode(v)) == Some(v))
  }

  /** The facts about `serde_json` the proofs rest on. */
  ghost predicate Lawful(c: Codec) {
    && (forall text: string :: ReadsWell(c, text))
    && (forall v: Value :: WritesWell(c, v))
  }
}
