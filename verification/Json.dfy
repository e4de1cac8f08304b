/** JSON values as the harnesses see them: an object is the list of its entries
    in iteration order, and no key occurs twice. */
module Json {
  import opened Wrappers

  predicate IsNumberChar(c: char) {
    '0' <= c <= '9' || c == '+' || c == '-' || c == '.' || c == 'e' || c == 'E'
  }

  /** The text of a number that is not an integer. */
  predicate IsFloatText(text: string) {
    (forall i :: 0 <= i < |text| ==> IsNumberChar(text[i])) && ('.' in text || 'e' in text || 'E' in text)
  }

  type FloatText = text: string | IsFloatText(text) witness "0.0"

  datatype Number = Integer(value: int) | Float(text: FloatText)

  datatype Value =
    | Null
    | Bool(b: bool)
    | Num(n: Number)
    | Str(text: string)
    | Arr(items: seq<Value>)
    | Obj(fields: seq<Field>)

  datatype Field = Field(key: string, value: Value)

  /** The position of the entry with this key. */
  function Find(fields: seq<Field>, key: string): (r: Option<nat>)
    ensures r.Some? ==> r.value < |fields| && fields[r.value].key == key
    ensures r.Some? ==> forall j :: 0 <= j < r.value ==> fields[j].key != key
    ensures r.None? ==> forall j :: 0 <= j < |fields| ==> fields[j].key != key
  {
    if fields == [] then None
    else if fields[0].key == key then Some(0)
    else match Find(fields[1..], key)
      case Some(i) => Some(i + 1)
      case None => None
  }

  function Get(fields: seq<Field>, key: string): Option<Value> {
    match Find(fields, key)
    case Some(i) => Some(fields[i].value)
    case None => None
  }

  function Keys(fields: seq<Field>): (r: seq<string>)
    ensures |r| == |fields|
    ensures forall i :: 0 <= i < |r| ==> r[i] == fields[i].key
  {
    seq(|fields|, i requires 0 <= i < |fields| => fields[i].key)
  }

  ghost predicate DistinctKeys(fields: seq<Field>) {
    forall i, j :: 0 <= i < j < |fields| ==> fields[i].key != fields[j].key
  }

  /** Keys are distinct in every object: what `serde_json::Map` guarantees. */
  ghost predicate UniqueKeys(v: Value) {
    match v
    case Arr(items) => forall i :: 0 <= i < |items| ==> UniqueKeys(items[i])
    case Obj(fields) => DistinctKeys(fields) && forall i :: 0 <= i < |fields| ==> UniqueKeys(fields[i].value)
    case _ => true
  }

  lemma {:induction false} FindAt(fields: seq<Field>, i: nat)
    requires DistinctKeys(fields) && i < |fields|
    ensures Find(fields, fields[i].key) == Some(i)
  {
  }

  /** `serde_json`'s `==`: arrays element by element, objects as maps, whatever
      order their entries are stored in. */
  predicate Same(a: Value, b: Value) {
    match (a, b)
    case (Arr(xs), Arr(ys)) =>
      |xs| == |ys| && forall i :: 0 <= i < |xs| ==> Same(xs[i], ys[i])
    case (Obj(fs), Obj(gs)) =>
      |fs| == |gs| && forall i :: 0 <= i < |fs| ==> SameEntry(fs[i], gs)
    case _ => a == b
  }

  /** The object `gs` has this entry's key, with an equal value. */
  predicate SameEntry(f: Field, gs: seq<Field>)
    decreases f, gs
  {
    var at := Find(gs, f.key);
    at.Some? && Same(f.value, gs[at.value].value)
  }

  // ---- pointers into a value, as section 4 of RFC 6901 evaluates them ----

  /** The reference tokens of a pointer, already unescaped. */
  type Tokens = seq<string>

  import opened Text

  predicate CanonicalIndex(token: string) {
    token != [] && (forall i :: 0 <= i < |token| ==> IsDigit(token[i])) && (token[0] == '0' ==> |token| == 1)
  }

  function Child(v: Value, token: string): (r: Option<Value>)
    ensures r.Some? ==> r.value < v
  {
    match v
    case Arr(items) =>
      if CanonicalIndex(token) && NumeralValue(token) < |items| then Some(items[NumeralValue(token)]) else None
    case Obj(fields) =>
      (match Find(fields, token)
       case Some(i) => assert fields[i] < v; Some(fields[i].value)
       case None => None)
    case _ => None
  }

  function Resolve(v: Value, path: Tokens): Option<Value>
    decreases |path|
  {
    if path == [] then Some(v)
    else match Child(v, path[0])
      case Some(next) => Resolve(next, path[1..])
      case None => None
  }

  lemma {:induction false} IndexToken(i: nat)
    ensures CanonicalIndex(Decimal(i)) && NumeralValue(Decimal(i)) == i
  {
    DecimalRoundTrip(i);
    if i == 0 {
      assert Decimal(0) == "0";
    }
  }
}
