/** A miniature reader and writer of JSON text. It shows that the laws asked of a
    codec can be met, objects included that repeat or reorder their keys. */
module JsonText {
  import opened Wrappers
  import opened Text
  import opened Json
  import opened JsonCanonical
  import opened JsonCodec

  // ---- writing ----

  function Quoted(text: string): string {
    if text == [] then "\""
    else (if text[0] == '"' || text[0] == '\\' then ['\\', text[0]] else [text[0]]) + Quoted(text[1..])
  }

  function Encode(v: Value): string
    decreases v
  {
    match v
    case Null => "null"
    case Bool(b) => if b then "true" else "false"
    case Num(Integer(i)) => SignedDecimal(i)
    case Num(Float(text)) => text
    case Str(text) => "\"" + Quoted(text)
    case Arr(items) => "[" + EncodeItems(items)
    case Obj(fields) => "{" + EncodeFields(fields)
  }

  function EncodeItems(items: seq<Value>): string
    decreases items
  {
    if items == [] then "]"
    else Encode(items[0]) + if |items| == 1 then "]" else "," + EncodeItems(items[1..])
  }

  function EncodeFields(fields: seq<Field>): string
    decreases fields
  {
    if fields == [] then "}"
    else EncodeField(fields[0]) + if |fields| == 1 then "}" else "," + EncodeFields(fields[1..])
  }

  function EncodeField(f: Field): string
    decreases f
  {
    "\"" + Quoted(f.key) + ":" + Encode(f.value)
  }

  // ---- reading: a value and what is left of the text ----

  function SkipSpace(s: string): (r: string)
    ensures |r| <= |s|
  {
    if s != [] && (s[0] == ' ' || s[0] == '\n' || s[0] == '\r' || s[0] == '\t') then SkipSpace(s[1..]) else s
  }

  /** The rest of a quoted text, after the opening quote. */
  function ReadQuoted(s: string): (r: Option<(string, string)>)
    ensures r.Some? ==> |r.value.0| + 1 + |r.value.1| <= |s|
  {
    if s == [] then None
    else if s[0] == '"' then Some(([], s[1..]))
    else if s[0] == '\\' then
      if |s| < 2 || (s[1] != '"' && s[1] != '\\') then None
      else
        var (text, rest) :- ReadQuoted(s[2..]);
        Some(([s[1]] + text, rest))
    else
      var (text, rest) :- ReadQuoted(s[1..]);
      Some(([s[0]] + text, rest))
  }

  function NumberRun(s: string): (n: nat)
    ensures n <= |s| && forall i :: 0 <= i < n ==> IsNumberChar(s[i])
    ensures n < |s| ==> !IsNumberChar(s[n])
  {
    if s == [] || !IsNumberChar(s[0]) then 0 else 1 + NumberRun(s[1..])
  }

  predicate AllDigits(text: string) {
    text != [] && forall i :: 0 <= i < |text| ==> IsDigit(text[i])
  }

  function ReadNumber(token: string): Option<Number> {
    if IsFloatText(token) then Some(Float(token))
    else if AllDigits(token) then Some(Integer(NumeralValue(token)))
    else if token != [] && token[0] == '-' && AllDigits(token[1..]) then Some(Integer(0 - NumeralValue(token[1..])))
    else None
  }

  function ReadWord(s: string, word: string, v: Value): (r: Option<(Value, string)>)
    requires word != []
    ensures r.Some? ==> r.value.0 == v && |r.value.1| + |word| == |s|
  {
    if word <= s then Some((v, s[|word|..])) else None
  }

  /** What is left of the text, and that the value fits what was read. */
  ghost predicate Fits(v: Value, depth: nat, text: string, rest: string) {
    Weight(v) + |rest| <= |text| && Depth(v) <= depth && AllAscending(v)
  }

  /** A value and the text behind it. */
  function ReadValue(text: string, depth: nat): (r: Option<(Value, string)>)
    ensures r.Some? ==> Fits(r.value.0, depth, text, r.value.1)
    ensures r.Some? && StartsWithBrace(text) ==> r.value.0.Obj?
    decreases |text|, 3
  {
    var s := SkipSpace(text);
    if s == [] then None
    else if s[0] == '"' then ReadText(s)
    else if s[0] == '[' then ReadArray(s, depth)
    else if s[0] == '{' then ReadObject(s, depth)
    else if IsNumberChar(s[0]) then ReadNumeral(s)
    else if s[0] == 'n' then ReadWord(s, "null", Null)
    else if s[0] == 't' then ReadWord(s, "true", Bool(true))
    else ReadWord(s, "false", Bool(false))
  }

  function ReadNumeral(s: string): (r: Option<(Value, string)>)
    requires s != [] && IsNumberChar(s[0])
    ensures r.Some? ==> r.value.0.Num? && 1 + |r.value.1| <= |s|
  {
    var n := NumberRun(s);
    var number :- ReadNumber(s[..n]);
    Some((Num(number), s[n..]))
  }

  function ReadText(s: string): (r: Option<(Value, string)>)
    requires s != []
    ensures r.Some? ==> r.value.0.Str? && Weight(r.value.0) + |r.value.1| <= |s|
  {
    var (content, rest) :- ReadQuoted(s[1..]);
    Some((Str(content), rest))
  }

  function ReadArray(s: string, depth: nat): (r: Option<(Value, string)>)
    requires s != []
    ensures r.Some? ==> Fits(r.value.0, depth, s, r.value.1)
    decreases |s|, 2
  {
    if depth == 0 then None
    else if |s| > 1 && s[1] == ']' then Some((Arr([]), s[2..]))
    else
      var (items, rest) :- ReadItems(s[1..], depth - 1);
      Some((Arr(items), rest))
  }

  function ReadObject(s: string, depth: nat): (r: Option<(Value, string)>)
    requires s != []
    ensures r.Some? ==> r.value.0.Obj? && Fits(r.value.0, depth, s, r.value.1)
    decreases |s|, 2
  {
    if depth == 0 then None
    else if |s| > 1 && s[1] == '}' then Some((Obj([]), s[2..]))
    else
      var (fields, rest) :- ReadFields(s[1..], depth - 1, []);
      Some((Obj(fields), rest))
  }

  function ReadItems(s: string, depth: nat): (r: Option<(seq<Value>, string)>)
    ensures r.Some? ==> ItemsWeight(r.value.0) + |r.value.1| <= |s| && ItemsDepth(r.value.0) <= depth
    ensures r.Some? ==> forall i :: 0 <= i < |r.value.0| ==> AllAscending(r.value.0[i])
    decreases |s|, 4
  {
    var (v, rest) :- ReadValue(s, depth);
    if rest == [] then None
    else if rest[0] == ']' then
      assert [v][1..] == [];
      Some(([v], rest[1..]))
    else if rest[0] == ',' then
      var (items, end) :- ReadItems(rest[1..], depth);
      assert ([v] + items)[1..] == items;
      Some(([v] + items, end))
    else None
  }

  ghost predicate TreeFits(tree: seq<Field>, depth: nat) {
    AllAscending(Obj(tree)) && FieldsDepth(tree) <= depth
  }

  /** Entries go into a map: a repeated key keeps the later value. */
  function ReadFields(s: string, depth: nat, tree: seq<Field>): (r: Option<(seq<Field>, string)>)
    requires TreeFits(tree, depth)
    ensures r.Some? ==> TreeFits(r.value.0, depth) && FieldsWeight(r.value.0) + |r.value.1| <= |s| + FieldsWeight(tree)
    decreases |s|, 5
  {
    var (f, rest) :- ReadField(s, depth);
    TreeInsertFits(tree, f, depth);
    var grown := TreeInsert(tree, f);
    if rest == [] then None
    else if rest[0] == '}' then Some((grown, rest[1..]))
    else if rest[0] == ',' then ReadFields(rest[1..], depth, grown)
    else None
  }

  function ReadField(s: string, depth: nat): (r: Option<(Field, string)>)
    ensures r.Some? ==> s != [] && Fits(r.value.0.value, depth, s[1..], r.value.1)
    decreases |s|, 4
  {
    if s == [] || s[0] != '"' then None
    else
      var (key, colon) :- ReadQuoted(s[1..]);
      if colon == [] || colon[0] != ':' then None
      else
        var (v, rest) :- ReadValue(colon[1..], depth);
        Some((Field(key, v), rest))
  }

  lemma {:induction false} TreeInsertFits(tree: seq<Field>, f: Field, depth: nat)
    requires TreeFits(tree, depth) && AllAscending(f.value) && Depth(f.value) <= depth
    ensures FieldsWeight(TreeInsert(tree, f)) <= FieldsWeight(tree) + 1 + Weight(f.value)
    ensures TreeFits(TreeInsert(tree, f), depth)
  {
    TreeInsertAscending(tree, f);
    forall i | 0 <= i < |TreeInsert(tree, f)| ensures AllAscending(TreeInsert(tree, f)[i].value) {
      assert TreeInsert(tree, f)[i] in TreeInsert(tree, f);
    }
    if tree == [] {
      assert [f][1..] == [];
    } else if f.key == tree[0].key {
      assert ([f] + tree[1..])[1..] == tree[1..];
    } else if Less(f.key, tree[0].key) {
      assert ([f] + tree)[1..] == tree;
    } else {
      assert AllAscending(Obj(tree[1..]));
      TreeInsertFits(tree[1..], f, depth);
      assert TreeInsert(tree, f)[1..] == TreeInsert(tree[1..], f);
    }
  }

  const DEPTH_LIMIT := 127

  function Decode(text: string): Option<Value> {
    var (v, rest) :- ReadValue(text, DEPTH_LIMIT);
    if SkipSpace(rest) == [] then Some(v) else None
  }

  // ---- reading back what was written ----

  lemma {:induction false} ReadBackQuoted(text: string, rest: string)
    ensures ReadQuoted(Quoted(text) + rest) == Some((text, rest))
  {
    if text == [] {
      assert (Quoted(text) + rest)[1..] == rest;
    } else {
      ReadBackQuoted(text[1..], rest);
      var tail := Quoted(text[1..]) + rest;
      assert text == [text[0]] + text[1..];
      if text[0] == '"' || text[0] == '\\' {
        assert Quoted(text) + rest == ['\\', text[0]] + tail;
        assert (['\\', text[0]] + tail)[2..] == tail;
      } else {
        assert Quoted(text) + rest == [text[0]] + tail;
        assert ([text[0]] + tail)[1..] == tail;
      }
    }
  }

  /** Nothing that could continue a number. */
  predicate Separated(rest: string) {
    rest == [] || rest[0] == ',' || rest[0] == ']' || rest[0] == '}'
  }

  lemma {:induction false} RunOfToken(token: string, rest: string)
    requires (forall i :: 0 <= i < |token| ==> IsNumberChar(token[i])) && Separated(rest)
    ensures NumberRun(token + rest) == |token|
  {
    if token == [] {
      assert token + rest == rest;
    } else {
      RunOfToken(token[1..], rest);
      assert (token + rest)[1..] == token[1..] + rest;
    }
  }

  lemma {:induction false} DigitsAreNumberChars(text: string)
    requires forall i :: 0 <= i < |text| ==> IsDigit(text[i])
    ensures !IsFloatText(text) && !IsFloatText("-" + text)
    ensures forall i :: 0 <= i < |text| ==> IsNumberChar(text[i])
    ensures forall i :: 0 <= i < |text| + 1 ==> IsNumberChar(("-" + text)[i])
  {
  }

  lemma {:induction false} ReadNegative(text: string)
    requires AllDigits(text)
    ensures ReadNumber("-" + text) == Some(Integer(0 - NumeralValue(text)))
  {
    var token := "-" + text;
    DigitsAreNumberChars(text);
    assert token[1..] == text && !IsDigit(token[0]);
    assert !AllDigits(token);
  }

  lemma {:induction false} ReadBackInteger(i: int)
    ensures ReadBackToken(Integer(i))
  {
    var n := if i < 0 then 0 - i else i;
    var text := Decimal(n);
    DecimalRoundTrip(n);
    DigitsAreNumberChars(text);
    assert Encode(Num(Integer(i))) == if i < 0 then "-" + text else text;
    if i < 0 {
      ReadNegative(text);
    }
  }

  ghost predicate ReadBackToken(n: Number) {
    var token := Encode(Num(n));
    token != [] && (forall i :: 0 <= i < |token| ==> IsNumberChar(token[i])) && ReadNumber(token) == Some(n)
  }

  lemma {:induction false} ReadBackNumber(n: Number)
    ensures ReadBackToken(n)
  {
    match n
    case Integer(i) => ReadBackInteger(i);
    case Float(text) =>
  }

  lemma {:induction false} NoSpace(s: string)
    requires s != [] && s[0] != ' ' && s[0] != '\n' && s[0] != '\r' && s[0] != '\t'
    ensures SkipSpace(s) == s
  {
  }

  /** No written value starts with space or a closing bracket. */
  lemma {:induction false} EncodeStarts(v: Value)
    ensures Encode(v) != [] && Encode(v)[0] !in " \n\r\t]}"
  {
    if v.Num? { ReadBackNumber(v.n); }
  }

  lemma {:induction false} ReadBack(v: Value, rest: string, depth: nat)
    requires AllAscending(v) && Depth(v) <= depth && Separated(rest)
    ensures ReadValue(Encode(v) + rest, depth) == Some((v, rest))
    decreases v
  {
    match v
    case Null => ReadBackWord(v, rest, depth);
    case Bool(b) => ReadBackWord(v, rest, depth);
    case Num(n) => ReadBackNumberIn(n, rest, depth);
    case Str(text) => ReadBackText(text, rest, depth);
    case Arr(items) => ReadBackArray(items, rest, depth);
    case Obj(fields) => ReadBackObject(fields, rest, depth);
  }

  lemma {:induction false} ReadBackWord(v: Value, rest: string, depth: nat)
    requires v.Null? || v.Bool?
    ensures ReadValue(Encode(v) + rest, depth) == Some((v, rest))
  {
    var s := Encode(v) + rest;
    NoSpace(s);
    assert Encode(v) <= s && s[|Encode(v)|..] == rest;
  }

  lemma {:induction false} ReadBackText(text: string, rest: string, depth: nat)
    ensures ReadValue(Encode(Str(text)) + rest, depth) == Some((Str(text), rest))
  {
    var s := Encode(Str(text)) + rest;
    NoSpace(s);
    assert s[1..] == Quoted(text) + rest;
    ReadBackQuoted(text, rest);
  }

  lemma {:induction false} ReadBackEmpty(v: Value, rest: string, depth: nat)
    requires (v == Arr([]) || v == Obj([])) && depth > 0
    ensures ReadValue(Encode(v) + rest, depth) == Some((v, rest))
  {
    var s := Encode(v) + rest;
    NoSpace(s);
    assert s[2..] == rest;
  }

  lemma {:induction false} ReadBackArray(items: seq<Value>, rest: string, depth: nat)
    requires AllAscending(Arr(items)) && Depth(Arr(items)) <= depth
    ensures ReadValue(Encode(Arr(items)) + rest, depth) == Some((Arr(items), rest))
    decreases items, 1
  {
    if items == [] {
      ReadBackEmpty(Arr(items), rest, depth);
    } else {
      ReadBackItems(items, rest, depth - 1);
      OpenArray(items, rest, depth);
    }
  }

  lemma {:induction false} ReadBackObject(fields: seq<Field>, rest: string, depth: nat)
    requires AllAscending(Obj(fields)) && Depth(Obj(fields)) <= depth
    ensures ReadValue(Encode(Obj(fields)) + rest, depth) == Some((Obj(fields), rest))
    decreases fields, 1
  {
    if fields == [] {
      ReadBackEmpty(Obj(fields), rest, depth);
    } else {
      assert [] + fields == fields;
      ReadBackFields([], fields, rest, depth - 1);
      OpenObject(fields, rest, depth);
    }
  }

  /** The bracket in front of some items. */
  lemma {:induction false} OpenArray(items: seq<Value>, rest: string, depth: nat)
    requires items != [] && depth > 0 && ReadItems(EncodeItems(items) + rest, depth - 1) == Some((items, rest))
    ensures ReadValue(Encode(Arr(items)) + rest, depth) == Some((Arr(items), rest))
  {
    var s := Encode(Arr(items)) + rest;
    NoSpace(s);
    assert s[1..] == EncodeItems(items) + rest;
    EncodeStarts(items[0]);
  }

  lemma {:induction false} OpenObject(fields: seq<Field>, rest: string, depth: nat)
    requires fields != [] && depth > 0 && ReadFields(EncodeFields(fields) + rest, depth - 1, []) == Some((fields, rest))
    ensures ReadValue(Encode(Obj(fields)) + rest, depth) == Some((Obj(fields), rest))
  {
    var s := Encode(Obj(fields)) + rest;
    NoSpace(s);
    assert s[1..] == EncodeFields(fields) + rest;
  }

  lemma {:induction false} ReadBackNumeral(n: Number, token: string, rest: string)
    requires token != [] && (forall i :: 0 <= i < |token| ==> IsNumberChar(token[i])) && ReadNumber(token) == Some(n)
    requires Separated(rest)
    ensures IsNumberChar((token + rest)[0]) && ReadNumeral(token + rest) == Some((Num(n), rest))
  {
    RunOfToken(token, rest);
    assert (token + rest)[..|token|] == token && (token + rest)[|token|..] == rest;
  }

  lemma {:induction false} StartsNumeral(s: string, depth: nat)
    requires s != [] && IsNumberChar(s[0])
    ensures ReadValue(s, depth) == ReadNumeral(s)
  {
    NoSpace(s);
  }

  lemma {:induction false} ReadBackNumberIn(n: Number, rest: string, depth: nat)
    requires Separated(rest)
    ensures ReadValue(Encode(Num(n)) + rest, depth) == Some((Num(n), rest))
  {
    var token := Encode(Num(n));
    ReadBackNumber(n);
    ReadBackNumeral(n, token, rest);
    StartsNumeral(token + rest, depth);
  }

  lemma {:induction false} ReadBackItems(items: seq<Value>, rest: string, depth: nat)
    requires items != [] && (forall i :: 0 <= i < |items| ==> AllAscending(items[i])) && ItemsDepth(items) <= depth
    ensures ReadItems(EncodeItems(items) + rest, depth) == Some((items, rest))
    decreases items, 0
  {
    ReadBack(items[0], ItemTail(items, rest), depth);
    FirstItem(items, rest);
    assert items == [items[0]] + items[1..];
    if |items| == 1 {
      assert items == [items[0]];
    } else {
      ReadBackItems(items[1..], rest, depth);
    }
  }

  /** What follows the first of some items. */
  function ItemTail(items: seq<Value>, rest: string): (r: string)
    requires items != []
    ensures Separated(r) && r != []
    ensures if |items| == 1 then r[0] == ']' && r[1..] == rest
            else r[0] == ',' && r[1..] == EncodeItems(items[1..]) + rest
  {
    if |items| == 1 then "]" + rest else "," + (EncodeItems(items[1..]) + rest)
  }

  lemma {:induction false} FirstItem(items: seq<Value>, rest: string)
    requires items != []
    ensures EncodeItems(items) + rest == Encode(items[0]) + ItemTail(items, rest)
  {
    if |items| == 1 {
      Assoc(Encode(items[0]), "]", rest);
    } else {
      var more := EncodeItems(items[1..]);
      Assoc(Encode(items[0]), "," + more, rest);
      Assoc(",", more, rest);
    }
  }

  /** Inserting above every key of a tree appends. */
  lemma {:induction false} InsertAbove(tree: seq<Field>, f: Field)
    requires forall i :: 0 <= i < |tree| ==> Less(tree[i].key, f.key)
    ensures TreeInsert(tree, f) == tree + [f]
  {
    if tree != [] {
      LessAsymmetric(tree[0].key, f.key);
      InsertAbove(tree[1..], f);
      assert tree == [tree[0]] + tree[1..];
    }
  }

  /** Once the entries `read` are in the tree, reading goes on with the others. */
  lemma {:induction false} ReadBackFields(read: seq<Field>, todo: seq<Field>, rest: string, depth: nat)
    requires todo != [] && AllAscending(Obj(read + todo)) && TreeFits(read, depth) && FieldsDepth(todo) <= depth
    ensures ReadFields(EncodeFields(todo) + rest, depth, read) == Some((read + todo, rest))
    decreases todo, 0
  {
    var f := todo[0];
    NextFits(read, todo, depth);
    var tail := FieldTail(todo, rest);
    assert f.value < f;
    ReadBack(f.value, tail, depth);
    ReadBackField(f, tail, depth);
    FirstField(todo, rest);
    if |todo| == 1 {
      LastField(read, f, rest, depth);
      MoveOne(read, todo);
    } else {
      NextField(read, f, EncodeFields(todo[1..]) + rest, depth);
      MoveOne(read, todo);
      ReadBackFields(read + [f], todo[1..], rest, depth);
    }
  }

  lemma {:induction false} MoveOne(read: seq<Field>, todo: seq<Field>)
    requires todo != []
    ensures (read + [todo[0]]) + todo[1..] == read + todo
    ensures |todo| == 1 ==> read + [todo[0]] == read + todo
  {
  }

  /** What follows the first of some entries. */
  function FieldTail(todo: seq<Field>, rest: string): (r: string)
    requires todo != []
    ensures Separated(r)
  {
    if |todo| == 1 then "}" + rest else "," + (EncodeFields(todo[1..]) + rest)
  }

  lemma {:induction false} NextFits(read: seq<Field>, todo: seq<Field>, depth: nat)
    requires todo != [] && AllAscending(Obj(read + todo)) && FieldsDepth(todo) <= depth
    ensures AllAscending(todo[0].value) && Depth(todo[0].value) <= depth && FieldsDepth(todo[1..]) <= depth
    ensures TreeInsert(read, todo[0]) == read + [todo[0]]
  {
    assert (read + todo)[|read|] == todo[0];
    InsertNext(read, todo);
  }

  lemma {:induction false} Assoc(a: string, b: string, c: string)
    ensures a + b + c == a + (b + c)
  {
  }

  lemma {:induction false} FirstField(todo: seq<Field>, rest: string)
    requires todo != []
    ensures EncodeFields(todo) + rest == EncodeField(todo[0]) + FieldTail(todo, rest)
  {
    if |todo| == 1 {
      Assoc(EncodeField(todo[0]), "}", rest);
    } else {
      var more := EncodeFields(todo[1..]);
      Assoc(EncodeField(todo[0]), "," + more, rest);
      Assoc(",", more, rest);
    }
  }

  lemma {:induction false} LastField(read: seq<Field>, f: Field, rest: string, depth: nat)
    requires TreeFits(read, depth) && AllAscending(f.value) && Depth(f.value) <= depth
    requires TreeInsert(read, f) == read + [f]
    requires ReadField(EncodeField(f) + ("}" + rest), depth) == Some((f, "}" + rest))
    ensures ReadFields(EncodeField(f) + ("}" + rest), depth, read) == Some((read + [f], rest))
  {
    assert ("}" + rest)[1..] == rest;
  }

  lemma {:induction false} NextField(read: seq<Field>, f: Field, more: string, depth: nat)
    requires TreeFits(read, depth) && AllAscending(f.value) && Depth(f.value) <= depth
    requires TreeInsert(read, f) == read + [f]
    requires ReadField(EncodeField(f) + ("," + more), depth) == Some((f, "," + more))
    ensures TreeFits(read + [f], depth)
    ensures ReadFields(EncodeField(f) + ("," + more), depth, read) == ReadFields(more, depth, read + [f])
  {
    TreeInsertFits(read, f, depth);
    assert ("," + more)[1..] == more;
  }

  lemma {:induction false} FieldText(f: Field, tail: string)
    ensures var s := EncodeField(f) + tail;
            s != [] && s[0] == '"' && s[1..] == Quoted(f.key) + (":" + (Encode(f.value) + tail))
  {
    Assoc("\"" + Quoted(f.key) + ":", Encode(f.value), tail);
    Assoc("\"" + Quoted(f.key), ":", Encode(f.value) + tail);
    Assoc("\"", Quoted(f.key), ":" + (Encode(f.value) + tail));
  }

  lemma {:induction false} ReadBackField(f: Field, tail: string, depth: nat)
    requires ReadValue(Encode(f.value) + tail, depth) == Some((f.value, tail))
    ensures ReadField(EncodeField(f) + tail, depth) == Some((f, tail))
  {
    var value := Encode(f.value) + tail;
    FieldText(f, tail);
    ReadBackQuoted(f.key, ":" + value);
    assert (":" + value)[1..] == value;
  }

  lemma {:induction false} InsertNext(read: seq<Field>, todo: seq<Field>)
    requires todo != [] && AscendingKeys(read + todo)
    ensures TreeInsert(read, todo[0]) == read + [todo[0]]
  {
    forall i | 0 <= i < |read| ensures Less(read[i].key, todo[0].key) {
      assert (read + todo)[i] == read[i] && (read + todo)[|read|] == todo[0];
    }
    InsertAbove(read, todo[0]);
  }

  // ---- the pair is lawful ----

  const MINI := Codec(text => Decode(text), v => Encode(v), DEPTH_LIMIT)

  lemma {:induction false} MiniIsLawful()
    ensures Lawful(MINI)
  {
    forall text: string ensures ReadsWell(MINI, text) {
      DecodeReadsWell(text);
    }
    forall v: Value ensures WritesWell(MINI, v) {
      if AllAscending(v) && Depth(v) <= DEPTH_LIMIT {
        ReadBack(v, "", DEPTH_LIMIT);
        assert Encode(v) + "" == Encode(v);
      }
    }
  }

  lemma {:induction false} DecodeReadsWell(text: string)
    ensures ReadsWell(MINI, text)
  {
    var read := ReadValue(text, DEPTH_LIMIT);
  }

  /** JSON text of an object may start with space, and then not with a brace. */
  lemma {:induction false} SpaceHidesTheBrace(payload: Value)
    requires AllAscending(payload) && Depth(payload) <= DEPTH_LIMIT
    ensures MINI.decode(" " + Encode(payload)) == Some(payload) && !StartsWithBrace(" " + Encode(payload))
  {
    var text := " " + Encode(payload);
    EncodeStarts(payload);
    assert text[1..] == Encode(payload) + "";
    NoSpace(Encode(payload));
    ReadBack(payload, "", DEPTH_LIMIT);
    assert SkipSpace(text) == SkipSpace(text[1..]);
  }
}
