/** `remove_generated_identifiers`: drops the generated keys everywhere, also
    inside JSON text embedded in strings. */
module GeneratedKeys {
  import opened Wrappers
  import opened Text
  import opened Json
  import opened JsonCanonical
  import opened JsonCodec

  const GENERATED: set<string> :=
    {"receipt_id", "repository_id", "freshness", "path_and_metadata_tokens", "total_response_tokens"}

  /** The value inside a string that holds the text of an object. */
  function Embedded(c: Codec, text: string): (r: Option<Value>)
    requires Lawful(c)
    ensures r.Some? ==> r.value.Obj? && AllAscending(r.value) && Depth(r.value) <= c.limit
    ensures r.Some? ==> Weight(r.value) < Weight(Str(text))
  {
    assert ReadsWell(c, text);
    if StartsWithBrace(text) then c.decode(text) else None
  }

  // ---- the specification ----

  /** `v` without generated keys at any depth; embedded text is parsed, stripped
      and printed again. */
  function Strip(c: Codec, v: Value): Value
    requires Lawful(c)
    decreases Weight(v)
  {
    match v
    case Arr(items) => Arr(StripItems(c, items))
    case Obj(fields) => Obj(StripFields(c, fields))
    case Str(text) =>
      (match Embedded(c, text)
       case Some(nested) => Str(c.encode(Strip(c, nested)))
       case None => v)
    case _ => v
  }

  function StripItems(c: Codec, items: seq<Value>): (r: seq<Value>)
    requires Lawful(c)
    ensures |r| == |items|
    decreases ItemsWeight(items)
  {
    if items == [] then [] else [Strip(c, items[0])] + StripItems(c, items[1..])
  }

  function StripFields(c: Codec, fields: seq<Field>): seq<Field>
    requires Lawful(c)
    decreases FieldsWeight(fields)
  {
    if fields == [] then []
    else if fields[0].key in GENERATED then StripFields(c, fields[1..])
    else [Field(fields[0].key, Strip(c, fields[0].value))] + StripFields(c, fields[1..])
  }

  // ---- the source's step-by-step form ----

  function DropKeys(fields: seq<Field>, keys: set<string>): seq<Field> {
    if fields == [] then []
    else if fields[0].key in keys then DropKeys(fields[1..], keys)
    else [fields[0]] + DropKeys(fields[1..], keys)
  }

  lemma {:induction false} DropKeysTwice(fields: seq<Field>, first: set<string>, second: set<string>)
    ensures DropKeys(DropKeys(fields, first), second) == DropKeys(fields, first + second)
  {
    if fields != [] {
      DropKeysTwice(fields[1..], first, second);
      var rest := DropKeys(fields[1..], first);
      assert ([fields[0]] + rest)[1..] == rest;
    }
  }

  lemma {:induction false} DropKeysLighter(fields: seq<Field>, keys: set<string>)
    ensures FieldsWeight(DropKeys(fields, keys)) <= FieldsWeight(fields)
  {
    if fields != [] {
      DropKeysLighter(fields[1..], keys);
      var rest := DropKeys(fields[1..], keys);
      assert ([fields[0]] + rest)[1..] == rest;
    }
  }

  lemma {:induction false} DropKeysLeavesNone(fields: seq<Field>, keys: set<string>)
    ensures forall i :: 0 <= i < |DropKeys(fields, keys)| ==> DropKeys(fields, keys)[i].key !in keys
  {
    if fields != [] {
      DropKeysLeavesNone(fields[1..], keys);
    }
  }

  lemma {:induction false} StripAfterDrop(c: Codec, fields: seq<Field>)
    requires Lawful(c)
    ensures StripFields(c, DropKeys(fields, GENERATED)) == StripFields(c, fields)
  {
    if fields != [] {
      StripAfterDrop(c, fields[1..]);
      var rest := DropKeys(fields[1..], GENERATED);
      assert ([fields[0]] + rest)[1..] == rest;
    }
  }

  lemma {:induction false} FieldWeightAt(fields: seq<Field>, i: nat)
    requires i < |fields|
    ensures Weight(fields[i].value) < FieldsWeight(fields)
  {
    if i > 0 {
      FieldWeightAt(fields[1..], i - 1);
    }
  }

  lemma {:induction false} ItemWeightAt(items: seq<Value>, i: nat)
    requires i < |items|
    ensures Weight(items[i]) < ItemsWeight(items)
  {
    if i > 0 {
      ItemWeightAt(items[1..], i - 1);
    }
  }

  /** Without generated keys, stripping works entry by entry. */
  lemma {:induction false} StripFieldsAt(c: Codec, fields: seq<Field>, i: nat)
    requires Lawful(c) && i < |fields|
    requires forall k :: 0 <= k < |fields| ==> fields[k].key !in GENERATED
    ensures |StripFields(c, fields)| == |fields|
    ensures StripFields(c, fields)[i] == Field(fields[i].key, Strip(c, fields[i].value))
  {
    if i > 0 {
      StripFieldsAt(c, fields[1..], i - 1);
    } else if |fields| > 1 {
      StripFieldsAt(c, fields[1..], 0);
    }
  }

  lemma {:induction false} StripItemsAt(c: Codec, items: seq<Value>, i: nat)
    requires Lawful(c) && i < |items|
    ensures StripItems(c, items)[i] == Strip(c, items[i])
  {
    if i > 0 {
      StripItemsAt(c, items[1..], i - 1);
    }
  }

  /** `remove_generated_identifiers`: six removals, then every remaining value in
      turn; terminates because embedded values are lighter than their text. */
  method RemoveGenerated(c: Codec, v: Value) returns (r: Value)
    requires Lawful(c)
    ensures r == Strip(c, v)
    decreases Weight(v), 1
  {
    match v
    case Obj(fields) =>
      var stripped := RemoveFromObject(c, fields);
      r := Obj(stripped);
    case Arr(items) =>
      var values := items;
      var n := 0;
      while n < |values|
        invariant n <= |values| == |items|
        invariant forall i :: 0 <= i < n ==> values[i] == StripItems(c, items)[i]
        invariant forall i :: n <= i < |items| ==> values[i] == items[i]
      {
        ItemWeightAt(items, n);
        StripItemsAt(c, items, n);
        var value := RemoveGenerated(c, values[n]);
        values := values[n := value];
        n := n + 1;
      }
      assert values == StripItems(c, items);
      r := Arr(values);
    case Str(text) =>
      r := v;
      if StartsWithBrace(text) {
        assert ReadsWell(c, text);
        var parsed := c.decode(text);
        if parsed.Some? {
          var nested := RemoveGenerated(c, parsed.value);
          r := Str(c.encode(nested));
        }
      }
    case _ =>
      r := v;
  }

  /** The object arm of `remove_generated_identifiers`. */
  method RemoveFromObject(c: Codec, entries: seq<Field>) returns (fields: seq<Field>)
    requires Lawful(c)
    ensures fields == StripFields(c, entries)
    decreases FieldsWeight(entries), 0
  {
    fields := DropKeys(entries, {"receipt_id"});
    fields := DropKeys(fields, {"repository_id"});
    fields := DropKeys(fields, {"freshness"});
    fields := DropKeys(fields, {"path_and_metadata_tokens"});
    fields := DropKeys(fields, {"total_response_tokens"});
    fields := DropKeys(fields, {"total_response_tokens"});
    RemovalsDropGenerated(entries);
    ghost var kept := fields;
    DropKeysLeavesNone(entries, GENERATED);
    DropKeysLighter(entries, GENERATED);
    StripAfterDrop(c, entries);
    StripKeepsLength(c, kept);
    var n := 0;
    while n < |fields|
      invariant n <= |fields| == |kept| == |StripFields(c, kept)|
      invariant forall i :: 0 <= i < n ==> fields[i] == StripFields(c, kept)[i]
      invariant forall i :: n <= i < |kept| ==> fields[i] == kept[i]
    {
      FieldWeightAt(kept, n);
      StripFieldsAt(c, kept, n);
      var value := RemoveGenerated(c, fields[n].value);
      fields := fields[n := Field(fields[n].key, value)];
      n := n + 1;
    }
    assert fields == StripFields(c, kept);
  }

  lemma {:induction false} StripKeepsLength(c: Codec, fields: seq<Field>)
    requires Lawful(c)
    requires forall k :: 0 <= k < |fields| ==> fields[k].key !in GENERATED
    ensures |StripFields(c, fields)| == |fields|
  {
    if fields != [] {
      StripFieldsAt(c, fields, 0);
    }
  }

  lemma {:induction false} RemovalsDropGenerated(fields: seq<Field>)
    ensures DropKeys(DropKeys(DropKeys(DropKeys(DropKeys(DropKeys(fields, {"receipt_id"}), {"repository_id"}),
                                                {"freshness"}),
              {"path_and_metadata_tokens"}), {"total_response_tokens"}), {"total_response_tokens"})
            == DropKeys(fields, GENERATED)
  {
    var s1: set<string> := {"receipt_id"};
    var s2 := s1 + {"repository_id"};
    var s3 := s2 + {"freshness"};
    var s4 := s3 + {"path_and_metadata_tokens"};
    var s5 := s4 + {"total_response_tokens"};
    DropKeysTwice(fields, s1, {"repository_id"});
    DropKeysTwice(fields, s2, {"freshness"});
    DropKeysTwice(fields, s3, {"path_and_metadata_tokens"});
    DropKeysTwice(fields, s4, {"total_response_tokens"});
    DropKeysTwice(fields, s5, {"total_response_tokens"});
    assert s5 + {"total_response_tokens"} == GENERATED;
  }

  // ---- stripping keeps what a lawful codec needs to print and read back ----

  lemma {:induction false} StripKeepsShape(c: Codec, v: Value)
    requires Lawful(c) && AllAscending(v)
    ensures AllAscending(Strip(c, v)) && Depth(Strip(c, v)) <= Depth(v)
    ensures Strip(c, v).Obj? <==> v.Obj?
    decreases Weight(v), 1
  {
    match v
    case Arr(items) => StripItemsShape(c, items);
    case Obj(fields) => StripFieldsShape(c, fields);
    case _ =>
  }

  lemma {:induction false} StripItemsShape(c: Codec, items: seq<Value>)
    requires Lawful(c) && forall i :: 0 <= i < |items| ==> AllAscending(items[i])
    ensures forall i :: 0 <= i < |items| ==> AllAscending(StripItems(c, items)[i])
    ensures ItemsDepth(StripItems(c, items)) <= ItemsDepth(items)
    decreases ItemsWeight(items), 0
  {
    if items != [] {
      StripKeepsShape(c, items[0]);
      StripItemsShape(c, items[1..]);
      assert StripItems(c, items)[1..] == StripItems(c, items[1..]);
    }
  }

  lemma {:induction false} StripFieldsAbove(c: Codec, fields: seq<Field>, key: string)
    requires Lawful(c) && forall i :: 0 <= i < |fields| ==> Less(key, fields[i].key)
    ensures forall i :: 0 <= i < |StripFields(c, fields)| ==> Less(key, StripFields(c, fields)[i].key)
  {
    if fields != [] {
      StripFieldsAbove(c, fields[1..], key);
    }
  }

  lemma {:induction false} StripFieldsShape(c: Codec, fields: seq<Field>)
    requires Lawful(c) && AllAscending(Obj(fields))
    ensures AllAscending(Obj(StripFields(c, fields)))
    ensures FieldsDepth(StripFields(c, fields)) <= FieldsDepth(fields)
    decreases FieldsWeight(fields), 0
  {
    if fields != [] {
      StripFieldsShape(c, fields[1..]);
      if fields[0].key !in GENERATED {
        StripKeepsShape(c, fields[0].value);
        StripFieldsAbove(c, fields[1..], fields[0].key);
        assert StripFields(c, fields)[1..] == StripFields(c, fields[1..]);
      }
    }
  }

  /** What is embedded in a string survives stripping, printing and reading back. */
  lemma {:induction false} EmbeddedAfterStrip(c: Codec, text: string)
    requires Lawful(c) && Embedded(c, text).Some?
    ensures var nested := Embedded(c, text).value;
            Embedded(c, c.encode(Strip(c, nested))) == Some(Strip(c, nested))
  {
    StripKeepsShape(c, Embedded(c, text).value);
    assert WritesWell(c, Strip(c, Embedded(c, text).value));
  }

  // ---- nothing generated is left ----

  predicate IsGenerated(key: string) {
    || key == "receipt_id" || key == "repository_id" || key == "freshness"
    || key == "path_and_metadata_tokens" || key == "total_response_tokens"
  }

  /** No object has a generated key, at any depth, in embedded text neither. */
  ghost predicate Clean(c: Codec, v: Value)
    requires Lawful(c)
    decreases Weight(v)
  {
    match v
    case Arr(items) => forall i :: 0 <= i < |items| ==> (ItemWeightAt(items, i); Clean(c, items[i]))
    case Obj(fields) =>
      forall i :: 0 <= i < |fields| ==>
             !IsGenerated(fields[i].key) && (FieldWeightAt(fields, i); Clean(c, fields[i].value))
    case Str(text) =>
      assert ReadsWell(c, text);
      text != "" && text[0] == '{' && c.decode(text).Some? ==> Clean(c, c.decode(text).value)
    case _ => true
  }

  lemma {:induction false} StripIsClean(c: Codec, v: Value)
    requires Lawful(c)
    ensures Clean(c, Strip(c, v))
    decreases Weight(v), 1
  {
    match v
    case Arr(items) =>
      forall i | 0 <= i < |items| ensures Clean(c, StripItems(c, items)[i]) {
        ItemWeightAt(items, i);
        StripItemsAt(c, items, i);
        StripIsClean(c, items[i]);
      }
    case Obj(fields) => StripFieldsClean(c, fields);
    case Str(text) =>
      if Embedded(c, text).Some? {
        EmbeddedAfterStrip(c, text);
        StripIsClean(c, Embedded(c, text).value);
      }
    case _ =>
  }

  lemma {:induction false} StripFieldsClean(c: Codec, fields: seq<Field>)
    requires Lawful(c)
    ensures forall f :: f in StripFields(c, fields) ==> f.key !in GENERATED && Clean(c, f.value)
    decreases FieldsWeight(fields), 0
  {
    if fields != [] {
      StripFieldsClean(c, fields[1..]);
      if fields[0].key !in GENERATED {
        StripIsClean(c, fields[0].value);
      }
    }
  }

  /** Stripping twice is stripping once. */
  lemma {:induction false} StripIdempotent(c: Codec, v: Value)
    requires Lawful(c)
    ensures Strip(c, Strip(c, v)) == Strip(c, v)
    decreases Weight(v), 1
  {
    match v
    case Arr(items) => StripItemsIdempotent(c, items);
    case Obj(fields) => StripFieldsIdempotent(c, fields);
    case Str(text) =>
      if Embedded(c, text).Some? {
        EmbeddedAfterStrip(c, text);
        StripIdempotent(c, Embedded(c, text).value);
      }
    case _ =>
  }

  lemma {:induction false} StripItemsIdempotent(c: Codec, items: seq<Value>)
    requires Lawful(c)
    ensures StripItems(c, StripItems(c, items)) == StripItems(c, items)
    decreases ItemsWeight(items), 0
  {
    if items != [] {
      StripIdempotent(c, items[0]);
      StripItemsIdempotent(c, items[1..]);
      assert StripItems(c, items)[1..] == StripItems(c, items[1..]);
    }
  }

  lemma {:induction false} StripFieldsIdempotent(c: Codec, fields: seq<Field>)
    requires Lawful(c)
    ensures StripFields(c, StripFields(c, fields)) == StripFields(c, fields)
    decreases FieldsWeight(fields), 0
  {
    if fields != [] {
      StripFieldsIdempotent(c, fields[1..]);
      if fields[0].key !in GENERATED {
        StripIdempotent(c, fields[0].value);
        assert StripFields(c, fields)[1..] == StripFields(c, fields[1..]);
      }
    }
  }

  // ---- exactly the differences in generated keys are hidden ----

  /** `u` and `v` differ at most in generated entries, at any depth, inside
      embedded text too: such an entry may be missing on one side or hold
      anything. */
  ghost predicate SameButGenerated(c: Codec, u: Value, v: Value)
    requires Lawful(c)
    decreases Weight(u) + Weight(v)
  {
    match (u, v)
    case (Arr(xs), Arr(ys)) => SameItems(c, xs, ys)
    case (Obj(fs), Obj(gs)) => SameFields(c, fs, gs)
    case (Str(s), Str(t)) =>
      assert ReadsWell(c, s) && ReadsWell(c, t);
      s == t || (s != "" && s[0] == '{' && c.decode(s).Some? && t != "" && t[0] == '{' && c.decode(t).Some?
                 && SameButGenerated(c, c.decode(s).value, c.decode(t).value))
    case _ => u == v
  }

  ghost predicate SameItems(c: Codec, xs: seq<Value>, ys: seq<Value>)
    requires Lawful(c)
    decreases ItemsWeight(xs) + ItemsWeight(ys)
  {
    |xs| == |ys| && (xs != [] ==> SameButGenerated(c, xs[0], ys[0]) && SameItems(c, xs[1..], ys[1..]))
  }

  ghost predicate SameFields(c: Codec, fs: seq<Field>, gs: seq<Field>)
    requires Lawful(c)
    decreases FieldsWeight(fs) + FieldsWeight(gs)
  {
    if fs != [] && IsGenerated(fs[0].key) then SameFields(c, fs[1..], gs)
    else if gs != [] && IsGenerated(gs[0].key) then SameFields(c, fs, gs[1..])
    else if fs == [] || gs == [] then fs == gs
    else fs[0].key == gs[0].key && SameButGenerated(c, fs[0].value, gs[0].value) && SameFields(c, fs[1..], gs[1..])
  }

  /** Two values get one result exactly when they differ only in generated keys. */
  lemma {:induction false} StripEqualIff(c: Codec, u: Value, v: Value)
    requires Lawful(c)
    ensures Strip(c, u) == Strip(c, v) <==> SameButGenerated(c, u, v)
    decreases Weight(u) + Weight(v), 1
  {
    match (u, v)
    case (Arr(xs), Arr(ys)) => StripItemsEqualIff(c, xs, ys);
    case (Obj(fs), Obj(gs)) => StripFieldsEqualIff(c, fs, gs);
    case (Str(s), Str(t)) =>
      if Embedded(c, s).Some? { EmbeddedAfterStrip(c, s); }
      if Embedded(c, t).Some? { EmbeddedAfterStrip(c, t); }
      if Embedded(c, s).Some? && Embedded(c, t).Some? {
        StripEqualIff(c, Embedded(c, s).value, Embedded(c, t).value);
      }
    case _ =>
  }

  lemma {:induction false} StripItemsEqualIff(c: Codec, xs: seq<Value>, ys: seq<Value>)
    requires Lawful(c)
    ensures StripItems(c, xs) == StripItems(c, ys) <==> SameItems(c, xs, ys)
    decreases ItemsWeight(xs) + ItemsWeight(ys), 0
  {
    if |xs| == |ys| && xs != [] {
      StripEqualIff(c, xs[0], ys[0]);
      StripItemsEqualIff(c, xs[1..], ys[1..]);
      var s, t := StripItems(c, xs), StripItems(c, ys);
      assert s[1..] == StripItems(c, xs[1..]) && t[1..] == StripItems(c, ys[1..]);
      assert s == [s[0]] + s[1..] && t == [t[0]] + t[1..];
    }
  }

  lemma {:induction false} StripFieldsEqualIff(c: Codec, fs: seq<Field>, gs: seq<Field>)
    requires Lawful(c)
    ensures StripFields(c, fs) == StripFields(c, gs) <==> SameFields(c, fs, gs)
    decreases FieldsWeight(fs) + FieldsWeight(gs), 0
  {
    if fs != [] && fs[0].key in GENERATED {
      StripFieldsEqualIff(c, fs[1..], gs);
    } else if gs != [] && gs[0].key in GENERATED {
      StripFieldsEqualIff(c, fs, gs[1..]);
    } else if fs != [] && gs != [] {
      StripEqualIff(c, fs[0].value, gs[0].value);
      StripFieldsEqualIff(c, fs[1..], gs[1..]);
      var s, t := StripFields(c, fs), StripFields(c, gs);
      assert s[1..] == StripFields(c, fs[1..]) && t[1..] == StripFields(c, gs[1..]);
      assert s == [s[0]] + s[1..] && t == [t[0]] + t[1..];
    }
  }
}
