/** The two `canonicalize_json` functions: one sorts the keys of each object and
    rebuilds it, the other collects each object into a `BTreeMap`. */
module JsonCanonical {
  import opened Wrappers
  import opened Text
  import opened Json

  ghost predicate AscendingKeys(fields: seq<Field>) {
    forall i, j :: 0 <= i < j < |fields| ==> Less(fields[i].key, fields[j].key)
  }

  /** Every object lists its keys in ascending order: the iteration order of a
      `serde_json::Map` that is a `BTreeMap`. */
  ghost predicate AllAscending(v: Value) {
    match v
    case Arr(items) => forall i :: 0 <= i < |items| ==> AllAscending(items[i])
    case Obj(fields) => AscendingKeys(fields) && forall i :: 0 <= i < |fields| ==> AllAscending(fields[i].value)
    case _ => true
  }

  lemma {:induction false} AscendingDistinct(fields: seq<Field>)
    requires AscendingKeys(fields)
    ensures DistinctKeys(fields)
  {
    forall i, j | 0 <= i < j < |fields| ensures fields[i].key != fields[j].key {
      LessIrreflexive(fields[i].key);
    }
  }

  // ---- mcp_multiprocess_profile.rs: sort the keys, then rebuild ----

  function Canonicalize(v: Value): Value
    decreases v
  {
    match v
    case Arr(items) => Arr(CanonicalItems(items))
    case Obj(fields) => Obj(Rebuild(fields, SortedKeys(Keys(fields))))
    case _ => v
  }

  function CanonicalItems(items: seq<Value>): (r: seq<Value>)
    ensures |r| == |items| && forall i :: 0 <= i < |items| ==> r[i] == Canonicalize(items[i])
    decreases items
  {
    if items == [] then [] else [Canonicalize(items[0])] + CanonicalItems(items[1..])
  }

  function Rebuild(fields: seq<Field>, keys: seq<string>): (r: seq<Field>)
    requires forall k :: k in keys ==> k in Keys(fields)
    ensures |r| == |keys|
    ensures forall i :: 0 <= i < |r| ==> r[i].key == keys[i] && Find(fields, keys[i]).Some?
    ensures forall i :: 0 <= i < |r| ==> r[i].value == Canonicalize(fields[Find(fields, keys[i]).value].value)
    decreases fields, |keys|
  {
    if keys == [] then []
    else
      var at := Find(fields, keys[0]);
      assert at.Some? by { assert keys[0] in Keys(fields); }
      assert fields[at.value].value < fields[at.value];
      [Field(keys[0], Canonicalize(fields[at.value].value))] + Rebuild(fields, keys[1..])
  }

  // ---- codex_host_receipt.rs: collect into a BTreeMap ----

  /** `BTreeMap::insert`: keeps the keys ascending and replaces an equal key. */
  function TreeInsert(tree: seq<Field>, f: Field): seq<Field> {
    if tree == [] then [f]
    else if f.key == tree[0].key then [f] + tree[1..]
    else if Less(f.key, tree[0].key) then [f] + tree
    else [tree[0]] + TreeInsert(tree[1..], f)
  }

  function CanonicalizeTree(v: Value): Value
    decreases v
  {
    match v
    case Arr(items) => Arr(TreeItems(items))
    case Obj(fields) => Obj(Collect(fields))
    case _ => v
  }

  function TreeItems(items: seq<Value>): (r: seq<Value>)
    ensures |r| == |items| && forall i :: 0 <= i < |items| ==> r[i] == CanonicalizeTree(items[i])
    decreases items
  {
    if items == [] then [] else [CanonicalizeTree(items[0])] + TreeItems(items[1..])
  }

  function Collect(fields: seq<Field>): seq<Field>
    decreases fields
  {
    if fields == [] then []
    else
      var last := fields[|fields| - 1];
      assert last.value < last;
      TreeInsert(Collect(fields[..|fields| - 1]), Field(last.key, CanonicalizeTree(last.value)))
  }

  // ---- an ascending field list is determined by what its keys map to ----

  lemma {:induction false} GetOfTail(fields: seq<Field>, k: string)
    requires fields != [] && AscendingKeys(fields)
    ensures Get(fields[1..], k) == if k == fields[0].key then None else Get(fields, k)
  {
    AscendingDistinct(fields);
    if k == fields[0].key {
      assert forall j :: 0 <= j < |fields[1..]| ==> fields[1..][j].key != k;
    }
  }

  lemma {:induction false} Extensional(fs: seq<Field>, gs: seq<Field>)
    requires AscendingKeys(fs) && AscendingKeys(gs)
    requires forall k :: Get(fs, k) == Get(gs, k)
    ensures fs == gs
  {
    if fs == [] || gs == [] {
      assert fs != [] ==> Get(fs, fs[0].key).Some?;
      assert gs != [] ==> Get(gs, gs[0].key).Some?;
    } else {
      HeadsAgree(fs, gs);
      forall k ensures Get(fs[1..], k) == Get(gs[1..], k) {
        GetOfTail(fs, k);
        GetOfTail(gs, k);
      }
      Extensional(fs[1..], gs[1..]);
      assert fs == [fs[0]] + fs[1..] && gs == [gs[0]] + gs[1..];
    }
  }

  lemma {:induction false} AbsentBelowHead(fs: seq<Field>, k: string)
    requires fs != [] && AscendingKeys(fs) && Less(k, fs[0].key)
    ensures Get(fs, k).None?
  {
    forall j | 0 <= j < |fs| ensures fs[j].key != k {
      if j > 0 { LessTransitive(k, fs[0].key, fs[j].key); }
      LessIrreflexive(k);
    }
  }

  lemma {:induction false} HeadsAgree(fs: seq<Field>, gs: seq<Field>)
    requires fs != [] && gs != [] && AscendingKeys(fs) && AscendingKeys(gs)
    requires forall k :: Get(fs, k) == Get(gs, k)
    ensures fs[0] == gs[0]
  {
    var k, l := fs[0].key, gs[0].key;
    assert Find(fs, k) == Some(0) && Find(gs, l) == Some(0);
    LessTotal(k, l);
    if Less(k, l) {
      AbsentBelowHead(gs, k);
    } else if Less(l, k) {
      AbsentBelowHead(fs, l);
    }
    assert Get(fs, k) == Some(fs[0].value) && Get(gs, k) == Some(gs[0].value);
  }

  // ---- what a canonical object maps its keys to ----

  function CanonicalGet(fields: seq<Field>, k: string): Option<Value> {
    match Get(fields, k)
    case Some(v) => Some(Canonicalize(v))
    case None => None
  }

  lemma {:induction false} RebuildGet(fields: seq<Field>, k: string)
    ensures var r := Rebuild(fields, SortedKeys(Keys(fields)));
            AscendingKeys(r) && Get(r, k) == CanonicalGet(fields, k)
  {
    var keys := SortedKeys(Keys(fields));
    var r := Rebuild(fields, keys);
    assert AscendingKeys(r);
    AscendingDistinct(r);
    var at := Find(fields, k);
    if at.Some? {
      assert Keys(fields)[at.value] in keys;
      var i :| 0 <= i < |keys| && keys[i] == k;
      FindAt(r, i);
    } else {
      forall j | 0 <= j < |r| ensures r[j].key != k {
        assert keys[j] in keys;
      }
    }
  }

  lemma {:induction false} GetOfCons(f: Field, tail: seq<Field>, k: string)
    ensures Get([f] + tail, k) == if k == f.key then Some(f.value) else Get(tail, k)
  {
    assert ([f] + tail)[1..] == tail;
  }

  lemma {:induction false} TreeInsertAscending(tree: seq<Field>, f: Field)
    requires AscendingKeys(tree)
    ensures AscendingKeys(TreeInsert(tree, f))
    ensures forall g :: g in TreeInsert(tree, f) ==> g == f || g in tree
  {
    if tree == [] || f.key == tree[0].key {
    } else if Less(f.key, tree[0].key) {
      forall j | 0 < j < |tree| ensures Less(f.key, tree[j].key) { LessTransitive(f.key, tree[0].key, tree[j].key); }
    } else {
      LessTotal(f.key, tree[0].key);
      TreeInsertAscending(tree[1..], f);
      var rest := TreeInsert(tree[1..], f);
      forall j | 0 <= j < |rest| ensures Less(tree[0].key, rest[j].key) {
        assert rest[j] in rest;
      }
    }
  }

  lemma {:induction false} TreeInsertGet(tree: seq<Field>, f: Field, k: string)
    ensures Get(TreeInsert(tree, f), k) == if k == f.key then Some(f.value) else Get(tree, k)
  {
    if tree != [] {
      assert tree == [tree[0]] + tree[1..];
      GetOfCons(tree[0], tree[1..], k);
      if f.key == tree[0].key {
        GetOfCons(f, tree[1..], k);
      } else if Less(f.key, tree[0].key) {
        GetOfCons(f, tree, k);
      } else {
        TreeInsertGet(tree[1..], f, k);
        GetOfCons(tree[0], TreeInsert(tree[1..], f), k);
      }
    }
  }

  lemma {:induction false} GetOfPrefix(fields: seq<Field>, k: string)
    requires fields != [] && DistinctKeys(fields)
    ensures var last := fields[|fields| - 1];
            Get(fields, k) == if k == last.key then Some(last.value) else Get(fields[..|fields| - 1], k)
  {
    var n := |fields| - 1;
    FindAt(fields, n);
    if k != fields[n].key {
      var at := Find(fields, k);
      if at.Some? {
        FindAt(fields[..n], at.value);
      }
    }
  }

  lemma {:induction false} CollectGet(fields: seq<Field>, k: string)
    requires DistinctKeys(fields)
    requires forall i :: 0 <= i < |fields| ==> CanonicalizeTree(fields[i].value) == Canonicalize(fields[i].value)
    ensures AscendingKeys(Collect(fields)) && Get(Collect(fields), k) == CanonicalGet(fields, k)
  {
    if fields != [] {
      var last := fields[|fields| - 1];
      var front := fields[..|fields| - 1];
      CollectGet(front, k);
      TreeInsertAscending(Collect(front), Field(last.key, CanonicalizeTree(last.value)));
      TreeInsertGet(Collect(front), Field(last.key, CanonicalizeTree(last.value)), k);
      GetOfPrefix(fields, k);
    }
  }

  /** The sorted rebuild and the `BTreeMap` version compute one canonical form. */
  lemma {:induction false} CanonicalVersionsAgree(v: Value)
    requires UniqueKeys(v)
    ensures CanonicalizeTree(v) == Canonicalize(v)
  {
    match v
    case Arr(items) =>
      forall i | 0 <= i < |items| ensures CanonicalizeTree(items[i]) == Canonicalize(items[i]) {
        CanonicalVersionsAgree(items[i]);
      }
      assert TreeItems(items) == CanonicalItems(items);
    case Obj(fields) =>
      forall i | 0 <= i < |fields| ensures CanonicalizeTree(fields[i].value) == Canonicalize(fields[i].value) {
        assert fields[i] < v;
        CanonicalVersionsAgree(fields[i].value);
      }
      forall k ensures AscendingKeys(Collect(fields)) && Get(Collect(fields), k) == CanonicalGet(fields, k) {
        CollectGet(fields, k);
      }
      var rebuilt := Rebuild(fields, SortedKeys(Keys(fields)));
      RebuildGet(fields, "");
      forall k ensures Get(Collect(fields), k) == Get(rebuilt, k) { RebuildGet(fields, k); }
      assert AscendingKeys(Collect(fields)) by { CollectGet(fields, ""); }
      Extensional(Collect(fields), rebuilt);
    case _ =>
  }

  // ---- canonical forms coincide exactly on equal values ----

  ghost function KeySet(fields: seq<Field>): set<string> {
    set i | 0 <= i < |fields| :: fields[i].key
  }

  lemma {:induction false} KeySetSize(fields: seq<Field>)
    requires DistinctKeys(fields)
    ensures |KeySet(fields)| == |fields|
  {
    if fields != [] {
      var n := |fields| - 1;
      KeySetSize(fields[..n]);
      assert KeySet(fields) == KeySet(fields[..n]) + {fields[n].key};
    }
  }

  lemma {:induction false} SubsetOfSameSize(small: set<string>, large: set<string>)
    requires small <= large && |small| == |large|
    ensures small == large
  {
    assert |large - small| == |large| - |small|;
  }

  /** Equal objects have the same keys, although `Same` looks one way only. */
  lemma {:induction false} SameKeySets(fs: seq<Field>, gs: seq<Field>)
    requires DistinctKeys(fs) && DistinctKeys(gs)
    requires Same(Obj(fs), Obj(gs))
    ensures KeySet(fs) == KeySet(gs)
  {
    KeySetSize(fs);
    KeySetSize(gs);
    forall k | k in KeySet(fs) ensures k in KeySet(gs) {
      var i :| 0 <= i < |fs| && fs[i].key == k;
      assert SameEntry(fs[i], gs);
    }
    SubsetOfSameSize(KeySet(fs), KeySet(gs));
  }

  lemma {:induction false} InKeySet(fields: seq<Field>, k: string)
    ensures k in KeySet(fields) <==> Find(fields, k).Some?
  {
  }

  lemma {:induction false} SameImpliesCanonicalEqual(a: Value, b: Value)
    requires UniqueKeys(a) && UniqueKeys(b) && Same(a, b)
    ensures Canonicalize(a) == Canonicalize(b)
  {
    match (a, b)
    case (Arr(xs), Arr(ys)) =>
      forall i | 0 <= i < |xs| ensures Canonicalize(xs[i]) == Canonicalize(ys[i]) {
        SameImpliesCanonicalEqual(xs[i], ys[i]);
      }
      assert CanonicalItems(xs) == CanonicalItems(ys);
    case (Obj(fs), Obj(gs)) =>
      SameKeySets(fs, gs);
      forall k ensures CanonicalGet(fs, k) == CanonicalGet(gs, k) {
        InKeySet(fs, k);
        InKeySet(gs, k);
        var at := Find(fs, k);
        if at.Some? {
          assert SameEntry(fs[at.value], gs);
          var to := Find(gs, k).value;
          assert fs[at.value] < a && gs[to] < b;
          SameImpliesCanonicalEqual(fs[at.value].value, gs[to].value);
        }
      }
      var r, s := Rebuild(fs, SortedKeys(Keys(fs))), Rebuild(gs, SortedKeys(Keys(gs)));
      forall k ensures Get(r, k) == Get(s, k) && AscendingKeys(r) && AscendingKeys(s) {
        RebuildGet(fs, k); RebuildGet(gs, k);
      }
      assert AscendingKeys(r) && AscendingKeys(s) by { RebuildGet(fs, ""); RebuildGet(gs, ""); }
      Extensional(r, s);
    case _ =>
  }

  lemma {:induction false} RebuildSize(fields: seq<Field>)
    requires DistinctKeys(fields)
    ensures |Rebuild(fields, SortedKeys(Keys(fields)))| == |fields|
  {
    var r := Rebuild(fields, SortedKeys(Keys(fields)));
    RebuildGet(fields, "");
    AscendingDistinct(r);
    KeySetSize(fields);
    KeySetSize(r);
    forall k ensures k in KeySet(r) <==> k in KeySet(fields) {
      RebuildGet(fields, k);
      InKeySet(r, k);
      InKeySet(fields, k);
    }
    assert KeySet(r) == KeySet(fields);
  }

  lemma {:induction false} CanonicalEqualImpliesSame(a: Value, b: Value)
    requires UniqueKeys(a) && UniqueKeys(b) && Canonicalize(a) == Canonicalize(b)
    ensures Same(a, b)
  {
    match (a, b)
    case (Arr(xs), Arr(ys)) =>
      forall i | 0 <= i < |xs| ensures Same(xs[i], ys[i]) {
        assert CanonicalItems(xs)[i] == CanonicalItems(ys)[i];
        CanonicalEqualImpliesSame(xs[i], ys[i]);
      }
    case (Obj(fs), Obj(gs)) =>
      RebuildSize(fs);
      RebuildSize(gs);
      forall i | 0 <= i < |fs| ensures SameEntry(fs[i], gs) {
        var k := fs[i].key;
        FindAt(fs, i);
        RebuildGet(fs, k);
        RebuildGet(gs, k);
        assert CanonicalGet(fs, k) == CanonicalGet(gs, k) == Some(Canonicalize(fs[i].value));
        var to := Find(gs, k).value;
        assert fs[i] < a && gs[to] < b;
        CanonicalEqualImpliesSame(fs[i].value, gs[to].value);
      }
    case _ =>
  }

  /** Canonical forms are identical exactly when `==` holds, that is, when the
      values differ at most in the key order of their objects. */
  lemma {:induction false} CanonicalIffSame(a: Value, b: Value)
    requires UniqueKeys(a) && UniqueKeys(b)
    ensures Canonicalize(a) == Canonicalize(b) <==> Same(a, b)
  {
    if Same(a, b) {
      SameImpliesCanonicalEqual(a, b);
    }
    if Canonicalize(a) == Canonicalize(b) {
      CanonicalEqualImpliesSame(a, b);
    }
  }

  /** A canonical form is ascending throughout, and ascending values are fixed:
      canonicalising twice changes nothing. */
  lemma {:induction false} CanonicalIsAscending(v: Value)
    ensures AllAscending(Canonicalize(v))
  {
    match v
    case Arr(items) =>
      forall i | 0 <= i < |items| ensures AllAscending(Canonicalize(items[i])) { CanonicalIsAscending(items[i]); }
    case Obj(fields) =>
      var keys := SortedKeys(Keys(fields));
      var r := Rebuild(fields, keys);
      RebuildGet(fields, "");
      forall i | 0 <= i < |r| ensures AllAscending(r[i].value) {
        var at := Find(fields, keys[i]).value;
        assert fields[at] < v;
        CanonicalIsAscending(fields[at].value);
      }
    case _ =>
  }

  lemma {:induction false} AscendingIsCanonical(v: Value)
    requires AllAscending(v)
    ensures Canonicalize(v) == v
  {
    match v
    case Arr(items) =>
      forall i | 0 <= i < |items| ensures Canonicalize(items[i]) == items[i] { AscendingIsCanonical(items[i]); }
      assert CanonicalItems(items) == items;
    case Obj(fields) =>
      forall k ensures Get(Rebuild(fields, SortedKeys(Keys(fields))), k) == Get(fields, k) {
        RebuildGet(fields, k);
        var at := Find(fields, k);
        if at.Some? {
          assert fields[at.value] < v;
          AscendingIsCanonical(fields[at.value].value);
        }
      }
      RebuildGet(fields, "");
      Extensional(Rebuild(fields, SortedKeys(Keys(fields))), fields);
    case _ =>
  }

  lemma {:induction false} CanonicalIdempotent(v: Value)
    ensures Canonicalize(Canonicalize(v)) == Canonicalize(v)
  {
    CanonicalIsAscending(v);
    AscendingIsCanonical(Canonicalize(v));
  }
}
