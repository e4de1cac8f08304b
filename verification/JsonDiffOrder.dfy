/** Which pointers the diff lists and in which order, said on the two values alone. */
module JsonDiffOrder {
  import opened Wrappers
  import opened Text
  import opened Json
  import opened JsonDiff
  import opened JsonDiffProperties

  // ---- which pointers ----

  /** The values differ here, and not just somewhere below. */
  ghost predicate DiffersHere(e: Value, a: Value, p: Tokens) {
    var x, y := Resolve(e, p), Resolve(a, p);
    Differ(x, y) && !(x.Some? && y.Some? && SameContainer(x.value, y.value))
  }

  /** On the way to an entry both values are containers of one kind. */
  lemma {:induction false} ContainersAbove(e: Value, a: Value, m: Tokens, k: nat)
    requires m in Mismatches(e, a) && k < |m|
    ensures var x, y := Resolve(e, m[..k]), Resolve(a, m[..k]); x.Some? && y.Some? && SameContainer(x.value, y.value)
    decreases e
  {
    if k > 0 {
      var p := m[1..];
      assert m == [m[0]] + p && m[..k] == [m[0]] + p[..k - 1];
      ResolveUnder(e, m[0], p[..k - 1]);
      ResolveUnder(a, m[0], p[..k - 1]);
      match (e, a)
      case (Obj(fs), Obj(gs)) =>
        var key := KeyOf(fs, gs, SortedKeys(Keys(fs) + Keys(gs)), m);
        var i, j := Find(fs, key), Find(gs, key);
        assert i.Some? && j.Some? && m[0] == key;
        assert fs[i.value] < e;
        ContainersAbove(fs[i.value].value, gs[j.value].value, p, k - 1);
      case (Arr(xs), Arr(ys)) =>
        var i := IndexOf(xs, ys, Longer(|xs|, |ys|), m);
        IndexToken(i);
        ContainersAbove(xs[i], ys[i], p, k - 1);
      case _ =>
    }
  }

  lemma {:induction false} PrefixIs(p: Tokens, q: Tokens)
    requires p <= q
    ensures q[..|p|] == p && (|p| == |q| <==> p == q)
  {
  }

  /** The entries are exactly the uppermost pointers at which the values differ and are
      not containers of one kind. */
  lemma {:induction false} EntryIff(e: Value, a: Value, p: Tokens)
    requires UniqueKeys(e) && UniqueKeys(a)
    ensures p in Mismatches(e, a) <==> DiffersHere(e, a, p) && forall k: nat :: k < |p| ==> !DiffersHere(e, a, p[..k])
  {
    if p in Mismatches(e, a) {
      EntryDiffers(e, a, p);
      forall k: nat | k < |p| ensures !DiffersHere(e, a, p[..k]) { ContainersAbove(e, a, p, k); }
    }
    if DiffersHere(e, a, p) && forall k: nat :: k < |p| ==> !DiffersHere(e, a, p[..k]) {
      var m := DifferenceCovered(e, a, p);
      EntryDiffers(e, a, m);
      if m <= p {
        PrefixIs(m, p);
      } else {
        PrefixIs(p, m);
        ContainersAbove(e, a, m, |p|);
      }
    }
  }

  // ---- in which order ----

  ghost predicate LowerIndex(s: string, t: string) {
    exists m: nat, n: nat :: m < n && s == Decimal(m) && t == Decimal(n)
  }

  /** Where the pointers part, the first takes the lesser key or the lower index. */
  ghost predicate Before(v: Value, p: Tokens, q: Tokens)
    decreases |p|
  {
    p != [] && q != []
    && if p[0] == q[0] then Child(v, p[0]).Some? && Before(Child(v, p[0]).value, p[1..], q[1..])
       else match v
         case Obj(_) => Less(p[0], q[0])
         case Arr(_) => LowerIndex(p[0], q[0])
         case _ => false
  }

  ghost predicate InOrder(v: Value, paths: seq<Tokens>) {
    forall i, j :: 0 <= i < j < |paths| ==> Before(v, paths[i], paths[j])
  }

  lemma {:induction false} OrderUnder(v: Value, token: string, child: Value, paths: seq<Tokens>)
    requires Child(v, token) == Some(child) && InOrder(child, paths)
    ensures InOrder(v, Under(token, paths))
  {
    var all := Under(token, paths);
    forall i, j | 0 <= i < j < |all| ensures Before(v, all[i], all[j]) {
      assert all[i][1..] == paths[i] && all[j][1..] == paths[j];
    }
  }

  lemma {:induction false} OrderAppend(v: Value, first: seq<Tokens>, second: seq<Tokens>)
    requires InOrder(v, first) && InOrder(v, second)
    requires forall i, j :: 0 <= i < |first| && 0 <= j < |second| ==> Before(v, first[i], second[j])
    ensures InOrder(v, first + second)
  {
    var all := first + second;
    forall i, j | 0 <= i < j < |all| ensures Before(v, all[i], all[j]) {
      assert all[i] == (if i < |first| then first[i] else second[i - |first|]);
      assert all[j] == (if j < |first| then first[j] else second[j - |first|]);
    }
  }

  /** The entries come in pre-order: keys ascending, indices ascending. */
  lemma {:induction false} EntriesInOrder(e: Value, a: Value)
    ensures InOrder(e, Mismatches(e, a))
    decreases e, 2
  {
    match (e, a)
    case (Obj(fs), Obj(gs)) => KeysInOrder(fs, gs, SortedKeys(Keys(fs) + Keys(gs)));
    case (Arr(xs), Arr(ys)) => IndicesInOrder(xs, ys, Longer(|xs|, |ys|));
    case _ =>
  }

  lemma {:induction false} KeyInOrder(fs: seq<Field>, gs: seq<Field>, key: string)
    ensures InOrder(Obj(fs), KeyMismatch(fs, gs, key)) && StartIn(KeyMismatch(fs, gs, key), {key})
    decreases fs, 0
  {
    var i, j := Find(fs, key), Find(gs, key);
    if i.Some? && j.Some? {
      assert fs[i.value].value < fs[i.value];
      EntriesInOrder(fs[i.value].value, gs[j.value].value);
      OrderUnder(Obj(fs), key, fs[i.value].value, Mismatches(fs[i.value].value, gs[j.value].value));
    }
  }

  lemma {:induction false} KeysInOrder(fs: seq<Field>, gs: seq<Field>, keys: seq<string>)
    requires Ascending(keys)
    ensures InOrder(Obj(fs), KeyMismatches(fs, gs, keys)) && StartIn(KeyMismatches(fs, gs, keys), set k | k in keys)
    decreases fs, 1, |keys|
  {
    if keys != [] {
      var front, last := keys[..|keys| - 1], keys[|keys| - 1];
      KeysInOrder(fs, gs, front);
      KeyInOrder(fs, gs, last);
      var first, second := KeyMismatches(fs, gs, front), KeyMismatch(fs, gs, last);
      forall i, j | 0 <= i < |first| && 0 <= j < |second| ensures Before(Obj(fs), first[i], second[j]) {
        LessIrreflexive(last);
        assert first[i][0] in front && second[j][0] == last;
      }
      OrderAppend(Obj(fs), first, second);
      assert keys == front + [last];
    }
  }

  lemma {:induction false} LowerToken(n: nat, token: string)
    requires token in IndexTokens(n)
    ensures LowerIndex(token, Decimal(n)) && token != Decimal(n)
  {
    LaterIndexIsNew(n, n);
    var m := IndexOfToken(n, token);
    assert m < n && token == Decimal(m);
  }

  lemma {:induction false} IndexOfToken(n: nat, token: string) returns (m: nat)
    requires token in IndexTokens(n)
    ensures m < n && token == Decimal(m)
  {
    if token == Decimal(n - 1) {
      m := n - 1;
    } else {
      m := IndexOfToken(n - 1, token);
    }
  }

  lemma {:induction false} IndexInOrder(xs: seq<Value>, ys: seq<Value>, n: nat)
    ensures InOrder(Arr(xs), IndexMismatch(xs, ys, n)) && StartIn(IndexMismatch(xs, ys, n), {Decimal(n)})
    decreases xs, 0
  {
    if n < |xs| && n < |ys| {
      IndexToken(n);
      EntriesInOrder(xs[n], ys[n]);
      OrderUnder(Arr(xs), Decimal(n), xs[n], Mismatches(xs[n], ys[n]));
    }
  }

  lemma {:induction false} IndicesInOrder(xs: seq<Value>, ys: seq<Value>, n: nat)
    ensures InOrder(Arr(xs), IndexMismatches(xs, ys, n)) && StartIn(IndexMismatches(xs, ys, n), IndexTokens(n))
    decreases xs, 1, n
  {
    if n > 0 {
      var last := n - 1;
      IndicesInOrder(xs, ys, last);
      IndexInOrder(xs, ys, last);
      var first, second := IndexMismatches(xs, ys, last), IndexMismatch(xs, ys, last);
      forall i, j | 0 <= i < |first| && 0 <= j < |second| ensures Before(Arr(xs), first[i], second[j]) {
        LowerToken(last, first[i][0]);
      }
      OrderAppend(Arr(xs), first, second);
    }
  }
}
