/** What the reported difference paths mean to someone who reads them back as
    JSON pointers. */
module JsonDiffProperties {
  import opened Wrappers
  import opened Text
  import opened Json
  import opened JsonPointer
  import opened JsonDiff
  import opened JsonCanonical

  /** One-sided, or present on both sides with unequal values. */
  ghost predicate Differ(x: Option<Value>, y: Option<Value>) {
    (x.Some? || y.Some?) && !(x.Some? && y.Some? && Same(x.value, y.value))
  }

  /** Both objects or both arrays: the diff looks inside these. */
  predicate SameContainer(x: Value, y: Value) {
    (x.Obj? && y.Obj?) || (x.Arr? && y.Arr?)
  }

  // ---- membership in the lists of an object and of an array ----

  lemma {:induction false} KeyOf(fs: seq<Field>, gs: seq<Field>, keys: seq<string>, m: Tokens) returns (key: string)
    requires m in KeyMismatches(fs, gs, keys)
    ensures key in keys && m in KeyMismatch(fs, gs, key)
  {
    var front, last := keys[..|keys| - 1], keys[|keys| - 1];
    if m in KeyMismatch(fs, gs, last) {
      key := last;
    } else {
      key := KeyOf(fs, gs, front, m);
    }
  }

  lemma {:induction false} KeyListed(fs: seq<Field>, gs: seq<Field>, keys: seq<string>, key: string, m: Tokens)
    requires key in keys && m in KeyMismatch(fs, gs, key)
    ensures m in KeyMismatches(fs, gs, keys)
  {
    var front, last := keys[..|keys| - 1], keys[|keys| - 1];
    assert keys == front + [last];
    if key != last {
      KeyListed(fs, gs, front, key, m);
    }
  }

  lemma {:induction false} IndexOf(xs: seq<Value>, ys: seq<Value>, n: nat, m: Tokens) returns (i: nat)
    requires m in IndexMismatches(xs, ys, n)
    ensures i < n && m in IndexMismatch(xs, ys, i)
  {
    if m in IndexMismatch(xs, ys, n - 1) {
      i := n - 1;
    } else {
      i := IndexOf(xs, ys, n - 1, m);
    }
  }

  lemma {:induction false} IndexListed(xs: seq<Value>, ys: seq<Value>, n: nat, i: nat, m: Tokens)
    requires i < n && m in IndexMismatch(xs, ys, i)
    ensures m in IndexMismatches(xs, ys, n)
  {
    if i < n - 1 {
      IndexListed(xs, ys, n - 1, i, m);
    }
  }

  lemma {:induction false} UnderContains(token: string, paths: seq<Tokens>, p: Tokens)
    requires p in paths
    ensures [token] + p in Under(token, paths)
  {
    var i :| 0 <= i < |paths| && paths[i] == p;
    assert Under(token, paths)[i] == [token] + p;
  }

  lemma {:induction false} ResolveUnder(v: Value, token: string, p: Tokens)
    ensures Resolve(v, [token] + p) == match Child(v, token) case Some(c) => Resolve(c, p) case None => None
  {
    assert ([token] + p)[1..] == p;
  }

  // ---- every entry names a difference ----

  /** The named places differ; when both exist they are not containers of one
      kind, so the entry points as deep as the difference goes. */
  lemma {:induction false} EntryDiffers(e: Value, a: Value, m: Tokens)
    requires m in Mismatches(e, a)
    ensures var x, y := Resolve(e, m), Resolve(a, m);
            Differ(x, y) && !(x.Some? && y.Some? && SameContainer(x.value, y.value))
    decreases e
  {
    match (e, a)
    case (Obj(fs), Obj(gs)) =>
      var keys := SortedKeys(Keys(fs) + Keys(gs));
      var key := KeyOf(fs, gs, keys, m);
      assert key in Keys(fs) || key in Keys(gs);
      assert Find(fs, key).Some? || Find(gs, key).Some?;
      var p := m[1..];
      assert m == [key] + p;
      ResolveUnder(e, key, p);
      ResolveUnder(a, key, p);
      var i, j := Find(fs, key), Find(gs, key);
      if i.Some? && j.Some? {
        assert fs[i.value] < e;
        EntryDiffers(fs[i.value].value, gs[j.value].value, p);
      }
    case (Arr(xs), Arr(ys)) =>
      var i := IndexOf(xs, ys, Longer(|xs|, |ys|), m);
      var p := m[1..];
      assert m == [Decimal(i)] + p;
      IndexToken(i);
      ResolveUnder(e, Decimal(i), p);
      ResolveUnder(a, Decimal(i), p);
      if i < |xs| && i < |ys| {
        EntryDiffers(xs[i], ys[i], p);
      }
    case _ =>
  }

  // ---- no entry is a prefix of another ----

  ghost predicate PrefixFree(paths: seq<Tokens>) {
    forall i, j :: 0 <= i < |paths| && 0 <= j < |paths| && i != j ==> !(paths[i] <= paths[j])
  }

  ghost predicate StartIn(paths: seq<Tokens>, tokens: set<string>) {
    forall i :: 0 <= i < |paths| ==> paths[i] != [] && paths[i][0] in tokens
  }

  lemma {:induction false} PrefixFreeAppend(first: seq<Tokens>, second: seq<Tokens>, s: set<string>, t: set<string>)
    requires PrefixFree(first) && PrefixFree(second)
    requires StartIn(first, s) && StartIn(second, t) && s !! t
    ensures PrefixFree(first + second) && StartIn(first + second, s + t)
  {
    assert forall i :: 0 <= i < |first| ==> (first + second)[i] == first[i];
    assert forall i :: 0 <= i < |second| ==> (first + second)[|first| + i] == second[i];
  }

  lemma {:induction false} ConsPrefix(token: string, p: Tokens, q: Tokens)
    ensures [token] + p <= [token] + q <==> p <= q
  {
    var longer, other := [token] + p, [token] + q;
    assert longer[1..] == p && other[1..] == q;
    if longer <= other {
      assert other[..|longer|] == longer;
      assert other[..|longer|][1..] == q[..|p|];
    }
  }

  lemma {:induction false} PrefixFreeUnder(token: string, paths: seq<Tokens>)
    requires PrefixFree(paths)
    ensures PrefixFree(Under(token, paths)) && StartIn(Under(token, paths), {token})
  {
    var all := Under(token, paths);
    forall i, j | 0 <= i < |all| && 0 <= j < |all| && i != j ensures !(all[i] <= all[j]) {
      ConsPrefix(token, paths[i], paths[j]);
    }
  }

  lemma {:induction false} MismatchesPrefixFree(e: Value, a: Value)
    ensures PrefixFree(Mismatches(e, a))
    decreases e, 2
  {
    match (e, a)
    case (Obj(fs), Obj(gs)) =>
      var keys := SortedKeys(Keys(fs) + Keys(gs));
      forall i, j | 0 <= i < j < |keys| ensures keys[i] != keys[j] { LessIrreflexive(keys[i]); }
      KeysPrefixFree(fs, gs, keys);
    case (Arr(xs), Arr(ys)) => IndicesPrefixFree(xs, ys, Longer(|xs|, |ys|));
    case _ =>
  }

  lemma {:induction false} KeysPrefixFree(fs: seq<Field>, gs: seq<Field>, keys: seq<string>)
    requires forall i, j :: 0 <= i < j < |keys| ==> keys[i] != keys[j]
    ensures PrefixFree(KeyMismatches(fs, gs, keys))
    ensures StartIn(KeyMismatches(fs, gs, keys), set k | k in keys)
    decreases fs, 1, |keys|
  {
    if keys != [] {
      var front, last := keys[..|keys| - 1], keys[|keys| - 1];
      KeysPrefixFree(fs, gs, front);
      var i, j := Find(fs, last), Find(gs, last);
      if i.Some? && j.Some? {
        assert fs[i.value].value < fs[i.value];
        MismatchesPrefixFree(fs[i.value].value, gs[j.value].value);
        PrefixFreeUnder(last, Mismatches(fs[i.value].value, gs[j.value].value));
      }
      PrefixFreeAppend(KeyMismatches(fs, gs, front), KeyMismatch(fs, gs, last), set k | k in front, {last});
      assert keys == front + [last];
    }
  }

  ghost function IndexTokens(n: nat): set<string> {
    if n == 0 then {} else IndexTokens(n - 1) + {Decimal(n - 1)}
  }

  lemma {:induction false} LaterIndexIsNew(n: nat, i: nat)
    requires n <= i
    ensures Decimal(i) !in IndexTokens(n)
  {
    if n > 0 {
      LaterIndexIsNew(n - 1, i);
      if Decimal(i) == Decimal(n - 1) { DecimalInjective(i, n - 1); }
    }
  }

  lemma {:induction false} IndicesPrefixFree(xs: seq<Value>, ys: seq<Value>, n: nat)
    ensures PrefixFree(IndexMismatches(xs, ys, n)) && StartIn(IndexMismatches(xs, ys, n), IndexTokens(n))
    decreases xs, 1, n
  {
    if n > 0 {
      var last := n - 1;
      IndicesPrefixFree(xs, ys, last);
      if last < |xs| && last < |ys| {
        MismatchesPrefixFree(xs[last], ys[last]);
        PrefixFreeUnder(Decimal(last), Mismatches(xs[last], ys[last]));
      }
      LaterIndexIsNew(last, last);
      PrefixFreeAppend(IndexMismatches(xs, ys, last), IndexMismatch(xs, ys, last), IndexTokens(last), {Decimal(last)});
    }
  }

  // ---- nothing that differs is missed ----

  /** The list is empty exactly when the values are equal. */
  lemma {:induction false} EmptyIffSame(e: Value, a: Value)
    requires UniqueKeys(e) && UniqueKeys(a)
    ensures Mismatches(e, a) == [] <==> Same(e, a)
    decreases e
  {
    match (e, a)
    case (Obj(fs), Obj(gs)) =>
      if Mismatches(e, a) == [] {
        var keys := SortedKeys(Keys(fs) + Keys(gs));
        forall k | k in Keys(fs) || k in Keys(gs)
          ensures Find(fs, k).Some? && Find(gs, k).Some?
                  && Same(fs[Find(fs, k).value].value, gs[Find(gs, k).value].value)
        {
          assert k in keys;
          if !Same(e, a) && KeyMismatch(fs, gs, k) != [] { KeyListed(fs, gs, keys, k, KeyMismatch(fs, gs, k)[0]); }
          if !Same(e, a) {
            var i := Find(fs, k).value;
            assert fs[i] < e;
            EmptyIffSame(fs[i].value, gs[Find(gs, k).value].value);
          } else {
            SameKeySets(fs, gs);
            InKeySet(fs, k);
            InKeySet(gs, k);
            assert SameEntry(fs[Find(fs, k).value], gs);
          }
        }
        forall i | 0 <= i < |fs| ensures SameEntry(fs[i], gs) {
          assert Keys(fs)[i] in Keys(fs);
          FindAt(fs, i);
        }
        SameSizes(fs, gs);
      }
    case (Arr(xs), Arr(ys)) =>
      if Mismatches(e, a) == [] && !Same(e, a) {
        var n := Longer(|xs|, |ys|);
        if |xs| != |ys| {
          IndexListed(xs, ys, n, n - 1, IndexMismatch(xs, ys, n - 1)[0]);
        }
        forall i | 0 <= i < n ensures Same(xs[i], ys[i]) {
          if IndexMismatch(xs, ys, i) != [] {
            IndexListed(xs, ys, n, i, IndexMismatch(xs, ys, i)[0]);
          }
          EmptyIffSame(xs[i], ys[i]);
        }
      }
    case _ =>
  }

  lemma {:induction false} SameSizes(fs: seq<Field>, gs: seq<Field>)
    requires DistinctKeys(fs) && DistinctKeys(gs)
    requires forall k :: k in Keys(fs) || k in Keys(gs) ==> Find(fs, k).Some? && Find(gs, k).Some?
    ensures |fs| == |gs|
  {
    KeySetSize(fs);
    KeySetSize(gs);
    forall k ensures k in KeySet(fs) <==> k in KeySet(gs) {
      InKeySet(fs, k);
      InKeySet(gs, k);
      if k in KeySet(fs) { var i := Find(fs, k).value; assert Keys(fs)[i] in Keys(fs); }
      if k in KeySet(gs) { var i := Find(gs, k).value; assert Keys(gs)[i] in Keys(gs); }
    }
    assert KeySet(fs) == KeySet(gs);
  }

  /** Equal values agree at every pointer. */
  lemma {:induction false} SameEverywhere(e: Value, a: Value, p: Tokens)
    requires UniqueKeys(e) && UniqueKeys(a) && Same(e, a)
    ensures !Differ(Resolve(e, p), Resolve(a, p))
    decreases |p|
  {
    if p != [] {
      match (e, a)
      case (Obj(fs), Obj(gs)) =>
        SameKeySets(fs, gs);
        InKeySet(fs, p[0]);
        InKeySet(gs, p[0]);
        var at := Find(fs, p[0]);
        if at.Some? {
          assert SameEntry(fs[at.value], gs);
          SameEverywhere(fs[at.value].value, gs[Find(gs, p[0]).value].value, p[1..]);
        }
      case (Arr(xs), Arr(ys)) =>
        if Child(e, p[0]).Some? {
          var i := NumeralValue(p[0]);
          SameEverywhere(xs[i], ys[i], p[1..]);
        }
      case _ =>
    }
  }

  /** Wherever the two values differ, the list has an entry on the way there or
      below. */
  lemma {:induction false} DifferenceCovered(e: Value, a: Value, p: Tokens) returns (m: Tokens)
    requires UniqueKeys(e) && UniqueKeys(a)
    requires Differ(Resolve(e, p), Resolve(a, p))
    ensures m in Mismatches(e, a) && (m <= p || p <= m)
    decreases |p|
  {
    if Same(e, a) { SameEverywhere(e, a, p); }
    EmptyIffSame(e, a);
    m := Mismatches(e, a)[0];
    if p != [] {
      match (e, a)
      case (Obj(fs), Obj(gs)) =>
        m := KeyDifferenceCovered(fs, gs, p);
      case (Arr(xs), Arr(ys)) =>
        m := ItemDifferenceCovered(xs, ys, p);
      case _ =>
    }
  }

  lemma {:induction false} KeyDifferenceCovered(fs: seq<Field>, gs: seq<Field>, p: Tokens) returns (m: Tokens)
    requires UniqueKeys(Obj(fs)) && UniqueKeys(Obj(gs)) && p != []
    requires Differ(Resolve(Obj(fs), p), Resolve(Obj(gs), p))
    ensures m in KeyMismatches(fs, gs, SortedKeys(Keys(fs) + Keys(gs))) && (m <= p || p <= m)
    decreases |p|, 0
  {
    var key := p[0];
    var i, j := Find(fs, key), Find(gs, key);
    if i.Some? { assert Keys(fs)[i.value] in Keys(fs) + Keys(gs); }
    if j.Some? { assert Keys(gs)[j.value] in Keys(fs) + Keys(gs); }
    if i.Some? && j.Some? {
      var n := DifferenceCovered(fs[i.value].value, gs[j.value].value, p[1..]);
      UnderContains(key, Mismatches(fs[i.value].value, gs[j.value].value), n);
      BelowToken(p, n);
      m := [key] + n;
    } else {
      BelowToken(p, []);
      m := [key];
      assert KeyMismatch(fs, gs, key) == [[key]];
    }
    KeyListed(fs, gs, SortedKeys(Keys(fs) + Keys(gs)), key, m);
  }

  /** A path below a token lies on the way of one through that token if it does below. */
  lemma {:induction false} BelowToken(p: Tokens, n: Tokens)
    requires p != [] && (n <= p[1..] || p[1..] <= n)
    ensures [p[0]] + n <= p || p <= [p[0]] + n
  {
    assert p == [p[0]] + p[1..];
  }

  lemma {:induction false} ResolveItem(xs: seq<Value>, p: Tokens)
    requires p != []
    ensures Resolve(Arr(xs), p) ==
            if CanonicalIndex(p[0]) && NumeralValue(p[0]) < |xs| then Resolve(xs[NumeralValue(p[0])], p[1..]) else None
  {
  }

  lemma {:induction false} ItemDifferenceCovered(xs: seq<Value>, ys: seq<Value>, p: Tokens) returns (m: Tokens)
    requires UniqueKeys(Arr(xs)) && UniqueKeys(Arr(ys)) && p != []
    requires Differ(Resolve(Arr(xs), p), Resolve(Arr(ys), p))
    ensures m in IndexMismatches(xs, ys, Longer(|xs|, |ys|)) && (m <= p || p <= m)
    decreases |p|, 0
  {
    ResolveItem(xs, p);
    ResolveItem(ys, p);
    var i := NumeralValue(p[0]);
    IndexTokenUnique(p[0]);
    if i < |xs| && i < |ys| {
      var n := DifferenceCovered(xs[i], ys[i], p[1..]);
      m := ItemEntry(xs, ys, i, n);
      BelowToken(p, n);
    } else {
      BelowToken(p, []);
      m := [p[0]];
      assert IndexMismatch(xs, ys, i) == [[p[0]]];
    }
    IndexListed(xs, ys, Longer(|xs|, |ys|), i, m);
  }

  lemma {:induction false} ItemEntry(xs: seq<Value>, ys: seq<Value>, i: nat, n: Tokens) returns (m: Tokens)
    requires i < |xs| && i < |ys| && n in Mismatches(xs[i], ys[i])
    ensures m == [Decimal(i)] + n && m in IndexMismatch(xs, ys, i)
  {
    m := [Decimal(i)] + n;
    UnderContains(Decimal(i), Mismatches(xs[i], ys[i]), n);
  }

  /** A canonical index token is the decimal numeral of the index it denotes. */
  lemma {:induction false} IndexTokenUnique(token: string)
    requires CanonicalIndex(token)
    ensures Decimal(NumeralValue(token)) == token
  {
    var n := |token| - 1;
    var front, last := token[..n], token[n];
    assert token == front + [last];
    assert DIGITS[DigitValue(last)] == last;
    if front != [] {
      IndexTokenUnique(front);
      NumeralPositive(front);
      assert NumeralValue(token) / 10 == NumeralValue(front);
      assert NumeralValue(token) % 10 == DigitValue(last);
    } else {
      assert NumeralValue(token) == DigitValue(last);
    }
  }

  lemma {:induction false} NumeralPositive(token: string)
    requires CanonicalIndex(token) && token[0] != '0'
    ensures NumeralValue(token) > 0
  {
    var front := token[..|token| - 1];
    if front != [] {
      NumeralPositive(front);
    }
  }

  // ---- the reported texts ----

  /** What a fresh root call reports. */
  function Report(e: Value, a: Value): seq<string> {
    Capped([], RenderAll("", Mismatches(e, a)))
  }

  lemma {:induction false} ReportAt(e: Value, a: Value, i: nat)
    requires i < |Report(e, a)|
    ensures i < |Mismatches(e, a)| && Report(e, a)[i] == Render("", Mismatches(e, a)[i])
  {
  }

  /** Read as a pointer, a reported text names exactly the entry it stands for.
      The one exception is a mismatch at the root, written "/" although "" is
      the pointer to the root. */
  lemma {:induction false} ReportReadsBack(e: Value, a: Value, i: nat)
    requires i < |Report(e, a)|
    ensures i < |Mismatches(e, a)|
    ensures if SameContainer(e, a) then Decode(Report(e, a)[i]) == Some(Mismatches(e, a)[i])
            else Report(e, a) == ["/"] && Mismatches(e, a) == [[]]
  {
    ReportAt(e, a, i);
    var entry := Mismatches(e, a)[i];
    RenderFromRoot(entry);
    if SameContainer(e, a) {
      EntryBelowRoot(e, a, entry);
      DecodePointer(entry);
    } else {
      RootMismatch(e, a);
    }
  }

  lemma {:induction false} RootMismatch(e: Value, a: Value)
    requires !SameContainer(e, a)
    ensures Mismatches(e, a) == if Same(e, a) then [] else [[]]
    ensures !Same(e, a) ==> Report(e, a) == ["/"]
  {
    RenderFromRoot([]);
  }

  /** Between containers of one kind every entry lies below the root. */
  lemma {:induction false} EntryBelowRoot(e: Value, a: Value, entry: Tokens)
    requires SameContainer(e, a) && entry in Mismatches(e, a)
    ensures entry != [] && Pointer(entry) != ""
  {
    match (e, a)
    case (Obj(fs), Obj(gs)) =>
      var key := KeyOf(fs, gs, SortedKeys(Keys(fs) + Keys(gs)), entry);
    case (Arr(xs), Arr(ys)) =>
      var k := IndexOf(xs, ys, Longer(|xs|, |ys|), entry);
    case _ =>
  }

  lemma {:induction false} RenderFromRoot(entry: Tokens)
    ensures Render("", entry) == if Pointer(entry) == "" then "/" else Pointer(entry)
  {
    assert "" + Pointer(entry) == Pointer(entry);
  }

  /** The report is the first 32 entries; between containers each text decodes to
      a pointer at which the values differ, and no decoded pointer is a prefix of
      another, so the texts are pairwise distinct. */
  lemma {:induction false} ReportIsSound(e: Value, a: Value)
    ensures Report(e, a)
            == RenderAll("", Mismatches(e, a))[..if |Mismatches(e, a)| < 32 then |Mismatches(e, a)| else 32]
    ensures SameContainer(e, a) ==> forall i :: 0 <= i < |Report(e, a)| ==>
              var p := Decode(Report(e, a)[i]);
              p.Some? && Differ(Resolve(e, p.value), Resolve(a, p.value))
    ensures forall i, j :: 0 <= i < |Report(e, a)| && 0 <= j < |Report(e, a)| && i != j ==>
              Decode(Report(e, a)[i]).Some? && Decode(Report(e, a)[j]).Some?
              && !(Decode(Report(e, a)[i]).value <= Decode(Report(e, a)[j]).value)
  {
    var r, ms := Report(e, a), Mismatches(e, a);
    MismatchesPrefixFree(e, a);
    if SameContainer(e, a) {
      forall i | 0 <= i < |r| ensures Decode(r[i]) == Some(ms[i]) && Differ(Resolve(e, ms[i]), Resolve(a, ms[i])) {
        ReportReadsBack(e, a, i);
        EntryDiffers(e, a, ms[i]);
      }
    } else {
      RootMismatch(e, a);
    }
  }

  lemma {:induction false} ReportDistinct(e: Value, a: Value)
    ensures forall i, j :: 0 <= i < j < |Report(e, a)| ==> Report(e, a)[i] != Report(e, a)[j]
    ensures |Report(e, a)| <= 32
  {
    ReportIsSound(e, a);
  }
}
