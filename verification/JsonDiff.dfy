/** `collect_json_diff_paths`: the pre-order list of places where two values
    differ, at most 32 of them, and the parity tally that collects such lists. */
module JsonDiff {
  import opened Text
  import opened Json
  import opened JsonPointer

  /** `MAX_PARITY_MISMATCH_PATHS` */
  const MAX_PATHS := 32

  // ---- the uncapped specification, on reference tokens ----

  function Mismatches(e: Value, a: Value): seq<Tokens>
    decreases e
  {
    if Same(e, a) then []
    else match (e, a)
      case (Obj(fs), Obj(gs)) => KeyMismatches(fs, gs, SortedKeys(Keys(fs) + Keys(gs)))
      case (Arr(xs), Arr(ys)) => IndexMismatches(xs, ys, Longer(|xs|, |ys|))
      case _ => [[]]
  }

  function Longer(m: nat, n: nat): nat {
    if m < n then n else m
  }

  function KeyMismatches(fs: seq<Field>, gs: seq<Field>, keys: seq<string>): seq<Tokens>
    decreases fs, 1, |keys|
  {
    if keys == [] then []
    else KeyMismatches(fs, gs, keys[..|keys| - 1]) + KeyMismatch(fs, gs, keys[|keys| - 1])
  }

  function KeyMismatch(fs: seq<Field>, gs: seq<Field>, key: string): seq<Tokens>
    decreases fs, 0
  {
    var i, j := Find(fs, key), Find(gs, key);
    if i.Some? && j.Some? then
      assert fs[i.value].value < fs[i.value];
      Under(key, Mismatches(fs[i.value].value, gs[j.value].value))
    else [[key]]
  }

  function IndexMismatches(xs: seq<Value>, ys: seq<Value>, n: nat): seq<Tokens>
    decreases xs, 1, n
  {
    if n == 0 then [] else IndexMismatches(xs, ys, n - 1) + IndexMismatch(xs, ys, n - 1)
  }

  function IndexMismatch(xs: seq<Value>, ys: seq<Value>, i: nat): seq<Tokens>
    decreases xs, 0
  {
    if i < |xs| && i < |ys| then Under(Decimal(i), Mismatches(xs[i], ys[i])) else [[Decimal(i)]]
  }

  function Under(token: string, paths: seq<Tokens>): (r: seq<Tokens>)
    ensures |r| == |paths| && forall i :: 0 <= i < |r| ==> r[i] == [token] + paths[i]
  {
    seq(|paths|, i requires 0 <= i < |paths| => [token] + paths[i])
  }

  /** The text of an entry found below `path`; an empty path is written "/". */
  function Render(path: string, tokens: Tokens): string {
    if path + Pointer(tokens) == "" then "/" else path + Pointer(tokens)
  }

  function RenderAll(path: string, entries: seq<Tokens>): (r: seq<string>)
    ensures |r| == |entries| && forall i :: 0 <= i < |r| ==> r[i] == Render(path, entries[i])
  {
    seq(|entries|, i requires 0 <= i < |entries| => Render(path, entries[i]))
  }

  /** `log` after `more` entries were pushed, stopping once it holds 32. */
  function Capped(log: seq<string>, more: seq<string>): seq<string> {
    if |log| <= MAX_PATHS < |log| + |more| then log + more[..MAX_PATHS - |log|] else log + more
  }

  lemma {:induction false} CappedTwice(log: seq<string>, first: seq<string>, second: seq<string>)
    ensures Capped(Capped(log, first), second) == Capped(log, first + second)
    ensures |Capped(log, first)| == MAX_PATHS ==> Capped(log, first) == Capped(log, first + second)
  {
  }

  lemma {:induction false} RenderAllAppend(path: string, first: seq<Tokens>, second: seq<Tokens>)
    ensures RenderAll(path, first + second) == RenderAll(path, first) + RenderAll(path, second)
  {
  }

  lemma {:induction false} RenderUnder(path: string, token: string, entries: seq<Tokens>)
    ensures RenderAll(path, Under(token, entries)) == RenderAll(path + "/" + Escape(token), entries)
  {
    forall i | 0 <= i < |entries|
      ensures Render(path, [token] + entries[i]) == Render(path + "/" + Escape(token), entries[i])
    {
      assert ([token] + entries[i])[1..] == entries[i];
      assert path + Pointer([token] + entries[i]) == path + "/" + Escape(token) + Pointer(entries[i]);
    }
  }

  lemma {:induction false} RenderChild(path: string, token: string)
    ensures RenderAll(path, [[token]]) == [path + "/" + Escape(token)]
  {
    assert Pointer([token]) == "/" + Escape(token) + Pointer([]);
    assert path + Pointer([token]) == path + "/" + Escape(token);
  }

  lemma {:induction false} KeyMismatchText(path: string, fs: seq<Field>, gs: seq<Field>, key: string)
    ensures var i, j, child := Find(fs, key), Find(gs, key), path + "/" + Escape(key);
            RenderAll(path, KeyMismatch(fs, gs, key)) ==
            if i.Some? && j.Some? then RenderAll(child, Mismatches(fs[i.value].value, gs[j.value].value)) else [child]
  {
    var i, j := Find(fs, key), Find(gs, key);
    if i.Some? && j.Some? {
      RenderUnder(path, key, Mismatches(fs[i.value].value, gs[j.value].value));
    } else {
      RenderChild(path, key);
    }
  }

  lemma {:induction false} IndexMismatchText(path: string, xs: seq<Value>, ys: seq<Value>, i: nat)
    ensures var child := path + "/" + Decimal(i);
            RenderAll(path, IndexMismatch(xs, ys, i)) ==
            if i < |xs| && i < |ys| then RenderAll(child, Mismatches(xs[i], ys[i])) else [child]
  {
    IndexToken(i);
    DigitsNeedNoEscape(Decimal(i));
    if i < |xs| && i < |ys| {
      RenderUnder(path, Decimal(i), Mismatches(xs[i], ys[i]));
    } else {
      RenderChild(path, Decimal(i));
    }
  }

  // ---- the capped algorithm, pushing into one log ----

  class PathLog {
    var paths: seq<string>

    constructor ()
      ensures paths == []
    {
      paths := [];
    }

    /** `collect_json_diff_paths` */
    method Collect(e: Value, a: Value, path: string)
      modifies this
      ensures paths == Capped(old(paths), RenderAll(path, Mismatches(e, a)))
      decreases e
    {
      if Same(e, a) || |paths| == MAX_PATHS {
        return;
      }
      match (e, a)
      case (Obj(fs), Obj(gs)) =>
        CollectKeys(fs, gs, path);
      case (Arr(xs), Arr(ys)) =>
        CollectItems(xs, ys, path);
      case _ =>
        paths := paths + [if path == "" then "/" else path];
        assert path + Pointer([]) == path;
    }

    /** The object arm of `collect_json_diff_paths`. */
    method CollectKeys(fs: seq<Field>, gs: seq<Field>, path: string)
      requires |paths| != MAX_PATHS
      modifies this
      ensures paths == Capped(old(paths), RenderAll(path, KeyMismatches(fs, gs, SortedKeys(Keys(fs) + Keys(gs)))))
      decreases fs, 1
    {
      var keys := SortedKeys(Keys(fs) + Keys(gs));
      var n := 0;
      while n < |keys|
        invariant n <= |keys| && |paths| != MAX_PATHS
        invariant paths == Capped(old(paths), RenderAll(path, KeyMismatches(fs, gs, keys[..n])))
      {
        ghost var before := paths;
        CollectKey(fs, gs, keys[n], path);
        KeyStep(old(paths), before, paths, path, fs, gs, keys, n);
        n := n + 1;
        if |paths| == MAX_PATHS {
          break;
        }
      }
      KeysEnd(old(paths), paths, path, fs, gs, keys, n);
    }

    /** One key. */
    method CollectKey(fs: seq<Field>, gs: seq<Field>, key: string, path: string)
      requires |paths| != MAX_PATHS
      modifies this
      ensures paths == Capped(old(paths), RenderAll(path, KeyMismatch(fs, gs, key)))
      decreases fs, 0
    {
      var i, j := Find(fs, key), Find(gs, key);
      KeyMismatchText(path, fs, gs, key);
      if i.Some? && j.Some? {
        assert fs[i.value].value < fs[i.value];
        Collect(fs[i.value].value, gs[j.value].value, path + "/" + Escape(key));
      } else {
        paths := paths + [path + "/" + Escape(key)];
      }
    }

    /** The array arm of `collect_json_diff_paths`. */
    method CollectItems(xs: seq<Value>, ys: seq<Value>, path: string)
      requires |paths| != MAX_PATHS
      modifies this
      ensures paths == Capped(old(paths), RenderAll(path, IndexMismatches(xs, ys, Longer(|xs|, |ys|))))
      decreases xs, 1
    {
      var n := 0;
      while n < Longer(|xs|, |ys|)
        invariant n <= Longer(|xs|, |ys|) && |paths| != MAX_PATHS
        invariant paths == Capped(old(paths), RenderAll(path, IndexMismatches(xs, ys, n)))
      {
        ghost var before := paths;
        CollectItem(xs, ys, n, path);
        CappedStep(old(paths), path, IndexMismatches(xs, ys, n), IndexMismatch(xs, ys, n));
        n := n + 1;
        if |paths| == MAX_PATHS {
          break;
        }
      }
      IndexMismatchesPrefix(xs, ys, n, Longer(|xs|, |ys|));
      CappedEarly(old(paths), path, IndexMismatches(xs, ys, n), IndexMismatches(xs, ys, Longer(|xs|, |ys|)));
    }

    /** One index. */
    method CollectItem(xs: seq<Value>, ys: seq<Value>, n: nat, path: string)
      requires |paths| != MAX_PATHS && n < Longer(|xs|, |ys|)
      modifies this
      ensures paths == Capped(old(paths), RenderAll(path, IndexMismatch(xs, ys, n)))
      decreases xs, 0
    {
      var child := path + "/" + Decimal(n);
      IndexMismatchText(path, xs, ys, n);
      if n < |xs| && n < |ys| {
        Collect(xs[n], ys[n], child);
      } else {
        paths := paths + [child];
      }
    }
  }

  /** One key more: the log grew by what is found under it. */
  lemma {:induction false} KeyStep(start: seq<string>, before: seq<string>, log: seq<string>, path: string,
                fs: seq<Field>, gs: seq<Field>, keys: seq<string>, n: nat)
    requires n < |keys| && before == Capped(start, RenderAll(path, KeyMismatches(fs, gs, keys[..n])))
    requires log == Capped(before, RenderAll(path, KeyMismatch(fs, gs, keys[n])))
    ensures log == Capped(start, RenderAll(path, KeyMismatches(fs, gs, keys[..n + 1])))
  {
    KeyMismatchesStep(fs, gs, keys, n);
    CappedStep(start, path, KeyMismatches(fs, gs, keys[..n]), KeyMismatch(fs, gs, keys[n]));
  }

  /** Every key was visited, or the log is full. */
  lemma {:induction false} KeysEnd(start: seq<string>, log: seq<string>, path: string, fs: seq<Field>, gs: seq<Field>,
                                   keys: seq<string>, n: nat)
    requires n <= |keys| && log == Capped(start, RenderAll(path, KeyMismatches(fs, gs, keys[..n])))
    requires n == |keys| || |log| == MAX_PATHS
    ensures log == Capped(start, RenderAll(path, KeyMismatches(fs, gs, keys)))
  {
    KeyMismatchesPrefix(fs, gs, keys, n);
    CappedEarly(start, path, KeyMismatches(fs, gs, keys[..n]), KeyMismatches(fs, gs, keys));
    assert n == |keys| ==> keys[..n] == keys;
  }

  lemma {:induction false} KeyMismatchesStep(fs: seq<Field>, gs: seq<Field>, keys: seq<string>, n: nat)
    requires n < |keys|
    ensures KeyMismatches(fs, gs, keys[..n + 1]) == KeyMismatches(fs, gs, keys[..n]) + KeyMismatch(fs, gs, keys[n])
  {
    assert keys[..n + 1][..n] == keys[..n] && keys[..n + 1][n] == keys[n];
  }

  lemma {:induction false} KeyMismatchesPrefix(fs: seq<Field>, gs: seq<Field>, keys: seq<string>, n: nat)
    requires n <= |keys|
    ensures KeyMismatches(fs, gs, keys[..n]) <= KeyMismatches(fs, gs, keys)
    decreases |keys| - n
  {
    if n == |keys| {
      assert keys[..n] == keys;
    } else {
      KeyMismatchesStep(fs, gs, keys, n);
      KeyMismatchesPrefix(fs, gs, keys, n + 1);
    }
  }

  lemma {:induction false} IndexMismatchesPrefix(xs: seq<Value>, ys: seq<Value>, m: nat, n: nat)
    requires m <= n
    ensures IndexMismatches(xs, ys, m) <= IndexMismatches(xs, ys, n)
    decreases n
  {
    if m < n {
      IndexMismatchesPrefix(xs, ys, m, n - 1);
    }
  }

  lemma {:induction false} CappedStep(log: seq<string>, path: string, done: seq<Tokens>, next: seq<Tokens>)
    ensures Capped(Capped(log, RenderAll(path, done)), RenderAll(path, next))
            == Capped(log, RenderAll(path, done + next))
  {
    RenderAllAppend(path, done, next);
    CappedTwice(log, RenderAll(path, done), RenderAll(path, next));
  }

  lemma {:induction false} CappedEarly(log: seq<string>, path: string, done: seq<Tokens>, all: seq<Tokens>)
    requires done <= all
    ensures |Capped(log, RenderAll(path, done))| == MAX_PATHS ==>
              Capped(log, RenderAll(path, done)) == Capped(log, RenderAll(path, all))
  {
    assert all == done + all[|done|..];
    RenderAllAppend(path, done, all[|done|..]);
    CappedTwice(log, RenderAll(path, done), RenderAll(path, all[|done|..]));
  }
}
