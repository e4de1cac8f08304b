/** `compare_response_parity`: counts comparisons and mismatches and keeps a list
    of distinct scoped mismatch paths. */
module ResponseParity {
  import opened Json
  import opened JsonDiff
  import opened JsonDiffProperties
  import opened Selection

  /** What the collecting loop leaves in the list: known paths are skipped, and
      the loop stops when a push brings the length to exactly 32. */
  function Recorded(list: seq<string>, incoming: seq<string>): seq<string>
    decreases |incoming|
  {
    if incoming == [] then list
    else if incoming[0] in list then Recorded(list, incoming[1..])
    else if |list| + 1 == MAX_PATHS then list + [incoming[0]]
    else Recorded(list + [incoming[0]], incoming[1..])
  }

  function Scoped(scope: string, report: seq<string>): (r: seq<string>)
    ensures |r| == |report| && forall i :: 0 <= i < |r| ==> r[i] == scope + ":" + report[i]
  {
    seq(|report|, i requires 0 <= i < |report| => scope + ":" + report[i])
  }

  /** The list after one comparison. */
  function AfterComparison(list: seq<string>, expected: Value, actual: Value, scope: string): seq<string> {
    if Same(expected, actual) then list else Recorded(list, Scoped(scope, Report(expected, actual)))
  }

  class ParityTally {
    var checked: nat
    var mismatches: nat
    var paths: seq<string>

    constructor ()
      ensures checked == mismatches == 0 && paths == []
    {
      checked, mismatches, paths := 0, 0, [];
    }

    /** `compare_response_parity` */
    method Compare(expected: Value, actual: Value, scope: string)
      modifies this
      ensures checked == old(checked) + 1
      ensures mismatches == old(mismatches) + if Same(expected, actual) then 0 else 1
      ensures paths == AfterComparison(old(paths), expected, actual, scope)
    {
      checked := checked + 1;
      if Same(expected, actual) {
        return;
      }
      mismatches := mismatches + 1;
      var log := new PathLog();
      log.Collect(expected, actual, "");
      Record(log.paths, scope);
    }

    /** The loop over the reported paths. */
    method Record(report: seq<string>, scope: string)
      modifies this`paths
      ensures paths == Recorded(old(paths), Scoped(scope, report))
    {
      ghost var incoming := Scoped(scope, report);
      var n := 0;
      while n < |report|
        invariant n <= |report|
        invariant Recorded(paths, incoming[n..]) == Recorded(old(paths), incoming)
      {
        var scoped := scope + ":" + report[n];
        assert incoming[n..][0] == scoped && incoming[n..][1..] == incoming[n + 1..];
        n := n + 1;
        if scoped !in paths {
          paths := paths + [scoped];
          if |paths| == MAX_PATHS {
            return;
          }
        }
      }
      assert incoming[n..] == [];
    }
  }

  ghost predicate Distinct(list: seq<string>) {
    forall i, j :: 0 <= i < j < |list| ==> list[i] != list[j]
  }

  /** A comparison only appends, appends only paths of its own report, and never
      adds a duplicate; a path of the report is missing afterwards only if the
      list was stopped at 32. */
  lemma {:induction false} RecordedAppendsNew(list: seq<string>, incoming: seq<string>)
    ensures var r := Recorded(list, incoming);
            list <= r
            && (Distinct(list) ==> Distinct(r))
            && (forall p :: p in r ==> p in list || p in incoming)
            && (|r| != 32 || |list| >= 32 ==> forall p :: p in incoming ==> p in r)
    decreases |incoming|
  {
    if incoming != [] {
      assert incoming == [incoming[0]] + incoming[1..];
      if incoming[0] in list {
        RecordedAppendsNew(list, incoming[1..]);
      } else if |list| + 1 != MAX_PATHS {
        RecordedAppendsNew(list + [incoming[0]], incoming[1..]);
        var r := Recorded(list, incoming);
        assert list + [incoming[0]] <= r;
        assert r[|list|] == incoming[0];
      }
    }
  }

  // ---- exactly which paths are appended ----

  /** This path is not in the list yet, nor among the incoming ones before. */
  ghost function New(list: seq<string>, incoming: seq<string>): nat -> bool {
    (i: nat) => i < |incoming| && incoming[i] !in list && incoming[i] !in incoming[..i]
  }

  /** The list was below 32 and has come to 32. */
  predicate Stopped(list: seq<string>, r: seq<string>) {
    |list| < 32 == |r|
  }

  /** One more incoming path is looked at last. */
  lemma {:induction false} RecordedSnoc(list: seq<string>, incoming: seq<string>, path: string)
    ensures var r := Recorded(list, incoming);
            Recorded(list, incoming + [path]) == if Stopped(list, r) || path in r then r else r + [path]
    decreases |incoming|
  {
    if incoming == [] {
      assert incoming + [path] == [path] && [path][1..] == [];
    } else {
      assert (incoming + [path])[1..] == incoming[1..] + [path];
      var first := incoming[0];
      if first in list {
        RecordedSnoc(list, incoming[1..], path);
      } else if |list| + 1 != 32 {
        RecordedSnoc(list + [first], incoming[1..], path);
      }
    }
  }

  /** The list grew by the paths at these places, up to the cap if it was below it. */
  ghost predicate Grew(list: seq<string>, incoming: seq<string>, at: seq<nat>, r: seq<string>) {
    && list <= r && |r| - |list| == (if |list| < 32 <= |list| + |at| then 32 - |list| else |at|)
    && forall k :: 0 <= k < |r| - |list| ==> at[k] < |incoming| && r[|list| + k] == incoming[at[k]]
  }

  /** A comparison appends exactly the new paths, each once and in order; a list below 32
      takes only so many that it comes to 32. */
  lemma {:induction false} RecordedIs(list: seq<string>, incoming: seq<string>) returns (at: seq<nat>)
    ensures Picks(at, |incoming|, New(list, incoming)) && Grew(list, incoming, at, Recorded(list, incoming))
  {
    if incoming == [] {
      at := [];
    } else {
      var n := |incoming| - 1;
      assert incoming == incoming[..n] + [incoming[n]];
      var before := RecordedIs(list, incoming[..n]);
      SameBefore(list, incoming, before);
      PicksNext(before, n, New(list, incoming));
      RecordedSnoc(list, incoming[..n], incoming[n]);
      RecordedAppendsNew(list, incoming[..n]);
      at := if New(list, incoming)(n) then before + [n] else before;
      GrewNext(list, incoming, before, Recorded(list, incoming[..n]));
    }
  }

  lemma {:induction false} SameBefore(list: seq<string>, incoming: seq<string>, at: seq<nat>)
    requires incoming != [] && Picks(at, |incoming| - 1, New(list, incoming[..|incoming| - 1]))
    ensures Picks(at, |incoming| - 1, New(list, incoming))
  {
    var n := |incoming| - 1;
    forall i: nat ensures i in at <==> i < n && New(list, incoming)(i) {
      assert i < n ==> incoming[..n][..i] == incoming[..i];
    }
  }

  lemma {:induction false} GrewNext(list: seq<string>, incoming: seq<string>, before: seq<nat>, r: seq<string>)
    requires incoming != []
    requires var n := |incoming| - 1; Grew(list, incoming[..n], before, r)
    requires var n := |incoming| - 1;
             !Stopped(list, r) ==> (incoming[n] in r <==> incoming[n] in list || incoming[n] in incoming[..n])
    ensures var n := |incoming| - 1;
            Grew(list, incoming, if New(list, incoming)(n) then before + [n] else before,
                 if Stopped(list, r) || incoming[n] in r then r else r + [incoming[n]])
  {
  }

  /** The equality test on the cap holds the list at 32 or fewer exactly when the
      list was entered below 32, or at 32 with nothing new to add. */
  lemma {:induction false} WithinCapIff(list: seq<string>, incoming: seq<string>)
    ensures |Recorded(list, incoming)| <= 32 <==>
            |list| < 32 || (|list| == 32 && forall p :: p in incoming ==> p in list)
    decreases |incoming|
  {
    if incoming != [] {
      assert incoming == [incoming[0]] + incoming[1..];
      if incoming[0] in list {
        WithinCapIff(list, incoming[1..]);
      } else if |list| + 1 != MAX_PATHS {
        WithinCapIff(list + [incoming[0]], incoming[1..]);
        assert |list| >= MAX_PATHS ==> incoming[0] in incoming && incoming[0] !in list;
      }
    }
  }

  /** The step past the cap: a full list that meets a new path gets a 33rd. */
  lemma {:induction false} CapIsExceeded(list: seq<string>, scope: string)
    requires |list| == 32 && scope + ":" + "/" !in list
    ensures |AfterComparison(list, Null, Bool(true), scope)| == 33
  {
    assert Mismatches(Null, Bool(true)) == [[]];
    assert Report(Null, Bool(true)) == ["/"];
    var incoming := Scoped(scope, Report(Null, Bool(true)));
    assert incoming[0] == scope + ":" + "/" && incoming[1..] == [];
    assert Recorded(list, incoming) == Recorded(list + [incoming[0]], incoming[1..]);
  }

  /** One comparison, entered below the cap with a duplicate-free list, keeps both. */
  lemma {:induction false} ComparisonKeepsListBounded(list: seq<string>, expected: Value, actual: Value, scope: string)
    requires Distinct(list)
    ensures Distinct(AfterComparison(list, expected, actual, scope))
    ensures |list| < 32 ==> |AfterComparison(list, expected, actual, scope)| <= 32
  {
    RecordedAppendsNew(list, Scoped(scope, Report(expected, actual)));
    WithinCapIff(list, Scoped(scope, Report(expected, actual)));
  }
}
