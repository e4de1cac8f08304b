/** Picking some places of a list in order. */
module Selection {
  /** Ascending places below `n`. */
  ghost predicate Places(at: seq<nat>, n: nat) {
    && (forall k :: 0 <= k < |at| ==> at[k] < n)
    && (forall j, k :: 0 <= j < k < |at| ==> at[j] < at[k])
  }

  lemma {:induction false} PlacesFit(at: seq<nat>, n: nat)
    requires Places(at, n)
    ensures |at| <= n
  {
    if at != [] {
      var front, last := at[..|at| - 1], at[|at| - 1];
      PlacesFit(front, last);
    }
  }

  /** The places below `n` where `p` holds, in order. */
  ghost predicate Picks(at: seq<nat>, n: nat, p: nat -> bool) {
    Places(at, n) && forall i: nat :: i in at <==> i < n && p(i)
  }

  lemma {:induction false} PicksNext(at: seq<nat>, n: nat, p: nat -> bool)
    requires Picks(at, n, p)
    ensures Picks(if p(n) then at + [n] else at, n + 1, p)
  {
    var next := if p(n) then at + [n] else at;
    forall i: nat ensures i in next <==> i < n + 1 && p(i) {
      assert p(n) ==> (i in next <==> i in at || i == n);
    }
  }

  /** Only one list selects the places. */
  lemma {:induction false} PicksOnce(a: seq<nat>, b: seq<nat>, n: nat, p: nat -> bool)
    requires Picks(a, n, p) && Picks(b, n, p)
    ensures a == b
    decreases n
  {
    if n == 0 {
      PlacesFit(a, n);
      PlacesFit(b, n);
    } else {
      var c := Before(a, n, p);
      var d := Before(b, n, p);
      PicksOnce(c, d, n - 1, p);
    }
  }

  lemma {:induction false} GreatestIsLast(at: seq<nat>, n: nat, k: nat)
    requires Places(at, n) && k < |at| && at[k] == n - 1
    ensures k == |at| - 1
  {
    var last := at[|at| - 1];
    assert last < n;
  }

  /** The places below the last one. */
  lemma {:induction false} Before(at: seq<nat>, n: nat, p: nat -> bool) returns (front: seq<nat>)
    requires n > 0 && Picks(at, n, p)
    ensures Picks(front, n - 1, p) && at == if p(n - 1) then front + [n - 1] else front
  {
    if p(n - 1) {
      assert n - 1 in at;
      var k :| 0 <= k < |at| && at[k] == n - 1;
      GreatestIsLast(at, n, k);
      front := at[..k];
      forall i: nat ensures i in front <==> i < n - 1 && p(i) {
        if i in front {
          assert i in at;
        }
        if i < n - 1 && p(i) {
          assert i in at;
          var j :| 0 <= j < |at| && at[j] == i;
          assert front[j] == i;
        }
      }
    } else {
      front := at;
      forall k | 0 <= k < |at| ensures at[k] < n - 1 {
        assert at[k] in at;
      }
    }
  }
}
