/** `bootstrap_interval`: resamples the pairs within each task. */
module Bootstrap {
  import opened Text
  import opened Sorting
  import opened SuiteCompare
  import XorShift

  datatype Interval = Interval(lower: real, upper: real)

  /** The pairs of each task, tasks in ascending order: the `BTreeMap` of groups. */
  function Groups(pairs: seq<Pair>): (r: seq<seq<Pair>>)
    ensures |r| == |SortedKeys(TaskIdsOf(pairs))|
    ensures forall k :: 0 <= k < |r| ==> r[k] == ForTask(pairs, SortedKeys(TaskIdsOf(pairs))[k])
  {
    var tasks := SortedKeys(TaskIdsOf(pairs));
    seq(|tasks|, k requires 0 <= k < |tasks| => ForTask(pairs, tasks[k]))
  }

  lemma {:induction false} ForTaskContains(pairs: seq<Pair>, task: string)
    ensures forall p :: p in ForTask(pairs, task) <==> p in pairs && p.base.taskId == task
  {
    if pairs != [] {
      ForTaskContains(pairs[..|pairs| - 1], task);
      assert pairs == pairs[..|pairs| - 1] + [pairs[|pairs| - 1]];
    }
  }

  /** Groups are not empty, and hold nothing but pairs. */
  lemma {:induction false} GroupsHoldPairs(pairs: seq<Pair>)
    ensures forall k, i :: 0 <= k < |Groups(pairs)| && 0 <= i < |Groups(pairs)[k]| ==> Groups(pairs)[k][i] in pairs
    ensures forall k :: 0 <= k < |Groups(pairs)| ==> Groups(pairs)[k] != []
    ensures pairs != [] ==> Groups(pairs) != []
  {
    var tasks := SortedKeys(TaskIdsOf(pairs));
    forall k, i | 0 <= k < |Groups(pairs)| && 0 <= i < |Groups(pairs)[k]| ensures Groups(pairs)[k][i] in pairs {
      ForTaskContains(pairs, tasks[k]);
      assert Groups(pairs)[k][i] in ForTask(pairs, tasks[k]);
    }
    forall k | 0 <= k < |Groups(pairs)| ensures Groups(pairs)[k] != [] {
      assert tasks[k] in tasks && tasks[k] in TaskIdsOf(pairs);
      var i :| 0 <= i < |pairs| && pairs[i].base.taskId == tasks[k];
      ForTaskContains(pairs, tasks[k]);
      assert pairs[i] in ForTask(pairs, tasks[k]);
    }
    if pairs != [] {
      assert TaskIdsOf(pairs)[0] in TaskIdsOf(pairs);
      assert TaskIdsOf(pairs)[0] in tasks;
    }
  }

  /** These amounts stay within any bounds of the paired savings. */
  ghost predicate InRange(pairs: seq<Pair>, baseline: nat, candidate: nat) {
    forall lo, hi :: AllBetween(pairs, lo, hi) ==> Between(baseline, candidate, lo, hi)
  }

  lemma {:induction false} DrawStaysInRange(pairs: seq<Pair>, baseline: nat, candidate: nat, pair: Pair)
    requires InRange(pairs, baseline, candidate) && pair in pairs
    ensures InRange(pairs, baseline + pair.base.totalInput, candidate + pair.cand.totalInput)
  {
    forall lo, hi | AllBetween(pairs, lo, hi)
      ensures Between(baseline + pair.base.totalInput, candidate + pair.cand.totalInput, lo, hi)
    {
      assert Between(pair.base.totalInput, pair.cand.totalInput, lo, hi);
      BetweenAdds(baseline, candidate, pair.base.totalInput, pair.cand.totalInput, lo, hi);
    }
  }

  // ---- what is drawn ----

  /** The amounts drawn so far and the generator's state. */
  datatype Drawn = Drawn(baseline: nat, candidate: nat, state: bv64)

  /** `n` draws, with replacement, from one group. */
  function DrawPairs(group: seq<Pair>, n: nat, from: Drawn): Drawn
    requires group != []
  {
    if n == 0 then from
    else
      var d := DrawPairs(group, n - 1, from);
      var state := XorShift.Step(d.state);
      var pair := group[(state as int) % |group|];
      Drawn(d.baseline + pair.base.totalInput, d.candidate + pair.cand.totalInput, state)
  }

  /** From each of the first `n` groups as many draws as it has pairs. */
  function DrawGroups(groups: seq<seq<Pair>>, n: nat, from: Drawn): Drawn
    requires n <= |groups| && forall k :: 0 <= k < |groups| ==> groups[k] != []
  {
    if n == 0 then from else DrawPairs(groups[n - 1], |groups[n - 1]|, DrawGroups(groups, n - 1, from))
  }

  function DrawAll(pairs: seq<Pair>, state: bv64): Drawn
    requires PositiveBaselines(pairs)
  {
    GroupsHoldPairs(pairs);
    DrawGroups(Groups(pairs), |Groups(pairs)|, Drawn(0, 0, state))
  }

  /** The first `n` samples, and the state after them. */
  function Samples(pairs: seq<Pair>, n: nat, state: bv64): (seq<real>, bv64)
    requires PositiveBaselines(pairs)
  {
    if n == 0 then ([], state)
    else
      var (samples, now) := Samples(pairs, n - 1, state);
      var d := DrawAll(pairs, now);
      DrawAllInRange(pairs, now);
      (samples + [Savings(d.baseline, d.candidate)], d.state)
  }

  lemma {:induction false} DrawPairsInRange(pairs: seq<Pair>, group: seq<Pair>, n: nat, from: Drawn)
    requires PositiveBaselines(pairs) && group != [] && forall i :: 0 <= i < |group| ==> group[i] in pairs
    requires InRange(pairs, from.baseline, from.candidate)
    ensures var d := DrawPairs(group, n, from);
            InRange(pairs, d.baseline, d.candidate) && d.baseline >= from.baseline + n
  {
    if n > 0 {
      DrawPairsInRange(pairs, group, n - 1, from);
      var d := DrawPairs(group, n - 1, from);
      var pair := group[(XorShift.Step(d.state) as int) % |group|];
      DrawStaysInRange(pairs, d.baseline, d.candidate, pair);
      assert pair.base.totalInput > 0;
    }
  }

  lemma {:induction false} DrawGroupsInRange(pairs: seq<Pair>, n: nat, from: Drawn)
    requires PositiveBaselines(pairs) && n <= |Groups(pairs)| && InRange(pairs, from.baseline, from.candidate)
    requires forall k :: 0 <= k < |Groups(pairs)| ==> Groups(pairs)[k] != []
    ensures var d := DrawGroups(Groups(pairs), n, from);
            InRange(pairs, d.baseline, d.candidate) && d.baseline >= from.baseline + n
  {
    if n > 0 {
      DrawGroupsInRange(pairs, n - 1, from);
      var groups, before := Groups(pairs), DrawGroups(Groups(pairs), n - 1, from);
      GroupInRange(pairs, n - 1, before);
      assert DrawGroups(groups, n, from) == DrawPairs(groups[n - 1], |groups[n - 1]|, before);
    }
  }

  lemma {:induction false} GroupInRange(pairs: seq<Pair>, k: nat, from: Drawn)
    requires PositiveBaselines(pairs) && k < |Groups(pairs)| && InRange(pairs, from.baseline, from.candidate)
    ensures Groups(pairs)[k] != []
    ensures var d := DrawPairs(Groups(pairs)[k], |Groups(pairs)[k]|, from);
            InRange(pairs, d.baseline, d.candidate) && d.baseline > from.baseline
  {
    GroupsHoldPairs(pairs);
    DrawPairsInRange(pairs, Groups(pairs)[k], |Groups(pairs)[k]|, from);
  }

  lemma {:induction false} DrawAllInRange(pairs: seq<Pair>, state: bv64)
    requires PositiveBaselines(pairs)
    ensures var d := DrawAll(pairs, state); InRange(pairs, d.baseline, d.candidate) && d.baseline > 0
  {
    GroupsHoldPairs(pairs);
    DrawGroupsInRange(pairs, |Groups(pairs)|, Drawn(0, 0, state));
  }

  /** Every sample lies between the least and the greatest paired savings, whatever
      the generator does. */
  lemma {:induction false} SamplesBounded(pairs: seq<Pair>, n: nat, state: bv64)
    requires PositiveBaselines(pairs)
    ensures var samples := Samples(pairs, n, state).0;
            |samples| == n && forall i :: 0 <= i < n ==> SavingsBounded(pairs, samples[i])
  {
    if n > 0 {
      SamplesBounded(pairs, n - 1, state);
      var now := Samples(pairs, n - 1, state).1;
      DrawAllInRange(pairs, now);
      SampleIsBounded(pairs, DrawAll(pairs, now));
    }
  }

  lemma {:induction false} SampleIsBounded(pairs: seq<Pair>, d: Drawn)
    requires PositiveBaselines(pairs) && InRange(pairs, d.baseline, d.candidate) && d.baseline > 0
    ensures SavingsBounded(pairs, Savings(d.baseline, d.candidate))
  {
    forall lo, hi | BoundSavings(pairs, lo, hi) ensures lo <= Savings(d.baseline, d.candidate) <= hi {
      BoundsAgree(pairs, lo, hi);
      BetweenIff(d.baseline, d.candidate, lo, hi);
    }
  }

  /** The inner loop: as many draws from a group as it has pairs. */
  method DrawGroup(rng: XorShift.XorShift64, group: seq<Pair>, baseline: nat, candidate: nat) returns (b: nat, c: nat)
    requires group != []
    modifies rng
    ensures Drawn(b, c, rng.state) == DrawPairs(group, |group|, Drawn(baseline, candidate, old(rng.state)))
  {
    b, c := baseline, candidate;
    var n := 0;
    while n < |group|
      invariant n <= |group|
                && Drawn(b, c, rng.state) == DrawPairs(group, n, Drawn(baseline, candidate, old(rng.state)))
    {
      var at := rng.Index(|group|);
      b := b + group[at].base.totalInput;
      c := c + group[at].cand.totalInput;
      n := n + 1;
    }
  }

  /** One stratified sample. */
  method DrawSample(rng: XorShift.XorShift64, pairs: seq<Pair>) returns (sample: real)
    requires PositiveBaselines(pairs)
    modifies rng
    ensures var d := DrawAll(pairs, old(rng.state));
            rng.state == d.state && d.baseline > 0 && sample == Savings(d.baseline, d.candidate)
  {
    GroupsHoldPairs(pairs);
    var baseline, candidate := DrawFrom(rng, Groups(pairs));
    DrawAllInRange(pairs, old(rng.state));
    sample := Savings(baseline, candidate);
  }

  /** The loop over the groups. */
  method DrawFrom(rng: XorShift.XorShift64, groups: seq<seq<Pair>>) returns (baseline: nat, candidate: nat)
    requires forall k :: 0 <= k < |groups| ==> groups[k] != []
    modifies rng
    ensures Drawn(baseline, candidate, rng.state) == DrawGroups(groups, |groups|, Drawn(0, 0, old(rng.state)))
  {
    baseline, candidate := 0, 0;
    var n := 0;
    while n < |groups|
      invariant n <= |groups|
      invariant Drawn(baseline, candidate, rng.state) == DrawGroups(groups, n, Drawn(0, 0, old(rng.state)))
    {
      baseline, candidate := DrawGroup(rng, groups[n], baseline, candidate);
      n := n + 1;
    }
  }

  /** Bounds of the paired savings. */
  ghost predicate BoundSavings(pairs: seq<Pair>, lo: real, hi: real)
    requires PositiveBaselines(pairs)
  {
    forall i :: 0 <= i < |pairs| ==> lo <= Savings(pairs[i].base.totalInput, pairs[i].cand.totalInput) <= hi
  }

  /** The value lies between the least and the greatest paired savings. */
  ghost predicate SavingsBounded(pairs: seq<Pair>, x: real)
    requires PositiveBaselines(pairs)
  {
    forall lo, hi :: BoundSavings(pairs, lo, hi) ==> lo <= x <= hi
  }

  lemma {:induction false} BoundsAgree(pairs: seq<Pair>, lo: real, hi: real)
    requires PositiveBaselines(pairs) && BoundSavings(pairs, lo, hi)
    ensures AllBetween(pairs, lo, hi)
  {
    forall i | 0 <= i < |pairs| ensures Between(pairs[i].base.totalInput, pairs[i].cand.totalInput, lo, hi) {
      BetweenIff(pairs[i].base.totalInput, pairs[i].cand.totalInput, lo, hi);
    }
  }

  // ---- sorting the samples ----

  predicate RealLess(x: real, y: real) {
    x < y
  }

  function SortReals(list: seq<real>): seq<real> {
    Sort(list, RealLess)
  }

  ghost predicate SortedReals(list: seq<real>) {
    forall i, j :: 0 <= i < j < |list| ==> list[i] <= list[j]
  }

  lemma {:induction false} SortRealsSorts(list: seq<real>)
    ensures multiset(SortReals(list)) == multiset(list) && SortedReals(SortReals(list))
  {
    SortContents(list, RealLess);
    SortSorts(list, RealLess);
    var sorted := SortReals(list);
    forall i, j | 0 <= i < j < |sorted| ensures sorted[i] <= sorted[j] {
      assert !RealLess(sorted[j], sorted[i]);
    }
  }
}
