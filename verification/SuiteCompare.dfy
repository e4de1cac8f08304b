/** `compare`: paired runs of two arms, their totals and savings. Ratios are exact
    reals. */
module SuiteCompare {
  import opened Wrappers
  import opened Text
  import opened SuiteRuns

  datatype Pair = Pair(base: Run, cand: Run)

  datatype Failure = Incomplete | MissingPair

  // ---- pairing ----

  function FilterArm(runs: seq<Run>, arm: string): seq<Run> {
    if runs == [] then []
    else
      var rest := FilterArm(runs[..|runs| - 1], arm);
      if runs[|runs| - 1].arm == arm then rest + [runs[|runs| - 1]] else rest
  }

  /** `by_key`: a later run wins. */
  function FindRun(runs: seq<Run>, key: Key): (r: Option<Run>)
    ensures r.Some? ==> r.value in runs && KeyOf(r.value) == key
    ensures r.None? ==> forall i :: 0 <= i < |runs| ==> KeyOf(runs[i]) != key
  {
    if runs == [] then None
    else if KeyOf(runs[|runs| - 1]) == key then Some(runs[|runs| - 1])
    else FindRun(runs[..|runs| - 1], key)
  }

  predicate HasPartner(runs: seq<Run>, run: Run, candidate: string) {
    FindRun(runs, (run.taskId, candidate, run.repetition)).Some?
  }

  /** Each baseline run with the candidate run of its task and repetition. */
  ghost predicate PairsOf(runs: seq<Run>, baseline: string, candidate: string, pairs: seq<Pair>) {
    var bases := FilterArm(runs, baseline);
    |pairs| == |bases| && forall i :: 0 <= i < |pairs| ==>
      pairs[i].base == bases[i]
          && Some(pairs[i].cand) == FindRun(runs, (bases[i].taskId, candidate, bases[i].repetition))
  }

  ghost predicate Pairable(runs: seq<Run>, baseline: string, candidate: string) {
    && |FilterArm(runs, baseline)| == |FilterArm(runs, candidate)| != 0
    && forall i :: 0 <= i < |FilterArm(runs, baseline)| ==> HasPartner(runs, FilterArm(runs, baseline)[i], candidate)
  }

  /** The pairing loop of `compare`. */
  method PairRuns(runs: seq<Run>, baseline: string, candidate: string) returns (r: Result<seq<Pair>, Failure>)
    ensures r.Ok? <==> Pairable(runs, baseline, candidate)
    ensures r.Ok? ==> PairsOf(runs, baseline, candidate, r.value)
  {
    var bases := FilterArm(runs, baseline);
    if |bases| != |FilterArm(runs, candidate)| || |bases| == 0 {
      return Err(Incomplete);
    }
    var pairs: seq<Pair> := [];
    var n := 0;
    while n < |bases|
      invariant n == |pairs| <= |bases|
      invariant forall i :: 0 <= i < n ==>
        pairs[i].base == bases[i]
            && Some(pairs[i].cand) == FindRun(runs, (bases[i].taskId, candidate, bases[i].repetition))
      invariant forall i :: 0 <= i < n ==> HasPartner(runs, bases[i], candidate)
    {
      var partner := FindRun(runs, (bases[n].taskId, candidate, bases[n].repetition));
      if partner.None? {
        assert !HasPartner(runs, bases[n], candidate);
        return Err(MissingPair);
      }
      pairs := pairs + [Pair(bases[n], partner.value)];
      n := n + 1;
    }
    r := Ok(pairs);
  }

  // ---- a complete schedule always pairs up ----

  lemma {:induction false} FilterArmContains(runs: seq<Run>, arm: string)
    ensures forall r :: r in FilterArm(runs, arm) <==> r in runs && r.arm == arm
  {
    if runs != [] {
      FilterArmContains(runs[..|runs| - 1], arm);
      assert runs == runs[..|runs| - 1] + [runs[|runs| - 1]];
    }
  }

  lemma {:induction false} FilterArmDistinct(runs: seq<Run>, arm: string)
    requires DistinctKeys(runs)
    ensures DistinctKeys(FilterArm(runs, arm))
  {
    if runs != [] {
      var front := runs[..|runs| - 1];
      FilterArmDistinct(front, arm);
      FilterArmContains(front, arm);
      var kept := FilterArm(front, arm);
      forall i | 0 <= i < |kept| ensures KeyOf(kept[i]) != KeyOf(runs[|runs| - 1]) {
        assert kept[i] in front;
      }
    }
  }

  /** The keys an arm of a complete schedule covers. */
  lemma {:induction false} ArmKeys(m: Manifest, runs: seq<Run>, arm: string, k: Key)
    requires ValidManifest(m) && Complete(m, runs) && arm in ArmNames(m)
    ensures k in KeySet(FilterArm(runs, arm)) <==> k in ForTasks(TaskIds(m), [arm], m.repetitions)
  {
    var kept := FilterArm(runs, arm);
    FilterArmContains(runs, arm);
    SetsContain(runs);
    SetsContain(kept);
    ForTasksContains(TaskIds(m), [arm], m.repetitions, k);
    ForTasksContains(TaskIds(m), ArmNames(m), m.repetitions, k);
    if k in KeySet(kept) {
      var i :| 0 <= i < |kept| && KeyOf(kept[i]) == k;
      assert kept[i] in runs;
      assert k in KeySet(runs);
    }
    if k in KeySet(runs) && k.1 == arm {
      var i :| 0 <= i < |runs| && KeyOf(runs[i]) == k;
      assert runs[i] in kept;
    }
  }

  /** Every arm of a complete schedule has one run per task and repetition. */
  lemma {:induction false} ArmSize(m: Manifest, runs: seq<Run>, arm: string)
    requires ValidManifest(m) && Complete(m, runs) && arm in ArmNames(m)
    ensures |FilterArm(runs, arm)| == |m.tasks| * m.repetitions
  {
    FilterArmDistinct(runs, arm);
    KeySetSize(FilterArm(runs, arm));
    FullSetIsDistinct(TaskIds(m));
    ForTasksSize(TaskIds(m), [arm], m.repetitions);
    forall k ensures k in KeySet(FilterArm(runs, arm)) <==> k in ForTasks(TaskIds(m), [arm], m.repetitions) {
      ArmKeys(m, runs, arm, k);
    }
    assert KeySet(FilterArm(runs, arm)) == ForTasks(TaskIds(m), [arm], m.repetitions);
  }

  /** On a complete schedule `compare` of any two arms of the manifest neither finds
      the arms incomplete nor misses a partner. */
  lemma {:induction false} CompleteIsPairable(m: Manifest, runs: seq<Run>, baseline: string, candidate: string)
    requires ValidManifest(m) && Complete(m, runs) && baseline in ArmNames(m) && candidate in ArmNames(m)
    ensures Pairable(runs, baseline, candidate)
  {
    ArmSize(m, runs, baseline);
    ArmSize(m, runs, candidate);
    assert |m.tasks| * m.repetitions > 0;
    var bases := FilterArm(runs, baseline);
    FilterArmContains(runs, baseline);
    SetsContain(runs);
    forall i | 0 <= i < |bases| ensures HasPartner(runs, bases[i], candidate) {
      assert bases[i] in runs;
      var k := KeyOf(bases[i]);
      assert k in KeySet(runs);
      ScheduleMember(m, k.0, k.1, k.2);
      ScheduleMember(m, k.0, candidate, k.2);
      assert (k.0, candidate, k.2) in KeySet(runs);
    }
  }

  // ---- totals ----

  function BaseSum(pairs: seq<Pair>): nat {
    if pairs == [] then 0 else BaseSum(pairs[..|pairs| - 1]) + pairs[|pairs| - 1].base.totalInput
  }

  function CandSum(pairs: seq<Pair>): nat {
    if pairs == [] then 0 else CandSum(pairs[..|pairs| - 1]) + pairs[|pairs| - 1].cand.totalInput
  }

  function ForTask(pairs: seq<Pair>, task: string): seq<Pair> {
    if pairs == [] then []
    else
      var rest := ForTask(pairs[..|pairs| - 1], task);
      if pairs[|pairs| - 1].base.taskId == task then rest + [pairs[|pairs| - 1]] else rest
  }

  /** The per-task totals of these tasks, added up. */
  function BaseOver(pairs: seq<Pair>, tasks: seq<string>): nat {
    if tasks == [] then 0 else BaseSum(ForTask(pairs, tasks[0])) + BaseOver(pairs, tasks[1..])
  }

  function CandOver(pairs: seq<Pair>, tasks: seq<string>): nat {
    if tasks == [] then 0 else CandSum(ForTask(pairs, tasks[0])) + CandOver(pairs, tasks[1..])
  }

  lemma {:induction false} SumsOfSnoc(pairs: seq<Pair>, p: Pair)
    ensures BaseSum(pairs + [p]) == BaseSum(pairs) + p.base.totalInput
    ensures CandSum(pairs + [p]) == CandSum(pairs) + p.cand.totalInput
    ensures forall task ::
              ForTask(pairs + [p], task) == ForTask(pairs, task) + (if p.base.taskId == task then [p] else [])
  {
    assert (pairs + [p])[..|pairs|] == pairs;
    forall task
      ensures ForTask(pairs + [p], task) == ForTask(pairs, task) + (if p.base.taskId == task then [p] else [])
    {
      assert ForTask(pairs, task) + [] == ForTask(pairs, task);
    }
  }

  lemma {:induction false} OneTaskGains(pairs: seq<Pair>, p: Pair, tasks: seq<string>)
    requires Ascending(tasks)
    ensures BaseOver(pairs + [p], tasks) ==
            BaseOver(pairs, tasks) + if p.base.taskId in tasks then p.base.totalInput else 0
    ensures CandOver(pairs + [p], tasks) ==
            CandOver(pairs, tasks) + if p.base.taskId in tasks then p.cand.totalInput else 0
  {
    if tasks != [] {
      OneTaskGains(pairs, p, tasks[1..]);
      SumsOfSnoc(pairs, p);
      SumsOfSnoc(ForTask(pairs, tasks[0]), p);
      if p.base.taskId == tasks[0] {
        forall j | 0 <= j < |tasks[1..]| ensures tasks[1..][j] != tasks[0] {
          assert Less(tasks[0], tasks[j + 1]);
          LessIrreflexive(tasks[0]);
        }
      } else {
        assert ForTask(pairs, tasks[0]) + [] == ForTask(pairs, tasks[0]);
        assert tasks == [tasks[0]] + tasks[1..];
      }
    }
  }

  lemma {:induction false} NothingOver(tasks: seq<string>)
    ensures BaseOver([], tasks) == 0 && CandOver([], tasks) == 0
  {
    if tasks != [] {
      NothingOver(tasks[1..]);
    }
  }

  /** Per-task totals add up to the overall totals. */
  lemma {:induction false} TasksAddUp(pairs: seq<Pair>, tasks: seq<string>)
    requires Ascending(tasks) && forall i :: 0 <= i < |pairs| ==> pairs[i].base.taskId in tasks
    ensures BaseOver(pairs, tasks) == BaseSum(pairs) && CandOver(pairs, tasks) == CandSum(pairs)
  {
    if pairs == [] {
      NothingOver(tasks);
    } else {
      var front, last := pairs[..|pairs| - 1], pairs[|pairs| - 1];
      TasksAddUp(front, tasks);
      OneTaskGains(front, last, tasks);
      assert pairs == front + [last];
    }
  }

  // ---- savings ----

  /** `savings`, with a positive baseline. */
  function Savings(baseline: nat, candidate: nat): real
    requires baseline > 0
  {
    (baseline as real - candidate as real) / baseline as real
  }

  /** The savings of these amounts lie in a range, said without dividing. */
  predicate Between(baseline: nat, candidate: nat, lo: real, hi: real) {
    lo * baseline as real <= baseline as real - candidate as real <= hi * baseline as real
  }

  lemma {:induction false} BetweenIff(baseline: nat, candidate: nat, lo: real, hi: real)
    requires baseline > 0
    ensures Between(baseline, candidate, lo, hi) <==> lo <= Savings(baseline, candidate) <= hi
  {
    var s, b := Savings(baseline, candidate), baseline as real;
    assert s * b == b - candidate as real;
    if lo <= s { ScaleOrder(lo, s, b); } else { ScaleOrder(s, lo, b); }
    if s <= hi { ScaleOrder(s, hi, b); } else { ScaleOrder(hi, s, b); }
  }

  lemma {:induction false} ScaleOrder(x: real, y: real, b: real)
    requires b > 0.0 && x <= y
    ensures x * b <= y * b
    ensures x < y ==> x * b < y * b
  {
    assert (y - x) * b >= 0.0;
    assert x < y ==> (y - x) * b > 0.0;
  }

  lemma {:induction false} BetweenAdds(b1: nat, c1: nat, b2: nat, c2: nat, lo: real, hi: real)
    requires Between(b1, c1, lo, hi) && Between(b2, c2, lo, hi)
    ensures Between(b1 + b2, c1 + c2, lo, hi)
  {
    assert lo * (b1 + b2) as real == lo * b1 as real + lo * b2 as real;
    assert hi * (b1 + b2) as real == hi * b1 as real + hi * b2 as real;
  }

  /** Every pair saves at least `lo` and at most `hi`. */
  ghost predicate AllBetween(pairs: seq<Pair>, lo: real, hi: real) {
    forall i :: 0 <= i < |pairs| ==> Between(pairs[i].base.totalInput, pairs[i].cand.totalInput, lo, hi)
  }

  predicate PositiveBaselines(pairs: seq<Pair>) {
    pairs != [] && forall i :: 0 <= i < |pairs| ==> pairs[i].base.totalInput > 0
  }

  lemma {:induction false} SumsBetween(pairs: seq<Pair>, lo: real, hi: real)
    requires AllBetween(pairs, lo, hi)
    ensures Between(BaseSum(pairs), CandSum(pairs), lo, hi)
  {
    if pairs != [] {
      var front, last := pairs[..|pairs| - 1], pairs[|pairs| - 1];
      SumsBetween(front, lo, hi);
      BetweenAdds(BaseSum(front), CandSum(front), last.base.totalInput, last.cand.totalInput, lo, hi);
    }
  }

  function WeightedSavings(pairs: seq<Pair>): real
    requires forall i :: 0 <= i < |pairs| ==> pairs[i].base.totalInput > 0
  {
    if pairs == [] then 0.0
    else
      var last := pairs[|pairs| - 1];
      WeightedSavings(pairs[..|pairs| - 1])
      + last.base.totalInput as real * Savings(last.base.totalInput, last.cand.totalInput)
  }

  lemma {:induction false} WeightedOne(baseline: nat, candidate: nat)
    requires baseline > 0
    ensures baseline as real * Savings(baseline, candidate) == baseline as real - candidate as real
  {
  }

  lemma {:induction false} WeightedSum(pairs: seq<Pair>)
    requires forall i :: 0 <= i < |pairs| ==> pairs[i].base.totalInput > 0
    ensures WeightedSavings(pairs) == BaseSum(pairs) as real - CandSum(pairs) as real
    ensures pairs != [] ==> BaseSum(pairs) > 0
  {
    if pairs != [] {
      var last := pairs[|pairs| - 1];
      WeightedSum(pairs[..|pairs| - 1]);
      WeightedOne(last.base.totalInput, last.cand.totalInput);
    }
  }

  /** The overall savings are the mean of the paired savings weighted by baseline,
      so they lie between any bounds of the paired savings. */
  lemma {:induction false} OverallIsWeightedMean(pairs: seq<Pair>, lo: real, hi: real)
    requires PositiveBaselines(pairs)
    requires forall i :: 0 <= i < |pairs| ==> lo <= Savings(pairs[i].base.totalInput, pairs[i].cand.totalInput) <= hi
    ensures BaseSum(pairs) > 0
    ensures Savings(BaseSum(pairs), CandSum(pairs)) == WeightedSavings(pairs) / BaseSum(pairs) as real
    ensures lo <= Savings(BaseSum(pairs), CandSum(pairs)) <= hi
  {
    WeightedSum(pairs);
    forall i | 0 <= i < |pairs| ensures Between(pairs[i].base.totalInput, pairs[i].cand.totalInput, lo, hi) {
      BetweenIff(pairs[i].base.totalInput, pairs[i].cand.totalInput, lo, hi);
    }
    SumsBetween(pairs, lo, hi);
    BetweenIff(BaseSum(pairs), CandSum(pairs), lo, hi);
  }

  // ---- the comparison ----

  function TaskIdsOf(pairs: seq<Pair>): (r: seq<string>)
    ensures |r| == |pairs| && forall i :: 0 <= i < |r| ==> r[i] == pairs[i].base.taskId
  {
    seq(|pairs|, i requires 0 <= i < |pairs| => pairs[i].base.taskId)
  }

  datatype TaskTotals = TaskTotals(task: string, pairs: nat, baseline: nat, candidate: nat)

  datatype Comparison = Comparison(pairs: seq<Pair>, baseline: nat, candidate: nat, perTask: seq<TaskTotals>)

  /** The totals of `compare`, from the pairs. */
  method Totals(pairs: seq<Pair>) returns (c: Comparison)
    ensures c.pairs == pairs && c.baseline == BaseSum(pairs) && c.candidate == CandSum(pairs)
    ensures var tasks := SortedKeys(TaskIdsOf(pairs));
            |c.perTask| == |tasks| && forall k :: 0 <= k < |tasks| ==>
              var own := ForTask(pairs, tasks[k]);
              c.perTask[k] == TaskTotals(tasks[k], |own|, BaseSum(own), CandSum(own))
    ensures BaseOver(pairs, SortedKeys(TaskIdsOf(pairs))) == c.baseline
            && CandOver(pairs, SortedKeys(TaskIdsOf(pairs))) == c.candidate
  {
    var baseline, candidate := 0, 0;
    var n := 0;
    while n < |pairs|
      invariant n <= |pairs| && baseline == BaseSum(pairs[..n]) && candidate == CandSum(pairs[..n])
    {
      assert pairs[..n + 1] == pairs[..n] + [pairs[n]];
      SumsOfSnoc(pairs[..n], pairs[n]);
      baseline := baseline + pairs[n].base.totalInput;
      candidate := candidate + pairs[n].cand.totalInput;
      n := n + 1;
    }
    assert pairs[..n] == pairs;
    var tasks := SortedKeys(TaskIdsOf(pairs));
    var perTask: seq<TaskTotals> := [];
    n := 0;
    while n < |tasks|
      invariant n == |perTask| <= |tasks|
      invariant forall k :: 0 <= k < n ==>
        var own := ForTask(pairs, tasks[k]);
        perTask[k] == TaskTotals(tasks[k], |own|, BaseSum(own), CandSum(own))
    {
      var own := ForTask(pairs, tasks[n]);
      perTask := perTask + [TaskTotals(tasks[n], |own|, BaseSum(own), CandSum(own))];
      n := n + 1;
    }
    forall i | 0 <= i < |pairs| ensures pairs[i].base.taskId in tasks {
      assert TaskIdsOf(pairs)[i] in TaskIdsOf(pairs);
    }
    TasksAddUp(pairs, tasks);
    c := Comparison(pairs, baseline, candidate, perTask);
  }
}
