/** What a comparison of two arms says of the files, said on the files alone. */
module SuiteFiles {
  import opened Wrappers
  import opened Text
  import opened SuiteRuns
  import opened SuiteLoad
  import opened SuiteCompare

  // ---- totals of an arm, over all tasks or one ----

  predicate Chosen(arm: string, task: Option<string>, ofArm: string, ofTask: string) {
    ofArm == arm && (task.Some? ==> ofTask == task.value)
  }

  /** The total input of the receipts of an arm's files, of all tasks or of one. */
  function FileTotal(files: seq<RunFile>, arm: string, task: Option<string>): nat {
    if files == [] then 0
    else
      var last := files[|files| - 1];
      FileTotal(files[..|files| - 1], arm, task)
      + if last.arm == arm && (task.Some? ==> last.taskId == task.value) then last.receipt.totalInput else 0
  }

  function TotalOf(runs: seq<Run>): nat {
    if runs == [] then 0 else TotalOf(runs[..|runs| - 1]) + runs[|runs| - 1].totalInput
  }

  /** The runs of an arm, of all tasks or of one. */
  function RunsOf(runs: seq<Run>, arm: string, task: Option<string>): seq<Run> {
    if runs == [] then []
    else
      var last := runs[|runs| - 1];
      RunsOf(runs[..|runs| - 1], arm, task) + if Chosen(arm, task, last.arm, last.taskId) then [last] else []
  }

  lemma {:induction false} RunsOfContains(runs: seq<Run>, arm: string, task: Option<string>)
    ensures forall r :: r in RunsOf(runs, arm, task) <==> r in runs && Chosen(arm, task, r.arm, r.taskId)
  {
    if runs != [] {
      RunsOfContains(runs[..|runs| - 1], arm, task);
      assert runs == runs[..|runs| - 1] + [runs[|runs| - 1]];
    }
  }

  lemma {:induction false} RunsOfDistinct(runs: seq<Run>, arm: string, task: Option<string>)
    requires DistinctKeys(runs)
    ensures DistinctKeys(RunsOf(runs, arm, task))
  {
    if runs != [] {
      var front, last := runs[..|runs| - 1], runs[|runs| - 1];
      RunsOfDistinct(front, arm, task);
      RunsOfContains(front, arm, task);
      var kept := RunsOf(front, arm, task);
      forall i | 0 <= i < |kept| ensures KeyOf(kept[i]) != KeyOf(last) {
        assert kept[i] in front;
      }
    }
  }

  lemma {:induction false} TotalSnoc(runs: seq<Run>, run: Run)
    ensures TotalOf(runs + [run]) == TotalOf(runs) + run.totalInput
  {
    assert (runs + [run])[..|runs|] == runs;
  }

  lemma {:induction false} TotalsAdd(a: seq<Run>, b: seq<Run>)
    ensures TotalOf(a + b) == TotalOf(a) + TotalOf(b)
  {
    if b == [] {
      assert a + b == a;
    } else {
      TotalsAdd(a, b[..|b| - 1]);
      assert (a + b)[..|a + b| - 1] == a + b[..|b| - 1];
    }
  }

  lemma {:induction false} TotalWithout(runs: seq<Run>, i: nat)
    requires i < |runs|
    ensures TotalOf(runs) == TotalOf(runs[..i] + runs[i + 1..]) + runs[i].totalInput
  {
    var before, after := runs[..i], runs[i + 1..];
    assert runs == (before + [runs[i]]) + after;
    TotalsAdd(before + [runs[i]], after);
    TotalSnoc(before, runs[i]);
    TotalsAdd(before, after);
  }

  /** Lists of distinct runs with the same members have the same total. */
  lemma {:induction false} SameMembersSameTotal(a: seq<Run>, b: seq<Run>)
    requires DistinctKeys(a) && DistinctKeys(b) && forall r :: r in a <==> r in b
    ensures TotalOf(a) == TotalOf(b)
  {
    if a == [] {
      assert forall i :: 0 <= i < |b| ==> b[i] in a;
    } else {
      var n, last := |a| - 1, a[|a| - 1];
      assert last in b;
      var i :| 0 <= i < |b| && b[i] == last;
      var rest := b[..i] + b[i + 1..];
      forall r ensures r in a[..n] <==> r in rest {
        MembersWithout(a, n, r);
        MembersWithout(b, i, r);
        assert a[..n] + a[n + 1..] == a[..n];
      }
      SameMembersSameTotal(a[..n], rest);
      TotalWithout(b, i);
    }
  }

  lemma {:induction false} MembersWithout(a: seq<Run>, i: nat, r: Run)
    requires i < |a| && DistinctKeys(a)
    ensures r in a[..i] + a[i + 1..] <==> r in a && r != a[i]
  {
    if r in a && r != a[i] {
      var j :| 0 <= j < |a| && a[j] == r;
      if j < i { assert a[..i][j] == r; } else { assert a[i + 1..][j - i - 1] == r; }
    }
  }

  // ---- the pairs of a complete schedule ----

  function Bases(pairs: seq<Pair>): (r: seq<Run>)
    ensures |r| == |pairs| && forall i :: 0 <= i < |r| ==> r[i] == pairs[i].base
  {
    seq(|pairs|, i requires 0 <= i < |pairs| => pairs[i].base)
  }

  function Cands(pairs: seq<Pair>): (r: seq<Run>)
    ensures |r| == |pairs| && forall i :: 0 <= i < |r| ==> r[i] == pairs[i].cand
  {
    seq(|pairs|, i requires 0 <= i < |pairs| => pairs[i].cand)
  }

  lemma {:induction false} SumsAreTotals(pairs: seq<Pair>)
    ensures BaseSum(pairs) == TotalOf(Bases(pairs)) && CandSum(pairs) == TotalOf(Cands(pairs))
  {
    if pairs != [] {
      var front, last := pairs[..|pairs| - 1], pairs[|pairs| - 1];
      SumsAreTotals(front);
      assert Bases(pairs) == Bases(front) + [last.base] && Cands(pairs) == Cands(front) + [last.cand];
      TotalSnoc(Bases(front), last.base);
      TotalSnoc(Cands(front), last.cand);
    }
  }

  /** The pairs of one task, or all. */
  function PairsFor(pairs: seq<Pair>, task: Option<string>): seq<Pair> {
    match task
    case Some(id) => ForTask(pairs, id)
    case None => pairs
  }

  lemma {:induction false} ForTaskHolds(pairs: seq<Pair>, task: string)
    ensures forall p :: p in ForTask(pairs, task) <==> p in pairs && p.base.taskId == task
  {
    if pairs != [] {
      ForTaskHolds(pairs[..|pairs| - 1], task);
      assert pairs == pairs[..|pairs| - 1] + [pairs[|pairs| - 1]];
    }
  }

  /** Matched pairs: of the two arms, and of one task and repetition. */
  ghost predicate Matched(pairs: seq<Pair>, baseline: string, candidate: string) {
    forall p :: p in pairs ==> p.base.arm == baseline && p.cand.arm == candidate
                               && p.cand.taskId == p.base.taskId && p.cand.repetition == p.base.repetition
  }

  ghost predicate FromRuns(pairs: seq<Pair>, runs: seq<Run>) {
    forall p :: p in pairs ==> p.base in runs && p.cand in runs
  }

  lemma {:induction false} PairsAreMatched(runs: seq<Run>, baseline: string, candidate: string, pairs: seq<Pair>)
    requires PairsOf(runs, baseline, candidate, pairs)
    ensures Matched(pairs, baseline, candidate) && FromRuns(pairs, runs)
  {
    var bases := FilterArm(runs, baseline);
    FilterArmContains(runs, baseline);
    forall p | p in pairs
      ensures p.base.arm == baseline && p.cand.arm == candidate && p.cand.taskId == p.base.taskId
      ensures p.cand.repetition == p.base.repetition && p.base in runs && p.cand in runs
    {
      var i :| 0 <= i < |pairs| && pairs[i] == p;
      assert bases[i] in bases;
    }
  }

  lemma {:induction false} DistinctBases(runs: seq<Run>, baseline: string, candidate: string, pairs: seq<Pair>)
    requires DistinctKeys(runs) && PairsOf(runs, baseline, candidate, pairs)
    ensures DistinctKeys(Bases(pairs)) && DistinctKeys(Cands(pairs))
  {
    FilterArmDistinct(runs, baseline);
    assert Bases(pairs) == FilterArm(runs, baseline);
    PairsAreMatched(runs, baseline, candidate, pairs);
    var bases, cands := Bases(pairs), Cands(pairs);
    forall i, j | 0 <= i < j < |pairs| ensures KeyOf(cands[i]) != KeyOf(cands[j]) {
      assert pairs[i] in pairs && pairs[j] in pairs && KeyOf(bases[i]) != KeyOf(bases[j]);
    }
  }

  /** No two pairs have a key in common on either side. */
  ghost predicate KeysApart(pairs: seq<Pair>) {
    forall i, j :: 0 <= i < j < |pairs| ==>
      KeyOf(pairs[i].base) != KeyOf(pairs[j].base) && KeyOf(pairs[i].cand) != KeyOf(pairs[j].cand)
  }

  lemma {:induction false} KeysApartIff(pairs: seq<Pair>)
    ensures KeysApart(pairs) <==> DistinctKeys(Bases(pairs)) && DistinctKeys(Cands(pairs))
  {
    var bases, cands := Bases(pairs), Cands(pairs);
    if KeysApart(pairs) {
      forall i, j | 0 <= i < j < |pairs|
        ensures KeyOf(bases[i]) != KeyOf(bases[j]) && KeyOf(cands[i]) != KeyOf(cands[j])
      {
        assert KeyOf(pairs[i].base) != KeyOf(pairs[j].base);
      }
    }
    if DistinctKeys(bases) && DistinctKeys(cands) {
      forall i, j | 0 <= i < j < |pairs|
        ensures KeyOf(pairs[i].base) != KeyOf(pairs[j].base) && KeyOf(pairs[i].cand) != KeyOf(pairs[j].cand)
      {
        assert KeyOf(bases[i]) != KeyOf(bases[j]) && KeyOf(cands[i]) != KeyOf(cands[j]);
      }
    }
  }

  lemma {:induction false} ApartForTask(pairs: seq<Pair>, task: string)
    requires KeysApart(pairs)
    ensures KeysApart(ForTask(pairs, task))
  {
    if pairs != [] {
      var front, last := pairs[..|pairs| - 1], pairs[|pairs| - 1];
      ApartForTask(front, task);
      ForTaskHolds(front, task);
      var kept := ForTask(front, task);
      forall i | 0 <= i < |kept|
        ensures KeyOf(kept[i].base) != KeyOf(last.base) && KeyOf(kept[i].cand) != KeyOf(last.cand)
      {
        assert kept[i] in front;
      }
    }
  }

  /** The runs of the two arms are those that stand in the pairs. */
  ghost predicate AllPaired(runs: seq<Run>, baseline: string, candidate: string, pairs: seq<Pair>) {
    && (forall r :: r in Bases(pairs) <==> r in runs && r.arm == baseline)
    && forall r :: r in Cands(pairs) <==> r in runs && r.arm == candidate
  }

  lemma {:induction false} SidesOf(pairs: seq<Pair>, p: Pair)
    requires p in pairs
    ensures p.base in Bases(pairs) && p.cand in Cands(pairs)
  {
    var i :| 0 <= i < |pairs| && pairs[i] == p;
    assert Bases(pairs)[i] == p.base && Cands(pairs)[i] == p.cand;
  }

  lemma {:induction false} PairOfBase(pairs: seq<Pair>, r: Run) returns (p: Pair)
    requires r in Bases(pairs)
    ensures p in pairs && p.base == r
  {
    var i :| 0 <= i < |pairs| && Bases(pairs)[i] == r;
    p := pairs[i];
  }

  lemma {:induction false} PairOfCand(pairs: seq<Pair>, r: Run) returns (p: Pair)
    requires r in Cands(pairs)
    ensures p in pairs && p.cand == r
  {
    var i :| 0 <= i < |pairs| && Cands(pairs)[i] == r;
    p := pairs[i];
  }

  lemma {:induction false} SameKeySameRun(runs: seq<Run>, a: Run, b: Run)
    requires DistinctKeys(runs) && a in runs && b in runs && KeyOf(a) == KeyOf(b)
    ensures a == b
  {
    var i :| 0 <= i < |runs| && runs[i] == a;
    var j :| 0 <= j < |runs| && runs[j] == b;
  }

  lemma {:induction false} BasePair(runs: seq<Run>, baseline: string, candidate: string, pairs: seq<Pair>, r: Run)
    returns (p: Pair)
    requires PairsOf(runs, baseline, candidate, pairs) && r in runs && r.arm == baseline
    ensures p in pairs && p.base == r
  {
    FilterArmContains(runs, baseline);
    assert r in FilterArm(runs, baseline);
    var i :| 0 <= i < |pairs| && FilterArm(runs, baseline)[i] == r;
    p := pairs[i];
  }

  lemma {:induction false} CompleteIsPaired(m: Manifest, runs: seq<Run>, baseline: string, candidate: string,
                                            pairs: seq<Pair>)
    requires ValidManifest(m) && Complete(m, runs) && baseline in ArmNames(m)
    requires PairsOf(runs, baseline, candidate, pairs)
    ensures AllPaired(runs, baseline, candidate, pairs)
  {
    PairsAreMatched(runs, baseline, candidate, pairs);
    forall r ensures r in Bases(pairs) <==> r in runs && r.arm == baseline {
      if r in Bases(pairs) {
        var p := PairOfBase(pairs, r);
      } else if r in runs && r.arm == baseline {
        var p := BasePair(runs, baseline, candidate, pairs, r);
        SidesOf(pairs, p);
        assert false;
      }
    }
    forall r ensures r in Cands(pairs) <==> r in runs && r.arm == candidate {
      if r in Cands(pairs) {
        var p := PairOfCand(pairs, r);
      } else if r in runs && r.arm == candidate {
        CandPair(m, runs, baseline, candidate, pairs, r);
        assert false;
      }
    }
  }

  lemma {:induction false} CandPair(m: Manifest, runs: seq<Run>, baseline: string, candidate: string,
                                    pairs: seq<Pair>, r: Run)
    requires ValidManifest(m) && Complete(m, runs) && baseline in ArmNames(m)
    requires PairsOf(runs, baseline, candidate, pairs) && r in runs && r.arm == candidate
    ensures r in Cands(pairs)
  {
    SetsContain(runs);
    var i :| 0 <= i < |runs| && runs[i] == r;
    assert KeyOf(r) in KeySet(runs);
    ScheduleMember(m, r.taskId, r.arm, r.repetition);
    ScheduleMember(m, r.taskId, baseline, r.repetition);
    assert (r.taskId, baseline, r.repetition) in KeySet(runs);
    var j :| 0 <= j < |runs| && KeyOf(runs[j]) == (r.taskId, baseline, r.repetition);
    var p := BasePair(runs, baseline, candidate, pairs, runs[j]);
    PairsAreMatched(runs, baseline, candidate, pairs);
    SameKeySameRun(runs, p.cand, r);
    SidesOf(pairs, p);
  }

  /** The sums of the pairs are the totals of the runs of their arms. */
  lemma {:induction false} PairTotals(runs: seq<Run>, baseline: string, candidate: string, pairs: seq<Pair>,
                                      task: Option<string>)
    requires DistinctKeys(runs) && PairsOf(runs, baseline, candidate, pairs)
    requires AllPaired(runs, baseline, candidate, pairs)
    ensures BaseSum(PairsFor(pairs, task)) == TotalOf(RunsOf(runs, baseline, task))
    ensures CandSum(PairsFor(pairs, task)) == TotalOf(RunsOf(runs, candidate, task))
  {
    var own := PairsFor(pairs, task);
    PairsAreMatched(runs, baseline, candidate, pairs);
    DistinctBases(runs, baseline, candidate, pairs);
    if task.Some? {
      KeysApartIff(pairs);
      ApartForTask(pairs, task.value);
      KeysApartIff(own);
      ForTaskHolds(pairs, task.value);
    }
    SumsAreTotals(own);
    RunsOfContains(runs, baseline, task);
    RunsOfContains(runs, candidate, task);
    RunsOfDistinct(runs, baseline, task);
    RunsOfDistinct(runs, candidate, task);
    forall r ensures r in Bases(own) <==> r in RunsOf(runs, baseline, task) {
      BaseMember(runs, baseline, candidate, pairs, task, r);
    }
    forall r ensures r in Cands(own) <==> r in RunsOf(runs, candidate, task) {
      CandMember(runs, baseline, candidate, pairs, task, r);
    }
    SameMembersSameTotal(Bases(own), RunsOf(runs, baseline, task));
    SameMembersSameTotal(Cands(own), RunsOf(runs, candidate, task));
  }

  lemma {:induction false} ChosenPair(pairs: seq<Pair>, task: Option<string>, p: Pair)
    ensures p in PairsFor(pairs, task) <==> p in pairs && (task.Some? ==> p.base.taskId == task.value)
  {
    if task.Some? { ForTaskHolds(pairs, task.value); }
  }

  lemma {:induction false} BaseMember(runs: seq<Run>, baseline: string, candidate: string, pairs: seq<Pair>,
                                      task: Option<string>, r: Run)
    requires Matched(pairs, baseline, candidate) && AllPaired(runs, baseline, candidate, pairs)
    ensures r in Bases(PairsFor(pairs, task)) <==> r in RunsOf(runs, baseline, task)
  {
    var own := PairsFor(pairs, task);
    RunsOfContains(runs, baseline, task);
    if r in Bases(own) {
      var p := PairOfBase(own, r);
      ChosenPair(pairs, task, p);
      SidesOf(pairs, p);
    } else if r in RunsOf(runs, baseline, task) {
      var p := PairOfBase(pairs, r);
      ChosenPair(pairs, task, p);
      SidesOf(own, p);
      assert false;
    }
  }

  lemma {:induction false} CandMember(runs: seq<Run>, baseline: string, candidate: string, pairs: seq<Pair>,
                                      task: Option<string>, r: Run)
    requires Matched(pairs, baseline, candidate) && AllPaired(runs, baseline, candidate, pairs)
    ensures r in Cands(PairsFor(pairs, task)) <==> r in RunsOf(runs, candidate, task)
  {
    var own := PairsFor(pairs, task);
    RunsOfContains(runs, candidate, task);
    if r in Cands(own) {
      var p := PairOfCand(own, r);
      ChosenPair(pairs, task, p);
      SidesOf(pairs, p);
    } else if r in RunsOf(runs, candidate, task) {
      var p := PairOfCand(pairs, r);
      ChosenPair(pairs, task, p);
      SidesOf(own, p);
      assert false;
    }
  }

  // ---- from the runs to the files ----

  lemma {:induction false} RunsOfSnoc(runs: seq<Run>, run: Run, arm: string, task: Option<string>)
    ensures TotalOf(RunsOf(runs + [run], arm, task))
            == TotalOf(RunsOf(runs, arm, task)) + if Chosen(arm, task, run.arm, run.taskId) then run.totalInput else 0
  {
    assert (runs + [run])[..|runs|] == runs;
    TotalSnoc(RunsOf(runs, arm, task), run);
    assert RunsOf(runs, arm, task) + [] == RunsOf(runs, arm, task);
  }

  lemma {:induction false} FilesSnoc(files: seq<RunFile>, file: RunFile, arm: string, task: Option<string>)
    ensures FileTotal(files + [file], arm, task)
            == FileTotal(files, arm, task)
               + if Chosen(arm, task, file.arm, file.taskId) then file.receipt.totalInput else 0
  {
    assert (files + [file])[..|files|] == files;
  }

  ghost predicate FromFiles(runs: seq<Run>, files: seq<RunFile>) {
    |runs| == |files| && forall i :: 0 <= i < |runs| ==> FromFile(runs[i], files[i])
  }

  lemma {:induction false} AllRead(m: Manifest, files: seq<RunFile>, runs: seq<Run>)
    requires |runs| == |files| && ReadFrom(m, files, runs)
    ensures FromFiles(runs, files)
  {
    forall i | 0 <= i < |runs| ensures FromFile(runs[i], files[i]) { ReadIs(m, files, runs, i); }
  }

  lemma {:induction false} ReadTotal(runs: seq<Run>, files: seq<RunFile>, arm: string, task: Option<string>)
    requires FromFiles(runs, files)
    ensures TotalOf(RunsOf(runs, arm, task)) == FileTotal(files, arm, task)
  {
    if runs != [] {
      var n := |runs| - 1;
      ReadTotal(runs[..n], files[..n], arm, task);
      assert runs == runs[..n] + [runs[n]] && files == files[..n] + [files[n]];
      TotalNext(files[..n], files[n], runs[..n], runs[n], arm, task);
    }
  }

  lemma {:induction false} TotalNext(files: seq<RunFile>, file: RunFile, runs: seq<Run>, run: Run, arm: string,
                                     task: Option<string>)
    requires TotalOf(RunsOf(runs, arm, task)) == FileTotal(files, arm, task) && FromFile(run, file)
    ensures TotalOf(RunsOf(runs + [run], arm, task)) == FileTotal(files + [file], arm, task)
  {
    RunsOfSnoc(runs, run, arm, task);
    FilesSnoc(files, file, arm, task);
  }

  lemma {:induction false} SortedTotal(m: Manifest, files: seq<RunFile>, sorted: seq<Run>, arm: string,
                                       task: Option<string>)
    requires SortedFrom(m, files, sorted) && DistinctKeys(sorted)
    ensures TotalOf(RunsOf(sorted, arm, task)) == FileTotal(files, arm, task)
  {
    var runs :| |runs| == |files| && ReadFrom(m, files, runs) && sorted == SortRuns(runs);
    AllRead(m, files, runs);
    ReadTotal(runs, files, arm, task);
    SameRuns(runs, sorted);
    SortRunsSorts(runs);
    DistinctAgain(sorted, runs);
    RunsOfContains(runs, arm, task);
    RunsOfContains(sorted, arm, task);
    RunsOfDistinct(runs, arm, task);
    RunsOfDistinct(sorted, arm, task);
    SameMembersSameTotal(RunsOf(sorted, arm, task), RunsOf(runs, arm, task));
  }

  lemma {:induction false} DistinctAgain(a: seq<Run>, b: seq<Run>)
    requires DistinctKeys(a) && multiset(a) == multiset(b)
    ensures DistinctKeys(b)
  {
    forall i, j | 0 <= i < j < |b| ensures KeyOf(b[i]) != KeyOf(b[j]) {
      assert b == b[..j] + [b[j]] + b[j + 1..];
      assert b[i] in b[..j];
      assert multiset(b) == multiset(b[..j]) + multiset{b[j]} + multiset(b[j + 1..]);
      CountAtMostOne(a, b[j]);
      assert b[i] != b[j];
      assert b[i] in multiset(a) && b[j] in multiset(a);
      var p :| 0 <= p < |a| && a[p] == b[i];
      var q :| 0 <= q < |a| && a[q] == b[j];
    }
  }

  // ---- loading and comparing ----

  /** The totals are those of the files of the two arms, overall and for each task. */
  ghost predicate TotalsOfFiles(files: seq<RunFile>, baseline: string, candidate: string, c: Comparison) {
    && c.baseline == FileTotal(files, baseline, None) && c.candidate == FileTotal(files, candidate, None)
    && forall k :: 0 <= k < |c.perTask| ==>
         var own := c.perTask[k];
         && own.baseline == FileTotal(files, baseline, Some(own.task))
         && own.candidate == FileTotal(files, candidate, Some(own.task))
  }

  /** This arm has a file of this task. */
  ghost predicate ArmHasTask(files: seq<RunFile>, arm: string, task: string) {
    exists i :: 0 <= i < |files| && files[i].arm == arm && files[i].taskId == task
  }

  ghost predicate ReportsTask(c: Comparison, task: string) {
    exists k :: 0 <= k < |c.perTask| && c.perTask[k].task == task
  }

  /** The tasks of the files of an arm, each once, in ascending order. */
  ghost predicate TasksOfFiles(files: seq<RunFile>, baseline: string, c: Comparison) {
    && (forall j, k :: 0 <= j < k < |c.perTask| ==> Less(c.perTask[j].task, c.perTask[k].task))
    && forall task :: ReportsTask(c, task) <==> ArmHasTask(files, baseline, task)
  }

  lemma {:induction false} PairIsOfFile(runs: seq<Run>, files: seq<RunFile>, baseline: string, p: Pair)
    requires RunsHaveFiles(runs, files) && p.base in runs && p.base.arm == baseline
    ensures ArmHasTask(files, baseline, p.base.taskId)
  {
    var i :| 0 <= i < |files| && FromFile(p.base, files[i]);
  }

  lemma {:induction false} FileHasPair(runs: seq<Run>, files: seq<RunFile>, baseline: string, candidate: string,
                                       pairs: seq<Pair>, task: string)
    returns (p: Pair)
    requires FilesHaveRuns(files, runs) && PairsOf(runs, baseline, candidate, pairs)
             && ArmHasTask(files, baseline, task)
    ensures p in pairs && p.base.taskId == task
  {
    var i :| 0 <= i < |files| && files[i].arm == baseline && files[i].taskId == task;
    var r :| r in runs && FromFile(r, files[i]);
    p := BasePair(runs, baseline, candidate, pairs, r);
  }

  lemma {:induction false} TaskOfPair(pairs: seq<Pair>, p: Pair)
    requires p in pairs
    ensures p.base.taskId in TaskIdsOf(pairs)
  {
    var k :| 0 <= k < |pairs| && pairs[k] == p;
    assert TaskIdsOf(pairs)[k] == p.base.taskId;
  }

  lemma {:induction false} BaselineTasks(m: Manifest, runs: seq<Run>, files: seq<RunFile>, baseline: string,
                                         candidate: string, pairs: seq<Pair>, task: string)
    requires SortedFrom(m, files, runs) && PairsOf(runs, baseline, candidate, pairs)
    ensures task in TaskIdsOf(pairs) <==> ArmHasTask(files, baseline, task)
  {
    if task in TaskIdsOf(pairs) {
      var k :| 0 <= k < |pairs| && TaskIdsOf(pairs)[k] == task;
      PairsAreMatched(runs, baseline, candidate, pairs);
      assert pairs[k] in pairs;
      SortedHaveFiles(m, files, runs);
      PairIsOfFile(runs, files, baseline, pairs[k]);
    } else if ArmHasTask(files, baseline, task) {
      FilesAreSorted(m, files, runs);
      var p := FileHasPair(runs, files, baseline, candidate, pairs, task);
      TaskOfPair(pairs, p);
      assert false;
    }
  }

  lemma {:induction false} ComparedTotals(m: Manifest, files: seq<RunFile>, runs: seq<Run>, baseline: string,
                                          candidate: string, c: Comparison)
    requires ValidManifest(m) && Complete(m, runs) && SortedFrom(m, files, runs) && baseline in ArmNames(m)
    requires PairsOf(runs, baseline, candidate, c.pairs) && c.baseline == BaseSum(c.pairs)
             && c.candidate == CandSum(c.pairs)
    requires forall k :: 0 <= k < |c.perTask| ==>
               var own := ForTask(c.pairs, c.perTask[k].task);
               c.perTask[k] == TaskTotals(c.perTask[k].task, |own|, BaseSum(own), CandSum(own))
    ensures TotalsOfFiles(files, baseline, candidate, c)
  {
    CompleteIsPaired(m, runs, baseline, candidate, c.pairs);
    PairTotals(runs, baseline, candidate, c.pairs, None);
    SortedTotal(m, files, runs, baseline, None);
    SortedTotal(m, files, runs, candidate, None);
    forall k | 0 <= k < |c.perTask|
      ensures c.perTask[k].baseline == FileTotal(files, baseline, Some(c.perTask[k].task))
      ensures c.perTask[k].candidate == FileTotal(files, candidate, Some(c.perTask[k].task))
    {
      PairTotals(runs, baseline, candidate, c.pairs, Some(c.perTask[k].task));
      SortedTotal(m, files, runs, baseline, Some(c.perTask[k].task));
      SortedTotal(m, files, runs, candidate, Some(c.perTask[k].task));
    }
  }

  lemma {:induction false} ComparedTasks(m: Manifest, files: seq<RunFile>, runs: seq<Run>, baseline: string,
                                         candidate: string, c: Comparison)
    requires SortedFrom(m, files, runs) && PairsOf(runs, baseline, candidate, c.pairs)
    requires var tasks := SortedKeys(TaskIdsOf(c.pairs));
             |c.perTask| == |tasks| && forall k :: 0 <= k < |tasks| ==> c.perTask[k].task == tasks[k]
    ensures TasksOfFiles(files, baseline, c)
  {
    var tasks := SortedKeys(TaskIdsOf(c.pairs));
    forall task ensures ReportsTask(c, task) <==> ArmHasTask(files, baseline, task) {
      BaselineTasks(m, runs, files, baseline, candidate, c.pairs, task);
      assert task in tasks <==> ReportsTask(c, task);
    }
  }

  /** Each pair is read from a file of either arm, of one task and repetition. */
  ghost predicate PairsOfFiles(files: seq<RunFile>, baseline: string, candidate: string, c: Comparison) {
    forall p :: p in c.pairs ==> exists i, j :: IsPairOf(files, i, j, baseline, candidate, p)
  }

  ghost predicate IsPairOf(files: seq<RunFile>, i: int, j: int, baseline: string, candidate: string, p: Pair) {
    && 0 <= i < |files| && 0 <= j < |files| && FromFile(p.base, files[i]) && FromFile(p.cand, files[j])
    && files[i].arm == baseline && files[j].arm == candidate
    && files[i].taskId == files[j].taskId && files[i].repetition == files[j].repetition
  }

  lemma {:induction false} PairsHaveFiles(files: seq<RunFile>, runs: seq<Run>, baseline: string, candidate: string,
                                          c: Comparison)
    requires RunsHaveFiles(runs, files) && Matched(c.pairs, baseline, candidate) && FromRuns(c.pairs, runs)
    ensures PairsOfFiles(files, baseline, candidate, c)
  {
    forall p | p in c.pairs ensures exists i, j :: IsPairOf(files, i, j, baseline, candidate, p) {
      var i :| 0 <= i < |files| && FromFile(p.base, files[i]);
      var j :| 0 <= j < |files| && FromFile(p.cand, files[j]);
      assert IsPairOf(files, i, j, baseline, candidate, p);
    }
  }

  /** Loading and then comparing any two arms: it succeeds exactly on sound files, and
      its totals are those of the receipts of the two arms. */
  method LoadAndCompare(m: Manifest, files: seq<RunFile>, baseline: string, candidate: string)
    returns (r: Result<Comparison, Rejection>)
    requires SoundManifest(m) && HasArm(m, baseline) && HasArm(m, candidate)
    ensures r.Ok? <==> SoundFiles(m, files)
    ensures r.Ok? ==> TotalsOfFiles(files, baseline, candidate, r.value) && TasksOfFiles(files, baseline, r.value)
    ensures r.Ok? ==> |r.value.pairs| == |m.tasks| * m.repetitions && PairsOfFiles(files, baseline, candidate, r.value)
  {
    ArmIff(m, baseline);
    ArmIff(m, candidate);
    ManifestIff(m);
    var runs := LoadRuns(m, files);
    if runs.Err? {
      return Err(runs.error);
    }
    CompleteIsPairable(m, runs.value, baseline, candidate);
    ArmSize(m, runs.value, baseline);
    var pairs := PairRuns(runs.value, baseline, candidate);
    PairsAreMatched(runs.value, baseline, candidate, pairs.value);
    var totals := Totals(pairs.value);
    ComparedTotals(m, files, runs.value, baseline, candidate, totals);
    ComparedTasks(m, files, runs.value, baseline, candidate, totals);
    SortedHaveFiles(m, files, runs.value);
    PairsHaveFiles(files, runs.value, baseline, candidate, totals);
    r := Ok(totals);
  }
}
