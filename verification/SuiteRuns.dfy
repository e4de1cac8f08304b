/** `validate_manifest` and the parts of `load_runs`: a complete randomised schedule. */
module SuiteRuns {
  import opened Wrappers
  import opened Sorting

  datatype Arm = Arm(name: string)

  datatype Task = Task(id: string, repositoryRevision: string)

  datatype Manifest = Manifest(schemaVersion: nat, experimentId: string, repetitions: nat, arms: seq<Arm>,
                               tasks: seq<Task>, fullBaseline: string, retrievalBaseline: string, candidate: string)

  /** The fields of a receipt that `validate_receipt` compares. */
  datatype Receipt = Receipt(schemaVersion: nat, experimentId: string, arm: string, taskId: string,
                             repositoryRevision: string, pathMode: bool, expectedEvidence: nat, matchedPaths: nat,
                             unexpectedEvidence: nat, threadCount: nat, childThreads: nat, maximumDepth: nat,
                             spawnCalls: nat, matchedSpawns: nat, threads: nat, hasChild: bool, totalInput: nat,
                             uncachedInput: nat, childInput: nat, success: bool)

  /** A run's metadata with the receipt it names. */
  datatype RunFile = RunFile(schemaVersion: nat, scheduleIndex: nat, keyLength: nat, repetition: nat, taskId: string,
                             corpus: string, arm: string, safeReceiptPath: bool, receipt: Receipt)

  datatype Run = Run(scheduleIndex: nat, repetition: nat, taskId: string, arm: string, totalInput: nat,
                     uncachedInput: nat, childInput: nat, success: bool)

  datatype Rejection =
    | WrongCount | InvalidMetadata | UnknownTask | UnknownArm | Duplicate | UnsafePath | ContractBroken | NoChild
    | ScheduleIncomplete

  ghost predicate DistinctNames(names: seq<string>) {
    forall i, j :: 0 <= i < j < |names| ==> names[i] != names[j]
  }

  function ArmNames(m: Manifest): (r: seq<string>)
    ensures |r| == |m.arms| && forall i :: 0 <= i < |r| ==> r[i] == m.arms[i].name
  {
    seq(|m.arms|, i requires 0 <= i < |m.arms| => m.arms[i].name)
  }

  function TaskIds(m: Manifest): (r: seq<string>)
    ensures |r| == |m.tasks| && forall i :: 0 <= i < |r| ==> r[i] == m.tasks[i].id
  {
    seq(|m.tasks|, i requires 0 <= i < |m.tasks| => m.tasks[i].id)
  }

  function ToSet(names: seq<string>): (r: set<string>)
    ensures forall n :: n in r <==> n in names
  {
    set n | n in names
  }

  /** `validate_manifest`: sizes of sets against sizes of lists. */
  predicate ValidManifest(m: Manifest) {
    && m.schemaVersion == 1 && |m.tasks| >= 3 && m.repetitions >= 5
    && |ToSet(ArmNames(m))| == |m.arms|
    && m.fullBaseline in ArmNames(m) && m.retrievalBaseline in ArmNames(m) && m.candidate in ArmNames(m)
    && |ToSet(TaskIds(m))| == |m.tasks|
  }

  /** `validate_receipt` */
  predicate ValidReceipt(m: Manifest, taskId: string, revision: string, arm: string, r: Receipt) {
    && r.schemaVersion == 1 && r.experimentId == m.experimentId && r.arm == arm
    && r.taskId == taskId && r.repositoryRevision == revision && r.pathMode
    && r.expectedEvidence != 0 && r.matchedPaths <= r.expectedEvidence && r.unexpectedEvidence <= r.expectedEvidence * 8
    && r.threadCount == 2 && r.childThreads == 1 && r.maximumDepth == 1 && r.spawnCalls == 1 && r.matchedSpawns == 1
    && r.threads == 2
  }

  type Key = (string, string, nat)

  function KeyOf(r: Run): Key {
    (r.taskId, r.arm, r.repetition)
  }

  function FindTask(tasks: seq<Task>, id: string): (r: Option<Task>)
    ensures r.Some? ==> r.value in tasks && r.value.id == id
  {
    if tasks == [] then None
    else if tasks[|tasks| - 1].id == id then Some(tasks[|tasks| - 1])
    else FindTask(tasks[..|tasks| - 1], id)
  }

  /** The checks on a file's metadata. */
  function TaskOf(m: Manifest, file: RunFile): Result<Task, Rejection> {
    if file.schemaVersion != 1 || file.keyLength != 64 || file.repetition == 0 || file.repetition > m.repetitions
       || file.corpus == "" then
      Err(InvalidMetadata)
    else
      var task := FindTask(m.tasks, file.taskId);
      if task.None? then Err(UnknownTask)
      else if file.arm !in ArmNames(m) then Err(UnknownArm)
      else Ok(task.value)
  }

  function FileKey(file: RunFile): Key {
    (file.taskId, file.arm, file.repetition)
  }

  /** The checks on one file that do not depend on the others. */
  function RunOf(m: Manifest, file: RunFile): (r: Result<Run, Rejection>)
    ensures r.Ok? ==> KeyOf(r.value) in Schedule(m) && r.value.scheduleIndex == file.scheduleIndex
    ensures r.Ok? ==> KeyOf(r.value) == FileKey(file)
  {
    var task :- TaskOf(m, file);
    if !file.safeReceiptPath then Err(UnsafePath)
    else if !ValidReceipt(m, file.taskId, task.repositoryRevision, file.arm, file.receipt) then Err(ContractBroken)
    else if !file.receipt.hasChild then Err(NoChild)
    else
      TaskListed(m, task);
      ScheduleMember(m, file.taskId, file.arm, file.repetition);
      Ok(Run(file.scheduleIndex, file.repetition, file.taskId, file.arm, file.receipt.totalInput,
             file.receipt.uncachedInput,
             file.receipt.childInput, file.receipt.success))
  }

  lemma {:induction false} TaskListed(m: Manifest, task: Task)
    requires task in m.tasks
    ensures task.id in TaskIds(m)
  {
    var i :| 0 <= i < |m.tasks| && m.tasks[i] == task;
    assert TaskIds(m)[i] == task.id;
  }

  // ---- the schedule: tasks x arms x repetitions ----

  ghost function Repetitions(task: string, arm: string, n: nat): set<Key> {
    set r | 1 <= r <= n :: (task, arm, r)
  }

  ghost function ForArms(task: string, arms: seq<string>, n: nat): set<Key> {
    if arms == [] then {} else ForArms(task, arms[..|arms| - 1], n) + Repetitions(task, arms[|arms| - 1], n)
  }

  ghost function ForTasks(tasks: seq<string>, arms: seq<string>, n: nat): set<Key> {
    if tasks == [] then {} else ForTasks(tasks[..|tasks| - 1], arms, n) + ForArms(tasks[|tasks| - 1], arms, n)
  }

  ghost function Schedule(m: Manifest): set<Key> {
    ForTasks(TaskIds(m), ArmNames(m), m.repetitions)
  }

  lemma {:induction false} ForArmsContains(task: string, arms: seq<string>, n: nat, k: Key)
    ensures k in ForArms(task, arms, n) <==> k.0 == task && k.1 in arms && 1 <= k.2 <= n
  {
    if arms != [] {
      ForArmsContains(task, arms[..|arms| - 1], n, k);
      assert arms == arms[..|arms| - 1] + [arms[|arms| - 1]];
    }
  }

  lemma {:induction false} ForTasksContains(tasks: seq<string>, arms: seq<string>, n: nat, k: Key)
    ensures k in ForTasks(tasks, arms, n) <==> k.0 in tasks && k.1 in arms && 1 <= k.2 <= n
  {
    if tasks != [] {
      ForTasksContains(tasks[..|tasks| - 1], arms, n, k);
      ForArmsContains(tasks[|tasks| - 1], arms, n, k);
      assert tasks == tasks[..|tasks| - 1] + [tasks[|tasks| - 1]];
    }
  }

  lemma {:induction false} ScheduleMember(m: Manifest, task: string, arm: string, repetition: nat)
    ensures (task, arm, repetition) in Schedule(m)
            <==> task in TaskIds(m) && arm in ArmNames(m) && 1 <= repetition <= m.repetitions
  {
    ForTasksContains(TaskIds(m), ArmNames(m), m.repetitions, (task, arm, repetition));
  }

  lemma {:induction false} RepetitionsSize(task: string, arm: string, n: nat)
    ensures |Repetitions(task, arm, n)| == n
  {
    if n > 0 {
      RepetitionsSize(task, arm, n - 1);
      assert Repetitions(task, arm, n) == Repetitions(task, arm, n - 1) + {(task, arm, n)};
    }
  }

  lemma {:induction false} OneMore(m: nat, n: nat)
    ensures m * n + n == (m + 1) * n
  {
  }

  lemma {:induction false} DisjointSize(a: set<Key>, b: set<Key>)
    requires a !! b
    ensures |a + b| == |a| + |b|
  {
  }

  lemma {:induction false} ForArmsSize(task: string, arms: seq<string>, n: nat)
    requires DistinctNames(arms)
    ensures |ForArms(task, arms, n)| == |arms| * n
  {
    if arms != [] {
      var front, last := arms[..|arms| - 1], arms[|arms| - 1];
      ForArmsSize(task, front, n);
      RepetitionsSize(task, last, n);
      forall k | k in ForArms(task, front, n) ensures k !in Repetitions(task, last, n) {
        ForArmsContains(task, front, n, k);
      }
      DisjointSize(ForArms(task, front, n), Repetitions(task, last, n));
      OneMore(|front|, n);
    }
  }

  lemma {:induction false} ForTasksSize(tasks: seq<string>, arms: seq<string>, n: nat)
    requires DistinctNames(tasks) && DistinctNames(arms)
    ensures |ForTasks(tasks, arms, n)| == |tasks| * (|arms| * n)
  {
    if tasks != [] {
      var front, last := tasks[..|tasks| - 1], tasks[|tasks| - 1];
      ForTasksSize(front, arms, n);
      ForArmsSize(last, arms, n);
      forall k | k in ForTasks(front, arms, n) ensures k !in ForArms(last, arms, n) {
        ForTasksContains(front, arms, n, k);
        ForArmsContains(last, arms, n, k);
      }
      DisjointSize(ForTasks(front, arms, n), ForArms(last, arms, n));
      OneMore(|front|, |arms| * n);
    }
  }

  /** A list whose set is as large as the list has no repetition. */
  lemma {:induction false} FullSetIsDistinct(names: seq<string>)
    ensures |ToSet(names)| <= |names|
    ensures |ToSet(names)| == |names| ==> DistinctNames(names)
  {
    if names != [] {
      var front, last := names[..|names| - 1], names[|names| - 1];
      FullSetIsDistinct(front);
      assert names == front + [last];
      assert ToSet(names) == ToSet(front) + {last};
    }
  }

  // ---- loading ----

  ghost predicate DistinctKeys(runs: seq<Run>) {
    forall i, j :: 0 <= i < j < |runs| ==> KeyOf(runs[i]) != KeyOf(runs[j])
  }

  ghost predicate DistinctIndices(runs: seq<Run>) {
    forall i, j :: 0 <= i < j < |runs| ==> runs[i].scheduleIndex != runs[j].scheduleIndex
  }

  ghost function KeySet(runs: seq<Run>): set<Key> {
    if runs == [] then {} else KeySet(runs[..|runs| - 1]) + {KeyOf(runs[|runs| - 1])}
  }

  ghost function IndexSet(runs: seq<Run>): set<nat> {
    if runs == [] then {} else IndexSet(runs[..|runs| - 1]) + {runs[|runs| - 1].scheduleIndex}
  }

  lemma {:induction false} SetsContain(runs: seq<Run>)
    ensures forall k :: k in KeySet(runs) <==> exists i :: 0 <= i < |runs| && KeyOf(runs[i]) == k
    ensures forall s :: s in IndexSet(runs) <==> exists i :: 0 <= i < |runs| && runs[i].scheduleIndex == s
  {
    if runs != [] {
      var n := |runs| - 1;
      SetsContain(runs[..n]);
      forall k ensures k in KeySet(runs) <==> exists i :: 0 <= i < |runs| && KeyOf(runs[i]) == k {
        if k in KeySet(runs[..n]) {
          var i :| 0 <= i < n && KeyOf(runs[..n][i]) == k;
          assert KeyOf(runs[i]) == k;
        }
        if i :| 0 <= i < n && KeyOf(runs[i]) == k {
          assert KeyOf(runs[..n][i]) == k;
        }
      }
      forall s ensures s in IndexSet(runs) <==> exists i :: 0 <= i < |runs| && runs[i].scheduleIndex == s {
        if s in IndexSet(runs[..n]) {
          var i :| 0 <= i < n && runs[..n][i].scheduleIndex == s;
          assert runs[i].scheduleIndex == s;
        }
        if i :| 0 <= i < n && runs[i].scheduleIndex == s {
          assert runs[..n][i].scheduleIndex == s;
        }
      }
    }
  }

  lemma {:induction false} KeySetSize(runs: seq<Run>)
    requires DistinctKeys(runs)
    ensures |KeySet(runs)| == |runs|
  {
    if runs != [] {
      var front := runs[..|runs| - 1];
      KeySetSize(front);
      SetsContain(front);
    }
  }

  /** The expected schedule indices. */
  function OneTo(n: nat): set<nat> {
    if n == 0 then {} else OneTo(n - 1) + {n}
  }

  lemma {:induction false} OneToContains(n: nat)
    ensures forall s :: s in OneTo(n) <==> 1 <= s <= n
  {
    if n > 0 {
      OneToContains(n - 1);
    }
  }

  predicate IndexLess(a: Run, b: Run) {
    a.scheduleIndex < b.scheduleIndex
  }

  /** `sort_by_key` on the schedule index. */
  function SortRuns(runs: seq<Run>): seq<Run> {
    Sort(runs, IndexLess)
  }

  ghost predicate SortedByIndex(runs: seq<Run>) {
    forall i, j :: 0 <= i < j < |runs| ==> runs[i].scheduleIndex <= runs[j].scheduleIndex
  }

  lemma {:induction false} SortRunsSorts(runs: seq<Run>)
    ensures multiset(SortRuns(runs)) == multiset(runs) && SortedByIndex(SortRuns(runs))
  {
    SortContents(runs, IndexLess);
    SortSorts(runs, IndexLess);
    var sorted := SortRuns(runs);
    forall i, j | 0 <= i < j < |sorted| ensures sorted[i].scheduleIndex <= sorted[j].scheduleIndex {
      assert !IndexLess(sorted[j], sorted[i]);
    }
  }

  /** An accepted schedule: one run for every task, arm and repetition, in schedule
      order, numbered 1 to n. */
  ghost predicate Complete(m: Manifest, runs: seq<Run>) {
    && |runs| == |m.tasks| * (|m.arms| * m.repetitions)
    && DistinctKeys(runs)
    && KeySet(runs) == Schedule(m)
    && forall i :: 0 <= i < |runs| ==> runs[i].scheduleIndex == i + 1
  }

  /** Every file is in order, and no two share a key or a schedule index. */
  ghost predicate Readable(m: Manifest, files: seq<RunFile>) {
    && (forall i :: 0 <= i < |files| ==> RunOf(m, files[i]).Ok?)
    && (forall i, j :: 0 <= i < j < |files| ==>
          FileKey(files[i]) != FileKey(files[j]) && files[i].scheduleIndex != files[j].scheduleIndex)
  }

  /** What `load_runs` accepts: as many files as the schedule has runs, readable, and
      with indices that do not go beyond their number. */
  ghost predicate Loadable(m: Manifest, files: seq<RunFile>) {
    && |files| == |m.tasks| * (|m.arms| * m.repetitions)
    && Readable(m, files)
    && forall i :: 0 <= i < |files| ==> 1 <= files[i].scheduleIndex <= |files|
  }

  ghost predicate ReadFrom(m: Manifest, files: seq<RunFile>, runs: seq<Run>) {
    |runs| <= |files| && forall i :: 0 <= i < |runs| ==> RunOf(m, files[i]) == Ok(runs[i])
  }

  /** These are the runs of all files in schedule order. */
  ghost predicate SortedFrom(m: Manifest, files: seq<RunFile>, sorted: seq<Run>) {
    exists runs :: |runs| == |files| && ReadFrom(m, files, runs) && sorted == SortRuns(runs)
  }

  lemma {:induction false} ReadOneMore(m: Manifest, files: seq<RunFile>, runs: seq<Run>, run: Run)
    requires |runs| < |files| && ReadFrom(m, files, runs) && RunOf(m, files[|runs|]) == Ok(run)
    ensures ReadFrom(m, files, runs + [run])
  {
  }

  /** A key or an index seen before: no schedule has it twice. */
  lemma {:induction false} Repeated(m: Manifest, files: seq<RunFile>, runs: seq<Run>)
    requires ReadFrom(m, files, runs) && |runs| < |files|
    requires FileKey(files[|runs|]) in KeySet(runs) || files[|runs|].scheduleIndex in IndexSet(runs)
    ensures !Readable(m, files)
  {
    SetsContain(runs);
    var i :| 0 <= i < |runs|
        && (KeyOf(runs[i]) == FileKey(files[|runs|]) || runs[i].scheduleIndex == files[|runs|].scheduleIndex);
    assert KeyOf(runs[i]) == FileKey(files[i]) && runs[i].scheduleIndex == files[i].scheduleIndex;
  }

  lemma {:induction false} LoadedIff(m: Manifest, files: seq<RunFile>, runs: seq<Run>)
    requires |runs| == |files| == |m.tasks| * (|m.arms| * m.repetitions) && ReadFrom(m, files, runs)
    requires DistinctKeys(runs) && DistinctIndices(runs)
    ensures Loadable(m, files) <==> IndexSet(runs) == OneTo(|runs|)
  {
    IndicesFill(runs);
    assert forall i :: 0 <= i < |runs| ==>
      KeyOf(runs[i]) == FileKey(files[i]) && runs[i].scheduleIndex == files[i].scheduleIndex;
    assert Readable(m, files);
  }

  lemma {:induction false} IndexSetSize(runs: seq<Run>)
    requires DistinctIndices(runs)
    ensures |IndexSet(runs)| == |runs|
  {
    if runs != [] {
      var front := runs[..|runs| - 1];
      IndexSetSize(front);
      SetsContain(front);
    }
  }

  lemma {:induction false} OneToSize(n: nat)
    ensures |OneTo(n)| == n
  {
    if n > 0 {
      OneToSize(n - 1);
      OneToContains(n - 1);
    }
  }

  /** Distinct indices within 1 to n, n of them, are 1 to n. */
  lemma {:induction false} IndicesFill(runs: seq<Run>)
    requires DistinctIndices(runs)
    ensures IndexSet(runs) == OneTo(|runs|) <==> forall i :: 0 <= i < |runs| ==> 1 <= runs[i].scheduleIndex <= |runs|
  {
    SetsContain(runs);
    OneToContains(|runs|);
    IndexSetSize(runs);
    OneToSize(|runs|);
    if IndexSet(runs) <= OneTo(|runs|) {
      assert |OneTo(|runs|) - IndexSet(runs)| == 0;
    }
    if IndexSet(runs) == OneTo(|runs|) {
      forall i | 0 <= i < |runs| ensures 1 <= runs[i].scheduleIndex <= |runs| {
        assert runs[i].scheduleIndex in IndexSet(runs);
      }
    }
  }

  lemma {:induction false} RunAdded(runs: seq<Run>, run: Run)
    requires DistinctKeys(runs) && DistinctIndices(runs)
    requires KeyOf(run) !in KeySet(runs) && run.scheduleIndex !in IndexSet(runs)
    ensures KeySet(runs + [run]) == KeySet(runs) + {KeyOf(run)}
    ensures IndexSet(runs + [run]) == IndexSet(runs) + {run.scheduleIndex}
    ensures DistinctKeys(runs + [run]) && DistinctIndices(runs + [run])
  {
    assert (runs + [run])[..|runs|] == runs;
    SetsContain(runs);
  }

  /** The pigeonhole step: as many distinct keys as the schedule has, all of them in
      it, are the whole schedule. */
  lemma {:induction false} AllScheduled(m: Manifest, runs: seq<Run>)
    requires ValidManifest(m) && |runs| == |m.tasks| * (|m.arms| * m.repetitions)
    requires KeySet(runs) <= Schedule(m) && DistinctKeys(runs) && DistinctIndices(runs)
    requires IndexSet(runs) == OneTo(|runs|)
    ensures Complete(m, SortRuns(runs))
  {
    var sorted := SortRuns(runs);
    FullSetIsDistinct(TaskIds(m));
    FullSetIsDistinct(ArmNames(m));
    ForTasksSize(TaskIds(m), ArmNames(m), m.repetitions);
    KeySetSize(runs);
    SameSizeSubset(KeySet(runs), Schedule(m));
    SortRunsSorts(runs);
    PermutationKeeps(runs, sorted);
    Numbered(sorted);
  }

  lemma {:induction false} SameSizeSubset(small: set<Key>, large: set<Key>)
    requires small <= large && |small| == |large|
    ensures small == large
  {
    assert |large - small| == |large| - |small|;
  }

  lemma {:induction false} PermutationKeeps(a: seq<Run>, b: seq<Run>)
    requires multiset(a) == multiset(b) && DistinctKeys(a) && DistinctIndices(a)
    ensures |a| == |b| && KeySet(a) == KeySet(b) && IndexSet(a) == IndexSet(b) && DistinctKeys(b) && DistinctIndices(b)
  {
    assert |multiset(a)| == |a| && |multiset(b)| == |b|;
    SetsContain(a);
    SetsContain(b);
    forall x ensures x in a <==> x in b { assert x in a <==> x in multiset(a); assert x in b <==> x in multiset(b); }
    forall k ensures k in KeySet(a) <==> k in KeySet(b) {
      if k in KeySet(a) { var i :| 0 <= i < |a| && KeyOf(a[i]) == k; assert a[i] in b; }
      if k in KeySet(b) { var i :| 0 <= i < |b| && KeyOf(b[i]) == k; assert b[i] in a; }
    }
    forall s ensures s in IndexSet(a) <==> s in IndexSet(b) {
      if s in IndexSet(a) { var i :| 0 <= i < |a| && a[i].scheduleIndex == s; assert a[i] in b; }
      if s in IndexSet(b) { var i :| 0 <= i < |b| && b[i].scheduleIndex == s; assert b[i] in a; }
    }
    DistinctByCount(a, b);
  }

  lemma {:induction false} CountAtMostOne(a: seq<Run>, r: Run)
    requires DistinctKeys(a)
    ensures multiset(a)[r] <= 1
  {
    if a != [] {
      var front, last := a[..|a| - 1], a[|a| - 1];
      CountAtMostOne(front, r);
      assert a == front + [last];
      assert forall i :: 0 <= i < |front| ==> front[i] == a[i] && KeyOf(a[i]) != KeyOf(last);
      assert last !in front;
    }
  }

  lemma {:induction false} DistinctByCount(a: seq<Run>, b: seq<Run>)
    requires multiset(a) == multiset(b) && DistinctKeys(a) && DistinctIndices(a)
    ensures DistinctKeys(b) && DistinctIndices(b)
  {
    forall i, j | 0 <= i < j < |b| ensures KeyOf(b[i]) != KeyOf(b[j]) && b[i].scheduleIndex != b[j].scheduleIndex {
      assert b == b[..j] + [b[j]] + b[j + 1..];
      assert b[i] in b[..j];
      assert multiset(b) == multiset(b[..j]) + multiset{b[j]} + multiset(b[j + 1..]);
      CountAtMostOne(a, b[j]);
      assert b[i] != b[j];
      assert b[i] in multiset(b) && b[j] in multiset(b);
      var p :| 0 <= p < |a| && a[p] == b[i];
      var q :| 0 <= q < |a| && a[q] == b[j];
    }
  }

  lemma {:induction false} AtLeast(runs: seq<Run>, i: nat)
    requires SortedByIndex(runs) && DistinctIndices(runs) && i < |runs| && runs[0].scheduleIndex >= 1
    ensures runs[i].scheduleIndex >= i + 1
  {
    if i > 0 {
      AtLeast(runs, i - 1);
    }
  }

  lemma {:induction false} AtMost(runs: seq<Run>, i: nat)
    requires SortedByIndex(runs) && DistinctIndices(runs) && i < |runs| && runs[|runs| - 1].scheduleIndex <= |runs|
    ensures runs[i].scheduleIndex <= i + 1
    decreases |runs| - i
  {
    if i < |runs| - 1 {
      AtMost(runs, i + 1);
    }
  }

  /** Ascending distinct indices that make up 1 to n are 1 to n in order. */
  lemma {:induction false} Numbered(runs: seq<Run>)
    requires SortedByIndex(runs) && DistinctIndices(runs) && IndexSet(runs) == OneTo(|runs|)
    ensures forall i :: 0 <= i < |runs| ==> runs[i].scheduleIndex == i + 1
  {
    OneToContains(|runs|);
    SetsContain(runs);
    forall i | 0 <= i < |runs| ensures runs[i].scheduleIndex == i + 1 {
      assert runs[0].scheduleIndex in IndexSet(runs) && runs[|runs| - 1].scheduleIndex in IndexSet(runs);
      AtLeast(runs, i);
      AtMost(runs, i);
    }
  }
}
