/** `load_runs`: what it accepts and what it returns, said on the files alone. */
module SuiteLoad {
  import opened Wrappers
  import opened SuiteRuns

  // ---- sound files ----

  /** This is the last task of the list with this id. */
  ghost predicate LastTask(tasks: seq<Task>, id: string, i: int) {
    0 <= i < |tasks| && tasks[i].id == id && forall j :: i < j < |tasks| ==> tasks[j].id != id
  }

  /** The last task of the manifest with this id has this revision. */
  ghost predicate TaskHasRevision(m: Manifest, id: string, revision: string) {
    exists i :: LastTask(m.tasks, id, i) && m.tasks[i].repositoryRevision == revision
  }

  ghost predicate HasArm(m: Manifest, name: string) {
    exists i :: 0 <= i < |m.arms| && m.arms[i].name == name
  }

  /** The metadata is in order, and names a task and an arm of the manifest. */
  ghost predicate SoundMetadata(m: Manifest, file: RunFile) {
    && file.schemaVersion == 1 && file.keyLength == 64 && 1 <= file.repetition <= m.repetitions && file.corpus != ""
    && (exists revision :: TaskHasRevision(m, file.taskId, revision)) && HasArm(m, file.arm) && file.safeReceiptPath
  }

  /** The receipt is of this experiment, task, revision and arm, in path mode, with one
      child thread, one level down, and its evidence adds up. */
  ghost predicate SoundReceipt(m: Manifest, file: RunFile) {
    var r := file.receipt;
    && r.schemaVersion == 1 && r.experimentId == m.experimentId && r.arm == file.arm && r.taskId == file.taskId
    && TaskHasRevision(m, file.taskId, r.repositoryRevision) && r.pathMode
    && 1 <= r.expectedEvidence && r.matchedPaths <= r.expectedEvidence
    && r.unexpectedEvidence <= 8 * r.expectedEvidence
    && (r.threadCount, r.childThreads, r.maximumDepth, r.spawnCalls, r.matchedSpawns, r.threads) == (2, 1, 1, 1, 1, 2)
    && r.hasChild
  }

  ghost predicate SoundFile(m: Manifest, file: RunFile) {
    SoundMetadata(m, file) && SoundReceipt(m, file)
  }

  lemma {:induction false} FindTaskIs(tasks: seq<Task>, id: string) returns (i: int)
    ensures FindTask(tasks, id).Some? ==> LastTask(tasks, id, i) && FindTask(tasks, id) == Some(tasks[i])
    ensures FindTask(tasks, id).None? ==> forall j :: 0 <= j < |tasks| ==> tasks[j].id != id
  {
    i := |tasks| - 1;
    if tasks != [] && tasks[i].id != id {
      i := FindTaskIs(tasks[..i], id);
    }
  }

  lemma {:induction false} RevisionIff(m: Manifest, id: string, revision: string)
    ensures TaskHasRevision(m, id, revision) <==> FindTask(m.tasks, id) == Some(Task(id, revision))
  {
    var i := FindTaskIs(m.tasks, id);
    if TaskHasRevision(m, id, revision) {
      var j :| LastTask(m.tasks, id, j) && m.tasks[j].repositoryRevision == revision;
      assert FindTask(m.tasks, id).Some? && i == j;
    }
  }

  lemma {:induction false} ArmIff(m: Manifest, name: string)
    ensures HasArm(m, name) <==> name in ArmNames(m)
  {
    if HasArm(m, name) {
      var i :| 0 <= i < |m.arms| && m.arms[i].name == name;
      assert ArmNames(m)[i] == name;
    }
  }

  /** Field by field, the run is what the file and its receipt say. */
  predicate FromFile(run: Run, file: RunFile) {
    && run.scheduleIndex == file.scheduleIndex && run.repetition == file.repetition
    && run.taskId == file.taskId && run.arm == file.arm
    && run.totalInput == file.receipt.totalInput && run.uncachedInput == file.receipt.uncachedInput
    && run.childInput == file.receipt.childInput && run.success == file.receipt.success
  }

  /** A file is read exactly when it is sound, and the run has the fields of the file and
      of its receipt. */
  lemma {:induction false} RunIs(m: Manifest, file: RunFile)
    ensures RunOf(m, file).Ok? <==> SoundFile(m, file)
    ensures RunOf(m, file).Ok? ==> FromFile(RunOf(m, file).value, file)
  {
    ArmIff(m, file.arm);
    RevisionIff(m, file.taskId, file.receipt.repositoryRevision);
    var task := FindTask(m.tasks, file.taskId);
    if task.Some? {
      RevisionIff(m, file.taskId, task.value.repositoryRevision);
    } else {
      forall revision ensures !TaskHasRevision(m, file.taskId, revision) { RevisionIff(m, file.taskId, revision); }
    }
  }

  // ---- the manifest ----

  ghost predicate SoundManifest(m: Manifest) {
    && m.schemaVersion == 1 && |m.tasks| >= 3 && m.repetitions >= 5
    && (forall i, j :: 0 <= i < j < |m.arms| ==> m.arms[i].name != m.arms[j].name)
    && (forall i, j :: 0 <= i < j < |m.tasks| ==> m.tasks[i].id != m.tasks[j].id)
    && HasArm(m, m.fullBaseline) && HasArm(m, m.retrievalBaseline) && HasArm(m, m.candidate)
  }

  lemma {:induction false} DistinctIsFull(names: seq<string>)
    requires DistinctNames(names)
    ensures |ToSet(names)| == |names|
  {
    if names != [] {
      var front, last := names[..|names| - 1], names[|names| - 1];
      DistinctIsFull(front);
      assert last !in front by {
        assert forall i :: 0 <= i < |front| ==> front[i] == names[i];
      }
      assert names == front + [last] && ToSet(names) == ToSet(front) + {last};
    }
  }

  /** The manifest check accepts exactly the manifests with distinct arms and tasks,
      enough of them, and known roles. */
  lemma {:induction false} ManifestIff(m: Manifest)
    ensures ValidManifest(m) <==> SoundManifest(m)
  {
    ArmIff(m, m.fullBaseline);
    ArmIff(m, m.retrievalBaseline);
    ArmIff(m, m.candidate);
    FullSetIsDistinct(ArmNames(m));
    FullSetIsDistinct(TaskIds(m));
    assert DistinctNames(ArmNames(m)) <==> forall i, j :: 0 <= i < j < |m.arms| ==> m.arms[i].name != m.arms[j].name;
    assert DistinctNames(TaskIds(m)) <==> forall i, j :: 0 <= i < j < |m.tasks| ==> m.tasks[i].id != m.tasks[j].id;
    if DistinctNames(ArmNames(m)) { DistinctIsFull(ArmNames(m)); }
    if DistinctNames(TaskIds(m)) { DistinctIsFull(TaskIds(m)); }
  }

  // ---- all files ----

  /** As many files as scheduled runs, all sound, no two for one task, arm and
      repetition or under one index, and indices within their number. */
  ghost predicate SoundFiles(m: Manifest, files: seq<RunFile>) {
    && |files| == |m.tasks| * (|m.arms| * m.repetitions)
    && (forall i :: 0 <= i < |files| ==> SoundFile(m, files[i]) && 1 <= files[i].scheduleIndex <= |files|)
    && forall i, j :: 0 <= i < j < |files| ==>
         && files[i].scheduleIndex != files[j].scheduleIndex
         && (files[i].taskId, files[i].arm, files[i].repetition)
            != (files[j].taskId, files[j].arm, files[j].repetition)
  }

  lemma {:induction false} LoadableIff(m: Manifest, files: seq<RunFile>)
    ensures Loadable(m, files) <==> SoundFiles(m, files)
  {
    forall i | 0 <= i < |files| ensures RunOf(m, files[i]).Ok? <==> SoundFile(m, files[i]) { RunIs(m, files[i]); }
  }

  /** Run number k is read from the file with schedule index k + 1, and there are no
      other runs. */
  ghost predicate InOrder(files: seq<RunFile>, runs: seq<Run>) {
    && |runs| == |files|
    && forall i :: 0 <= i < |files| ==>
         1 <= files[i].scheduleIndex <= |runs| && FromFile(runs[files[i].scheduleIndex - 1], files[i])
  }

  /** Every run is read from a file. */
  ghost predicate RunsHaveFiles(runs: seq<Run>, files: seq<RunFile>) {
    forall r :: r in runs ==> exists i :: 0 <= i < |files| && FromFile(r, files[i])
  }

  /** Every file gives a run. */
  ghost predicate FilesHaveRuns(files: seq<RunFile>, runs: seq<Run>) {
    forall i :: 0 <= i < |files| ==> exists r :: r in runs && FromFile(r, files[i])
  }

  lemma {:induction false} SortedHaveFiles(m: Manifest, files: seq<RunFile>, sorted: seq<Run>)
    requires SortedFrom(m, files, sorted)
    ensures |sorted| == |files| && RunsHaveFiles(sorted, files)
  {
    var runs :| |runs| == |files| && ReadFrom(m, files, runs) && sorted == SortRuns(runs);
    SameRuns(runs, sorted);
    forall r | r in sorted ensures exists i :: 0 <= i < |files| && FromFile(r, files[i]) {
      var i :| 0 <= i < |runs| && runs[i] == r;
      RunIs(m, files[i]);
    }
  }

  lemma {:induction false} FilesAreSorted(m: Manifest, files: seq<RunFile>, sorted: seq<Run>)
    requires SortedFrom(m, files, sorted)
    ensures FilesHaveRuns(files, sorted)
  {
    var runs :| |runs| == |files| && ReadFrom(m, files, runs) && sorted == SortRuns(runs);
    SameRuns(runs, sorted);
    forall i | 0 <= i < |files| ensures exists r :: r in sorted && FromFile(r, files[i]) {
      RunIs(m, files[i]);
      assert runs[i] in sorted && FromFile(runs[i], files[i]);
    }
  }

  lemma {:induction false} SameRuns(runs: seq<Run>, sorted: seq<Run>)
    requires sorted == SortRuns(runs)
    ensures |sorted| == |runs| && forall r :: r in sorted <==> r in runs
  {
    SortRunsSorts(runs);
    assert |multiset(sorted)| == |sorted| && |multiset(runs)| == |runs|;
    forall r ensures r in sorted <==> r in runs {
      assert r in sorted <==> r in multiset(sorted);
      assert r in runs <==> r in multiset(runs);
    }
  }

  lemma {:induction false} SortedInOrder(m: Manifest, files: seq<RunFile>, runs: seq<Run>)
    requires |runs| == |files| && ReadFrom(m, files, runs)
    requires DistinctKeys(runs) && DistinctIndices(runs) && IndexSet(runs) == OneTo(|runs|)
    ensures InOrder(files, SortRuns(runs))
  {
    var sorted := SortRuns(runs);
    SortRunsSorts(runs);
    SameRuns(runs, sorted);
    PermutationKeeps(runs, sorted);
    Numbered(sorted);
    forall i | 0 <= i < |files|
      ensures 1 <= files[i].scheduleIndex <= |sorted| && FromFile(sorted[files[i].scheduleIndex - 1], files[i])
    {
      ReadIs(m, files, runs, i);
      var k := PlaceOf(sorted, runs[i]);
    }
  }

  lemma {:induction false} ReadIs(m: Manifest, files: seq<RunFile>, runs: seq<Run>, i: nat)
    requires ReadFrom(m, files, runs) && i < |runs|
    ensures FromFile(runs[i], files[i])
  {
    RunIs(m, files[i]);
  }

  lemma {:induction false} PlaceOf(runs: seq<Run>, r: Run) returns (k: nat)
    requires r in runs
    ensures k < |runs| && runs[k] == r
  {
    k :| k < |runs| && runs[k] == r;
  }

  /** `load_runs`: the runs of all files in schedule order, or an error; what it
      accepts is a complete schedule. */
  method LoadRuns(m: Manifest, files: seq<RunFile>) returns (r: Result<seq<Run>, Rejection>)
    ensures r.Ok? <==> SoundFiles(m, files)
    ensures r.Ok? ==> InOrder(files, r.value) && SortedFrom(m, files, r.value)
    ensures r.Ok? && SoundManifest(m) ==> Complete(m, r.value)
  {
    LoadableIff(m, files);
    ManifestIff(m);
    var expected := |m.tasks| * (|m.arms| * m.repetitions);
    if |files| != expected {
      return Err(WrongCount);
    }
    var seen: set<Key> := {};
    var indices: set<nat> := {};
    var runs: seq<Run> := [];
    var n := 0;
    while n < |files|
      invariant n == |runs| <= |files| && ReadFrom(m, files, runs)
      invariant seen == KeySet(runs) && indices == IndexSet(runs)
      invariant seen <= Schedule(m) && DistinctKeys(runs) && DistinctIndices(runs)
    {
      var file := files[n];
      var task := TaskOf(m, file);
      if task.Err? {
        return Err(task.error);
      }
      if FileKey(file) in seen || file.scheduleIndex in indices {
        Repeated(m, files, runs);
        return Err(Duplicate);
      }
      var run := RunOf(m, file);
      if run.Err? {
        assert !Readable(m, files);
        return Err(run.error);
      }
      RunAdded(runs, run.value);
      ReadOneMore(m, files, runs, run.value);
      seen := seen + {FileKey(file)};
      indices := indices + {file.scheduleIndex};
      runs := runs + [run.value];
      n := n + 1;
    }
    LoadedIff(m, files, runs);
    if indices != OneTo(expected) {
      return Err(ScheduleIncomplete);
    }
    if ValidManifest(m) {
      AllScheduled(m, runs);
    }
    r := Ok(SortRuns(runs));
    assert SortedFrom(m, files, r.value);
    SortedInOrder(m, files, runs);
  }
}
