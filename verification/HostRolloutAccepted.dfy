/** Which rollouts the host parser accepts, said on their lines alone. */
module HostRolloutAccepted {
  import opened Wrappers
  import opened Selection
  import opened ProviderUsage
  import opened HostRollout
  import opened HostRolloutProperties
  import opened HostRolloutTrace

  // ---- what a line may be, given the lines before it ----

  ghost predicate CalledBefore(lines: seq<Line>, n: nat, id: string)
    requires n <= |lines|
  {
    exists j: nat :: j < n && IsCallRecord(lines[j], id)
  }

  /** The call made at line `j` has its result before line `n`. */
  ghost predicate Answered(lines: seq<Line>, j: nat, id: string, n: nat)
    requires j < |lines| && n <= |lines|
  {
    CarriesResult(lines[j]) || exists k: nat :: j < k < n && IsOutputRecord(lines[k], id)
  }

  /** No call of the turn is without its result. */
  ghost predicate NoneWaits(lines: seq<Line>, n: nat, t: nat)
    requires n <= |lines|
  {
    forall j: nat, id ::
      j < n && IsCallRecord(lines[j], id) && InTurn(lines, j, t) ==> Answered(lines, j, id, n)
  }

  ghost predicate SameTurn(lines: seq<Line>, j: nat, n: nat)
    requires j <= n <= |lines|
  {
    exists t: nat :: InTurn(lines, j, t) && InTurn(lines, n, t)
  }

  /** If a call has this id, it waits for its output in the open turn. */
  ghost predicate MayAnswer(lines: seq<Line>, n: nat, id: string)
    requires n <= |lines|
  {
    forall j: nat :: j < n && IsCallRecord(lines[j], id) ==> !Answered(lines, j, id, n) && SameTurn(lines, j, n)
  }

  predicate NeverLess(u: UsageNumbers, v: UsageNumbers) {
    u.input >= v.input && u.cached >= v.cached && u.output >= v.output && u.reasoning >= v.reasoning
    && u.total >= v.total
  }

  /** No earlier report has more of anything. */
  ghost predicate KeepsUp(lines: seq<Line>, n: nat, u: UsageNumbers)
    requires n <= |lines|
  {
    forall j: nat, v :: j < n && Reports(lines[j], v) ==> NeverLess(u, v)
  }

  /** The compacted record before line `n` is that of line `j`. */
  ghost predicate LastCompacted(lines: seq<Line>, n: nat, j: nat)
    requires n <= |lines|
  {
    j < n && Compacts(lines[j]) && forall k :: j < k < n ==> !Compacts(lines[k])
  }

  ghost predicate WindowFollows(lines: seq<Line>, n: nat, window: Option<nat>)
    requires n <= |lines|
  {
    forall j: nat :: LastCompacted(lines, n, j) ==>
      var last := lines[j].value.window; last.Some? && window.Some? ==> last.value < window.value
  }

  /** The line may follow the lines before it. */
  ghost predicate LineFits(lines: seq<Line>, n: nat)
    requires n < |lines|
  {
    match lines[n]
    case None => true
    case Some(Invalid) => false
    case Some(Untyped) => false
    case Some(SessionMeta(version, provider)) => n == 0 && version.Some? && provider.Some?
    case Some(TurnContext(model)) => model.Some?
    case Some(EventMsg(TaskStarted)) => BetweenTurns(lines, n)
    case Some(EventMsg(TaskComplete)) => exists t: nat :: InTurn(lines, n, t) && NoneWaits(lines, n, t)
    case Some(EventMsg(TurnAborted)) => !BetweenTurns(lines, n)
    case Some(EventMsg(TokenCount(total))) =>
      !BetweenTurns(lines, n) && (total.Some? ==> exists u :: ReadsAs(total.value, u) && KeepsUp(lines, n, u))
    case Some(EventMsg(McpCallEnd(tool, id, result))) =>
      !BetweenTurns(lines, n) && tool.Some? && id.Some? && result.Some? && !CalledBefore(lines, n, id.value)
    case Some(EventMsg(OtherEvent)) => true
    case Some(ResponseItem(FunctionCall(BadName, _))) => false
    case Some(ResponseItem(FunctionCall(NotSelected, _))) => true
    case Some(ResponseItem(FunctionCall(Selected(_), id))) =>
      !BetweenTurns(lines, n) && id.Some? && !CalledBefore(lines, n, id.value)
    case Some(ResponseItem(FunctionOutput(id, output))) =>
      id.Some? && MayAnswer(lines, n, id.value) && (CalledBefore(lines, n, id.value) ==> output.Some?)
    case Some(ResponseItem(_)) => true
    case Some(Compacted(window, _)) => WindowFollows(lines, n, window)
    case Some(OtherRecord) => true
  }

  // ---- the conditions as the state knows them ----

  lemma {:induction false} OpenIff(lines: seq<Line>, n: nat, s: State)
    requires n <= |lines| && RunTo(lines, n) == Ok(s)
    ensures s.activeTurn.None? <==> BetweenTurns(lines, n)
    ensures forall t: nat :: s.activeTurn == Some(t) <==> InTurn(lines, n, t)
  {
    TurnsAre(lines, n);
    if s.activeTurn.Some? { assert InTurn(lines, n, s.activeTurn.value); }
  }

  lemma {:induction false} CalledIff(lines: seq<Line>, n: nat, s: State, id: string)
    requires n <= |lines| && Tracked(lines, n, s.calls, s.callIndexes)
    ensures id in s.callIndexes <==> CalledBefore(lines, n, id)
  {
    if id in s.callIndexes {
      var c := s.calls[s.callIndexes[id]];
      assert CallTracked(lines, n, c) && IsCallRecord(lines[c.record], id);
    }
    if CalledBefore(lines, n, id) {
      var j: nat :| j < n && IsCallRecord(lines[j], id);
      assert Recorded(s.calls, s.callIndexes, id, j);
    }
  }

  lemma {:induction false} AnsweredIff(lines: seq<Line>, n: nat, c: Call)
    requires n <= |lines| && CallTracked(lines, n, c)
    ensures c.output.Some? <==> Answered(lines, c.record, c.callId, n)
  {
  }

  /** The one record of an id, and its call. */
  lemma {:induction false} CallAt(lines: seq<Line>, n: nat, s: State, j: nat, id: string)
    requires j < n <= |lines| && Tracked(lines, n, s.calls, s.callIndexes) && IsCallRecord(lines[j], id)
    ensures id in s.callIndexes && s.callIndexes[id] < |s.calls|
    ensures var c := s.calls[s.callIndexes[id]];
            c.record == j && c.callId == id && CallTracked(lines, n, c)
            && (c.output.Some? <==> Answered(lines, j, id, n))
  {
    assert Recorded(s.calls, s.callIndexes, id, j);
    var c := s.calls[s.callIndexes[id]];
    assert CallTracked(lines, n, c);
    AnsweredIff(lines, n, c);
  }

  lemma {:induction false} TurnOfCall(lines: seq<Line>, n: nat, c: Call, t: nat)
    requires n <= |lines| && RunTo(lines, n).Ok? && CallTracked(lines, n, c)
    ensures c.turn == t <==> InTurn(lines, c.record, t)
  {
    RunsBefore(lines, c.record, n);
    TurnAtIs(lines, c.record, t);
    TurnAtIs(lines, c.record, c.turn);
  }

  lemma {:induction false} UnresolvedIff(lines: seq<Line>, n: nat, s: State, t: nat)
    requires n <= |lines| && RunTo(lines, n) == Ok(s) && Tracked(lines, n, s.calls, s.callIndexes)
    ensures Unresolved(s.calls, t) <==> !NoneWaits(lines, n, t)
  {
    if Unresolved(s.calls, t) {
      var k :| 0 <= k < |s.calls| && s.calls[k].turn == t && s.calls[k].output.None?;
      WaitingCall(lines, n, s, k);
    }
    if !NoneWaits(lines, n, t) {
      var j: nat, id :| j < n && IsCallRecord(lines[j], id) && InTurn(lines, j, t) && !Answered(lines, j, id, n);
      CallAt(lines, n, s, j, id);
      TurnOfCall(lines, n, s.calls[s.callIndexes[id]], t);
    }
  }

  lemma {:induction false} WaitingCall(lines: seq<Line>, n: nat, s: State, k: nat)
    requires n <= |lines| && RunTo(lines, n) == Ok(s) && Tracked(lines, n, s.calls, s.callIndexes)
    requires k < |s.calls| && s.calls[k].output.None?
    ensures var c := s.calls[k];
            c.record < n && IsCallRecord(lines[c.record], c.callId) && InTurn(lines, c.record, c.turn)
            && !Answered(lines, c.record, c.callId, n)
  {
    assert CallTracked(lines, n, s.calls[k]);
    AnsweredIff(lines, n, s.calls[k]);
    TurnOfCall(lines, n, s.calls[k], s.calls[k].turn);
  }

  /** The source's condition on an output record. */
  predicate OutputFits(s: State, n: nat, id: string) {
    id in s.callIndexes ==>
      var at := s.callIndexes[id];
      at < |s.calls| && s.activeTurn == Some(s.calls[at].turn) && s.calls[at].output.None? && n > s.calls[at].record
  }

  lemma {:induction false} MayAnswerIff(lines: seq<Line>, n: nat, s: State, id: string)
    requires n <= |lines| && RunTo(lines, n) == Ok(s) && Tracked(lines, n, s.calls, s.callIndexes)
    ensures OutputFits(s, n, id) <==> MayAnswer(lines, n, id)
  {
    CalledIff(lines, n, s, id);
    if CalledBefore(lines, n, id) {
      var j: nat :| j < n && IsCallRecord(lines[j], id);
      CallAt(lines, n, s, j, id);
      SameTurnIff(lines, n, s, s.calls[s.callIndexes[id]]);
      forall i: nat | i < n && IsCallRecord(lines[i], id) ensures i == j { CallAt(lines, n, s, i, id); }
    }
  }

  lemma {:induction false} SameTurnIff(lines: seq<Line>, n: nat, s: State, c: Call)
    requires n <= |lines| && RunTo(lines, n) == Ok(s) && CallTracked(lines, n, c)
    ensures s.activeTurn == Some(c.turn) <==> SameTurn(lines, c.record, n)
  {
    OpenIff(lines, n, s);
    TurnOfCall(lines, n, c, c.turn);
    if SameTurn(lines, c.record, n) {
      var t: nat :| InTurn(lines, c.record, t) && InTurn(lines, n, t);
      TurnOfCall(lines, n, c, t);
    }
  }

  /** Reports stand inside turns. */
  lemma {:induction false} ReportInTurn(lines: seq<Line>, n: nat, j: nat, v: UsageNumbers) returns (t: nat)
    requires j < n <= |lines| && RunTo(lines, n).Ok? && Reports(lines[j], v)
    ensures ReportsIn(lines, j, t, v)
  {
    RunsBefore(lines, j + 1, n);
    RunsBefore(lines, j, j + 1);
    var s := RunTo(lines, j).value;
    StepSnapshots(s, j, lines[j]);
    OpenIff(lines, j, s);
    t := s.activeTurn.value;
  }

  lemma {:induction false} LastDominates(lines: seq<Line>, n: nat, s: State, j: nat, v: UsageNumbers)
    requires j < n <= |lines| && RunTo(lines, n) == Ok(s) && Reports(lines[j], v)
    ensures s.lastUsage.Some? && NeverLess(s.lastUsage.value, v)
  {
    SnapshotsAre(lines, n);
    var t := ReportInTurn(lines, n, j, v);
    assert Snapshot(j, t, v) in s.snapshots;
    var k :| 0 <= k < |s.snapshots| && s.snapshots[k] == Snapshot(j, t, v);
    LastUsageDominates(lines, n, k);
  }

  lemma {:induction false} KeepsUpIff(lines: seq<Line>, n: nat, s: State, u: UsageNumbers)
    requires n <= |lines| && RunTo(lines, n) == Ok(s)
    ensures (s.lastUsage.Some? ==> NumbersMonotonic(s.lastUsage.value, u)) <==> KeepsUp(lines, n, u)
  {
    SnapshotsAre(lines, n);
    RunKeeps(lines, n);
    forall j: nat, v | j < n && Reports(lines[j], v)
      ensures s.lastUsage.Some? && (NumbersMonotonic(s.lastUsage.value, u) ==> NeverLess(u, v))
    {
      LastDominates(lines, n, s, j, v);
    }
    if s.lastUsage.Some? {
      var last := s.snapshots[|s.snapshots| - 1];
      assert last in s.snapshots;
      assert ReportsIn(lines, last.record, last.turn, last.usage);
      assert last.record < n && Reports(lines[last.record], last.usage) && s.lastUsage == Some(last.usage);
      if KeepsUp(lines, n, u) {
        assert NeverLess(u, last.usage);
      }
    }
  }

  lemma {:induction false} WindowIff(lines: seq<Line>, n: nat, s: State, window: Option<nat>)
    requires n <= |lines| && RunTo(lines, n) == Ok(s)
    ensures WindowFollows(lines, n, window) <==>
            (s.compactions != [] ==>
             var last := s.compactions[|s.compactions| - 1].window;
             last.Some? && window.Some? ==> last.value < window.value)
  {
    var at := CompactionsAre(lines, n);
    if s.compactions == [] {
      forall j: nat ensures !LastCompacted(lines, n, j) {
        assert j in at <==> j < n && Compacting(lines)(j);
      }
    } else {
      var j := at[|at| - 1];
      assert j in at && CompactedAt(lines, s.compactions[|at| - 1], j, |at| - 1);
      LastPlace(lines, n, at);
      forall i: nat | LastCompacted(lines, n, i) ensures i == j {
        assert i in at;
      }
    }
  }

  lemma {:induction false} LastPlace(lines: seq<Line>, n: nat, at: seq<nat>)
    requires n <= |lines| && Picks(at, n, Compacting(lines)) && at != []
    ensures LastCompacted(lines, n, at[|at| - 1])
  {
    var j := at[|at| - 1];
    assert j in at;
    forall k: nat | j < k < n ensures !Compacts(lines[k]) {
      assert k in at <==> k < n && Compacting(lines)(k);
    }
  }

  // ---- one step ----

  lemma {:induction false} EventFits(lines: seq<Line>, n: nat, s: State, e: Event)
    requires n < |lines| && RunTo(lines, n) == Ok(s) && lines[n] == Some(EventMsg(e))
    ensures StepEvent(Counted(s), n, e).Ok? <==> LineFits(lines, n)
  {
    OpenIff(lines, n, s);
    TrackedHolds(lines, n);
    match e
    case TaskComplete =>
      if s.activeTurn.Some? { UnresolvedIff(lines, n, s, s.activeTurn.value); }
    case TokenCount(Some(raw)) =>
      forall u ensures ParseNumbers(raw) == Ok(u) <==> ReadsAs(raw, u) { ReadsIff(raw, u); }
      if ParseNumbers(raw).Ok? { KeepsUpIff(lines, n, s, ParseNumbers(raw).value); }
    case McpCallEnd(_, Some(id), _) => CalledIff(lines, n, s, id);
    case _ =>
  }

  lemma {:induction false} ItemFits(lines: seq<Line>, n: nat, s: State, item: Item)
    requires n < |lines| && RunTo(lines, n) == Ok(s) && lines[n] == Some(ResponseItem(item))
    ensures StepItem(NoteResponse(Counted(s), n, item), n, item).Ok? <==> LineFits(lines, n)
  {
    OpenIff(lines, n, s);
    TrackedHolds(lines, n);
    match item
    case FunctionCall(Selected(_), Some(id)) => CalledIff(lines, n, s, id);
    case FunctionOutput(Some(id), _) =>
      CalledIff(lines, n, s, id);
      MayAnswerIff(lines, n, s, id);
    case _ =>
  }

  lemma {:induction false} SessionFits(lines: seq<Line>, n: nat, s: State, version: Option<string>,
                                       provider: Option<string>)
    requires n < |lines| && RunTo(lines, n) == Ok(s) && lines[n] == Some(SessionMeta(version, provider))
    ensures HostRollout.StepSession(Counted(s), n, version, provider).Ok? <==> LineFits(lines, n)
  {
    if n == 0 { assert s == START; }
  }

  lemma {:induction false} CompactedFits(lines: seq<Line>, n: nat, s: State, window: Option<nat>, entries: nat)
    requires n < |lines| && RunTo(lines, n) == Ok(s) && lines[n] == Some(Compacted(window, entries))
    ensures StepCompacted(Counted(s), window, entries).Ok? <==> LineFits(lines, n)
  {
    WindowIff(lines, n, s, window);
  }

  lemma {:induction false} RecordFits(lines: seq<Line>, n: nat, s: State, record: Record)
    requires n < |lines| && RunTo(lines, n) == Ok(s) && lines[n] == Some(record)
    ensures StepRecord(Counted(s), n, record).Ok? <==> LineFits(lines, n)
  {
    match record
    case EventMsg(e) => EventFits(lines, n, s, e);
    case ResponseItem(item) => ItemFits(lines, n, s, item);
    case Compacted(window, entries) => CompactedFits(lines, n, s, window, entries);
    case SessionMeta(version, provider) => SessionFits(lines, n, s, version, provider);
    case _ =>
  }

  lemma {:induction false} StepFits(lines: seq<Line>, n: nat, s: State)
    requires n < |lines| && RunTo(lines, n) == Ok(s)
    ensures Step(s, n, lines[n]).Ok? <==> LineFits(lines, n)
  {
    if lines[n].Some? { RecordFits(lines, n, s, lines[n].value); }
  }

  /** The loop goes through the first `n` lines exactly when each may follow those
      before it. */
  lemma {:induction false} RunsIff(lines: seq<Line>, n: nat)
    requires n <= |lines|
    ensures RunTo(lines, n).Ok? <==> forall i :: 0 <= i < n ==> LineFits(lines, i)
  {
    if n > 0 {
      RunsIff(lines, n - 1);
      if RunTo(lines, n - 1).Ok? { StepFits(lines, n - 1, RunTo(lines, n - 1).value); }
    }
  }

  // ---- whole rollouts ----

  ghost predicate MakesCall(lines: seq<Line>) {
    exists j: nat, id :: j < |lines| && IsCallRecord(lines[j], id)
  }

  ghost predicate AllAnswered(lines: seq<Line>) {
    forall j: nat, id :: j < |lines| && IsCallRecord(lines[j], id) ==> Answered(lines, j, id, |lines|)
  }

  /** The rollout opens with its session, closes every turn and has one, names one
      model, makes a call, and has the result of every call. */
  ghost predicate Closes(lines: seq<Line>) {
    && lines != [] && lines[0].Some? && lines[0].value.SessionMeta?
    && BetweenTurns(lines, |lines|)
    && (exists i :: 0 <= i < |lines| && StartsTurn(lines[i]))
    && NamesOneModel(lines)
    && MakesCall(lines) && AllAnswered(lines)
  }

  lemma {:induction false} StartsCounted(lines: seq<Line>, n: nat)
    requires n <= |lines|
    ensures CountOf(lines, n, Some(EventMsg(TaskStarted))) > 0 <==> exists i :: 0 <= i < n && StartsTurn(lines[i])
  {
    if n > 0 {
      StartsCounted(lines, n - 1);
      if CountOf(lines, n - 1, Some(EventMsg(TaskStarted))) > 0 {
        var i :| 0 <= i < n - 1 && StartsTurn(lines[i]);
        assert 0 <= i < n && StartsTurn(lines[i]);
      }
    }
  }

  lemma {:induction false} OneModel(models: set<string>)
    ensures |models| == 1 <==> models != {} && forall m, k :: m in models && k in models ==> m == k
  {
    if |models| == 1 {
      var m :| m in models;
      assert |models - {m}| == 0;
    } else if models != {} {
      var m :| m in models;
      assert models - {m} == {} ==> models == {m};
      assert |models - {m}| == |models| - 1;
      if models - {m} != {} { var k :| k in models - {m}; }
    }
  }

  /** Some turn context names a model, and none names another. */
  ghost predicate NamesOneModel(lines: seq<Line>) {
    && (exists i, m :: 0 <= i < |lines| && lines[i] == Some(TurnContext(Some(m))))
    && (forall i, j, m, k :: 0 <= i < |lines| && 0 <= j < |lines| ==>
          lines[i] == Some(TurnContext(Some(m))) && lines[j] == Some(TurnContext(Some(k))) ==> m == k)
  }

  lemma {:induction false} ModelsIff(lines: seq<Line>, s: State)
    requires RunTo(lines, |lines|) == Ok(s)
    ensures |s.models| == 1 <==> NamesOneModel(lines)
  {
    SessionIs(lines, |lines|);
    OneModel(s.models);
    if |s.models| == 1 {
      var m :| m in s.models;
      var i :| 0 <= i < |lines| && lines[i] == Some(TurnContext(Some(m)));
    }
    if NamesOneModel(lines) {
      var i, m :| 0 <= i < |lines| && lines[i] == Some(TurnContext(Some(m)));
      assert m in s.models;
    }
  }

  lemma {:induction false} CallsIff(lines: seq<Line>, s: State)
    requires RunTo(lines, |lines|) == Ok(s)
    ensures s.calls != [] <==> MakesCall(lines)
    ensures (forall k :: 0 <= k < |s.calls| ==> s.calls[k].output.Some?) <==> AllAnswered(lines)
  {
    var n := |lines|;
    TrackedHolds(lines, n);
    if s.calls != [] {
      assert CallTracked(lines, n, s.calls[0]) && IsCallRecord(lines[s.calls[0].record], s.calls[0].callId);
    }
    forall j: nat, id | j < n && IsCallRecord(lines[j], id)
      ensures id in s.callIndexes && s.callIndexes[id] < |s.calls|
      ensures s.calls[s.callIndexes[id]].output.Some? <==> Answered(lines, j, id, n)
    {
      CallAt(lines, n, s, j, id);
    }
    forall k | 0 <= k < |s.calls|
      ensures s.calls[k].record < n && IsCallRecord(lines[s.calls[k].record], s.calls[k].callId)
      ensures s.calls[k].output.Some? <==> Answered(lines, s.calls[k].record, s.calls[k].callId, n)
    {
      assert CallTracked(lines, n, s.calls[k]);
      AnsweredIff(lines, n, s.calls[k]);
    }
  }

  lemma {:induction false} SessionIff(lines: seq<Line>, s: State)
    requires RunTo(lines, |lines|) == Ok(s)
    ensures s.hostVersion.Some? <==> lines != [] && lines[0].Some? && lines[0].value.SessionMeta?
  {
    SessionIs(lines, |lines|);
    if lines != [] && lines[0].Some? && lines[0].value.SessionMeta? {
      RunsIff(lines, |lines|);
      assert LineFits(lines, 0);
    }
    if s.hostVersion.Some? {
      assert lines[0] == Some(SessionMeta(Some(s.hostVersion.value), Some(s.provider.value)));
    }
  }

  lemma {:induction false} FinishIff(lines: seq<Line>, s: State)
    requires RunTo(lines, |lines|) == Ok(s)
    ensures Finish(s).Ok? <==> Closes(lines)
  {
    SessionIff(lines, s);
    OpenIff(lines, |lines|, s);
    TurnsAre(lines, |lines|);
    StartsCounted(lines, |lines|);
    LifecycleHolds(lines, |lines|);
    ModelsIff(lines, s);
    CallsIff(lines, s);
  }

  /** A rollout is accepted exactly when every line may follow those before it and the
      whole closes. */
  lemma {:induction false} AcceptedIff(lines: seq<Line>)
    ensures Parsed(lines).Ok? <==> (forall i :: 0 <= i < |lines| ==> LineFits(lines, i)) && Closes(lines)
  {
    RunsIff(lines, |lines|);
    if RunTo(lines, |lines|).Ok? { FinishIff(lines, RunTo(lines, |lines|).value); }
  }
}
