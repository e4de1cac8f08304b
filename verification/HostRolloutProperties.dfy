/** What holds in every rollout the host parser accepts, and at every line of it. */
module HostRolloutProperties {
  import opened Wrappers
  import opened ProviderUsage
  import opened HostRollout

  // ---- reading the trace itself ----

  /** A line that makes a call of the selected server under this id. */
  predicate IsCallRecord(line: Line, id: string) {
    match line
    case Some(EventMsg(McpCallEnd(_, callId, _))) => callId == Some(id)
    case Some(ResponseItem(FunctionCall(Selected(_), callId))) => callId == Some(id)
    case _ => false
  }

  /** The call record that already carries its result. */
  predicate CarriesResult(line: Line) {
    line.Some? && line.value.EventMsg? && line.value.event.McpCallEnd?
  }

  predicate IsOutputRecord(line: Line, id: string) {
    line.Some? && line.value.ResponseItem? && line.value.item.FunctionOutput? && line.value.item.callId == Some(id)
  }

  /** The turn that is open just before line `i`. */
  function TurnAt(lines: seq<Line>, i: nat): Option<nat>
    requires i <= |lines|
  {
    match RunTo(lines, i)
    case Ok(s) => s.activeTurn
    case Err(_) => None
  }

  // ---- turns ----

  lemma {:induction false} LifecycleHolds(lines: seq<Line>, n: nat)
    requires n <= |lines| && RunTo(lines, n).Ok?
    ensures Lifecycle(RunTo(lines, n).value)
  {
    RunKeeps(lines, n);
  }

  // ---- usage ----

  /** The last snapshot dominates every earlier one in each component. */
  lemma {:induction false} LastUsageDominates(lines: seq<Line>, n: nat, k: nat)
    requires n <= |lines| && RunTo(lines, n).Ok? && k < |RunTo(lines, n).value.snapshots|
    ensures var s := RunTo(lines, n).value;
            s.lastUsage.Some? && NumbersMonotonic(s.snapshots[k].usage, s.lastUsage.value)
  {
    RunKeeps(lines, n);
  }

  // ---- calls and the id index ----

  /** What the first `n` lines say about one call. */
  ghost predicate CallTracked(lines: seq<Line>, n: nat, c: Call)
    requires n <= |lines|
  {
    && c.record < n
    && IsCallRecord(lines[c.record], c.callId)
    && TurnAt(lines, c.record) == Some(c.turn)
    && match c.output
       case None => !CarriesResult(lines[c.record]) && NoOutputIn(lines, c.callId, c.record + 1, n)
       case Some(o) =>
         && o.record < n
         && OnlyOutputIn(lines, c.callId, c.record + 1, n, o.record)
         && if CarriesResult(lines[c.record]) then o.record == c.record
            else c.record < o.record && IsOutputRecord(lines[o.record], c.callId)
                 && TurnAt(lines, o.record) == Some(c.turn)
  }

  ghost predicate NoOutputIn(lines: seq<Line>, id: string, lo: nat, hi: nat)
    requires hi <= |lines|
  {
    forall j :: lo <= j < hi ==> !IsOutputRecord(lines[j], id)
  }

  /** No output record for the id except possibly the one at `at`. */
  ghost predicate OnlyOutputIn(lines: seq<Line>, id: string, lo: nat, hi: nat, at: nat)
    requires hi <= |lines|
  {
    forall j :: lo <= j < hi && IsOutputRecord(lines[j], id) ==> j == at
  }

  ghost predicate AllTracked(lines: seq<Line>, n: nat, calls: seq<Call>)
    requires n <= |lines|
  {
    forall k :: 0 <= k < |calls| ==> CallTracked(lines, n, calls[k])
  }

  /** The index finds the call that a call record made. */
  ghost predicate Recorded(calls: seq<Call>, index: map<string, nat>, id: string, record: nat) {
    id in index && index[id] < |calls| && calls[index[id]].record == record
  }

  ghost predicate AllRecorded(lines: seq<Line>, n: nat, calls: seq<Call>, index: map<string, nat>)
    requires n <= |lines|
  {
    forall j, id :: 0 <= j < n && IsCallRecord(lines[j], id) ==> Recorded(calls, index, id, j)
  }

  ghost predicate Tracked(lines: seq<Line>, n: nat, calls: seq<Call>, index: map<string, nat>)
    requires n <= |lines|
  {
    Indexed(calls, index) && AllTracked(lines, n, calls) && AllRecorded(lines, n, calls, index)
  }

  lemma {:induction false} CallStays(lines: seq<Line>, n: nat, c: Call)
    requires n < |lines| && CallTracked(lines, n, c) && !IsOutputRecord(lines[n], c.callId)
    ensures CallTracked(lines, n + 1, c)
  {
  }

  /** A line that is neither a call nor an output of a known call. */
  lemma {:induction false} OtherLine(lines: seq<Line>, n: nat, calls: seq<Call>, index: map<string, nat>)
    requires n < |lines| && Tracked(lines, n, calls, index)
    requires forall id :: IsOutputRecord(lines[n], id) ==> id !in index
    requires forall id :: !IsCallRecord(lines[n], id)
    ensures Tracked(lines, n + 1, calls, index)
  {
    forall k | 0 <= k < |calls| ensures CallTracked(lines, n + 1, calls[k]) {
      assert calls[k].callId in index;
      CallStays(lines, n, calls[k]);
    }
  }

  lemma {:induction false} CallLine(lines: seq<Line>, n: nat, calls: seq<Call>, index: map<string, nat>, call: Call)
    requires n < |lines| && Tracked(lines, n, calls, index)
    requires call.callId !in index && call.record == n && TurnAt(lines, n) == Some(call.turn)
    requires IsCallRecord(lines[n], call.callId)
    requires if CarriesResult(lines[n]) then call.output.Some? && call.output.value.record == n else call.output.None?
    ensures Tracked(lines, n + 1, calls + [call], index[call.callId := |calls|])
  {
    var grown, extended := calls + [call], index[call.callId := |calls|];
    forall k | 0 <= k < |grown| ensures CallTracked(lines, n + 1, grown[k]) {
      if k < |calls| { CallStays(lines, n, calls[k]); }
    }
    forall j, id | 0 <= j < n + 1 && IsCallRecord(lines[j], id) ensures Recorded(grown, extended, id, j) {
      assert if j == n then id == call.callId else Recorded(calls, index, id, j);
    }
  }

  lemma {:induction false} OutputResolves(lines: seq<Line>, n: nat, c: Call, o: Output)
    requires n < |lines| && CallTracked(lines, n, c) && c.output.None? && TurnAt(lines, n) == Some(c.turn)
    requires IsOutputRecord(lines[n], c.callId) && o.record == n
    ensures CallTracked(lines, n + 1, c.(output := Some(o)))
  {
  }

  lemma {:induction false} OutputLine(lines: seq<Line>, n: nat, calls: seq<Call>, index: map<string, nat>, at: nat,
                                      o: Output)
    requires n < |lines| && Tracked(lines, n, calls, index)
    requires at < |calls| && calls[at].output.None? && TurnAt(lines, n) == Some(calls[at].turn)
    requires IsOutputRecord(lines[n], calls[at].callId) && o.record == n
    ensures Tracked(lines, n + 1, calls[at := calls[at].(output := Some(o))], index)
  {
    SetOutputKeeps(calls, index, at, o);
    OutputKeepsTracked(lines, n, calls, index, at, o);
    OutputKeepsRecorded(lines, n, calls, index, at, o);
  }

  lemma {:induction false} OutputKeepsTracked(lines: seq<Line>, n: nat, calls: seq<Call>, index: map<string, nat>,
                                              at: nat, o: Output)
    requires n < |lines| && Indexed(calls, index) && AllTracked(lines, n, calls)
    requires at < |calls| && calls[at].output.None? && TurnAt(lines, n) == Some(calls[at].turn)
    requires IsOutputRecord(lines[n], calls[at].callId) && o.record == n
    ensures AllTracked(lines, n + 1, calls[at := calls[at].(output := Some(o))])
  {
    var updated := calls[at := calls[at].(output := Some(o))];
    forall k | 0 <= k < |updated| ensures CallTracked(lines, n + 1, updated[k]) {
      if k == at {
        OutputResolves(lines, n, calls[at], o);
      } else {
        OutputOfOther(lines, n, calls, index, at, k);
      }
    }
  }

  lemma {:induction false} OutputOfOther(lines: seq<Line>, n: nat, calls: seq<Call>, index: map<string, nat>, at: nat,
                                         k: nat)
    requires n < |lines| && Indexed(calls, index) && AllTracked(lines, n, calls) && at < |calls| && k < |calls|
             && k != at
    requires IsOutputRecord(lines[n], calls[at].callId)
    ensures CallTracked(lines, n + 1, calls[k])
  {
    assert calls[k].callId != calls[at].callId;
    OutputOfAnother(lines, n, calls[k], calls[at].callId);
    CallStays(lines, n, calls[k]);
  }

  lemma {:induction false} OutputKeepsRecorded(lines: seq<Line>, n: nat, calls: seq<Call>, index: map<string, nat>,
                                               at: nat, o: Output)
    requires n < |lines| && AllRecorded(lines, n, calls, index) && at < |calls|
             && IsOutputRecord(lines[n], calls[at].callId)
    ensures AllRecorded(lines, n + 1, calls[at := calls[at].(output := Some(o))], index)
  {
    var updated := calls[at := calls[at].(output := Some(o))];
    forall j, id | 0 <= j < n + 1 && IsCallRecord(lines[j], id) ensures Recorded(updated, index, id, j) {
      assert j < n && Recorded(calls, index, id, j);
    }
  }

  lemma {:induction false} OutputOfAnother(lines: seq<Line>, n: nat, c: Call, id: string)
    requires n < |lines| && IsOutputRecord(lines[n], id) && c.callId != id
    ensures !IsOutputRecord(lines[n], c.callId)
  {
  }

  lemma {:induction false} TrackedHolds(lines: seq<Line>, n: nat)
    requires n <= |lines| && RunTo(lines, n).Ok?
    ensures var s := RunTo(lines, n).value; Tracked(lines, n, s.calls, s.callIndexes)
  {
    if n > 0 {
      TrackedHolds(lines, n - 1);
      TrackedStep(lines, n - 1, RunTo(lines, n - 1).value);
    }
  }

  /** How one line changes the calls and the index. */
  lemma {:induction false} StepCalls(s: State, n: nat, line: Line)
    requires Step(s, n, line).Ok?
    ensures var t := Step(s, n, line).value;
            match line
            case Some(EventMsg(McpCallEnd(tool, callId, result))) =>
              callId.Some? && callId.value !in s.callIndexes
                  && t.callIndexes == s.callIndexes[callId.value := |s.calls|]
              && s.activeTurn.Some? && tool.Some? && result.Some?
              && t.calls
                 == s.calls + [Call(s.activeTurn.value, tool.value, callId.value, n, Some(Output(n, result.value)))]
            case Some(ResponseItem(FunctionCall(Selected(tool), callId))) =>
              callId.Some? && callId.value !in s.callIndexes
                  && t.callIndexes == s.callIndexes[callId.value := |s.calls|]
              && s.activeTurn.Some? && t.calls == s.calls + [Call(s.activeTurn.value, tool, callId.value, n, None)]
            case Some(ResponseItem(FunctionOutput(callId, output))) =>
              callId.Some? && t.callIndexes == s.callIndexes
              && if callId.value !in s.callIndexes then t.calls == s.calls
                 else var at := s.callIndexes[callId.value];
                      at < |s.calls| && s.activeTurn == Some(s.calls[at].turn) && s.calls[at].output.None?
                          && output.Some?
                      && t.calls == s.calls[at := s.calls[at].(output := Some(Output(n, output.value)))]
            case _ => t.calls == s.calls && t.callIndexes == s.callIndexes
  {
  }

  lemma {:induction false} TrackedStep(lines: seq<Line>, n: nat, s: State)
    requires n < |lines| && RunTo(lines, n) == Ok(s) && Tracked(lines, n, s.calls, s.callIndexes)
             && Step(s, n, lines[n]).Ok?
    ensures var t := Step(s, n, lines[n]).value; Tracked(lines, n + 1, t.calls, t.callIndexes)
  {
    StepCalls(s, n, lines[n]);
    assert TurnAt(lines, n) == s.activeTurn;
    match lines[n]
    case Some(EventMsg(McpCallEnd(tool, callId, result))) =>
      CallLine(lines, n, s.calls, s.callIndexes,
               Call(s.activeTurn.value, tool.value, callId.value, n, Some(Output(n, result.value))));
    case Some(ResponseItem(FunctionCall(Selected(tool), callId))) =>
      CallLine(lines, n, s.calls, s.callIndexes, Call(s.activeTurn.value, tool, callId.value, n, None));
    case Some(ResponseItem(FunctionOutput(callId, output))) =>
      if callId.value in s.callIndexes {
        OutputLine(lines, n, s.calls, s.callIndexes, s.callIndexes[callId.value], Output(n, output.value));
      } else {
        OtherLine(lines, n, s.calls, s.callIndexes);
      }
    case _ =>
      OtherLine(lines, n, s.calls, s.callIndexes);
  }

  // ---- accepted rollouts ----

  lemma {:induction false} AcceptedIsRun(lines: seq<Line>)
    requires Parsed(lines).Ok?
    ensures RunTo(lines, |lines|) == Ok(Parsed(lines).value)
    ensures forall k :: 0 <= k < |Parsed(lines).value.calls| ==> Parsed(lines).value.calls[k].output.Some?
  {
  }

  /** In an accepted rollout the calls and the call records of the trace correspond
      one to one through the id index, and each call has an output: in the call record
      itself, or in a later output record of the same turn, and then no other output
      record follows the call. */
  lemma {:induction false} AcceptedCalls(lines: seq<Line>, k: nat)
    requires Parsed(lines).Ok? && k < |Parsed(lines).value.calls|
    ensures var s, c := Parsed(lines).value, Parsed(lines).value.calls[k];
            && Indexed(s.calls, s.callIndexes)
            && c.output.Some? && c.record < |lines| && c.output.value.record < |lines|
            && IsCallRecord(lines[c.record], c.callId) && TurnAt(lines, c.record) == Some(c.turn)
            && c.record <= c.output.value.record && TurnAt(lines, c.output.value.record) == Some(c.turn)
            && (if CarriesResult(lines[c.record]) then c.output.value.record == c.record
                else c.record < c.output.value.record && IsOutputRecord(lines[c.output.value.record], c.callId))
            && OnlyOutputIn(lines, c.callId, c.record + 1, |lines|, c.output.value.record)
  {
    AcceptedIsRun(lines);
    TrackedHolds(lines, |lines|);
    assert CallTracked(lines, |lines|, Parsed(lines).value.calls[k]);
  }

  // ---- output records before and after the call ----

  /** How many output records for the id lie in a stretch of the trace. */
  ghost function OutputCount(lines: seq<Line>, id: string, lo: nat, hi: nat): nat
    requires lo <= hi <= |lines|
  {
    if lo == hi then 0 else OutputCount(lines, id, lo, hi - 1) + if IsOutputRecord(lines[hi - 1], id) then 1 else 0
  }

  lemma {:induction false} CountSplits(lines: seq<Line>, id: string, lo: nat, mid: nat, hi: nat)
    requires lo <= mid <= hi <= |lines|
    ensures OutputCount(lines, id, lo, hi) == OutputCount(lines, id, lo, mid) + OutputCount(lines, id, mid, hi)
  {
    if mid < hi {
      CountSplits(lines, id, lo, mid, hi - 1);
    }
  }

  lemma {:induction false} CountNone(lines: seq<Line>, id: string, lo: nat, hi: nat)
    requires lo <= hi <= |lines|
    ensures OutputCount(lines, id, lo, hi) == 0 <==> NoOutputIn(lines, id, lo, hi)
  {
    if lo < hi {
      CountNone(lines, id, lo, hi - 1);
    }
  }

  lemma {:induction false} CountOnly(lines: seq<Line>, id: string, lo: nat, hi: nat, at: nat)
    requires lo <= at < hi <= |lines| && IsOutputRecord(lines[at], id) && OnlyOutputIn(lines, id, lo, hi, at)
    ensures OutputCount(lines, id, lo, hi) == 1
  {
    CountSplits(lines, id, lo, at, hi);
    CountSplits(lines, id, at, at + 1, hi);
    CountNone(lines, id, lo, at);
    CountNone(lines, id, at + 1, hi);
    assert OutputCount(lines, id, at, at) == 0;
  }

  /** How many output records a call needs. */
  function Needed(line: Line): nat {
    if CarriesResult(line) then 0 else 1
  }

  /** In every accepted rollout, after the record of a call there are exactly as many
      output records for its id as it needs; in the whole trace there are exactly as
      many if and only if none precedes the record of the call. */
  lemma {:induction false} AcceptedOutputs(lines: seq<Line>, k: nat)
    requires Parsed(lines).Ok? && k < |Parsed(lines).value.calls|
    ensures var c := Parsed(lines).value.calls[k];
            && c.record < |lines|
            && OutputCount(lines, c.callId, c.record + 1, |lines|) == Needed(lines[c.record])
            && (OutputCount(lines, c.callId, 0, |lines|) == Needed(lines[c.record])
                <==> NoOutputIn(lines, c.callId, 0, c.record))
  {
    AcceptedCalls(lines, k);
    var c := Parsed(lines).value.calls[k];
    var id, at := c.callId, c.output.value.record;
    if CarriesResult(lines[c.record]) {
      CountNone(lines, id, c.record + 1, |lines|);
    } else {
      CountOnly(lines, id, c.record + 1, |lines|, at);
    }
    CountSplits(lines, id, 0, c.record, |lines|);
    CountSplits(lines, id, c.record, c.record + 1, |lines|);
    CountNone(lines, id, 0, c.record);
    CountNone(lines, id, c.record, c.record + 1);
  }

  /** A rollout with the output of a call before the call and once more after it. */
  const EARLY_OUTPUT: seq<Line> :=
    [Some(SessionMeta(Some("v"), Some("p"))), Some(TurnContext(Some("m"))), Some(EventMsg(TaskStarted)),
     Some(ResponseItem(FunctionOutput(Some("x"), Some(Json.Null)))),
     Some(ResponseItem(FunctionCall(Selected("t"), Some("x")))),
     Some(ResponseItem(FunctionOutput(Some("x"), Some(Json.Null)))),
     Some(EventMsg(TaskComplete))]

  lemma {:induction false} EarlyOutputStarts()
    ensures RunTo(EARLY_OUTPUT, 4) ==
            Ok(START.(hostVersion := Some("v"), provider := Some("p"), models := {"m"}, activeTurn := Some(0),
                      turnCount := 1,
                      recordCount := 4))
  {
    var lines := EARLY_OUTPUT;
    var first := START.(hostVersion := Some("v"), provider := Some("p"), recordCount := 1);
    assert RunTo(lines, 0) == Ok(START);
    assert RunTo(lines, 1) == Ok(first);
    assert START.models + {"m"} == {"m"};
    assert RunTo(lines, 2) == Ok(first.(models := {"m"}, recordCount := 2));
    assert RunTo(lines, 3) == Ok(first.(models := {"m"}, activeTurn := Some(0), turnCount := 1, recordCount := 3));
  }

  lemma {:induction false} EarlyOutputCount()
    ensures OutputCount(EARLY_OUTPUT, "x", 0, 7) == 2
  {
    CountNone(EARLY_OUTPUT, "x", 0, 3);
    CountNone(EARLY_OUTPUT, "x", 4, 5);
    CountNone(EARLY_OUTPUT, "x", 6, 7);
    CountOnly(EARLY_OUTPUT, "x", 3, 4, 3);
    CountOnly(EARLY_OUTPUT, "x", 5, 6, 5);
    CountSplits(EARLY_OUTPUT, "x", 0, 3, 7);
    CountSplits(EARLY_OUTPUT, "x", 3, 4, 7);
    CountSplits(EARLY_OUTPUT, "x", 4, 5, 7);
    CountSplits(EARLY_OUTPUT, "x", 5, 6, 7);
  }

  lemma {:induction false} CallStep(s: State, n: nat, tool: string, id: string)
    requires s.activeTurn.Some? && id !in s.callIndexes
    ensures Step(s, n, Some(ResponseItem(FunctionCall(Selected(tool), Some(id))))) ==
            Ok(s.(recordCount := s.recordCount + 1, modelResponses := s.modelResponses + [(n, s.activeTurn.value)],
                  callIndexes := s.callIndexes[id := |s.calls|],
                  calls := s.calls + [Call(s.activeTurn.value, tool, id, n, None)]))
  {
  }

  lemma {:induction false} OutputStep(s: State, n: nat, id: string, v: Json.Value)
    requires id in s.callIndexes && s.callIndexes[id] < |s.calls|
    requires var c := s.calls[s.callIndexes[id]]; s.activeTurn == Some(c.turn) && c.output.None? && c.record < n
    ensures var at := s.callIndexes[id];
            Step(s, n, Some(ResponseItem(FunctionOutput(Some(id), Some(v))))) ==
            Ok(s.(recordCount := s.recordCount + 1, calls := s.calls[at := s.calls[at].(output := Some(Output(n, v)))]))
  {
  }

  lemma {:induction false} CompleteStep(s: State, n: nat)
    requires s.activeTurn.Some? && !Unresolved(s.calls, s.activeTurn.value)
    ensures Step(s, n, Some(EventMsg(TaskComplete))) ==
            Ok(s.(recordCount := s.recordCount + 1, activeTurn := None, completedTurns := s.completedTurns + 1))
  {
  }

  lemma {:induction false} RunStep(lines: seq<Line>, n: nat, s: State)
    requires n < |lines| && RunTo(lines, n) == Ok(s)
    ensures RunTo(lines, n + 1) == Step(s, n, lines[n])
  {
  }

  /** It is accepted: an output under an id that is not yet known is passed over. */
  lemma {:induction false} EarlyOutputIsAccepted()
    ensures OutputCount(EARLY_OUTPUT, "x", 0, 7) == 2
    ensures Parsed(EARLY_OUTPUT).Ok?
            && Parsed(EARLY_OUTPUT).value.calls == [Call(0, "t", "x", 4, Some(Output(5, Json.Null)))]
  {
    EarlyOutputCount();
    EarlyOutputStarts();
    var early := RunTo(EARLY_OUTPUT, 4).value;
    RunStep(EARLY_OUTPUT, 4, early);
    CallStep(early, 4, "t", "x");
    var called := RunTo(EARLY_OUTPUT, 5).value;
    RunStep(EARLY_OUTPUT, 5, called);
    OutputStep(called, 5, "x", Json.Null);
    var answered := RunTo(EARLY_OUTPUT, 6).value;
    assert answered.calls == [Call(0, "t", "x", 4, Some(Output(5, Json.Null)))];
    RunStep(EARLY_OUTPUT, 6, answered);
    CompleteStep(answered, 6);
  }

  /** The index finds every call record's call. */
  lemma {:induction false} AcceptedCallRecords(lines: seq<Line>, j: nat, id: string)
    requires Parsed(lines).Ok? && j < |lines| && IsCallRecord(lines[j], id)
    ensures var s := Parsed(lines).value; Recorded(s.calls, s.callIndexes, id, j)
  {
    AcceptedIsRun(lines);
    TrackedHolds(lines, |lines|);
    assert Tracked(lines, |lines|, Parsed(lines).value.calls, Parsed(lines).value.callIndexes);
  }

  // ---- an unresolved call of a closed turn is never resolved ----

  lemma {:induction false} TurnsStep(s: State, n: nat, line: Line)
    requires Step(s, n, line).Ok?
    ensures var t := Step(s, n, line).value;
            t.turnCount >= s.turnCount
            && (t.activeTurn.Some? ==> t.activeTurn == s.activeTurn || t.activeTurn == Some(s.turnCount))
  {
  }

  lemma {:induction false} UnresolvedCall(s: State, n: nat, line: Line, k: nat)
    requires Step(s, n, line).Ok?
    requires k < |s.calls| && s.activeTurn != Some(s.calls[k].turn)
    ensures var t := Step(s, n, line).value; k < |t.calls| && t.calls[k] == s.calls[k]
  {
    StepCalls(s, n, line);
  }

  lemma {:induction false} UnresolvedStep(lines: seq<Line>, n: nat, s: State, k: nat)
    requires n < |lines| && RunTo(lines, n) == Ok(s) && Lifecycle(s) && Step(s, n, lines[n]).Ok?
    requires k < |s.calls| && s.calls[k].turn < s.turnCount && s.activeTurn != Some(s.calls[k].turn)
    ensures var t := Step(s, n, lines[n]).value;
            k < |t.calls| && t.calls[k] == s.calls[k] && t.turnCount >= s.turnCount
                && t.activeTurn != Some(s.calls[k].turn)
  {
    TurnsStep(s, n, lines[n]);
    UnresolvedCall(s, n, lines[n], k);
  }

  lemma {:induction false} UnresolvedStays(lines: seq<Line>, n: nat, m: nat, k: nat)
    requires n <= m <= |lines| && RunTo(lines, n).Ok? && RunTo(lines, m).Ok?
    requires var s := RunTo(lines, n).value;
             k < |s.calls| && s.calls[k].output.None? && s.calls[k].turn < s.turnCount
                 && s.activeTurn != Some(s.calls[k].turn)
    ensures var s, t := RunTo(lines, n).value, RunTo(lines, m).value;
            k < |t.calls| && t.calls[k] == s.calls[k] && t.turnCount >= s.turnCount
                && t.activeTurn != Some(s.calls[k].turn)
    decreases m
  {
    if n < m {
      UnresolvedStays(lines, n, m - 1, k);
      LifecycleHolds(lines, m - 1);
      UnresolvedStep(lines, m - 1, RunTo(lines, m - 1).value, k);
    }
  }

  /** Aborting a turn while one of its calls has no output leads to rejection,
      whatever follows. */
  lemma {:induction false} AbortUnresolvedRejects(lines: seq<Line>, n: nat, k: nat)
    requires n < |lines| && lines[n] == Some(EventMsg(TurnAborted)) && RunTo(lines, n).Ok?
    requires var s := RunTo(lines, n).value;
             k < |s.calls| && s.calls[k].output.None? && s.activeTurn == Some(s.calls[k].turn)
    ensures Parsed(lines).Err?
  {
    var s := RunTo(lines, n).value;
    LifecycleHolds(lines, n);
    AbortStep(s, n);
    if RunTo(lines, |lines|).Ok? {
      ErrorsStay(lines, n + 1, |lines|);
      UnresolvedStays(lines, n + 1, |lines|, k);
      UnresolvedAtEnd(RunTo(lines, |lines|).value, k);
    }
  }

  lemma {:induction false} UnresolvedAtEnd(s: State, k: nat)
    requires k < |s.calls| && s.calls[k].output.None?
    ensures Finish(s).Err?
  {
  }

  lemma {:induction false} AbortStep(s: State, n: nat)
    requires s.activeTurn.Some?
    ensures var r := Step(s, n, Some(EventMsg(TurnAborted)));
            r.Ok? && r.value.calls == s.calls && r.value.turnCount == s.turnCount && r.value.activeTurn.None?
  {
  }

  /** After all lines of any rollout the counts of turns add up exactly when no turn is
      open, so the comparison of the counts rejects nothing by itself. */
  lemma {:induction false} AcceptedTurns(lines: seq<Line>)
    ensures RunTo(lines, |lines|).Ok? ==>
              var s := RunTo(lines, |lines|).value;
              s.completedTurns + s.abortedTurns == s.turnCount <==> s.activeTurn.None?
  {
    if RunTo(lines, |lines|).Ok? {
      LifecycleHolds(lines, |lines|);
    }
  }
}
