/** What the state of the host parser says, read off the lines themselves. */
module HostRolloutTrace {
  import opened Wrappers
  import opened Selection
  import opened ProviderUsage
  import opened HostRollout
  import opened HostRolloutProperties

  // ---- turns ----

  predicate StartsTurn(line: Line) {
    line == Some(EventMsg(TaskStarted))
  }

  predicate EndsTurn(line: Line) {
    line == Some(EventMsg(TaskComplete)) || line == Some(EventMsg(TurnAborted))
  }

  /** How many of the first `n` lines are equal to this one. */
  ghost function CountOf(lines: seq<Line>, n: nat, line: Line): nat
    requires n <= |lines|
  {
    if n == 0 then 0 else CountOf(lines, n - 1, line) + if lines[n - 1] == line then 1 else 0
  }

  /** The turn started at line `j` is open before line `n`. */
  ghost predicate OpenSince(lines: seq<Line>, n: nat, j: nat)
    requires n <= |lines|
  {
    j < n && StartsTurn(lines[j]) && forall k :: j < k < n ==> !StartsTurn(lines[k]) && !EndsTurn(lines[k])
  }

  /** Turn `t`, counted from 0, is open before line `n`. */
  ghost predicate InTurn(lines: seq<Line>, n: nat, t: nat)
    requires n <= |lines|
  {
    exists j: nat :: OpenSince(lines, n, j) && t == CountOf(lines, j, Some(EventMsg(TaskStarted)))
  }

  lemma {:induction false} OpenStep(lines: seq<Line>, n: nat, t: nat)
    requires n < |lines|
    ensures InTurn(lines, n + 1, t) <==>
            if StartsTurn(lines[n]) then t == CountOf(lines, n, Some(EventMsg(TaskStarted)))
            else !EndsTurn(lines[n]) && InTurn(lines, n, t)
  {
    if InTurn(lines, n + 1, t) {
      var j: nat :| OpenSince(lines, n + 1, j) && t == CountOf(lines, j, Some(EventMsg(TaskStarted)));
      if j < n { assert OpenSince(lines, n, j); }
    }
    if StartsTurn(lines[n]) {
      assert OpenSince(lines, n + 1, n);
    } else if !EndsTurn(lines[n]) && InTurn(lines, n, t) {
      var j: nat :| OpenSince(lines, n, j) && t == CountOf(lines, j, Some(EventMsg(TaskStarted)));
      assert OpenSince(lines, n + 1, j);
    }
  }

  /** How one line changes the turns. */
  lemma {:induction false} StepTurns(s: State, n: nat, line: Line)
    requires Step(s, n, line).Ok?
    ensures var t := Step(s, n, line).value;
            && t.activeTurn == (if StartsTurn(line) then Some(s.turnCount)
                                else if EndsTurn(line) then None else s.activeTurn)
            && t.turnCount == s.turnCount + (if StartsTurn(line) then 1 else 0)
            && t.completedTurns == s.completedTurns + (if line == Some(EventMsg(TaskComplete)) then 1 else 0)
            && t.abortedTurns == s.abortedTurns + (if line == Some(EventMsg(TurnAborted)) then 1 else 0)
            && t.recordCount == s.recordCount + (if line.Some? then 1 else 0)
  {
  }

  /** The open turn and the counts, on every run. */
  lemma {:induction false} TurnsAre(lines: seq<Line>, n: nat)
    requires n <= |lines| && RunTo(lines, n).Ok?
    ensures var s := RunTo(lines, n).value;
            && s.turnCount == CountOf(lines, n, Some(EventMsg(TaskStarted)))
            && s.completedTurns == CountOf(lines, n, Some(EventMsg(TaskComplete)))
            && s.abortedTurns == CountOf(lines, n, Some(EventMsg(TurnAborted)))
            && s.recordCount == n - CountOf(lines, n, None)
            && forall t: nat :: s.activeTurn == Some(t) <==> InTurn(lines, n, t)
  {
    if n > 0 {
      var s := RunTo(lines, n - 1).value;
      TurnsAre(lines, n - 1);
      StepTurns(s, n - 1, lines[n - 1]);
      forall t: nat
        ensures InTurn(lines, n, t) <==>
                if StartsTurn(lines[n - 1]) then t == CountOf(lines, n - 1, Some(EventMsg(TaskStarted)))
                else !EndsTurn(lines[n - 1]) && InTurn(lines, n - 1, t)
      {
        OpenStep(lines, n - 1, t);
      }
    }
  }

  lemma {:induction false} TurnAtIs(lines: seq<Line>, n: nat, t: nat)
    requires n <= |lines| && RunTo(lines, n).Ok?
    ensures TurnAt(lines, n) == Some(t) <==> InTurn(lines, n, t)
  {
    TurnsAre(lines, n);
  }

  /** No turn is open. */
  ghost predicate BetweenTurns(lines: seq<Line>, n: nat)
    requires n <= |lines|
  {
    forall t: nat :: !InTurn(lines, n, t)
  }

  lemma {:induction false} RunsBefore(lines: seq<Line>, m: nat, n: nat)
    requires m <= n <= |lines| && RunTo(lines, n).Ok?
    ensures RunTo(lines, m).Ok?
    decreases n
  {
    if m < n {
      RunsBefore(lines, m, n - 1);
    }
  }

  // ---- model responses ----

  /** A call or any other output of the model. */
  predicate Responds(line: Line) {
    match line
    case Some(ResponseItem(FunctionCall(_, _))) => true
    case Some(ResponseItem(ModelOutput)) => true
    case _ => false
  }

  ghost predicate RespondsIn(lines: seq<Line>, i: nat, t: nat) {
    i < |lines| && Responds(lines[i]) && InTurn(lines, i, t)
  }

  lemma {:induction false} StepResponses(s: State, n: nat, line: Line)
    requires Step(s, n, line).Ok?
    ensures Step(s, n, line).value.modelResponses
            == if Responds(line) && s.activeTurn.Some? then s.modelResponses + [(n, s.activeTurn.value)]
               else s.modelResponses
  {
  }

  /** The places hold the model responses among the first `n` lines. */
  ghost predicate ResponsesTo(lines: seq<Line>, n: nat, places: seq<(nat, nat)>) {
    && (forall a, b :: 0 <= a < b < |places| ==> places[a].0 < places[b].0)
    && forall i: nat, t: nat :: (i, t) in places <==> i < n && RespondsIn(lines, i, t)
  }

  lemma {:induction false} ResponseAdded(lines: seq<Line>, n: nat, places: seq<(nat, nat)>, turn: Option<nat>)
    requires n < |lines| && ResponsesTo(lines, n, places)
    requires forall t: nat :: turn == Some(t) <==> InTurn(lines, n, t)
    ensures ResponsesTo(lines, n + 1,
                        if Responds(lines[n]) && turn.Some? then places + [(n, turn.value)] else places)
  {
    forall a | 0 <= a < |places| ensures places[a].0 < n {
      assert (places[a].0, places[a].1) in places;
    }
  }

  /** The noted responses are exactly the function calls and model outputs inside a
      turn, each with its line and turn, in order. */
  lemma {:induction false} ResponsesAre(lines: seq<Line>, n: nat)
    requires n <= |lines| && RunTo(lines, n).Ok?
    ensures ResponsesTo(lines, n, RunTo(lines, n).value.modelResponses)
  {
    if n > 0 {
      var s := RunTo(lines, n - 1).value;
      ResponsesAre(lines, n - 1);
      StepResponses(s, n - 1, lines[n - 1]);
      TurnsAre(lines, n - 1);
      ResponseAdded(lines, n - 1, s.modelResponses, s.activeTurn);
    }
  }

  // ---- usage ----

  /** The usage object holds these five amounts, and they are consistent. */
  predicate ReadsAs(raw: RawUsage, u: UsageNumbers) {
    && raw == RawUsage(Some(u.input), Some(u.cached), Some(u.output), Some(u.reasoning), Some(u.total))
    && u.cached <= u.input && u.reasoning <= u.output && u.input + u.output == u.total
  }

  lemma {:induction false} ReadsIff(raw: RawUsage, u: UsageNumbers)
    ensures ParseNumbers(raw) == Ok(u) <==> ReadsAs(raw, u)
  {
  }

  /** The line reports these cumulative amounts. */
  predicate Reports(line: Line, u: UsageNumbers) {
    match line
    case Some(EventMsg(TokenCount(Some(raw)))) => ReadsAs(raw, u)
    case _ => false
  }

  ghost predicate ReportsIn(lines: seq<Line>, i: nat, t: nat, u: UsageNumbers) {
    i < |lines| && Reports(lines[i], u) && InTurn(lines, i, t)
  }

  lemma {:induction false} StepSnapshots(s: State, n: nat, line: Line)
    requires Step(s, n, line).Ok?
    ensures var t := Step(s, n, line).value;
            match line
            case Some(EventMsg(TokenCount(Some(raw)))) =>
              && s.activeTurn.Some? && ParseNumbers(raw).Ok? && t.lastUsage == Some(ParseNumbers(raw).value)
              && t.snapshots == s.snapshots + [Snapshot(n, s.activeTurn.value, ParseNumbers(raw).value)]
            case _ => t.snapshots == s.snapshots && t.lastUsage == s.lastUsage
  {
  }

  /** The snapshots hold the reports among the first `n` lines. */
  ghost predicate ReportsTo(lines: seq<Line>, n: nat, shots: seq<Snapshot>) {
    && (forall a, b :: 0 <= a < b < |shots| ==> shots[a].record < shots[b].record)
    && forall shot :: shot in shots <==> shot.record < n && ReportsIn(lines, shot.record, shot.turn, shot.usage)
  }

  lemma {:induction false} ReportAdded(lines: seq<Line>, n: nat, shots: seq<Snapshot>, shot: Snapshot)
    requires n < |lines| && ReportsTo(lines, n, shots) && shot.record == n
    requires forall other: Snapshot :: other.record == n ==>
               (other == shot <==> ReportsIn(lines, n, other.turn, other.usage))
    ensures ReportsTo(lines, n + 1, shots + [shot])
  {
    forall a | 0 <= a < |shots| ensures shots[a].record < n {
      assert shots[a] in shots;
    }
  }

  lemma {:induction false} NoReport(lines: seq<Line>, n: nat, shots: seq<Snapshot>)
    requires n < |lines| && ReportsTo(lines, n, shots) && forall t: nat, u :: !ReportsIn(lines, n, t, u)
    ensures ReportsTo(lines, n + 1, shots)
  {
  }

  lemma {:induction false} ReportedOnce(lines: seq<Line>, n: nat, raw: RawUsage, u: UsageNumbers, turn: nat)
    requires n < |lines| && lines[n] == Some(EventMsg(TokenCount(Some(raw)))) && ParseNumbers(raw) == Ok(u)
    requires forall t: nat :: t == turn <==> InTurn(lines, n, t)
    ensures forall t: nat, v :: ReportsIn(lines, n, t, v) <==> t == turn && v == u
  {
    forall v { ReadsIff(raw, v); }
  }

  /** The snapshots are exactly the token counts that carry a total, each with its line,
      its turn and its amounts, in order. */
  lemma {:induction false} SnapshotsAre(lines: seq<Line>, n: nat)
    requires n <= |lines| && RunTo(lines, n).Ok?
    ensures ReportsTo(lines, n, RunTo(lines, n).value.snapshots)
  {
    if n > 0 {
      SnapshotsAre(lines, n - 1);
      SnapshotNext(lines, n - 1, RunTo(lines, n - 1).value);
    }
  }

  lemma {:induction false} SnapshotNext(lines: seq<Line>, n: nat, s: State)
    requires n < |lines| && RunTo(lines, n) == Ok(s) && Step(s, n, lines[n]).Ok? && ReportsTo(lines, n, s.snapshots)
    ensures ReportsTo(lines, n + 1, Step(s, n, lines[n]).value.snapshots)
  {
    StepSnapshots(s, n, lines[n]);
    TurnsAre(lines, n);
    match lines[n]
    case Some(EventMsg(TokenCount(Some(raw)))) =>
      var u := ParseNumbers(raw).value;
      ReportedOnce(lines, n, raw, u, s.activeTurn.value);
      ReportAdded(lines, n, s.snapshots, Snapshot(n, s.activeTurn.value, u));
    case _ => NoReport(lines, n, s.snapshots);
  }

  // ---- compactions ----

  predicate Compacts(line: Line) {
    line.Some? && line.value.Compacted?
  }

  ghost function Compacting(lines: seq<Line>): nat -> bool {
    (i: nat) => i < |lines| && Compacts(lines[i])
  }

  /** The open turn, or the last one before. */
  ghost predicate TurnBefore(lines: seq<Line>, n: nat, after: Option<nat>)
    requires n <= |lines|
  {
    match after
    case Some(t) => InTurn(lines, n, t)
                    || (BetweenTurns(lines, n) && t + 1 == CountOf(lines, n, Some(EventMsg(TaskStarted))))
    case None => BetweenTurns(lines, n) && CountOf(lines, n, Some(EventMsg(TaskStarted))) == 0
  }

  /** The `k`th compaction is that of line `i`. */
  ghost predicate CompactedAt(lines: seq<Line>, c: Compaction, i: nat, k: nat) {
    && i < |lines| && lines[i] == Some(Compacted(c.window, c.entries))
    && c.sequence == k && TurnBefore(lines, i, c.afterTurn)
  }

  ghost predicate AllCompacted(lines: seq<Line>, compactions: seq<Compaction>, at: seq<nat>) {
    |compactions| == |at| && forall k :: 0 <= k < |at| ==> CompactedAt(lines, compactions[k], at[k], k)
  }

  /** Neighbouring windows increase where both are known. */
  ghost predicate WindowsIncrease(compactions: seq<Compaction>) {
    forall k :: 0 < k < |compactions| && compactions[k - 1].window.Some? && compactions[k].window.Some? ==>
      compactions[k - 1].window.value < compactions[k].window.value
  }

  lemma {:induction false} StepCompactions(s: State, n: nat, line: Line)
    requires Step(s, n, line).Ok?
    ensures var t := Step(s, n, line).value;
            match line
            case Some(Compacted(window, entries)) =>
              var after := if s.activeTurn.Some? then s.activeTurn
                           else if s.turnCount > 0 then Some(s.turnCount - 1) else None;
              && t.compactions == s.compactions + [Compaction(|s.compactions|, after, window, entries)]
              && (s.compactions != [] ==>
                  var last := s.compactions[|s.compactions| - 1].window;
                  last.Some? && window.Some? ==> last.value < window.value)
            case _ => t.compactions == s.compactions
  {
  }

  lemma {:induction false} CompactionAdded(lines: seq<Line>, n: nat, compactions: seq<Compaction>, at: seq<nat>,
                                           c: Compaction)
    requires n < |lines| && AllCompacted(lines, compactions, at) && CompactedAt(lines, c, n, |compactions|)
    ensures AllCompacted(lines, compactions + [c], at + [n])
  {
  }

  lemma {:induction false} WindowAdded(compactions: seq<Compaction>, c: Compaction)
    requires WindowsIncrease(compactions)
    requires compactions != [] && compactions[|compactions| - 1].window.Some? && c.window.Some? ==>
               compactions[|compactions| - 1].window.value < c.window.value
    ensures WindowsIncrease(compactions + [c])
  {
  }

  ghost predicate CompactionsTo(lines: seq<Line>, n: nat, compactions: seq<Compaction>, at: seq<nat>) {
    Picks(at, n, Compacting(lines)) && Listed(lines, compactions, at)
  }

  ghost predicate Listed(lines: seq<Line>, compactions: seq<Compaction>, at: seq<nat>) {
    AllCompacted(lines, compactions, at) && WindowsIncrease(compactions)
  }

  /** One compaction per compacted record, numbered in order, with its turn; windows
      increase. */
  lemma {:induction false} CompactionsAre(lines: seq<Line>, n: nat) returns (at: seq<nat>)
    requires n <= |lines| && RunTo(lines, n).Ok?
    ensures CompactionsTo(lines, n, RunTo(lines, n).value.compactions, at)
  {
    if n == 0 {
      at := [];
    } else {
      var front := CompactionsAre(lines, n - 1);
      CompactionNext(lines, n - 1, RunTo(lines, n - 1).value, front);
      at := PlaceAdded(lines, n - 1, front, RunTo(lines, n).value.compactions);
    }
  }

  lemma {:induction false} PlaceAdded(lines: seq<Line>, n: nat, at: seq<nat>, compactions: seq<Compaction>)
    returns (next: seq<nat>)
    requires n < |lines| && Picks(at, n, Compacting(lines))
    requires Listed(lines, compactions, if Compacts(lines[n]) then at + [n] else at)
    ensures CompactionsTo(lines, n + 1, compactions, next)
  {
    PicksNext(at, n, Compacting(lines));
    next := if Compacts(lines[n]) then at + [n] else at;
  }

  lemma {:induction false} CompactionNext(lines: seq<Line>, n: nat, s: State, at: seq<nat>)
    requires n < |lines| && RunTo(lines, n) == Ok(s) && Step(s, n, lines[n]).Ok? && Listed(lines, s.compactions, at)
    ensures Listed(lines, Step(s, n, lines[n]).value.compactions, if Compacts(lines[n]) then at + [n] else at)
  {
    StepCompactions(s, n, lines[n]);
    match lines[n]
    case Some(Compacted(window, entries)) =>
      var after := if s.activeTurn.Some? then s.activeTurn
                   else if s.turnCount > 0 then Some(s.turnCount - 1) else None;
      var c := Compaction(|s.compactions|, after, window, entries);
      TurnsAre(lines, n);
      assert TurnBefore(lines, n, after);
      CompactionAdded(lines, n, s.compactions, at, c);
      WindowAdded(s.compactions, c);
    case _ =>
  }

  // ---- session and models ----

  lemma {:induction false} StepSession(s: State, n: nat, line: Line)
    requires Step(s, n, line).Ok?
    ensures var t := Step(s, n, line).value;
            && (match line
                case Some(SessionMeta(version, provider)) =>
                  n == 0 && version.Some? && provider.Some? && t.hostVersion == version && t.provider == provider
                case _ => t.hostVersion == s.hostVersion && t.provider == s.provider)
            && (match line
                case Some(TurnContext(model)) => model.Some? && t.models == s.models + {model.value}
                case _ => t.models == s.models)
  {
  }

  /** Version and provider are those of a session record on the first line; the models
      are those of the turn contexts. */
  lemma {:induction false} SessionIs(lines: seq<Line>, n: nat)
    requires n <= |lines| && RunTo(lines, n).Ok?
    ensures var s := RunTo(lines, n).value;
            && (s.hostVersion.Some? <==> s.provider.Some?)
            && (forall v, p :: s.hostVersion == Some(v) && s.provider == Some(p) <==>
                  n > 0 && lines[0] == Some(SessionMeta(Some(v), Some(p))))
            && forall m :: m in s.models <==> exists i :: 0 <= i < n && lines[i] == Some(TurnContext(Some(m)))
  {
    if n > 0 {
      var s := RunTo(lines, n - 1).value;
      SessionIs(lines, n - 1);
      StepSession(s, n - 1, lines[n - 1]);
      var t := RunTo(lines, n).value;
      forall m ensures m in t.models <==> exists i :: 0 <= i < n && lines[i] == Some(TurnContext(Some(m))) {
        if m in s.models {
          var i :| 0 <= i < n - 1 && lines[i] == Some(TurnContext(Some(m)));
          assert 0 <= i < n && lines[i] == Some(TurnContext(Some(m)));
        }
        if lines[n - 1] == Some(TurnContext(Some(m))) { assert 0 <= n - 1 < n; }
      }
    }
  }

  // ---- calls ----

  /** The call is what its record says, and its output what the output record says. */
  ghost predicate CallRead(lines: seq<Line>, c: Call) {
    && c.record < |lines|
    && match c.output
       case None => lines[c.record] == Some(ResponseItem(FunctionCall(Selected(c.tool), Some(c.callId))))
       case Some(o) =>
         || (o.record == c.record
             && lines[c.record] == Some(EventMsg(McpCallEnd(Some(c.tool), Some(c.callId), Some(o.value)))))
         || (c.record < o.record < |lines|
             && lines[c.record] == Some(ResponseItem(FunctionCall(Selected(c.tool), Some(c.callId))))
             && lines[o.record] == Some(ResponseItem(FunctionOutput(Some(c.callId), Some(o.value)))))
  }

  ghost predicate AllRead(lines: seq<Line>, n: nat, calls: seq<Call>) {
    && (forall k :: 0 <= k < |calls| ==> calls[k].record < n && CallRead(lines, calls[k]))
    && forall j, k :: 0 <= j < k < |calls| ==> calls[j].record < calls[k].record
  }

  lemma {:induction false} CallAdded(lines: seq<Line>, n: nat, calls: seq<Call>, c: Call)
    requires n < |lines| && AllRead(lines, n, calls) && c.record == n && CallRead(lines, c)
    ensures AllRead(lines, n + 1, calls + [c])
  {
  }

  lemma {:induction false} OutputRead(lines: seq<Line>, n: nat, calls: seq<Call>, at: nat, v: Json.Value)
    requires n < |lines| && AllRead(lines, n, calls) && at < |calls| && calls[at].output.None?
    requires lines[n] == Some(ResponseItem(FunctionOutput(Some(calls[at].callId), Some(v))))
    ensures AllRead(lines, n + 1, calls[at := calls[at].(output := Some(Output(n, v)))])
  {
    assert CallRead(lines, calls[at]);
  }

  /** Calls come in the order of their records, with the tools, ids and output values of
      the trace. */
  lemma {:induction false} CallsAre(lines: seq<Line>, n: nat)
    requires n <= |lines| && RunTo(lines, n).Ok?
    ensures AllRead(lines, n, RunTo(lines, n).value.calls)
  {
    if n > 0 {
      CallsAre(lines, n - 1);
      RunKeeps(lines, n - 1);
      CallNext(lines, n - 1, RunTo(lines, n - 1).value);
    }
  }

  lemma {:induction false} CallNext(lines: seq<Line>, n: nat, s: State)
    requires n < |lines| && Step(s, n, lines[n]).Ok? && Consistent(s) && AllRead(lines, n, s.calls)
    ensures AllRead(lines, n + 1, Step(s, n, lines[n]).value.calls)
  {
    StepCalls(s, n, lines[n]);
    match lines[n]
    case Some(EventMsg(McpCallEnd(Some(tool), Some(id), Some(v)))) =>
      CallAdded(lines, n, s.calls, Call(s.activeTurn.value, tool, id, n, Some(Output(n, v))));
    case Some(ResponseItem(FunctionCall(Selected(tool), Some(id)))) =>
      CallAdded(lines, n, s.calls, Call(s.activeTurn.value, tool, id, n, None));
    case Some(ResponseItem(FunctionOutput(Some(id), Some(v)))) =>
      if id in s.callIndexes { OutputRead(lines, n, s.calls, s.callIndexes[id], v); }
    case _ =>
  }
}
