/** `parse_rollout` of the host receipt: an automaton over the lines of a Codex
    rollout that tracks turns, MCP calls with their outputs, and cumulative usage. */
module HostRollout {
  import opened Wrappers
  import opened ProviderUsage
  import Json

  // ---- parsed records; a required string that is missing, blank or unsafe is `None` ----

  datatype Event =
    | TaskStarted
    | TaskComplete
    | TurnAborted
    | TokenCount(total: Option<RawUsage>)
    /** `mcp_tool_call_end` of the selected server. */
    | McpCallEnd(tool: Option<string>, callId: Option<string>, result: Option<Json.Value>)
    | OtherEvent

  /** What `codex_mcp_tool_name` makes of a function call. */
  datatype ToolName = BadName | NotSelected | Selected(tool: string)

  datatype Item =
    | FunctionCall(name: ToolName, callId: Option<string>)
    | FunctionOutput(callId: Option<string>, output: Option<Json.Value>)
    /** Reasoning, a message or a custom tool call. */
    | ModelOutput
    | OtherItem

  datatype Record =
    | Invalid
    | Untyped
    | SessionMeta(version: Option<string>, provider: Option<string>)
    | TurnContext(model: Option<string>)
    | EventMsg(event: Event)
    | ResponseItem(item: Item)
    | Compacted(window: Option<nat>, entries: nat)
    | OtherRecord

  /** A line of the rollout; `None` is a blank line. */
  type Line = Option<Record>

  // ---- what is tracked ----

  datatype Output = Output(record: nat, value: Json.Value)

  datatype Call = Call(turn: nat, tool: string, callId: string, record: nat, output: Option<Output>)

  datatype Snapshot = Snapshot(record: nat, turn: nat, usage: UsageNumbers)

  datatype Compaction = Compaction(sequence: nat, afterTurn: Option<nat>, window: Option<nat>, entries: nat)

  datatype State = State(hostVersion: Option<string>, provider: Option<string>, models: set<string>,
                         activeTurn: Option<nat>, turnCount: nat, completedTurns: nat, abortedTurns: nat,
                         calls: seq<Call>, callIndexes: map<string, nat>, compactions: seq<Compaction>,
                         snapshots: seq<Snapshot>, modelResponses: seq<(nat, nat)>,
                         lastUsage: Option<UsageNumbers>, recordCount: nat)

  const START := State(None, None, {}, None, 0, 0, 0, [], map[], [], [], [], None, 0)

  /** Why a rollout is refused. */
  datatype Rejection =
    | TurnAlreadyOpen
    | CompletesNoTurn
    | CompletesUnresolved
    | AbortsNoTurn
    | UsageOutsideTurn
    | UsageRegressed
    | ResultOutsideTurn
    | CallFailed
    | MissingField
    | DuplicateCall
    | CallOutsideTurn
    | BadIndex
    | MisorderedOutput
    | InvalidRecord
    | MisplacedSession
    | WindowsNotIncreasing
    | NoSession
    | OpenTurn
    | LifecycleIncomplete
    | NotOneModel
    | NoCalls
    | CallWithoutResult
    | BadUsage

  predicate Unresolved(calls: seq<Call>, turn: nat) {
    exists k :: 0 <= k < |calls| && calls[k].turn == turn && calls[k].output.None?
  }

  function StepEvent(s: State, i: nat, e: Event): Result<State, Rejection> {
    match e
    case TaskStarted =>
      if s.activeTurn.Some? then Err(TurnAlreadyOpen)
      else Ok(s.(activeTurn := Some(s.turnCount), turnCount := s.turnCount + 1))
    case TaskComplete =>
      if s.activeTurn.None? then Err(CompletesNoTurn)
      else if Unresolved(s.calls, s.activeTurn.value) then Err(CompletesUnresolved)
      else Ok(s.(activeTurn := None, completedTurns := s.completedTurns + 1))
    case TurnAborted =>
      if s.activeTurn.None? then Err(AbortsNoTurn)
      else Ok(s.(activeTurn := None, abortedTurns := s.abortedTurns + 1))
    case TokenCount(total) =>
      if s.activeTurn.None? then Err(UsageOutsideTurn)
      else if total.None? then Ok(s)
      else
        var parsed := ParseNumbers(total.value);
        if parsed.Err? then Err(BadUsage)
        else if s.lastUsage.Some? && !NumbersMonotonic(s.lastUsage.value, parsed.value) then Err(UsageRegressed)
        else Ok(s.(lastUsage := Some(parsed.value),
                   snapshots := s.snapshots + [Snapshot(i, s.activeTurn.value, parsed.value)]))
    case McpCallEnd(tool, callId, result) =>
      if s.activeTurn.None? then Err(ResultOutsideTurn)
      else if tool.None? then Err(MissingField)
      else if callId.None? then Err(MissingField)
      else if callId.value in s.callIndexes then Err(DuplicateCall)
      else if result.None? then Err(CallFailed)
      else Ok(AddCall(s, Call(s.activeTurn.value, tool.value, callId.value, i, Some(Output(i, result.value)))))
    case OtherEvent => Ok(s)
  }

  function AddCall(s: State, call: Call): State {
    s.(callIndexes := s.callIndexes[call.callId := |s.calls|], calls := s.calls + [call])
  }

  predicate IsModelResponse(item: Item) {
    item.FunctionCall? || item.ModelOutput?
  }

  function NoteResponse(s: State, i: nat, item: Item): State {
    if IsModelResponse(item) && s.activeTurn.Some?
       then s.(modelResponses := s.modelResponses + [(i, s.activeTurn.value)]) else s
  }

  function StepItem(s: State, i: nat, item: Item): Result<State, Rejection> {
    match item
    case FunctionCall(BadName, _) => Err(MissingField)
    case FunctionCall(Selected(tool), callId) =>
      if s.activeTurn.None? then Err(CallOutsideTurn)
      else if callId.None? then Err(MissingField)
      else if callId.value in s.callIndexes then Err(DuplicateCall)
      else Ok(AddCall(s, Call(s.activeTurn.value, tool, callId.value, i, None)))
    case FunctionOutput(callId, output) =>
      if callId.None? then Err(MissingField)
      else if callId.value !in s.callIndexes then Ok(s)
      else
        var at := s.callIndexes[callId.value];
        if at >= |s.calls| then Err(BadIndex)
        else if s.activeTurn != Some(s.calls[at].turn) || s.calls[at].output.Some? || i <= s.calls[at].record then
          Err(MisorderedOutput)
        else if output.None? then Err(MissingField)
        else Ok(s.(calls := s.calls[at := s.calls[at].(output := Some(Output(i, output.value)))]))
    case _ => Ok(s)
  }

  function StepSession(s: State, i: nat, version: Option<string>, provider: Option<string>): Result<State, Rejection> {
    if i != 0 || s.hostVersion.Some? then Err(MisplacedSession)
    else if version.None? then Err(MissingField)
    else if provider.None? then Err(MissingField)
    else Ok(s.(hostVersion := version, provider := provider))
  }

  function StepCompacted(s: State, window: Option<nat>, entries: nat): Result<State, Rejection> {
    var previous := if s.compactions == [] then None else s.compactions[|s.compactions| - 1].window;
    if previous.Some? && window.Some? && window.value <= previous.value then
      Err(WindowsNotIncreasing)
    else
      var after := if s.activeTurn.Some? then s.activeTurn else if s.turnCount > 0 then Some(s.turnCount - 1) else None;
      Ok(s.(compactions := s.compactions + [Compaction(|s.compactions|, after, window, entries)]))
  }

  function StepRecord(s: State, i: nat, record: Record): Result<State, Rejection> {
    match record
    case Invalid => Err(InvalidRecord)
    case Untyped => Err(MissingField)
    case SessionMeta(version, provider) => StepSession(s, i, version, provider)
    case TurnContext(model) =>
      if model.None? then Err(MissingField) else Ok(s.(models := s.models + {model.value}))
    case EventMsg(event) => StepEvent(s, i, event)
    case ResponseItem(item) => StepItem(NoteResponse(s, i, item), i, item)
    case Compacted(window, entries) => StepCompacted(s, window, entries)
    case OtherRecord => Ok(s)
  }

  function Counted(s: State): State {
    s.(recordCount := s.recordCount + 1)
  }

  function Step(s: State, i: nat, line: Line): Result<State, Rejection> {
    match line
    case None => Ok(s)
    case Some(record) => StepRecord(Counted(s), i, record)
  }

  /** The state after the first `n` lines. */
  function RunTo(lines: seq<Line>, n: nat): Result<State, Rejection>
    requires n <= |lines|
  {
    if n == 0 then Ok(START)
    else
      var s :- RunTo(lines, n - 1);
      Step(s, n - 1, lines[n - 1])
  }

  function Finish(s: State): Result<State, Rejection> {
    if s.hostVersion.None? then Err(NoSession)
    else if s.activeTurn.Some? then Err(OpenTurn)
    else if s.turnCount == 0 || s.completedTurns + s.abortedTurns != s.turnCount then Err(LifecycleIncomplete)
    else if |s.models| != 1 then Err(NotOneModel)
    else if s.calls == [] then Err(NoCalls)
    else if exists k :: 0 <= k < |s.calls| && s.calls[k].output.None? then Err(CallWithoutResult)
    else Ok(s)
  }

  function Parsed(lines: seq<Line>): Result<State, Rejection> {
    var s :- RunTo(lines, |lines|);
    Finish(s)
  }

  // ---- what every state keeps ----

  /** Turns started are completed, aborted, or the one that is open. */
  predicate Lifecycle(s: State) {
    && s.turnCount == s.completedTurns + s.abortedTurns + (if s.activeTurn.Some? then 1 else 0)
    && (s.activeTurn.Some? ==> s.activeTurn.value + 1 == s.turnCount)
  }

  /** Snapshots never fall, and the last one is the latest usage. */
  ghost predicate UsageOrdered(s: State) {
    && (forall a, b :: 0 <= a < b < |s.snapshots| ==> NumbersMonotonic(s.snapshots[a].usage, s.snapshots[b].usage))
    && (s.snapshots == [] <==> s.lastUsage.None?)
    && (s.snapshots != [] ==> s.lastUsage == Some(s.snapshots[|s.snapshots| - 1].usage))
  }

  lemma {:induction false} UsageOrderedStep(s: State, snapshot: Snapshot)
    requires UsageOrdered(s) && (s.lastUsage.Some? ==> NumbersMonotonic(s.lastUsage.value, snapshot.usage))
    ensures UsageOrdered(s.(lastUsage := Some(snapshot.usage), snapshots := s.snapshots + [snapshot]))
  {
    var grown := s.snapshots + [snapshot];
    forall a, b | 0 <= a < b < |grown| ensures NumbersMonotonic(grown[a].usage, grown[b].usage) {
      if b == |s.snapshots| && a < b - 1 {
        assert NumbersMonotonic(s.snapshots[a].usage, s.snapshots[b - 1].usage);
      }
    }
  }

  /** Ids and positions correspond one to one. */
  ghost predicate Indexed(calls: seq<Call>, index: map<string, nat>) {
    && (forall k :: 0 <= k < |calls| ==> calls[k].callId in index && index[calls[k].callId] == k)
    && (forall id :: id in index ==> index[id] < |calls| && calls[index[id]].callId == id)
  }

  lemma {:induction false} AddCallKeeps(s: State, call: Call)
    requires Indexed(s.calls, s.callIndexes) && call.callId !in s.callIndexes
    ensures Indexed(AddCall(s, call).calls, AddCall(s, call).callIndexes)
  {
  }

  lemma {:induction false} SetOutputKeeps(calls: seq<Call>, index: map<string, nat>, at: nat, o: Output)
    requires at < |calls| && Indexed(calls, index)
    ensures Indexed(calls[at := calls[at].(output := Some(o))], index)
  {
  }

  /** The turns add up, usage never fell, and ids and calls correspond. */
  ghost predicate Consistent(s: State) {
    Lifecycle(s) && UsageOrdered(s) && Indexed(s.calls, s.callIndexes)
  }

  lemma {:induction false} EventKeeps(s: State, i: nat, e: Event)
    requires Consistent(s) && StepEvent(s, i, e).Ok?
    ensures Consistent(StepEvent(s, i, e).value)
  {
    match e
    case TokenCount(Some(total)) =>
      UsageOrderedStep(s, Snapshot(i, s.activeTurn.value, ParseNumbers(total).value));
    case McpCallEnd(Some(tool), Some(callId), Some(result)) =>
      AddCallKeeps(s, Call(s.activeTurn.value, tool, callId, i, Some(Output(i, result))));
    case _ =>
  }

  lemma {:induction false} ItemKeeps(s: State, i: nat, item: Item)
    requires Consistent(s) && StepItem(s, i, item).Ok?
    ensures Consistent(StepItem(s, i, item).value)
  {
    match item
    case FunctionCall(Selected(tool), Some(callId)) =>
      AddCallKeeps(s, Call(s.activeTurn.value, tool, callId, i, None));
    case FunctionOutput(Some(callId), Some(output)) =>
      if callId in s.callIndexes {
        SetOutputKeeps(s.calls, s.callIndexes, s.callIndexes[callId], Output(i, output));
      }
    case _ =>
  }

  lemma {:induction false} RecordKeeps(s: State, i: nat, record: Record)
    requires Consistent(s) && StepRecord(s, i, record).Ok?
    ensures Consistent(StepRecord(s, i, record).value)
  {
    match record
    case EventMsg(event) => EventKeeps(s, i, event);
    case ResponseItem(item) => ItemKeeps(NoteResponse(s, i, item), i, item);
    case _ =>
  }

  lemma {:induction false} CountingKeeps(s: State)
    requires Consistent(s)
    ensures Consistent(Counted(s))
  {
  }

  lemma {:induction false} StepKeeps(s: State, i: nat, line: Line)
    requires Consistent(s) && Step(s, i, line).Ok?
    ensures Consistent(Step(s, i, line).value)
  {
    if line.Some? {
      CountingKeeps(s);
      RecordKeeps(Counted(s), i, line.value);
    }
  }

  lemma {:induction false} RunKeeps(lines: seq<Line>, n: nat)
    requires n <= |lines| && RunTo(lines, n).Ok?
    ensures Consistent(RunTo(lines, n).value)
  {
    if n > 0 {
      RunKeeps(lines, n - 1);
      StepKeeps(RunTo(lines, n - 1).value, n - 1, lines[n - 1]);
    }
  }

  // ---- the accumulators ----

  /** The call failed with this error, or reached the state it was to reach. */
  ghost predicate Outcome(expected: Result<State, Rejection>, error: Option<Rejection>, reached: State) {
    match expected
    case Ok(next) => error == None && reached == next
    case Err(why) => error == Some(why)
  }

  /** The variables of `parse_rollout`. */
  class RolloutReader {
    var hostVersion: Option<string>
    var provider: Option<string>
    var models: set<string>
    var activeTurn: Option<nat>
    var turnCount: nat
    var completedTurns: nat
    var abortedTurns: nat
    var calls: seq<Call>
    var callIndexes: map<string, nat>
    var compactions: seq<Compaction>
    var snapshots: seq<Snapshot>
    var modelResponses: seq<(nat, nat)>
    var lastUsage: Option<UsageNumbers>
    var recordCount: nat

    function Now(): State
      reads this
    {
      State(hostVersion, provider, models, activeTurn, turnCount, completedTurns, abortedTurns, calls, callIndexes,
            compactions, snapshots, modelResponses, lastUsage, recordCount)
    }

    ghost predicate Valid()
      reads this
    {
      Consistent(Now())
    }

    constructor ()
      ensures Valid() && Now() == START
    {
      hostVersion, provider, models, activeTurn := None, None, {}, None;
      turnCount, completedTurns, abortedTurns, recordCount := 0, 0, 0, 0;
      calls, callIndexes, compactions, snapshots, modelResponses, lastUsage := [], map[], [], [], [], None;
    }

    /** A `token_count` event. */
    method OnTokenCount(i: nat, total: Option<RawUsage>) returns (error: Option<Rejection>)
      requires Valid()
      modifies this
      ensures Outcome(StepEvent(old(Now()), i, TokenCount(total)), error, Now())
      ensures error.None? ==> Valid()
    {
      ghost var event := TokenCount(total);
      if StepEvent(Now(), i, event).Ok? { EventKeeps(Now(), i, event); }
      error := None;
      if activeTurn.None? {
        return Some(UsageOutsideTurn);
      }
      if total.Some? {
        var usage := ParseNumbers(total.value);
        if usage.Err? {
          return Some(BadUsage);
        }
        if lastUsage.Some? && !NumbersMonotonic(lastUsage.value, usage.value) {
          return Some(UsageRegressed);
        }
        lastUsage := Some(usage.value);
        snapshots := snapshots + [Snapshot(i, activeTurn.value, usage.value)];
      }
    }

    /** An `mcp_tool_call_end` event. */
    method OnCallEnd(i: nat, tool: Option<string>, callId: Option<string>, result: Option<Json.Value>)
      returns (error: Option<Rejection>)
      requires Valid()
      modifies this
      ensures Outcome(StepEvent(old(Now()), i, McpCallEnd(tool, callId, result)), error, Now())
      ensures error.None? ==> Valid()
    {
      ghost var event := McpCallEnd(tool, callId, result);
      if StepEvent(Now(), i, event).Ok? { EventKeeps(Now(), i, event); }
      error := None;
      if activeTurn.None? {
        return Some(ResultOutsideTurn);
      }
      if tool.None? {
        return Some(MissingField);
      }
      if callId.None? {
        return Some(MissingField);
      }
      if callId.value in callIndexes {
        return Some(DuplicateCall);
      }
      if result.None? {
        return Some(CallFailed);
      }
      callIndexes := callIndexes[callId.value := |calls|];
      calls := calls + [Call(activeTurn.value, tool.value, callId.value, i, Some(Output(i, result.value)))];
    }

    /** The `event_msg` arm; the result is the error, if any. */
    method OnEvent(i: nat, e: Event) returns (error: Option<Rejection>)
      requires Valid()
      modifies this
      ensures Outcome(StepEvent(old(Now()), i, e), error, Now()) && (error.None? ==> Valid())
    {
      error := None;
      match e
      case TaskStarted =>
        if activeTurn.Some? {
          return Some(TurnAlreadyOpen);
        }
        activeTurn := Some(turnCount);
        turnCount := turnCount + 1;
      case TaskComplete =>
        if activeTurn.None? {
          return Some(CompletesNoTurn);
        }
        if Unresolved(calls, activeTurn.value) {
          return Some(CompletesUnresolved);
        }
        activeTurn := None;
        completedTurns := completedTurns + 1;
      case TurnAborted =>
        if activeTurn.None? {
          return Some(AbortsNoTurn);
        }
        activeTurn := None;
        abortedTurns := abortedTurns + 1;
      case TokenCount(total) => error := OnTokenCount(i, total);
      case McpCallEnd(tool, callId, result) => error := OnCallEnd(i, tool, callId, result);
      case OtherEvent =>
    }

    /** A call of the selected server. */
    method OnCall(i: nat, tool: string, callId: Option<string>) returns (error: Option<Rejection>)
      requires Valid()
      modifies this
      ensures Outcome(StepItem(old(Now()), i, FunctionCall(Selected(tool), callId)), error, Now())
      ensures error.None? ==> Valid()
    {
      ghost var item := FunctionCall(Selected(tool), callId);
      if StepItem(Now(), i, item).Ok? { ItemKeeps(Now(), i, item); }
      error := None;
      if activeTurn.None? {
        return Some(CallOutsideTurn);
      }
      if callId.None? {
        return Some(MissingField);
      }
      if callId.value in callIndexes {
        return Some(DuplicateCall);
      }
      callIndexes := callIndexes[callId.value := |calls|];
      calls := calls + [Call(activeTurn.value, tool, callId.value, i, None)];
    }

    /** The output of a call, if the call is known. */
    method OnOutput(i: nat, callId: Option<string>, output: Option<Json.Value>) returns (error: Option<Rejection>)
      requires Valid()
      modifies this
      ensures Outcome(StepItem(old(Now()), i, FunctionOutput(callId, output)), error, Now())
      ensures error.None? ==> Valid()
    {
      ghost var item := FunctionOutput(callId, output);
      if StepItem(Now(), i, item).Ok? { ItemKeeps(Now(), i, item); }
      error := None;
      if callId.None? {
        return Some(MissingField);
      }
      if callId.value in callIndexes {
        var at := callIndexes[callId.value];
        if at >= |calls| {
          return Some(BadIndex);
        }
        if activeTurn != Some(calls[at].turn) || calls[at].output.Some? || i <= calls[at].record {
          return Some(MisorderedOutput);
        }
        if output.None? {
          return Some(MissingField);
        }
        calls := calls[at := calls[at].(output := Some(Output(i, output.value)))];
      }
    }

    /** The `response_item` arm. */
    method OnItem(i: nat, item: Item) returns (error: Option<Rejection>)
      requires Valid()
      modifies this
      ensures Outcome(StepItem(NoteResponse(old(Now()), i, item), i, item), error, Now()) && (error.None? ==> Valid())
    {
      error := None;
      if IsModelResponse(item) && activeTurn.Some? {
        modelResponses := modelResponses + [(i, activeTurn.value)];
      }
      match item
      case FunctionCall(BadName, _) => error := Some(MissingField);
      case FunctionCall(Selected(tool), callId) => error := OnCall(i, tool, callId);
      case FunctionOutput(callId, output) => error := OnOutput(i, callId, output);
      case _ =>
    }

    /** The `session_meta` arm. */
    method OnSession(i: nat, version: Option<string>, name: Option<string>) returns (error: Option<Rejection>)
      requires Valid()
      modifies this
      ensures Outcome(StepSession(old(Now()), i, version, name), error, Now()) && (error.None? ==> Valid())
    {
      if i != 0 || hostVersion.Some? {
        return Some(MisplacedSession);
      }
      if version.None? {
        return Some(MissingField);
      }
      if name.None? {
        return Some(MissingField);
      }
      hostVersion, provider := version, name;
      error := None;
    }

    /** The `compacted` arm. */
    method OnCompacted(window: Option<nat>, entries: nat) returns (error: Option<Rejection>)
      requires Valid()
      modifies this
      ensures Outcome(StepCompacted(old(Now()), window, entries), error, Now()) && (error.None? ==> Valid())
    {
      if compactions != [] {
        var previous := compactions[|compactions| - 1].window;
        if previous.Some? && window.Some? && window.value <= previous.value {
          return Some(WindowsNotIncreasing);
        }
      }
      var after := activeTurn;
      if after.None? && turnCount > 0 {
        after := Some(turnCount - 1);
      }
      compactions := compactions + [Compaction(|compactions|, after, window, entries)];
      error := None;
    }

    /** One non-blank line. */
    method OnRecord(i: nat, record: Record) returns (error: Option<Rejection>)
      requires Valid()
      modifies this
      ensures Outcome(Step(old(Now()), i, Some(record)), error, Now()) && (error.None? ==> Valid())
    {
      CountingKeeps(Now());
      recordCount := recordCount + 1;
      assert Now() == Counted(old(Now()));
      error := Dispatch(i, record);
    }

    /** Its arms. */
    method Dispatch(i: nat, record: Record) returns (error: Option<Rejection>)
      requires Valid()
      modifies this
      ensures Outcome(StepRecord(old(Now()), i, record), error, Now()) && (error.None? ==> Valid())
    {
      error := None;
      match record
      case Invalid => error := Some(InvalidRecord);
      case Untyped => error := Some(MissingField);
      case SessionMeta(version, name) => error := OnSession(i, version, name);
      case TurnContext(model) =>
        if model.None? {
          return Some(MissingField);
        }
        models := models + {model.value};
      case EventMsg(event) => error := OnEvent(i, event);
      case ResponseItem(item) => error := OnItem(i, item);
      case Compacted(window, entries) => error := OnCompacted(window, entries);
      case OtherRecord =>
    }
  }

  /** `parse_rollout`: the loop over the lines, then the final checks. */
  method ParseRollout(lines: seq<Line>) returns (r: Result<State, Rejection>)
    ensures r == Parsed(lines)
  {
    var reader := new RolloutReader();
    var i := 0;
    while i < |lines|
      invariant i <= |lines| && reader.Valid() && RunTo(lines, i) == Ok(reader.Now())
    {
      if lines[i].Some? {
        var error := reader.OnRecord(i, lines[i].value);
        if error.Some? {
          ErrorsStay(lines, i + 1, |lines|);
          return Err(error.value);
        }
      }
      i := i + 1;
    }
    r := Finish(reader.Now());
  }

  lemma {:induction false} ErrorsStay(lines: seq<Line>, m: nat, n: nat)
    requires m <= n <= |lines|
    ensures RunTo(lines, m).Err? ==> RunTo(lines, n) == RunTo(lines, m)
    decreases n
  {
    if m < n {
      ErrorsStay(lines, m, n - 1);
    }
  }
}
