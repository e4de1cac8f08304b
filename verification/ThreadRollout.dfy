/** `parse_rollout` of the multi-agent receipt: where the live part of a thread's
    rollout starts, and what its events add up to. */
module ThreadRollout {
  import opened Wrappers
  import opened ProviderUsage

  // ---- parsed records; a required string that is missing is `None`, a blank one stays ----

  datatype McpResult =
    | NoResult
    | Failed
    | Returned(isError: bool, jsonBytes: u64, textBytes: Option<seq<u64>>, structured: Option<Structured>)

  datatype Structured = Structured(jsonBytes: u64, sourceTokens: u64)

  datatype Event =
    | TaskStarted
    | TaskComplete(answer: Option<string>, durationMs: u64)
    | TurnAborted
    | TokenCount(total: Option<RawUsage>, last: Option<RawUsage>)
    | SubAgentStarted(eventId: Option<string>, child: Option<string>)
    | McpToolCallEnd(result: McpResult)
    | OtherEvent

  /** The `arguments` text of a spawn call. */
  datatype SpawnArguments = NoArguments | Malformed | Arguments(forkTurns: Option<string>)

  datatype Item =
    | ToolCall(name: Option<string>, callId: Option<string>, namespaced: bool, arguments: SpawnArguments, input: string)
    | OtherItem

  datatype Session = Session(id: Option<string>, parentId: Option<string>, cliVersion: Option<string>,
                             provider: Option<string>)

  datatype Record =
    | SessionMeta(session: Option<Session>)
    | TurnContext(model: Option<string>, effort: Option<string>)
    | EventMsg(event: Event)
    | ResponseItem(item: Item)
    | Compacted
    | AgentMessage(triggerTurn: Option<bool>)
    | OtherRecord
    | Untyped

  /** One non-blank line and its length with the line break. */
  datatype Line = Line(bytes: u64, record: Record)

  // ---- what the events add up to ----

  datatype ToolCounts = ToolCounts(collaboration: nat, mcp: nat, failedMcp: nat, resultBytes: u64, textBytes: u64,
                                   structuredBytes: u64, sourceTokens: u64, shell: nat, other: nat)

  const NO_CALLS := ToolCounts(0, 0, 0, 0, 0, 0, 0, 0, 0)

  datatype Collaboration = Collaboration(callId: string, tool: string, forkTurns: Option<string>)

  datatype Tally = Tally(activeTurn: bool, turnCount: nat, completedTurns: nat, abortedTurns: nat, requests: nat,
                         durationMs: u64, firstUsage: Option<UsageReceipt>, usage: Option<UsageReceipt>,
                         answer: Option<string>, tools: ToolCounts, startedChildren: map<string, string>)

  const NO_TURNS := Tally(false, 0, 0, 0, 0, 0, None, None, None, NO_CALLS, map[])

  /** Why a rollout is refused. */
  datatype Rejection =
    | BadAmount(error: UsageError)
    | MissingResult
    | TurnStillOpen
    | CompletesNoTurn
    | AbortsNoTurn
    | UsageOutsideTurn
    | UsageRegressed
    | MissingEventId
    | MissingChild
    | RepeatedEventId
    | MissingTool
    | MissingCallId
    | MalformedSpawn
    | MissingType
    | UnexpectedSession
    | MissingModel
    | ModelChanges
    | EffortChanges
    | NoTriggerMarker
    | NoLiveStart
    | LifecycleIncomplete
    | NoUsage
    | NoTurnContext
    | NoFirstUsage
    | EmptyRollout
    | NoSession
    | NoPayload
    | MissingSessionId
    | MissingVersion
    | MissingProvider

  function Lift<T>(r: Result<T, UsageError>): Result<T, Rejection> {
    match r
    case Ok(value) => Ok(value)
    case Err(error) => Err(BadAmount(error))
  }

  function Add(a: u64, b: u64): Result<u64, Rejection> {
    Lift(CheckedAdd64(a, b))
  }

  function SumBytes(items: seq<u64>, total: u64): Result<u64, Rejection>
    decreases |items|
  {
    if items == [] then Ok(total)
    else
      var next :- Add(total, items[0]);
      SumBytes(items[1..], next)
  }

  /** `ingest_mcp_result` */
  function IngestMcp(t: ToolCounts, result: McpResult): Result<ToolCounts, Rejection> {
    match result
    case NoResult => Err(MissingResult)
    case Failed => Ok(t.(mcp := t.mcp + 1, failedMcp := t.failedMcp + 1))
    case Returned(isError, jsonBytes, textBytes, structured) =>
      var results :- Add(t.resultBytes, jsonBytes);
      var own :- SumBytes(if textBytes.Some? then textBytes.value else [], 0);
      var text :- Add(t.textBytes, own);
      var payload :- Add(t.structuredBytes, if structured.Some? then structured.value.jsonBytes else 0);
      var tokens :- Add(t.sourceTokens, if structured.Some? then structured.value.sourceTokens else 0);
      Ok(t.(mcp := t.mcp + 1, failedMcp := t.failedMcp + if isError then 1 else 0,
            resultBytes := results, textBytes := text, structuredBytes := payload, sourceTokens := tokens))
  }

  /** `ingest_event` */
  function Ingest(t: Tally, e: Event): Result<Tally, Rejection> {
    match e
    case TaskStarted =>
      if t.activeTurn then Err(TurnStillOpen)
      else Ok(t.(activeTurn := true, turnCount := t.turnCount + 1))
    case TaskComplete(answer, durationMs) =>
      if !t.activeTurn then Err(CompletesNoTurn)
      else
        var duration :- Add(t.durationMs, durationMs);
        Ok(t.(activeTurn := false, completedTurns := t.completedTurns + 1, durationMs := duration,
              answer := if answer.Some? then answer else t.answer))
    case TurnAborted =>
      if !t.activeTurn then Err(AbortsNoTurn)
      else Ok(t.(activeTurn := false, abortedTurns := t.abortedTurns + 1))
    case TokenCount(total, last) =>
      if !t.activeTurn then Err(UsageOutsideTurn)
      else if total.None? then Ok(t)
      else
        var current :- Lift(Parse(total.value));
        if t.usage.Some? && !MonotonicAfter(current, t.usage.value) then Err(UsageRegressed)
        else
          var latest :- if last.Some? then Lift(Parse(last.value)) else Ok(current);
          Ok(t.(firstUsage := if t.firstUsage.None? then Some(latest) else t.firstUsage,
                usage := Some(current), requests := t.requests + 1))
    case SubAgentStarted(eventId, child) =>
      if eventId.None? then Err(MissingEventId)
      else if child.None? then Err(MissingChild)
      else if eventId.value in t.startedChildren then Err(RepeatedEventId)
      else Ok(t.(startedChildren := t.startedChildren[eventId.value := child.value]))
    case McpToolCallEnd(result) =>
      var tools :- IngestMcp(t.tools, result);
      Ok(t.(tools := tools))
    case OtherEvent => Ok(t)
  }

  // ---- what every tally keeps ----

  /** Every started turn is completed, aborted or still open. */
  predicate Lifecycle(t: Tally) {
    t.turnCount == t.completedTurns + t.abortedTurns + if t.activeTurn then 1 else 0
  }

  /** Turns add up; first usage, usage and request count go together; the parts of the
      usage add up; failed calls are among the calls. */
  predicate Consistent(t: Tally) {
    && Lifecycle(t)
    && (t.firstUsage.Some? <==> t.usage.Some?) && (t.usage.Some? <==> t.requests > 0)
    && (t.usage.Some? ==> Balanced(t.usage.value) && Balanced(t.firstUsage.value))
    && t.tools.failedMcp <= t.tools.mcp
  }

  lemma {:induction false} IngestKeeps(t: Tally, e: Event)
    requires Consistent(t) && Ingest(t, e).Ok?
    ensures Consistent(Ingest(t, e).value)
  {
    match e
    case TokenCount(total, last) =>
      if total.Some? { ParsersAgree(total.value); }
      if last.Some? { ParsersAgree(last.value); }
    case _ =>
  }

  /** The fields `ingest_event` updates through `RolloutEventAccumulator`. */
  class EventAccumulator {
    var activeTurn: bool
    var turnCount: nat
    var completedTurns: nat
    var abortedTurns: nat
    var requests: nat
    var durationMs: u64
    var firstUsage: Option<UsageReceipt>
    var usage: Option<UsageReceipt>
    var answer: Option<string>
    var tools: ToolCounts
    var startedChildren: map<string, string>

    function State(): Tally
      reads this
    {
      Tally(activeTurn, turnCount, completedTurns, abortedTurns, requests, durationMs, firstUsage, usage, answer, tools,
            startedChildren)
    }

    ghost predicate Valid()
      reads this
    {
      Consistent(State())
    }

    constructor ()
      ensures Valid() && State() == NO_TURNS
    {
      activeTurn, turnCount, completedTurns, abortedTurns, requests, durationMs := false, 0, 0, 0, 0, 0;
      firstUsage, usage, answer, tools, startedChildren := None, None, None, NO_CALLS, map[];
    }

    /** `ingest_event`; the result is the error, if any. */
    method IngestEvent(e: Event) returns (error: Option<Rejection>)
      requires Valid()
      modifies this
      ensures Outcome(Ingest(old(State()), e), error, State()) && (error.None? ==> Valid())
    {
      if Ingest(State(), e).Ok? { IngestKeeps(State(), e); }
      error := None;
      match e
      case TaskStarted =>
        if activeTurn {
          return Some(TurnStillOpen);
        }
        activeTurn := true;
        turnCount := turnCount + 1;
      case TaskComplete(last, duration) => error := OnComplete(last, duration);
      case TurnAborted =>
        if !activeTurn {
          return Some(AbortsNoTurn);
        }
        activeTurn := false;
        abortedTurns := abortedTurns + 1;
      case TokenCount(total, last) => error := OnTokenCount(total, last);
      case SubAgentStarted(eventId, child) =>
        if eventId.None? {
          return Some(MissingEventId);
        }
        if child.None? {
          return Some(MissingChild);
        }
        if eventId.value in startedChildren {
          return Some(RepeatedEventId);
        }
        startedChildren := startedChildren[eventId.value := child.value];
      case McpToolCallEnd(result) =>
        var counted := IngestMcp(tools, result);
        if counted.Err? {
          return Some(counted.error);
        }
        tools := counted.value;
      case OtherEvent =>
    }

    /** The `task_complete` arm. */
    method OnComplete(last: Option<string>, duration: u64) returns (error: Option<Rejection>)
      requires Valid()
      modifies this
      ensures Outcome(Ingest(old(State()), TaskComplete(last, duration)), error, State()) && (error.None? ==> Valid())
    {
      if Ingest(State(), TaskComplete(last, duration)).Ok? { IngestKeeps(State(), TaskComplete(last, duration)); }
      if !activeTurn {
        return Some(CompletesNoTurn);
      }
      activeTurn := false;
      completedTurns := completedTurns + 1;
      if last.Some? {
        answer := last;
      }
      var sum := Add(durationMs, duration);
      if sum.Err? {
        return Some(sum.error);
      }
      durationMs := sum.value;
      error := None;
    }

    /** The `token_count` arm. */
    method OnTokenCount(total: Option<RawUsage>, last: Option<RawUsage>) returns (error: Option<Rejection>)
      requires Valid()
      modifies this
      ensures Outcome(Ingest(old(State()), TokenCount(total, last)), error, State()) && (error.None? ==> Valid())
    {
      if Ingest(State(), TokenCount(total, last)).Ok? { IngestKeeps(State(), TokenCount(total, last)); }
      if !activeTurn {
        return Some(UsageOutsideTurn);
      }
      if total.None? {
        return None;
      }
      var current := Lift(Parse(total.value));
      if current.Err? {
        return Some(current.error);
      }
      if usage.Some? && !MonotonicAfter(current.value, usage.value) {
        return Some(UsageRegressed);
      }
      var latest := current;
      if last.Some? {
        latest := Lift(Parse(last.value));
      }
      if latest.Err? {
        return Some(latest.error);
      }
      if firstUsage.None? {
        firstUsage := Some(latest.value);
      }
      usage := Some(current.value);
      requests := requests + 1;
      error := None;
    }
  }

  /** The call failed with this error, or reached the state it was to reach. */
  ghost predicate Outcome(expected: Result<Tally, Rejection>, error: Option<Rejection>, reached: Tally) {
    match expected
    case Ok(next) => error == None && reached == next
    case Err(why) => error == Some(why)
  }

  // ---- tool calls in response items ----

  const COLLABORATION_TOOLS: set<string> :=
    {"spawn_agent", "wait_agent", "send_message", "followup_task", "interrupt_agent", "list_agents"}

  predicate Contains(text: string, part: string) {
    exists i :: 0 <= i <= |text| && part <= text[i..]
  }

  /** `ingest_response_item` */
  function IngestItem(t: ToolCounts, calls: seq<Collaboration>,
                      item: Item): Result<(ToolCounts, seq<Collaboration>), Rejection> {
    match item
    case OtherItem => Ok((t, calls))
    case ToolCall(None, _, _, _, _) => Err(MissingTool)
    case ToolCall(Some(name), callId, namespaced, arguments, input) =>
      if name in COLLABORATION_TOOLS then
        if callId.None? then Err(MissingCallId)
        else if name == "spawn_agent" && arguments.Malformed? then Err(MalformedSpawn)
        else
          var fork := if name == "spawn_agent" && arguments.Arguments? then arguments.forkTurns else None;
          Ok((t.(collaboration := t.collaboration + 1), calls + [Collaboration(callId.value, name, fork)]))
      else if namespaced || "mcp__" <= name then Ok((t, calls))
      else if name == "exec" then
        if Contains(input, "tools.exec_command") || Contains(input, "tools.write_stdin")
           then Ok((t.(shell := t.shell + 1), calls))
        else if Contains(input, "tools.mcp__") then Ok((t, calls))
        else Ok((t.(other := t.other + 1), calls))
      else if name == "exec_command" || name == "write_stdin" || name == "functions.exec"
              then Ok((t.(shell := t.shell + 1), calls))
      else Ok((t.(other := t.other + 1), calls))
  }

  // ---- the live records ----

  datatype Live = Live(tally: Tally, model: Option<string>, effort: Option<string>, compactions: nat,
                       calls: seq<Collaboration>)

  const NOTHING_YET := Live(NO_TURNS, None, None, 0, [])

  function Step(s: Live, record: Record): Result<Live, Rejection> {
    match record
    case Untyped => Err(MissingType)
    case SessionMeta(_) => Err(UnexpectedSession)
    case TurnContext(model, effort) =>
      if model.None? then Err(MissingModel)
      else if s.model.Some? && s.model != model then Err(ModelChanges)
      else if s.effort.Some? && s.effort != effort then Err(EffortChanges)
      else Ok(s.(model := model, effort := effort))
    case EventMsg(event) =>
      var tally :- Ingest(s.tally, event);
      Ok(s.(tally := tally))
    case ResponseItem(item) =>
      var counted :- IngestItem(s.tally.tools, s.calls, item);
      Ok(s.(tally := s.tally.(tools := counted.0), calls := counted.1))
    case Compacted => Ok(s.(compactions := s.compactions + 1))
    case AgentMessage(_) => Ok(s)
    case OtherRecord => Ok(s)
  }

  lemma {:induction false} StepKeeps(s: Live, record: Record)
    requires Consistent(s.tally) && Step(s, record).Ok?
    ensures Consistent(Step(s, record).value.tally)
  {
    if record.EventMsg? {
      IngestKeeps(s.tally, record.event);
    }
  }

  function Run(s: Live, lines: seq<Line>): Result<Live, Rejection>
    decreases |lines|
  {
    if lines == [] then Ok(s)
    else
      var next :- Step(s, lines[0].record);
      Run(next, lines[1..])
  }

  // ---- where the live part starts ----

  predicate IsTrigger(line: Line) {
    line.record == AgentMessage(Some(true))
  }

  predicate IsTaskStart(line: Line) {
    line.record == EventMsg(TaskStarted)
  }

  function FirstTrigger(lines: seq<Line>, i: nat): (r: Option<nat>)
    requires i <= |lines|
    ensures r.Some? ==> i <= r.value < |lines| && IsTrigger(lines[r.value])
    ensures r.Some? ==> forall k :: i <= k < r.value ==> !IsTrigger(lines[k])
    ensures r.None? ==> forall k :: i <= k < |lines| ==> !IsTrigger(lines[k])
    decreases |lines| - i
  {
    if i == |lines| then None else if IsTrigger(lines[i]) then Some(i) else FirstTrigger(lines, i + 1)
  }

  function LastStart(lines: seq<Line>, i: nat): (r: Option<nat>)
    requires i < |lines|
    ensures r.Some? ==> 1 <= r.value <= i && IsTaskStart(lines[r.value])
    ensures r.Some? ==> forall k :: r.value < k <= i ==> !IsTaskStart(lines[k])
    ensures r.None? ==> forall k :: 1 <= k <= i ==> !IsTaskStart(lines[k])
  {
    if i == 0 then None else if IsTaskStart(lines[i]) then Some(i) else LastStart(lines, i - 1)
  }

  /** `live_record_start` */
  function LiveRecordStart(lines: seq<Line>, isSubagent: bool): (r: Result<nat, Rejection>)
    ensures isSubagent && r.Ok? ==> 1 <= r.value < |lines|
  {
    if !isSubagent then Ok(1)
    else
      var trigger := FirstTrigger(lines, 0);
      if trigger.None? then Err(NoTriggerMarker)
      else match LastStart(lines, trigger.value)
        case Some(start) => Ok(start)
        case None => Err(NoLiveStart)
  }

  /** The last task start at or before the first trigger marker. */
  ghost predicate IsLiveStart(lines: seq<Line>, start: nat, trigger: nat) {
    && 1 <= start <= trigger < |lines|
    && IsTrigger(lines[trigger]) && (forall k :: 0 <= k < trigger ==> !IsTrigger(lines[k]))
    && IsTaskStart(lines[start]) && (forall k :: start < k <= trigger ==> !IsTaskStart(lines[k]))
  }

  lemma {:induction false} FirstTriggerIs(lines: seq<Line>, i: nat, trigger: nat)
    requires i <= trigger < |lines| && IsTrigger(lines[trigger])
    requires forall k :: i <= k < trigger ==> !IsTrigger(lines[k])
    ensures FirstTrigger(lines, i) == Some(trigger)
    decreases trigger - i
  {
    if i < trigger {
      FirstTriggerIs(lines, i + 1, trigger);
    }
  }

  lemma {:induction false} LastStartIs(lines: seq<Line>, start: nat, i: nat)
    requires 1 <= start <= i < |lines| && IsTaskStart(lines[start])
    requires forall k :: start < k <= i ==> !IsTaskStart(lines[k])
    ensures LastStart(lines, i) == Some(start)
    decreases i
  {
    if start < i {
      LastStartIs(lines, start, i - 1);
    }
  }

  lemma {:induction false} LiveStartIff(lines: seq<Line>, start: nat)
    ensures LiveRecordStart(lines, true) == Ok(start) <==> exists trigger: nat :: IsLiveStart(lines, start, trigger)
  {
    if LiveRecordStart(lines, true) == Ok(start) {
      assert IsLiveStart(lines, start, FirstTrigger(lines, 0).value);
    }
    if exists trigger: nat :: IsLiveStart(lines, start, trigger) {
      var trigger: nat :| IsLiveStart(lines, start, trigger);
      FirstTriggerIs(lines, 0, trigger);
      LastStartIs(lines, start, trigger);
    }
  }

  // ---- the whole rollout ----

  datatype ParsedRollout = ParsedRollout(id: string, parentId: Option<string>, hostVersion: string, provider: string,
                                         live: Live, recordCount: nat, inheritedCount: nat, inheritedBytes: u64)

  function BytesOf(lines: seq<Line>): (r: seq<u64>)
    ensures |r| == |lines| && forall i :: 0 <= i < |r| ==> r[i] == lines[i].bytes
  {
    seq(|lines|, i requires 0 <= i < |lines| => lines[i].bytes)
  }

  /** The checks after the loop. */
  function Finish(s: Live): Result<Live, Rejection> {
    if s.tally.activeTurn || s.tally.turnCount == 0
       || s.tally.completedTurns + s.tally.abortedTurns != s.tally.turnCount then
      Err(LifecycleIncomplete)
    else if s.tally.usage.None? then Err(NoUsage)
    else if s.model.None? then Err(NoTurnContext)
    else if s.tally.firstUsage.None? then Err(NoFirstUsage)
    else Ok(s)
  }

  /** `parse_rollout`, on parsed records. */
  function ParseRollout(lines: seq<Line>): Result<ParsedRollout, Rejection> {
    if lines == [] then Err(EmptyRollout)
    else if !lines[0].record.SessionMeta? then Err(NoSession)
    else match lines[0].record.session
      case None => Err(NoPayload)
      case Some(session) =>
        if session.id.None? then Err(MissingSessionId)
        else if session.cliVersion.None? then Err(MissingVersion)
        else if session.provider.None? then Err(MissingProvider)
        else
          var start :- LiveRecordStart(lines, session.parentId.Some?);
          ParseParts(session, lines[1..start], lines[start..])
  }

  /** The inherited records are only counted, the live ones are run. */
  function ParseParts(session: Session, history: seq<Line>, live: seq<Line>): Result<ParsedRollout, Rejection>
    requires session.id.Some? && session.cliVersion.Some? && session.provider.Some?
  {
    var inherited :- SumBytes(BytesOf(history), 0);
    var run :- Run(NOTHING_YET, live);
    var total :- Finish(run);
    Ok(ParsedRollout(session.id.value, session.parentId, session.cliVersion.value, session.provider.value, total,
                     1 + |history| + |live|, |history|, inherited))
  }

  /** The loop of `parse_rollout` over the live records, folding each into the
      accumulators. */
  method RunLive(lines: seq<Line>) returns (r: Result<Live, Rejection>)
    ensures r == Run(NOTHING_YET, lines)
  {
    var events := new EventAccumulator();
    var model: Option<string>, effort: Option<string> := None, None;
    var compactions := 0;
    var calls: seq<Collaboration> := [];
    var n := 0;
    assert lines[0..] == lines;
    while n < |lines|
      invariant n <= |lines| && events.Valid()
      invariant Run(Live(events.State(), model, effort, compactions, calls), lines[n..]) == Run(NOTHING_YET, lines)
    {
      var record := lines[n].record;
      ghost var before := Live(events.State(), model, effort, compactions, calls);
      assert lines[n..][0].record == record && lines[n..][1..] == lines[n + 1..];
      match record {
        case Untyped => return Err(MissingType);
        case SessionMeta(_) => return Err(UnexpectedSession);
        case TurnContext(current, currentEffort) =>
          if current.None? {
            return Err(MissingModel);
          }
          if model.Some? && model != current {
            return Err(ModelChanges);
          }
          if effort.Some? && effort != currentEffort {
            return Err(EffortChanges);
          }
          model, effort := current, currentEffort;
        case EventMsg(event) =>
          var error := events.IngestEvent(event);
          if error.Some? {
            return Err(error.value);
          }
        case ResponseItem(item) =>
          var counted := IngestItem(events.tools, calls, item);
          if counted.Err? {
            return Err(counted.error);
          }
          events.tools := counted.value.0;
          calls := counted.value.1;
        case Compacted => compactions := compactions + 1;
        case AgentMessage(_) =>
        case OtherRecord =>
      }
      assert Step(before, record) == Ok(Live(events.State(), model, effort, compactions, calls));
      n := n + 1;
    }
    r := Ok(Live(events.State(), model, effort, compactions, calls));
  }

  // ---- the turn lifecycle ----

  lemma {:induction false} RunKeepsLifecycle(s: Live, lines: seq<Line>)
    requires Consistent(s.tally) && Run(s, lines).Ok?
    ensures Consistent(Run(s, lines).value.tally)
    decreases |lines|
  {
    if lines != [] {
      StepKeeps(s, lines[0].record);
      RunKeepsLifecycle(Step(s, lines[0].record).value, lines[1..]);
    }
  }

  /** After the loop an open turn is the only way the counts can disagree: the
      comparison of the counts never rejects anything by itself. */
  lemma {:induction false} CountComparisonIsRedundant(lines: seq<Line>)
    requires Run(NOTHING_YET, lines).Ok?
    ensures var t := Run(NOTHING_YET, lines).value.tally;
            t.completedTurns + t.abortedTurns != t.turnCount <==> t.activeTurn
  {
    RunKeepsLifecycle(NOTHING_YET, lines);
  }

  /** Nor does the check for a first request's usage: it comes with the usage. */
  lemma {:induction false} FirstUsageCheckIsRedundant(lines: seq<Line>)
    requires Run(NOTHING_YET, lines).Ok?
    ensures Finish(Run(NOTHING_YET, lines).value) != Err(NoFirstUsage)
  {
    RunKeepsLifecycle(NOTHING_YET, lines);
  }

  /** Cumulative usage never falls along a run. */
  lemma {:induction false} RunUsageMonotonic(s: Live, lines: seq<Line>)
    requires Run(s, lines).Ok? && s.tally.usage.Some?
    ensures var t := Run(s, lines).value.tally; t.usage.Some? && MonotonicAfter(t.usage.value, s.tally.usage.value)
    decreases |lines|
  {
    if lines != [] {
      RunUsageMonotonic(Step(s, lines[0].record).value, lines[1..]);
    }
  }

  // ---- inherited history does not matter ----

  /** Equal in everything but the record and byte counts. */
  predicate SameButHistory(a: ParsedRollout, b: ParsedRollout) {
    b == a.(recordCount := b.recordCount, inheritedCount := b.inheritedCount, inheritedBytes := b.inheritedBytes)
  }

  ghost predicate NoTrigger(lines: seq<Line>) {
    forall k :: 0 <= k < |lines| ==> !IsTrigger(lines[k])
  }

  /** The live part by itself: a task start, and the first trigger at `t` with no
      task start in between. */
  ghost predicate LiveFromFirst(live: seq<Line>, t: nat) {
    && t < |live|
    && IsTrigger(live[t]) && NoTrigger(live[..t])
    && IsTaskStart(live[0]) && forall k :: 0 < k <= t ==> !IsTaskStart(live[k])
  }

  lemma {:induction false} LiveStartParts(meta: Line, history: seq<Line>, live: seq<Line>, t: nat)
    ensures var lines, start := [meta] + history + live, 1 + |history|;
            IsLiveStart(lines, start, start + t) <==> !IsTrigger(meta) && NoTrigger(history) && LiveFromFirst(live, t)
  {
    var lines, start := [meta] + history + live, 1 + |history|;
    assert lines[0] == meta;
    assert forall k :: 0 <= k < |history| ==> history[k] == lines[1 + k];
    assert forall k :: 0 <= k < |live| ==> live[k] == lines[start + k];
    if IsLiveStart(lines, start, start + t) {
      forall k | 0 <= k < t ensures !IsTrigger(live[..t][k]) { assert live[..t][k] == lines[start + k]; }
    }
    if !IsTrigger(meta) && NoTrigger(history) && LiveFromFirst(live, t) {
      forall k | 0 <= k < start + t ensures !IsTrigger(lines[k]) {
        if k >= start { assert lines[k] == live[..t][k - start]; } else if k > 0 { assert lines[k] == history[k - 1]; }
      }
      forall k | start < k <= start + t ensures !IsTaskStart(lines[k]) { assert lines[k] == live[k - start]; }
    }
  }

  lemma {:induction false} LiveStartMoves(meta: Line, history: seq<Line>, other: seq<Line>, live: seq<Line>)
    requires LiveRecordStart([meta] + history + live, true) == Ok(1 + |history|) && NoTrigger(other)
    ensures LiveRecordStart([meta] + other + live, true) == Ok(1 + |other|)
  {
    LiveStartIff([meta] + history + live, 1 + |history|);
    var trigger: nat :| IsLiveStart([meta] + history + live, 1 + |history|, trigger);
    var t := trigger - (1 + |history|);
    LiveStartParts(meta, history, live, t);
    LiveStartParts(meta, other, live, t);
    LiveStartIff([meta] + other + live, 1 + |other|);
  }

  /** For a subagent, replacing the inherited history between the session record
      and the live start by any other without trigger markers, whose bytes can
      still be counted, changes only the record and byte counts. */
  lemma {:induction false} HistoryIsIgnored(meta: Line, history: seq<Line>, other: seq<Line>, live: seq<Line>)
    requires var r := ParseRollout([meta] + history + live);
             r.Ok? && r.value.parentId.Some? && r.value.inheritedCount == |history|
    requires NoTrigger(other)
    requires SumBytes(BytesOf(other), 0).Ok?
    ensures var a, b := ParseRollout([meta] + history + live).value, ParseRollout([meta] + other + live);
            b.Ok? && SameButHistory(a, b.value) && b.value.inheritedCount == |other|
            && b.value.inheritedBytes == SumBytes(BytesOf(other), 0).value
  {
    AcceptedStart(meta, history, live);
    LiveStartMoves(meta, history, other, live);
    ParsedInParts(meta, history, live);
    ParsedInParts(meta, other, live);
  }

  /** A subagent's session record with all its fields. */
  predicate OpensSubagent(meta: Line) {
    && meta.record.SessionMeta? && meta.record.session.Some?
    && var s := meta.record.session.value; s.id.Some? && s.parentId.Some? && s.cliVersion.Some? && s.provider.Some?
  }

  lemma {:induction false} AcceptedStart(meta: Line, history: seq<Line>, live: seq<Line>)
    requires var r := ParseRollout([meta] + history + live);
             r.Ok? && r.value.parentId.Some? && r.value.inheritedCount == |history|
    ensures OpensSubagent(meta) && LiveRecordStart([meta] + history + live, true) == Ok(1 + |history|)
  {
    PartsOf(meta, history, live);
  }

  lemma {:induction false} ParsedInParts(meta: Line, history: seq<Line>, live: seq<Line>)
    requires OpensSubagent(meta) && LiveRecordStart([meta] + history + live, true) == Ok(1 + |history|)
    ensures ParseRollout([meta] + history + live) == ParseParts(meta.record.session.value, history, live)
  {
    PartsOf(meta, history, live);
  }

  lemma {:induction false} PartsOf(meta: Line, history: seq<Line>, live: seq<Line>)
    ensures var lines := [meta] + history + live;
            lines[0] == meta && lines[1..1 + |history|] == history && lines[1 + |history|..] == live
  {
  }

  /** The session record, the inherited records and the live records are all the
      records. */
  lemma {:induction false} RecordsAccountedFor(lines: seq<Line>)
    requires ParseRollout(lines).Ok?
    ensures var r := ParseRollout(lines).value;
            r.recordCount == |lines| && 1 + r.inheritedCount <= |lines|
            && Run(NOTHING_YET, lines[1 + r.inheritedCount..]) == Ok(r.live)
            && (r.parentId.None? ==> r.inheritedCount == 0)
  {
  }
}
