/** What the accumulated totals of a thread say, read off its live lines themselves. */
module ThreadTrace {
  import opened Wrappers
  import opened Selection
  import opened ProviderUsage
  import opened ThreadRollout

  // ---- runs, line by line ----

  /** The state after the first `n` lines. */
  ghost function RunTo(lines: seq<Line>, n: nat): Result<Live, Rejection>
    requires n <= |lines|
  {
    if n == 0 then Ok(NOTHING_YET)
    else
      var s :- RunTo(lines, n - 1);
      Step(s, lines[n - 1].record)
  }

  lemma {:induction false} StaysRefused(lines: seq<Line>, m: nat, n: nat)
    requires m <= n <= |lines| && RunTo(lines, m).Err?
    ensures RunTo(lines, n) == RunTo(lines, m)
  {
    if m < n {
      StaysRefused(lines, m, n - 1);
    }
  }

  lemma {:induction false} RunsOn(lines: seq<Line>, n: nat, s: Live)
    requires n <= |lines| && RunTo(lines, n) == Ok(s)
    ensures Run(s, lines[n..]) == RunTo(lines, |lines|)
    decreases |lines| - n
  {
    if n < |lines| {
      assert lines[n..][0] == lines[n] && lines[n..][1..] == lines[n + 1..];
      var next := Step(s, lines[n].record);
      assert RunTo(lines, n + 1) == next;
      if next.Ok? {
        RunsOn(lines, n + 1, next.value);
      } else {
        StaysRefused(lines, n + 1, |lines|);
      }
    }
  }

  /** The fold over the lines and the state after each line are the same thing. */
  lemma {:induction false} RunIs(lines: seq<Line>)
    ensures Run(NOTHING_YET, lines) == RunTo(lines, |lines|)
  {
    RunsOn(lines, 0, NOTHING_YET);
    assert lines[0..] == lines;
  }

  // ---- counting and adding up lines ----

  /** How many of the first `n` lines are so. */
  ghost function CountOf(lines: seq<Line>, n: nat, p: Line -> bool): nat
    requires n <= |lines|
  {
    if n == 0 then 0 else CountOf(lines, n - 1, p) + if p(lines[n - 1]) then 1 else 0
  }

  /** What the first `n` lines add up to. */
  ghost function SumOf(lines: seq<Line>, n: nat, amount: Line -> nat): nat
    requires n <= |lines|
  {
    if n == 0 then 0 else SumOf(lines, n - 1, amount) + amount(lines[n - 1])
  }

  // ---- turns ----

  predicate StartsTurn(line: Line) {
    line.record == EventMsg(TaskStarted)
  }

  predicate CompletesTurn(line: Line) {
    line.record.EventMsg? && line.record.event.TaskComplete?
  }

  predicate AbortsTurn(line: Line) {
    line.record == EventMsg(TurnAborted)
  }

  function Duration(line: Line): nat {
    match line.record
    case EventMsg(TaskComplete(_, durationMs)) => durationMs
    case _ => 0
  }

  /** A turn was started before line `n` and has not ended. */
  ghost predicate TurnOpen(lines: seq<Line>, n: nat)
    requires n <= |lines|
  {
    exists j :: OpenSince(lines, n, j)
  }

  ghost predicate OpenSince(lines: seq<Line>, n: nat, j: int)
    requires n <= |lines|
  {
    0 <= j < n && StartsTurn(lines[j]) && forall k :: j < k < n ==> !CompletesTurn(lines[k]) && !AbortsTurn(lines[k])
  }

  lemma {:induction false} OpenStep(lines: seq<Line>, n: nat)
    requires n < |lines|
    ensures TurnOpen(lines, n + 1) <==>
            StartsTurn(lines[n]) || (!CompletesTurn(lines[n]) && !AbortsTurn(lines[n]) && TurnOpen(lines, n))
  {
    if TurnOpen(lines, n + 1) {
      var j :| OpenSince(lines, n + 1, j);
      if j < n { assert OpenSince(lines, n, j); }
    }
    if StartsTurn(lines[n]) {
      assert OpenSince(lines, n + 1, n);
    } else if !CompletesTurn(lines[n]) && !AbortsTurn(lines[n]) && TurnOpen(lines, n) {
      var j :| OpenSince(lines, n, j);
      assert OpenSince(lines, n + 1, j);
    }
  }

  lemma {:induction false} StepTurns(s: Live, line: Line)
    requires Step(s, line.record).Ok?
    ensures var t, u := s.tally, Step(s, line.record).value.tally;
            && u.activeTurn == (StartsTurn(line)
                                || (!CompletesTurn(line) && !AbortsTurn(line) && t.activeTurn))
            && u.turnCount == t.turnCount + (if StartsTurn(line) then 1 else 0)
            && u.completedTurns == t.completedTurns + (if CompletesTurn(line) then 1 else 0)
            && u.abortedTurns == t.abortedTurns + (if AbortsTurn(line) then 1 else 0)
            && u.durationMs == t.durationMs + Duration(line)
  {
  }

  /** Turns are counted by the lines that start, complete and abort them; the duration
      is the sum over the completed ones. */
  lemma {:induction false} TurnsAre(lines: seq<Line>, n: nat)
    requires n <= |lines| && RunTo(lines, n).Ok?
    ensures var t := RunTo(lines, n).value.tally;
            && t.turnCount == CountOf(lines, n, StartsTurn)
            && t.completedTurns == CountOf(lines, n, CompletesTurn)
            && t.abortedTurns == CountOf(lines, n, AbortsTurn)
            && t.durationMs == SumOf(lines, n, Duration)
            && (t.activeTurn <==> TurnOpen(lines, n))
  {
    if n > 0 {
      TurnsAre(lines, n - 1);
      StepTurns(RunTo(lines, n - 1).value, lines[n - 1]);
      OpenStep(lines, n - 1);
    }
  }

  // ---- the answer ----

  /** The turn completed at line `j` brings this answer, and no later one brings any. */
  ghost predicate LastAnswer(lines: seq<Line>, n: nat, j: int, answer: string)
    requires n <= |lines|
  {
    0 <= j < n && Brings(lines[j]) == Some(answer) && forall k :: j < k < n ==> Brings(lines[k]) == None
  }

  function Brings(line: Line): Option<string> {
    match line.record
    case EventMsg(TaskComplete(answer, _)) => answer
    case _ => None
  }

  ghost predicate Answered(lines: seq<Line>, n: nat, answer: string)
    requires n <= |lines|
  {
    exists j :: LastAnswer(lines, n, j, answer)
  }

  lemma {:induction false} StepAnswer(s: Live, line: Line)
    requires Step(s, line.record).Ok?
    ensures Step(s, line.record).value.tally.answer == if Brings(line).Some? then Brings(line) else s.tally.answer
  {
  }

  lemma {:induction false} AnswerStep(lines: seq<Line>, n: nat, answer: string)
    requires n < |lines|
    ensures Answered(lines, n + 1, answer) <==>
            if Brings(lines[n]).Some? then Brings(lines[n]) == Some(answer) else Answered(lines, n, answer)
  {
    if Brings(lines[n]) == Some(answer) {
      assert LastAnswer(lines, n + 1, n, answer);
    } else if Answered(lines, n + 1, answer) {
      var j :| LastAnswer(lines, n + 1, j, answer);
      assert LastAnswer(lines, n, j, answer);
    } else if Brings(lines[n]).None? && Answered(lines, n, answer) {
      var j :| LastAnswer(lines, n, j, answer);
      assert LastAnswer(lines, n + 1, j, answer);
      assert false;
    }
  }

  /** The last answer wins. */
  lemma {:induction false} AnswerIs(lines: seq<Line>, n: nat, answer: string)
    requires n <= |lines| && RunTo(lines, n).Ok?
    ensures RunTo(lines, n).value.tally.answer == Some(answer) <==> Answered(lines, n, answer)
  {
    if n > 0 {
      AnswerIs(lines, n - 1, answer);
      StepAnswer(RunTo(lines, n - 1).value, lines[n - 1]);
      AnswerStep(lines, n - 1, answer);
    }
  }

  // ---- usage ----

  /** The line carries a total. */
  predicate ReportsTotal(line: Line) {
    line.record.EventMsg? && line.record.event.TokenCount? && line.record.event.total.Some?
  }

  /** The line's total reads as these amounts. */
  predicate TotalReads(line: Line, u: Amounts) {
    match line.record
    case EventMsg(TokenCount(Some(raw), _)) => Reads(raw, u)
    case _ => false
  }

  /** The line's own usage, or its total if it has none, reads as these amounts. */
  predicate OwnReads(line: Line, u: Amounts) {
    match line.record
    case EventMsg(TokenCount(Some(_), Some(raw))) => Reads(raw, u)
    case EventMsg(TokenCount(Some(raw), None)) => Reads(raw, u)
    case _ => false
  }

  lemma {:induction false} StepUsage(s: Live, line: Line)
    requires Step(s, line.record).Ok?
    ensures var t, u := s.tally, Step(s, line.record).value.tally;
            if ReportsTotal(line) then
              && u.usage.Some? && TotalReads(line, u.usage.value) && u.requests == t.requests + 1
              && u.firstUsage.Some? && (if t.firstUsage.None? then OwnReads(line, u.firstUsage.value)
                                        else u.firstUsage == t.firstUsage)
            else u.usage == t.usage && u.firstUsage == t.firstUsage && u.requests == t.requests
  {
    match line.record
    case EventMsg(TokenCount(Some(raw), own)) =>
      ParseIff(raw, Parse(raw).value);
      if own.Some? { ParseIff(own.value, Parse(own.value).value); }
    case _ =>
  }

  /** The usage is the last total. */
  ghost predicate UsageFits(lines: seq<Line>, n: nat, usage: Option<UsageReceipt>)
    requires n <= |lines|
  {
    match usage
    case None => forall k :: 0 <= k < n ==> !ReportsTotal(lines[k])
    case Some(u) => exists j :: LastTotal(lines, n, j, u)
  }

  ghost predicate LastTotal(lines: seq<Line>, n: nat, j: int, u: Amounts)
    requires n <= |lines|
  {
    0 <= j < n && TotalReads(lines[j], u) && forall k :: j < k < n ==> !ReportsTotal(lines[k])
  }

  /** The first usage is that of the first request. */
  ghost predicate FirstFits(lines: seq<Line>, n: nat, usage: Option<UsageReceipt>)
    requires n <= |lines|
  {
    match usage
    case None => forall k :: 0 <= k < n ==> !ReportsTotal(lines[k])
    case Some(u) => exists j :: FirstTotal(lines, n, j, u)
  }

  ghost predicate FirstTotal(lines: seq<Line>, n: nat, j: int, u: Amounts)
    requires n <= |lines|
  {
    0 <= j < n && OwnReads(lines[j], u) && forall k :: 0 <= k < j ==> !ReportsTotal(lines[k])
  }

  lemma {:induction false} UsageStep(lines: seq<Line>, n: nat, usage: Option<UsageReceipt>, next: Option<UsageReceipt>)
    requires n < |lines| && UsageFits(lines, n, usage)
    requires if ReportsTotal(lines[n]) then next.Some? && TotalReads(lines[n], next.value) else next == usage
    ensures UsageFits(lines, n + 1, next)
  {
    if ReportsTotal(lines[n]) {
      assert LastTotal(lines, n + 1, n, next.value);
    } else if next.Some? {
      var j :| LastTotal(lines, n, j, next.value);
      assert LastTotal(lines, n + 1, j, next.value);
    }
  }

  lemma {:induction false} FirstStep(lines: seq<Line>, n: nat, usage: Option<UsageReceipt>, next: Option<UsageReceipt>)
    requires n < |lines| && FirstFits(lines, n, usage)
    requires if ReportsTotal(lines[n]) && usage.None? then next.Some? && OwnReads(lines[n], next.value)
             else next == usage
    ensures FirstFits(lines, n + 1, next)
  {
    if usage.Some? {
      var j :| FirstTotal(lines, n, j, usage.value);
      assert FirstTotal(lines, n + 1, j, usage.value);
    } else if ReportsTotal(lines[n]) {
      assert FirstTotal(lines, n + 1, n, next.value);
    }
  }

  /** Every total is a request; the usage is the last total, and the first usage is that
      of the first request. */
  lemma {:induction false} UsageIs(lines: seq<Line>, n: nat)
    requires n <= |lines| && RunTo(lines, n).Ok?
    ensures var t := RunTo(lines, n).value.tally;
            && t.requests == CountOf(lines, n, ReportsTotal)
            && UsageFits(lines, n, t.usage) && FirstFits(lines, n, t.firstUsage)
  {
    if n > 0 {
      var s := RunTo(lines, n - 1).value;
      var t, u := s.tally, RunTo(lines, n).value.tally;
      UsageIs(lines, n - 1);
      StepUsage(s, lines[n - 1]);
      UsageStep(lines, n - 1, t.usage, u.usage);
      FirstStep(lines, n - 1, t.firstUsage, u.firstUsage);
    }
  }

  // ---- which tool a line calls ----

  predicate CallsTool(line: Line, name: string) {
    match line.record
    case ResponseItem(ToolCall(Some(tool), _, _, _, _)) => tool == name
    case _ => false
  }

  predicate Collaborates(line: Line) {
    || CallsTool(line, "spawn_agent") || CallsTool(line, "wait_agent") || CallsTool(line, "send_message")
    || CallsTool(line, "followup_task") || CallsTool(line, "interrupt_agent") || CallsTool(line, "list_agents")
  }

  /** The text holds the part somewhere. */
  ghost predicate Mentions(text: string, part: string) {
    exists before, after :: text == before + part + after
  }

  lemma {:induction false} ContainsIff(text: string, part: string)
    ensures Contains(text, part) <==> Mentions(text, part)
  {
    if Contains(text, part) {
      var i :| 0 <= i <= |text| && part <= text[i..];
      MentionedAt(text, part, i);
    }
    if Mentions(text, part) {
      var before, after :| text == before + part + after;
      FoundAfter(before, part, after);
    }
  }

  lemma {:induction false} MentionedAt(text: string, part: string, i: nat)
    requires i <= |text| && part <= text[i..]
    ensures Mentions(text, part)
  {
    assert text[i..] == part + text[i..][|part|..];
    assert text == text[..i] + part + text[i..][|part|..];
  }

  lemma {:induction false} FoundAfter(before: string, part: string, after: string)
    ensures Contains(before + part + after, part)
  {
    var text := before + part + after;
    assert text[|before|..] == part + after;
    assert part <= text[|before|..];
  }

  /** A tool of an MCP server: it is namespaced, or its name says so. */
  predicate CallsServer(line: Line) {
    match line.record
    case ResponseItem(ToolCall(Some(tool), _, namespaced, _, _)) => namespaced || "mcp__" <= tool
    case _ => false
  }

  /** A script that mentions this tool. */
  ghost predicate ScriptMentions(line: Line, part: string) {
    match line.record
    case ResponseItem(ToolCall(Some(tool), _, _, _, input)) => tool == "exec" && Mentions(input, part)
    case _ => false
  }

  /** A shell command, by name or inside a script. */
  ghost predicate RunsShell(line: Line) {
    && !Collaborates(line) && !CallsServer(line)
    && (|| CallsTool(line, "exec_command") || CallsTool(line, "write_stdin") || CallsTool(line, "functions.exec")
        || ScriptMentions(line, "tools.exec_command") || ScriptMentions(line, "tools.write_stdin"))
  }

  predicate CallsAny(line: Line) {
    line.record.ResponseItem? && line.record.item.ToolCall? && line.record.item.name.Some?
  }

  /** Any other tool, but for scripts that call MCP tools alone. */
  ghost predicate CallsOther(line: Line) {
    CallsAny(line) && !Collaborates(line) && !CallsServer(line) && !RunsShell(line)
    && !ScriptMentions(line, "tools.mcp__")
  }

  // ---- what a line says of an MCP call ----

  predicate EndsMcpCall(line: Line) {
    line.record.EventMsg? && line.record.event.McpToolCallEnd?
  }

  predicate FailsMcpCall(line: Line) {
    match line.record
    case EventMsg(McpToolCallEnd(Failed)) => true
    case EventMsg(McpToolCallEnd(Returned(isError, _, _, _))) => isError
    case _ => false
  }

  function ResultBytes(line: Line): nat {
    match line.record
    case EventMsg(McpToolCallEnd(Returned(_, jsonBytes, _, _))) => jsonBytes
    case _ => 0
  }

  function All(amounts: seq<u64>): nat {
    if amounts == [] then 0 else amounts[0] + All(amounts[1..])
  }

  /** Together the text blocks have these bytes. */
  function TextBytes(line: Line): nat {
    match line.record
    case EventMsg(McpToolCallEnd(Returned(_, _, Some(blocks), _))) => All(blocks)
    case _ => 0
  }

  function StructuredBytes(line: Line): nat {
    match line.record
    case EventMsg(McpToolCallEnd(Returned(_, _, _, Some(payload)))) => payload.jsonBytes
    case _ => 0
  }

  function SourceTokens(line: Line): nat {
    match line.record
    case EventMsg(McpToolCallEnd(Returned(_, _, _, Some(payload)))) => payload.sourceTokens
    case _ => 0
  }

  lemma {:induction false} SumBytesIs(amounts: seq<u64>, total: u64)
    ensures SumBytes(amounts, total).Ok? <==> total + All(amounts) <= 0xffff_ffff_ffff_ffff
    ensures SumBytes(amounts, total).Ok? ==> SumBytes(amounts, total).value == total + All(amounts)
    decreases |amounts|
  {
    if amounts != [] && Add(total, amounts[0]).Ok? {
      SumBytesIs(amounts[1..], total + amounts[0]);
    }
  }

  lemma {:induction false} McpStep(t: ToolCounts, line: Line)
    requires EndsMcpCall(line) && IngestMcp(t, line.record.event.result).Ok?
    ensures var u := IngestMcp(t, line.record.event.result).value;
            && (u.collaboration, u.shell, u.other) == (t.collaboration, t.shell, t.other)
            && u.mcp == t.mcp + 1 && u.failedMcp == t.failedMcp + (if FailsMcpCall(line) then 1 else 0)
            && u.resultBytes == t.resultBytes + ResultBytes(line) && u.textBytes == t.textBytes + TextBytes(line)
            && u.structuredBytes == t.structuredBytes + StructuredBytes(line)
            && u.sourceTokens == t.sourceTokens + SourceTokens(line)
  {
    match line.record
    case EventMsg(McpToolCallEnd(Returned(_, _, blocks, _))) =>
      SumBytesIs(if blocks.Some? then blocks.value else [], 0);
    case _ =>
  }

  lemma {:induction false} StepMcp(s: Live, line: Line)
    requires Step(s, line.record).Ok?
    ensures var t, u := s.tally.tools, Step(s, line.record).value.tally.tools;
            && u.mcp == t.mcp + (if EndsMcpCall(line) then 1 else 0)
            && u.failedMcp == t.failedMcp + (if FailsMcpCall(line) then 1 else 0)
            && u.resultBytes == t.resultBytes + ResultBytes(line) && u.textBytes == t.textBytes + TextBytes(line)
            && u.structuredBytes == t.structuredBytes + StructuredBytes(line)
            && u.sourceTokens == t.sourceTokens + SourceTokens(line)
  {
    if EndsMcpCall(line) { McpStep(s.tally.tools, line); }
  }

  lemma {:induction false} ItemStep(t: ToolCounts, calls: seq<Collaboration>, line: Line)
    requires line.record.ResponseItem? && IngestItem(t, calls, line.record.item).Ok?
    ensures IngestItem(t, calls, line.record.item).value.0
            == t.(collaboration := t.collaboration + if Collaborates(line) then 1 else 0,
                  shell := t.shell + if RunsShell(line) then 1 else 0,
                  other := t.other + if CallsOther(line) then 1 else 0)
  {
    match line.record.item
    case ToolCall(Some(name), _, _, _, input) =>
      ContainsIff(input, "tools.exec_command");
      ContainsIff(input, "tools.write_stdin");
      ContainsIff(input, "tools.mcp__");
    case _ =>
  }

  lemma {:induction false} StepTools(s: Live, line: Line)
    requires Step(s, line.record).Ok?
    ensures var t, u := s.tally.tools, Step(s, line.record).value.tally.tools;
            && u.collaboration == t.collaboration + (if Collaborates(line) then 1 else 0)
            && u.shell == t.shell + (if RunsShell(line) then 1 else 0)
            && u.other == t.other + (if CallsOther(line) then 1 else 0)
  {
    match line.record
    case ResponseItem(_) => ItemStep(s.tally.tools, s.calls, line);
    case EventMsg(McpToolCallEnd(_)) => McpStep(s.tally.tools, line);
    case _ =>
  }

  /** Calls are counted by the kind of tool their lines name. */
  lemma {:induction false} ToolsAre(lines: seq<Line>, n: nat)
    requires n <= |lines| && RunTo(lines, n).Ok?
    ensures var t := RunTo(lines, n).value.tally.tools;
            && t.collaboration == CountOf(lines, n, Collaborates)
            && t.shell == CountOf(lines, n, RunsShell) && t.other == CountOf(lines, n, CallsOther)
  {
    if n > 0 {
      ToolsAre(lines, n - 1);
      StepTools(RunTo(lines, n - 1).value, lines[n - 1]);
    }
  }

  /** MCP calls, failures, bytes and tokens are those of the lines that end such calls. */
  lemma {:induction false} McpCallsAre(lines: seq<Line>, n: nat)
    requires n <= |lines| && RunTo(lines, n).Ok?
    ensures var t := RunTo(lines, n).value.tally.tools;
            && t.mcp == CountOf(lines, n, EndsMcpCall) && t.failedMcp == CountOf(lines, n, FailsMcpCall)
            && t.resultBytes == SumOf(lines, n, ResultBytes) && t.textBytes == SumOf(lines, n, TextBytes)
            && t.structuredBytes == SumOf(lines, n, StructuredBytes)
            && t.sourceTokens == SumOf(lines, n, SourceTokens)
  {
    if n > 0 {
      McpCallsAre(lines, n - 1);
      StepMcp(RunTo(lines, n - 1).value, lines[n - 1]);
    }
  }

  // ---- collaboration calls ----

  ghost function Collaborating(lines: seq<Line>): nat -> bool {
    (i: nat) => i < |lines| && Collaborates(lines[i])
  }

  /** The line makes this call; a spawn call brings the turns to fork. */
  predicate MakesCall(line: Line, c: Collaboration) {
    match line.record
    case ResponseItem(ToolCall(Some(tool), Some(id), _, arguments, _)) =>
      tool == c.tool && id == c.callId
      && (match arguments
          case Arguments(fork) => c.forkTurns == if tool == "spawn_agent" then fork else None
          case _ => c.forkTurns == None)
    case _ => false
  }

  ghost predicate AllMade(lines: seq<Line>, at: seq<nat>, calls: seq<Collaboration>) {
    |calls| == |at| && forall k :: 0 <= k < |at| ==> at[k] < |lines| && MakesCall(lines[at[k]], calls[k])
  }

  lemma {:induction false} StepCalls(s: Live, line: Line)
    requires Step(s, line.record).Ok?
    ensures var calls := Step(s, line.record).value.calls;
            if Collaborates(line) then calls != [] && calls == s.calls + [calls[|calls| - 1]]
                                       && MakesCall(line, calls[|calls| - 1])
            else calls == s.calls
  {
  }

  /** The calls are those of the collaborating lines, in order. */
  lemma {:induction false} CallsAre(lines: seq<Line>, n: nat) returns (at: seq<nat>)
    requires n <= |lines| && RunTo(lines, n).Ok?
    ensures Picks(at, n, Collaborating(lines)) && AllMade(lines, at, RunTo(lines, n).value.calls)
  {
    if n == 0 {
      at := [];
    } else {
      at := CallsAre(lines, n - 1);
      StepCalls(RunTo(lines, n - 1).value, lines[n - 1]);
      PicksNext(at, n - 1, Collaborating(lines));
      at := if Collaborating(lines)(n - 1) then at + [n - 1] else at;
    }
  }

  // ---- children, models, compactions ----

  predicate Compacts(line: Line) {
    line.record == Compacted
  }

  /** The first `n` lines start this child under this event. */
  ghost predicate Started(lines: seq<Line>, n: nat, id: string, child: string)
    requires n <= |lines|
  {
    exists j :: 0 <= j < n && lines[j].record == EventMsg(SubAgentStarted(Some(id), Some(child)))
  }

  ghost predicate NamesModel(lines: seq<Line>, n: nat, model: string)
    requires n <= |lines|
  {
    exists j :: 0 <= j < n && lines[j].record.TurnContext? && lines[j].record.model == Some(model)
  }

  ghost predicate NamesEffort(lines: seq<Line>, n: nat, effort: string)
    requires n <= |lines|
  {
    exists j :: 0 <= j < n && lines[j].record.TurnContext? && lines[j].record.effort == Some(effort)
  }

  lemma {:induction false} StepChildren(s: Live, line: Line)
    requires Step(s, line.record).Ok?
    ensures var t := Step(s, line.record).value.tally.startedChildren;
            match line.record
            case EventMsg(SubAgentStarted(id, child)) =>
              id.Some? && child.Some? && id.value !in s.tally.startedChildren
              && t == s.tally.startedChildren[id.value := child.value]
            case _ => t == s.tally.startedChildren
  {
  }

  lemma {:induction false} StartedStep(lines: seq<Line>, n: nat, id: string, child: string)
    requires n < |lines|
    ensures Started(lines, n + 1, id, child) <==>
            Started(lines, n, id, child) || lines[n].record == EventMsg(SubAgentStarted(Some(id), Some(child)))
  {
  }

  /** Each started child stands under its event id, and nothing else does. */
  lemma {:induction false} ChildrenAre(lines: seq<Line>, n: nat, id: string, child: string)
    requires n <= |lines| && RunTo(lines, n).Ok?
    ensures var started := RunTo(lines, n).value.tally.startedChildren;
            (id in started && started[id] == child) <==> Started(lines, n, id, child)
  {
    if n > 0 {
      ChildrenAre(lines, n - 1, id, child);
      StepChildren(RunTo(lines, n - 1).value, lines[n - 1]);
      StartedStep(lines, n - 1, id, child);
    }
  }

  lemma {:induction false} StepContext(s: Live, line: Line)
    requires Step(s, line.record).Ok?
    ensures var t := Step(s, line.record).value;
            && t.compactions == s.compactions + (if Compacts(line) then 1 else 0)
            && match line.record
               case TurnContext(model, effort) =>
                 && model.Some? && t.model == model && t.effort == effort
                 && (s.model.Some? ==> s.model == model) && (s.effort.Some? ==> s.effort == effort)
               case _ => t.model == s.model && t.effort == s.effort
  {
  }

  /** The model and the effort are the ones that turn contexts name. */
  lemma {:induction false} ContextIs(lines: seq<Line>, n: nat)
    requires n <= |lines| && RunTo(lines, n).Ok?
    ensures var s := RunTo(lines, n).value;
            && s.compactions == CountOf(lines, n, Compacts)
            && (forall m :: s.model == Some(m) <==> NamesModel(lines, n, m))
            && (forall e :: s.effort == Some(e) <==> NamesEffort(lines, n, e))
  {
    if n > 0 {
      var s := RunTo(lines, n - 1).value;
      ContextIs(lines, n - 1);
      StepContext(s, lines[n - 1]);
      forall m ensures NamesModel(lines, n, m) <==>
                       NamesModel(lines, n - 1, m)
                       || (lines[n - 1].record.TurnContext? && lines[n - 1].record.model == Some(m)) {}
      forall e ensures NamesEffort(lines, n, e) <==>
                       NamesEffort(lines, n - 1, e)
                       || (lines[n - 1].record.TurnContext? && lines[n - 1].record.effort == Some(e)) {}
    }
  }
}
