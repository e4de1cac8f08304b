/** Which rollouts the thread parser accepts, said on their lines alone. */
module ThreadAccepted {
  import opened Wrappers
  import opened ProviderUsage
  import opened ThreadRollout
  import opened ThreadTrace

  // ---- what a live line may be, given the lines before it ----

  predicate NeverLess(u: Amounts, v: Amounts) {
    && u.totalInput >= v.totalInput && u.uncachedInput >= v.uncachedInput && u.cacheRead >= v.cacheRead
    && u.output >= v.output && u.reasoning >= v.reasoning && u.nonReasoning >= v.nonReasoning
  }

  /** No earlier total has more of anything. */
  ghost predicate KeepsUp(lines: seq<Line>, n: nat, u: Amounts)
    requires n <= |lines|
  {
    forall j, v :: 0 <= j < n && TotalReads(lines[j], v) ==> NeverLess(u, v)
  }

  /** The total reads as amounts that keep up, and so does the request's own usage, if
      there is any, read as some amounts. */
  ghost predicate TotalFits(lines: seq<Line>, n: nat, total: RawUsage, own: Option<RawUsage>)
    requires n <= |lines|
  {
    && (exists u: UsageReceipt :: Reads(total, u) && KeepsUp(lines, n, u))
    && (own.Some? ==> exists u: UsageReceipt :: Reads(own.value, u))
  }

  ghost predicate AnyStarted(lines: seq<Line>, n: nat, id: string)
    requires n <= |lines|
  {
    exists child :: Started(lines, n, id, child)
  }

  /** Up to here and with this line the sum still fits 64 bits. */
  ghost predicate StillFits(lines: seq<Line>, n: nat, amount: Line -> nat)
    requires n < |lines|
  {
    SumOf(lines, n + 1, amount) <= 0xffff_ffff_ffff_ffff
  }

  /** The line may follow the lines before it. */
  ghost predicate LineFits(lines: seq<Line>, n: nat)
    requires n < |lines|
  {
    match lines[n].record
    case Untyped => false
    case SessionMeta(_) => false
    case TurnContext(model, effort) =>
      && model.Some? && (forall m :: NamesModel(lines, n, m) ==> model == Some(m))
      && (forall e :: NamesEffort(lines, n, e) ==> effort == Some(e))
    case EventMsg(TaskStarted) => !TurnOpen(lines, n)
    case EventMsg(TaskComplete(_, _)) => TurnOpen(lines, n) && StillFits(lines, n, Duration)
    case EventMsg(TurnAborted) => TurnOpen(lines, n)
    case EventMsg(TokenCount(total, own)) =>
      TurnOpen(lines, n) && (total.Some? ==> TotalFits(lines, n, total.value, own))
    case EventMsg(SubAgentStarted(id, child)) => id.Some? && child.Some? && !AnyStarted(lines, n, id.value)
    case EventMsg(McpToolCallEnd(result)) =>
      && !result.NoResult? && StillFits(lines, n, ResultBytes) && StillFits(lines, n, TextBytes)
      && StillFits(lines, n, StructuredBytes) && StillFits(lines, n, SourceTokens)
    case EventMsg(OtherEvent) => true
    case ResponseItem(ToolCall(name, id, _, arguments, _)) =>
      && name.Some? && (Collaborates(lines[n]) ==> id.Some?)
      && (CallsTool(lines[n], "spawn_agent") ==> !arguments.Malformed?)
    case ResponseItem(OtherItem) => true
    case Compacted => true
    case AgentMessage(_) => true
    case OtherRecord => true
  }

  // ---- the conditions as the state knows them ----

  lemma {:induction false} RunsBefore(lines: seq<Line>, m: nat, n: nat)
    requires m <= n <= |lines| && RunTo(lines, n).Ok?
    ensures RunTo(lines, m).Ok?
    decreases n
  {
    if m < n {
      RunsBefore(lines, m, n - 1);
    }
  }

  /** Usage never falls from one line to a later one. */
  lemma {:induction false} UsageGrows(lines: seq<Line>, m: nat, n: nat)
    requires m <= n <= |lines| && RunTo(lines, m).Ok? && RunTo(lines, n).Ok?
    requires RunTo(lines, m).value.tally.usage.Some?
    ensures var a, b := RunTo(lines, m).value.tally.usage, RunTo(lines, n).value.tally.usage;
            b.Some? && NeverLess(b.value, a.value)
    decreases n
  {
    if m < n {
      RunsBefore(lines, n - 1, n);
      UsageGrows(lines, m, n - 1);
      StepUsageGrows(RunTo(lines, n - 1).value, lines[n - 1]);
    }
  }

  lemma {:induction false} StepUsageGrows(s: Live, line: Line)
    requires Step(s, line.record).Ok? && s.tally.usage.Some?
    ensures var b := Step(s, line.record).value.tally.usage; b.Some? && NeverLess(b.value, s.tally.usage.value)
  {
  }

  lemma {:induction false} EarlierIsLess(lines: seq<Line>, n: nat, s: Live, j: nat, v: Amounts)
    requires j < n <= |lines| && RunTo(lines, n) == Ok(s) && TotalReads(lines[j], v)
    ensures s.tally.usage.Some? && NeverLess(s.tally.usage.value, v)
  {
    RunsBefore(lines, j + 1, n);
    StepUsage(RunTo(lines, j).value, lines[j]);
    UsageGrows(lines, j + 1, n);
  }

  lemma {:induction false} KeepsUpIff(lines: seq<Line>, n: nat, s: Live, u: UsageReceipt)
    requires n <= |lines| && RunTo(lines, n) == Ok(s)
    ensures KeepsUp(lines, n, u) <==> (s.tally.usage.Some? ==> MonotonicAfter(u, s.tally.usage.value))
  {
    UsageIs(lines, n);
    forall j, v | 0 <= j < n && TotalReads(lines[j], v)
      ensures s.tally.usage.Some? && (MonotonicAfter(u, s.tally.usage.value) ==> NeverLess(u, v))
    {
      EarlierIsLess(lines, n, s, j, v);
    }
    if s.tally.usage.Some? && KeepsUp(lines, n, u) {
      var last := s.tally.usage.value;
      var j :| LastTotal(lines, n, j, last);
      assert TotalReads(lines[j], last);
      assert NeverLess(u, last);
    }
  }

  lemma {:induction false} CountFits(lines: seq<Line>, n: nat, s: Live, total: RawUsage, own: Option<RawUsage>)
    requires n < |lines| && RunTo(lines, n) == Ok(s) && lines[n].record == EventMsg(TokenCount(Some(total), own))
    ensures Step(s, lines[n].record).Ok? <==> LineFits(lines, n)
  {
    TurnsAre(lines, n);
    forall u: UsageReceipt
      ensures Parse(total) == Ok(u) <==> Reads(total, u)
      ensures own.Some? ==> (Parse(own.value) == Ok(u) <==> Reads(own.value, u))
    {
      ParseIff(total, u);
      if own.Some? { ParseIff(own.value, u); }
    }
    if Parse(total).Ok? { KeepsUpIff(lines, n, s, Parse(total).value); }
  }

  lemma {:induction false} McpFits(lines: seq<Line>, n: nat, s: Live, result: McpResult)
    requires n < |lines| && RunTo(lines, n) == Ok(s) && lines[n].record == EventMsg(McpToolCallEnd(result))
    ensures Step(s, lines[n].record).Ok? <==> LineFits(lines, n)
  {
    McpCallsAre(lines, n);
    match result
    case Returned(_, _, blocks, _) => SumBytesIs(if blocks.Some? then blocks.value else [], 0);
    case _ =>
  }

  lemma {:induction false} StartedIff(lines: seq<Line>, n: nat, s: Live, id: string)
    requires n <= |lines| && RunTo(lines, n) == Ok(s)
    ensures id in s.tally.startedChildren <==> AnyStarted(lines, n, id)
  {
    if id in s.tally.startedChildren {
      ChildrenAre(lines, n, id, s.tally.startedChildren[id]);
    }
    if AnyStarted(lines, n, id) {
      var child :| Started(lines, n, id, child);
      ChildrenAre(lines, n, id, child);
    }
  }

  lemma {:induction false} EventFits(lines: seq<Line>, n: nat, s: Live)
    requires n < |lines| && RunTo(lines, n) == Ok(s) && lines[n].record.EventMsg?
    ensures Step(s, lines[n].record).Ok? <==> LineFits(lines, n)
  {
    match lines[n].record.event
    case TokenCount(Some(total), own) => CountFits(lines, n, s, total, own);
    case McpToolCallEnd(result) => McpFits(lines, n, s, result);
    case SubAgentStarted(Some(id), _) => StartedIff(lines, n, s, id);
    case _ => TurnsAre(lines, n);
  }

  lemma {:induction false} ContextFits(lines: seq<Line>, n: nat, s: Live, model: Option<string>, effort: Option<string>)
    requires n < |lines| && RunTo(lines, n) == Ok(s) && lines[n].record == TurnContext(model, effort)
    ensures Step(s, lines[n].record).Ok? <==> LineFits(lines, n)
  {
    ContextIs(lines, n);
  }

  lemma {:induction false} StepFits(lines: seq<Line>, n: nat, s: Live)
    requires n < |lines| && RunTo(lines, n) == Ok(s)
    ensures Step(s, lines[n].record).Ok? <==> LineFits(lines, n)
  {
    match lines[n].record
    case EventMsg(_) => EventFits(lines, n, s);
    case TurnContext(model, effort) => ContextFits(lines, n, s, model, effort);
    case _ =>
  }

  /** The loop goes through the first `n` live lines exactly when each may follow those
      before it. */
  lemma {:induction false} RunsIff(lines: seq<Line>, n: nat)
    requires n <= |lines|
    ensures RunTo(lines, n).Ok? <==> forall i :: 0 <= i < n ==> LineFits(lines, i)
  {
    if n > 0 {
      RunsIff(lines, n - 1);
      if RunTo(lines, n - 1).Ok? { StepFits(lines, n - 1, RunTo(lines, n - 1).value); }
    }
  }

  // ---- whole rollouts ----

  /** The live lines close their turns and have one, and name a total and a model. */
  ghost predicate Closes(live: seq<Line>) {
    && !TurnOpen(live, |live|)
    && (exists i :: 0 <= i < |live| && StartsTurn(live[i]))
    && (exists i :: 0 <= i < |live| && ReportsTotal(live[i]))
    && (exists i :: 0 <= i < |live| && live[i].record.TurnContext?)
  }

  lemma {:induction false} CountedIff(lines: seq<Line>, n: nat, p: Line -> bool)
    requires n <= |lines|
    ensures CountOf(lines, n, p) > 0 <==> exists i :: 0 <= i < n && p(lines[i])
  {
    if n > 0 {
      CountedIff(lines, n - 1, p);
      if p(lines[n - 1]) { assert 0 <= n - 1 < n && p(lines[n - 1]); }
    }
  }

  lemma {:induction false} NamedIff(lines: seq<Line>, n: nat)
    requires n <= |lines| && RunTo(lines, n).Ok?
    ensures RunTo(lines, n).value.model.Some? <==> exists i :: 0 <= i < n && lines[i].record.TurnContext?
  {
    if n > 0 {
      NamedIff(lines, n - 1);
      StepContext(RunTo(lines, n - 1).value, lines[n - 1]);
      if lines[n - 1].record.TurnContext? { assert 0 <= n - 1 < n && lines[n - 1].record.TurnContext?; }
    }
  }

  lemma {:induction false} FinishIff(live: seq<Line>, s: Live)
    requires RunTo(live, |live|) == Ok(s)
    ensures Finish(s).Ok? <==> Closes(live)
    ensures Finish(s).Ok? ==> Finish(s).value == s
  {
    RunIs(live);
    RunKeepsLifecycle(NOTHING_YET, live);
    TurnsAre(live, |live|);
    UsageIs(live, |live|);
    CountedIff(live, |live|, StartsTurn);
    CountedIff(live, |live|, ReportsTotal);
    NamedIff(live, |live|);
  }

  /** All four fields of the session record, and whose child it is. */
  ghost predicate Opens(lines: seq<Line>, id: string, parent: Option<string>, version: string, provider: string) {
    lines != [] && lines[0].record == SessionMeta(Some(Session(Some(id), parent, Some(version), Some(provider))))
  }

  /** The live part of a subagent starts at the last task start at or before the first
      message that triggers a turn; otherwise it is everything after the session. */
  ghost predicate LiveFrom(lines: seq<Line>, parent: Option<string>, start: nat) {
    if parent.None? then start == 1 else exists trigger :: StartsFor(lines, start, trigger)
  }

  ghost predicate StartsFor(lines: seq<Line>, start: nat, trigger: int) {
    && 1 <= start <= trigger < |lines|
    && lines[trigger].record == AgentMessage(Some(true))
    && (forall k :: 0 <= k < trigger ==> lines[k].record != AgentMessage(Some(true)))
    && lines[start].record == EventMsg(TaskStarted)
    && forall k :: start < k <= trigger ==> lines[k].record != EventMsg(TaskStarted)
  }

  lemma {:induction false} LiveFromIff(lines: seq<Line>, parent: Option<string>, start: nat)
    ensures LiveFrom(lines, parent, start) <==> LiveRecordStart(lines, parent.Some?) == Ok(start)
  {
    LiveStartIff(lines, start);
    forall trigger: nat ensures StartsFor(lines, start, trigger) <==> IsLiveStart(lines, start, trigger) {}
  }

  ghost function ByteSum(lines: seq<Line>): nat {
    if lines == [] then 0 else lines[0].bytes + ByteSum(lines[1..])
  }

  lemma {:induction false} BytesAre(lines: seq<Line>)
    ensures All(BytesOf(lines)) == ByteSum(lines)
  {
    if lines != [] {
      assert BytesOf(lines)[1..] == BytesOf(lines[1..]);
      BytesAre(lines[1..]);
    }
  }

  /** Every live line may follow those before it, and they close. */
  ghost predicate LiveFits(live: seq<Line>) {
    (forall i :: 0 <= i < |live| ==> LineFits(live, i)) && Closes(live)
  }

  lemma {:induction false} PartsIff(session: Session, history: seq<Line>, live: seq<Line>)
    requires session.id.Some? && session.cliVersion.Some? && session.provider.Some?
    ensures ParseParts(session, history, live).Ok?
            <==> ByteSum(history) <= 0xffff_ffff_ffff_ffff && LiveFits(live)
    ensures ParseParts(session, history, live).Ok? ==>
              var r := ParseParts(session, history, live).value;
              && RunTo(live, |live|) == Ok(r.live) && r.inheritedBytes == ByteSum(history)
              && r.recordCount == 1 + |history| + |live| && r.inheritedCount == |history|
  {
    SumBytesIs(BytesOf(history), 0);
    BytesAre(history);
    RunIs(live);
    RunsIff(live, |live|);
    if RunTo(live, |live|).Ok? { FinishIff(live, RunTo(live, |live|).value); }
  }

  /** The rollout opens with this session, its live part starts here, the bytes before
      can be counted, and the live lines fit. */
  ghost predicate Acceptable(lines: seq<Line>, id: string, parent: Option<string>, version: string, provider: string,
                             start: nat) {
    && Opens(lines, id, parent, version, provider) && LiveFrom(lines, parent, start) && 1 <= start <= |lines|
    && ByteSum(lines[1..start]) <= 0xffff_ffff_ffff_ffff && LiveFits(lines[start..])
  }

  ghost predicate Accepted(lines: seq<Line>) {
    exists id, parent, version, provider, start: nat :: Acceptable(lines, id, parent, version, provider, start)
  }

  /** The result names the session, counts the inherited lines and their bytes, and holds
      what the live lines add up to. */
  ghost predicate ReadsAs(lines: seq<Line>, r: ParsedRollout) {
    var start := 1 + r.inheritedCount;
    && Acceptable(lines, r.id, r.parentId, r.hostVersion, r.provider, start)
    && r.recordCount == |lines| && r.inheritedBytes == ByteSum(lines[1..start])
    && RunTo(lines[start..], |lines| - start) == Ok(r.live)
  }

  lemma {:induction false} ReadAs(lines: seq<Line>, r: ParsedRollout)
    requires ParseRollout(lines) == Ok(r)
    ensures ReadsAs(lines, r)
  {
    var session := lines[0].record.session.value;
    var start := LiveRecordStart(lines, session.parentId.Some?).value;
    LiveFromIff(lines, session.parentId, start);
    PartsIff(session, lines[1..start], lines[start..]);
  }

  lemma {:induction false} Accepts(lines: seq<Line>, id: string, parent: Option<string>, version: string,
                                   provider: string, start: nat)
    requires Acceptable(lines, id, parent, version, provider, start)
    ensures ParseRollout(lines).Ok?
  {
    LiveFromIff(lines, parent, start);
    PartsIff(Session(Some(id), parent, Some(version), Some(provider)), lines[1..start], lines[start..]);
  }

  /** A rollout is accepted exactly when its session, its live start and its live lines
      fit. */
  lemma {:induction false} AcceptedIff(lines: seq<Line>)
    ensures ParseRollout(lines).Ok? <==> Accepted(lines)
    ensures ParseRollout(lines).Ok? ==> ReadsAs(lines, ParseRollout(lines).value)
  {
    if ParseRollout(lines).Ok? {
      ReadAs(lines, ParseRollout(lines).value);
    }
    if Accepted(lines) {
      var id, parent, version, provider, start: nat :| Acceptable(lines, id, parent, version, provider, start);
      Accepts(lines, id, parent, version, provider, start);
    }
  }
}
