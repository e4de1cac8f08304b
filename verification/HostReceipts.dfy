/** The part of `build_receipt` that joins the rollout with the MCP trace, and its checks
    said on the lines of the rollout. */
module HostReceipts {
  import opened Wrappers
  import opened HostRollout
  import opened HostRolloutProperties
  import opened HostRolloutTrace
  import opened HostRolloutAccepted
  import McpTrace
  import McpHandshake
  import McpCalls
  import McpTerms
  import McpOpening

  /** The result of the call made at line `j` stands on line `o`. */
  ghost predicate ResultOn(lines: seq<Line>, j: nat, id: string, o: nat)
    requires j < |lines|
  {
    if CarriesResult(lines[j]) then o == j else j < o < |lines| && IsOutputRecord(lines[o], id)
  }

  ghost predicate RespondsAfter(lines: seq<Line>, t: nat, o: nat) {
    exists i: nat :: i > o && RespondsIn(lines, i, t)
  }

  ghost predicate ReportsAfter(lines: seq<Line>, t: nat, o: nat) {
    exists i: nat, u :: i > o && ReportsIn(lines, i, t, u)
  }

  /** The turn of line `j` goes on after line `o` with a model response and a report of
      usage. */
  ghost predicate GoesOn(lines: seq<Line>, j: nat, o: nat)
    requires j < |lines|
  {
    exists t: nat :: InTurn(lines, j, t) && RespondsAfter(lines, t, o) && ReportsAfter(lines, t, o)
  }

  /** After every result the turn goes on. */
  ghost predicate ResultsFollowed(lines: seq<Line>) {
    forall j: nat, id, o: nat :: j < |lines| && IsCallRecord(lines[j], id) && ResultOn(lines, j, id, o) ==>
      GoesOn(lines, j, o)
  }

  lemma {:induction false} ResponseIff(lines: seq<Line>, s: State, c: Call)
    requires Parsed(lines) == Ok(s) && c.output.Some?
    ensures McpCalls.AnsweredByModel(s, c)
            <==> RespondsAfter(lines, c.turn, c.output.value.record)
  {
    AcceptedIsRun(lines);
    ResponsesAre(lines, |lines|);
    var places, o := s.modelResponses, c.output.value.record;
    if McpCalls.AnsweredByModel(s, c) {
      var k :| 0 <= k < |places| && places[k].1 == c.turn && places[k].0 > o;
      assert (places[k].0, c.turn) in places;
    }
    if i: nat :| i > o && RespondsIn(lines, i, c.turn) {
      assert (i, c.turn) in places;
      var k :| 0 <= k < |places| && places[k] == (i, c.turn);
    }
  }

  lemma {:induction false} UsageIff(lines: seq<Line>, s: State, c: Call)
    requires Parsed(lines) == Ok(s) && c.output.Some?
    ensures McpCalls.Accounted(s, c)
            <==> ReportsAfter(lines, c.turn, c.output.value.record)
  {
    AcceptedIsRun(lines);
    SnapshotsAre(lines, |lines|);
    var places, o := McpCalls.UsagePlaces(s), c.output.value.record;
    if McpCalls.Accounted(s, c) {
      var k :| 0 <= k < |places| && places[k].1 == c.turn && places[k].0 > o;
      assert s.snapshots[k] in s.snapshots;
    }
    if i: nat, u :| i > o && ReportsIn(lines, i, c.turn, u) {
      assert Snapshot(i, c.turn, u) in s.snapshots;
      var k :| 0 <= k < |s.snapshots| && s.snapshots[k] == Snapshot(i, c.turn, u);
      assert places[k] == (i, c.turn);
    }
  }

  lemma {:induction false} ResultOfCall(lines: seq<Line>, s: State, k: nat, o: nat)
    requires Parsed(lines) == Ok(s) && k < |s.calls|
    ensures var c := s.calls[k];
            && c.output.Some? && c.record < |lines| && IsCallRecord(lines[c.record], c.callId)
            && (ResultOn(lines, c.record, c.callId, o) <==> o == c.output.value.record)
  {
    AcceptedCalls(lines, k);
  }

  lemma {:induction false} GoesOnIn(lines: seq<Line>, j: nat, o: nat, turn: nat)
    requires j < |lines| && forall t: nat :: turn == t <==> InTurn(lines, j, t)
    ensures GoesOn(lines, j, o) <==> RespondsAfter(lines, turn, o) && ReportsAfter(lines, turn, o)
  {
    assert InTurn(lines, j, turn);
  }

  lemma {:induction false} CallTurn(lines: seq<Line>, s: State, k: nat)
    requires Parsed(lines) == Ok(s) && k < |s.calls| && s.calls[k].record < |lines|
    ensures forall t: nat :: s.calls[k].turn == t <==> InTurn(lines, s.calls[k].record, t)
  {
    AcceptedIsRun(lines);
    TrackedHolds(lines, |lines|);
    assert CallTracked(lines, |lines|, s.calls[k]);
    forall t: nat ensures s.calls[k].turn == t <==> InTurn(lines, s.calls[k].record, t) {
      TurnOfCall(lines, |lines|, s.calls[k], t);
    }
  }

  lemma {:induction false} GoesOnIff(lines: seq<Line>, s: State, k: nat)
    requires Parsed(lines) == Ok(s) && k < |s.calls|
    ensures s.calls[k].output.Some? && s.calls[k].record < |lines|
    ensures McpCalls.AnsweredByModel(s, s.calls[k]) && McpCalls.Accounted(s, s.calls[k])
            <==> GoesOn(lines, s.calls[k].record, s.calls[k].output.value.record)
  {
    ResultOfCall(lines, s, k, 0);
    CallTurn(lines, s, k);
    ResponseIff(lines, s, s.calls[k]);
    UsageIff(lines, s, s.calls[k]);
    GoesOnIn(lines, s.calls[k].record, s.calls[k].output.value.record, s.calls[k].turn);
  }

  /** The check after the receipts passes exactly when every result is followed, in its
      turn, by a model response and by a report of usage. */
  lemma {:induction false} FollowedIff(lines: seq<Line>, s: State)
    requires Parsed(lines) == Ok(s)
    ensures McpCalls.AllFollowed(s) <==> ResultsFollowed(lines)
  {
    forall k | 0 <= k < |s.calls|
      ensures var c := s.calls[k];
              && c.output.Some? && c.record < |lines| && IsCallRecord(lines[c.record], c.callId)
              && ResultOn(lines, c.record, c.callId, c.output.value.record)
              && (McpCalls.AnsweredByModel(s, c) && McpCalls.Accounted(s, c)
                  <==> GoesOn(lines, c.record, c.output.value.record))
    {
      ResultOfCall(lines, s, k, s.calls[k].output.value.record);
      GoesOnIff(lines, s, k);
    }
    if McpCalls.AllFollowed(s) {
      forall j: nat, id, o: nat | j < |lines| && IsCallRecord(lines[j], id) && ResultOn(lines, j, id, o)
        ensures GoesOn(lines, j, o)
      {
        AcceptedCallRecords(lines, j, id);
        AcceptedIsRun(lines);
        RunKeeps(lines, |lines|);
        ResultOfCall(lines, s, s.callIndexes[id], o);
      }
    }
  }

  /** Some token count carries a total. */
  ghost predicate ReportsUsage(lines: seq<Line>) {
    exists i: nat, t: nat, u :: ReportsIn(lines, i, t, u)
  }

  lemma {:induction false} ReportsUsageIff(lines: seq<Line>, s: State)
    requires Parsed(lines) == Ok(s)
    ensures s.snapshots != [] <==> ReportsUsage(lines)
  {
    AcceptedIsRun(lines);
    SnapshotsAre(lines, |lines|);
    if s.snapshots != [] {
      assert s.snapshots[0] in s.snapshots;
    }
    if i: nat, t: nat, u :| ReportsIn(lines, i, t, u) {
      assert Snapshot(i, t, u) in s.snapshots;
    }
  }

  datatype Failure =
    | BadRollout(why: HostRollout.Rejection)
    | BadOrder(order: McpHandshake.Rejection)
    | BadCalls(calls: McpCalls.Rejection)
    | NoUsage

  /** The calls of the trace can be extracted, and agree with those of the rollout, one by
      one. */
  ghost predicate CallsAgree(s: State, events: seq<McpTrace.Event>) {
    && McpTerms.Extractable(events)
    && (forall k :: 0 <= k < |s.calls| ==> s.calls[k].output.Some?)
    && exists mcp :: McpCalls.Extraction(events, mcp) && McpCalls.Correlates(s.calls, mcp)
  }

  /** Order, extraction and correlation. */
  method JoinTrace(s: State, events: seq<McpTrace.Event>) returns (r: Result<seq<McpCalls.McpCall>, Failure>)
    requires forall k :: 0 <= k < |s.calls| ==> s.calls[k].output.Some?
    ensures r.Ok? <==> McpHandshake.WellOrdered(events) && CallsAgree(s, events)
    ensures r.Ok? ==> McpCalls.Extraction(events, r.value) && McpCalls.Correlates(s.calls, r.value)
  {
    var order := McpHandshake.ValidateHostOrder(events);
    if order.Err? {
      return Err(BadOrder(order.error));
    }
    McpTerms.ExtractableIff(events);
    var mcp := McpCalls.ExtractCalls(events);
    if mcp.Err? {
      return Err(BadCalls(mcp.error));
    }
    forall other | McpCalls.Extraction(events, other) ensures other == mcp.value {
      ExtractedOnce(events, mcp.value, other);
    }
    var correlation := McpCalls.CorrelateCalls(s.calls, mcp.value);
    if correlation.Err? {
      return Err(BadCalls(correlation.error));
    }
    r := Ok(mcp.value);
  }

  /** Rollout and trace are both in order and belong together. */
  ghost predicate Joinable(lines: seq<Line>, events: seq<McpTrace.Event>) {
    && (forall i :: 0 <= i < |lines| ==> LineFits(lines, i)) && Closes(lines)
    && McpOpening.Opened(events) && Parsed(lines).Ok? && CallsAgree(Parsed(lines).value, events)
    && ReportsUsage(lines) && ResultsFollowed(lines)
  }

  /** The receipts of the calls, in order. */
  ghost predicate ReceiptsFor(s: State, events: seq<McpTrace.Event>, receipts: seq<McpCalls.CallReceipt>) {
    exists mcp :: McpCalls.Extraction(events, mcp) && AllReceipts(s, mcp, receipts)
  }

  ghost predicate AllReceipts(s: State, mcp: seq<McpCalls.McpCall>, receipts: seq<McpCalls.CallReceipt>) {
    && |receipts| == |mcp| == |s.calls|
    && forall k :: 0 <= k < |mcp| ==> s.calls[k].output.Some? && McpCalls.ReceiptFor(s, mcp, k, receipts[k])
  }

  /** What the checks after parsing decide. */
  method JoinParsed(s: State, events: seq<McpTrace.Event>) returns (r: Result<seq<McpCalls.CallReceipt>, Failure>)
    requires forall k :: 0 <= k < |s.calls| ==> s.calls[k].output.Some?
    ensures r.Ok? <==> McpHandshake.WellOrdered(events) && CallsAgree(s, events) && s.snapshots != []
                       && McpCalls.AllFollowed(s)
    ensures r.Ok? ==> ReceiptsFor(s, events, r.value)
  {
    var mcp := JoinTrace(s, events);
    if mcp.Err? {
      return Err(mcp.error);
    }
    if s.snapshots == [] {
      return Err(NoUsage);
    }
    var receipts := McpCalls.CallReceipts(s, mcp.value);
    if receipts.Err? {
      return Err(BadCalls(receipts.error));
    }
    r := Ok(receipts.value);
    assert AllReceipts(s, mcp.value, r.value);
  }

  lemma {:induction false} ParsedIff(lines: seq<Line>)
    ensures Parsed(lines).Ok? <==> (forall i :: 0 <= i < |lines| ==> LineFits(lines, i)) && Closes(lines)
    ensures Parsed(lines).Ok? ==> var s := Parsed(lines).value;
                                  && (forall k :: 0 <= k < |s.calls| ==> s.calls[k].output.Some?)
                                  && (McpCalls.AllFollowed(s) <==> ResultsFollowed(lines))
                                  && (s.snapshots != [] <==> ReportsUsage(lines))
  {
    AcceptedIff(lines);
    if Parsed(lines).Ok? {
      AcceptedIsRun(lines);
      FollowedIff(lines, Parsed(lines).value);
      ReportsUsageIff(lines, Parsed(lines).value);
    }
  }

  /** The calls `build_receipt` makes, up to the receipts of the calls. */
  method JoinSession(lines: seq<Line>, events: seq<McpTrace.Event>)
    returns (r: Result<seq<McpCalls.CallReceipt>, Failure>)
    ensures r.Ok? <==> Joinable(lines, events)
    ensures r.Ok? ==> ReceiptsFor(Parsed(lines).value, events, r.value)
  {
    ParsedIff(lines);
    McpOpening.OrderedIff(events);
    var rollout := ParseRollout(lines);
    if rollout.Err? {
      return Err(BadRollout(rollout.error));
    }
    r := JoinParsed(rollout.value, events);
  }

  lemma {:induction false} ExtractedOnce(events: seq<McpTrace.Event>, a: seq<McpCalls.McpCall>,
                                         b: seq<McpCalls.McpCall>)
    requires McpCalls.Extraction(events, a) && McpCalls.Extraction(events, b)
    ensures a == b
  {
    var requests := McpCalls.Requests(events, |events|);
    forall k | 0 <= k < |requests| ensures a[k] == b[k] {
      CallForOnce(events, requests[k], a[k], b[k]);
    }
  }

  lemma {:induction false} CallForOnce(events: seq<McpTrace.Event>, request: McpTrace.Event, a: McpCalls.McpCall,
                                       b: McpCalls.McpCall)
    requires McpCalls.CallFor(events, request, a) && McpCalls.CallFor(events, request, b)
    ensures a == b
  {
    var id := McpTrace.RequestId(request).value;
    var j :| 0 <= j < |events| && McpCalls.ResultIn(events[j]) == Some((id, a.result));
    assert McpCalls.ResultIn(events[j]).value.1 == b.result;
  }
}
