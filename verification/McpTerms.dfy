/** What `extract_mcp_calls` and `correlate_calls` accept, said on the events. */
module McpTerms {
  import opened Wrappers
  import opened Selection
  import opened JsonCanonical
  import opened McpTrace
  import opened McpCalls

  // ---- the terms ----

  /** Not empty; ASCII letters and digits, `-`, `.` and `_`, by their codes. */
  ghost predicate SafeText(text: string) {
    |text| > 0 && forall i :: 0 <= i < |text| ==>
      var n := text[i] as int; 48 <= n <= 57 || 65 <= n <= 90 || 97 <= n <= 122 || n == 45 || n == 46 || n == 95
  }

  /** 32 lower-case hexadecimal digits, by their codes. */
  ghost predicate HashText(text: string) {
    |text| == 32 && forall i :: 0 <= i < 32 ==> var n := text[i] as int; 48 <= n <= 57 || 97 <= n <= 102
  }

  /** A message is there, or need not be. */
  predicate HasMessage(e: Event) {
    e.payload.Present? || (e.direction == Handoff && e.payload == Absent)
  }

  predicate CallsTool(e: Event) {
    e.direction == ClientToServer && e.payload.Present? && e.payload.message.rpcMethod == Some(ToolsCall)
  }

  /** A tool call with an id, a safe tool name and, if any, a proper hash. */
  ghost predicate ProperCall(e: Event) {
    && CallsTool(e) && e.payload.message.id.Some?
    && e.payload.message.tool.Some? && SafeText(e.payload.message.tool.value)
    && (e.payload.message.expectedHash.Some? ==> HashText(e.payload.message.expectedHash.value))
  }

  /** The server sends a result under an id. */
  predicate GivesResult(e: Event, id: ScalarId, value: ToolResult) {
    && e.direction == ServerToClient && e.payload.Present?
    && e.payload.message.id == Some(id) && e.payload.message.result == Some(value)
  }

  ghost predicate ProperResult(value: ToolResult) {
    (value.contentHash.Some? ==> HashText(value.contentHash.value))
    && (value.status.Some? ==> SafeText(value.status.value))
  }

  ghost function Calling(events: seq<Event>): nat -> bool {
    (i: nat) => i < |events| && CallsTool(events[i])
  }

  /** Some result is sent under the id, and it is proper. */
  ghost predicate GetsResult(events: seq<Event>, id: ScalarId) {
    exists j, value :: 0 <= j < |events| && GivesResult(events[j], id, value) && ProperResult(value)
  }

  ghost predicate ResultsDistinct(events: seq<Event>) {
    forall j, k, id, v, w ::
      0 <= j < |events| && 0 <= k < |events| && GivesResult(events[j], id, v) && GivesResult(events[k], id, w) ==>
        j == k
  }

  ghost predicate CallsDistinct(events: seq<Event>) {
    forall j, k :: 0 <= j < k < |events| && CallsTool(events[j]) && CallsTool(events[k]) ==>
      events[j].payload.message.id != events[k].payload.message.id
  }

  /** What `extract_mcp_calls` accepts. */
  ghost predicate Extractable(events: seq<Event>) {
    && (forall k :: 0 <= k < |events| ==> HasMessage(events[k]))
    && (forall k :: 0 <= k < |events| && CallsTool(events[k]) ==>
          ProperCall(events[k]) && GetsResult(events, events[k].payload.message.id.value))
    && ResultsDistinct(events) && CallsDistinct(events)
  }

  /** The call a tool-call message makes, with the result sent under its id. */
  ghost predicate MadeBy(events: seq<Event>, e: Event, call: McpCall) {
    && CallsTool(e) && e.payload.message.id.Some? && e.payload.message.tool == Some(call.tool)
    && e.payload.message.expectedHash == call.expectedHash
    && exists j :: 0 <= j < |events| && GivesResult(events[j], e.payload.message.id.value, call.result)
  }

  /** One call per tool-call message, in order. */
  ghost predicate Extracts(events: seq<Event>, calls: seq<McpCall>) {
    exists at :: Picks(at, |events|, Calling(events)) && AllMade(events, at, calls)
  }

  ghost predicate AllMade(events: seq<Event>, at: seq<nat>, calls: seq<McpCall>) {
    |calls| == |at| && forall k :: 0 <= k < |at| ==> at[k] < |events| && MadeBy(events, events[at[k]], calls[k])
  }

  // ---- the terms are those of the model ----

  lemma {:induction false} SafeIff(text: string)
    ensures SafeText(text) <==> SafeName(text)
  {
  }

  lemma {:induction false} HashIff(text: string)
    ensures HashText(text) <==> LowerHex32(text)
  {
  }

  lemma {:induction false} CallIff(e: Event)
    ensures CallsTool(e) <==> IsRequest(e, ToolsCall)
    ensures HasMessage(e) <==> Readable(e)
    ensures IsRequest(e, ToolsCall) ==> (ProperCall(e) <==> RequestIn(e).Ok?)
    ensures CallsTool(e) ==> RequestId(e) == match e.payload.message.id
                                             case Some(id) => Some(IdText(id))
                                             case None => None
  {
    if CallsTool(e) {
      if e.payload.message.tool.Some? { SafeIff(e.payload.message.tool.value); }
      if e.payload.message.expectedHash.Some? { HashIff(e.payload.message.expectedHash.value); }
    }
  }

  lemma {:induction false} ResultIff(e: Event, id: ScalarId, value: ToolResult)
    ensures GivesResult(e, id, value) <==> ResultIn(e) == Some((IdText(id), value))
  {
    if ResultIn(e) == Some((IdText(id), value)) {
      IdTextInjective(id, e.payload.message.id.value);
    }
  }

  lemma {:induction false} ProperIff(value: ToolResult)
    ensures ProperResult(value) <==> ValidResult(value)
  {
    if value.contentHash.Some? { HashIff(value.contentHash.value); }
    if value.status.Some? { SafeIff(value.status.value); }
  }

  lemma {:induction false} GetsIff(events: seq<Event>, id: ScalarId)
    ensures GetsResult(events, id) <==> Answered(events, IdText(id))
  {
    if GetsResult(events, id) {
      var j, value :| 0 <= j < |events| && GivesResult(events[j], id, value) && ProperResult(value);
      ResultIff(events[j], id, value);
      ProperIff(value);
      assert AnswersWith(events[j], IdText(id));
    }
    if Answered(events, IdText(id)) {
      var j :| 0 <= j < |events| && AnswersWith(events[j], IdText(id));
      var value := ResultIn(events[j]).value.1;
      ResultIff(events[j], id, value);
      ProperIff(value);
    }
  }

  lemma {:induction false} ResultIdsIff(events: seq<Event>)
    ensures ResultsDistinct(events) <==> ResultIdsDistinct(events, |events|)
  {
    if ResultsDistinct(events) {
      forall j, k | 0 <= j < k < |events| && ResultIn(events[j]).Some? && ResultIn(events[k]).Some?
        ensures ResultIn(events[j]).value.0 != ResultIn(events[k]).value.0
      {
        var a, b := events[j].payload.message, events[k].payload.message;
        ResultIff(events[j], a.id.value, a.result.value);
        ResultIff(events[k], b.id.value, b.result.value);
        if IdText(a.id.value) == IdText(b.id.value) { IdTextInjective(a.id.value, b.id.value); }
      }
    }
    if ResultIdsDistinct(events, |events|) {
      forall j, k, id, v, w | 0 <= j < |events| && 0 <= k < |events| && GivesResult(events[j], id, v)
                              && GivesResult(events[k], id, w)
        ensures j == k
      {
        ResultIff(events[j], id, v);
        ResultIff(events[k], id, w);
      }
    }
  }

  // ---- the requests by their places ----

  /** The requests are the events at these places. */
  ghost predicate SentFrom(events: seq<Event>, at: seq<nat>, sent: seq<Event>) {
    |sent| == |at| && forall k :: 0 <= k < |at| ==> at[k] < |events| && sent[k] == events[at[k]]
  }

  lemma {:induction false} SentNext(events: seq<Event>, n: nat, at: seq<nat>, sent: seq<Event>)
    requires n < |events| && SentFrom(events, at, sent)
    ensures SentFrom(events, at + [n], sent + [events[n]])
  {
  }

  lemma {:induction false} RequestsAt(events: seq<Event>, n: nat) returns (at: seq<nat>)
    requires n <= |events|
    ensures Picks(at, n, Calling(events)) && SentFrom(events, at, Requests(events, n))
  {
    if n == 0 {
      at := [];
    } else {
      var front := RequestsAt(events, n - 1);
      PicksNext(front, n - 1, Calling(events));
      CallIff(events[n - 1]);
      if CallsTool(events[n - 1]) {
        SentNext(events, n - 1, front, Requests(events, n - 1));
        at := front + [n - 1];
      } else {
        at := front;
      }
    }
  }

  lemma {:induction false} CallPlace(events: seq<Event>, at: seq<nat>, i: nat) returns (k: nat)
    requires Picks(at, |events|, Calling(events)) && i < |events| && CallsTool(events[i])
    ensures k < |at| && at[k] == i
  {
    assert i in at <==> i < |events| && Calling(events)(i);
    k :| 0 <= k < |at| && at[k] == i;
  }

  lemma {:induction false} CallsAtPlaces(events: seq<Event>, at: seq<nat>, k: nat)
    requires Picks(at, |events|, Calling(events)) && k < |at|
    ensures at[k] < |events| && CallsTool(events[at[k]])
  {
    assert at[k] in at;
  }

  lemma {:induction false} DistinctIff(events: seq<Event>, at: seq<nat>, sent: seq<Event>)
    requires Picks(at, |events|, Calling(events)) && SentFrom(events, at, sent)
    requires forall i :: 0 <= i < |events| && CallsTool(events[i]) ==> events[i].payload.message.id.Some?
    ensures CallsDistinct(events)
            <==> forall i, j :: 0 <= i < j < |sent| ==> RequestId(sent[i]) != RequestId(sent[j])
  {
    if CallsDistinct(events) {
      forall i, j | 0 <= i < j < |sent| ensures RequestId(sent[i]) != RequestId(sent[j]) {
        CallsAtPlaces(events, at, i);
        CallsAtPlaces(events, at, j);
        DifferentIds(sent[i], sent[j]);
      }
    }
    if forall i, j :: 0 <= i < j < |sent| ==> RequestId(sent[i]) != RequestId(sent[j]) {
      forall a, b | 0 <= a < b < |events| && CallsTool(events[a]) && CallsTool(events[b])
        ensures events[a].payload.message.id != events[b].payload.message.id
      {
        var i := CallPlace(events, at, a);
        var j := CallPlace(events, at, b);
        assert i < j;
        DifferentIds(events[a], events[b]);
      }
    }
  }

  lemma {:induction false} DifferentIds(a: Event, b: Event)
    requires CallsTool(a) && CallsTool(b) && a.payload.message.id.Some? && b.payload.message.id.Some?
    ensures RequestId(a) != RequestId(b) <==> a.payload.message.id != b.payload.message.id
  {
    CallIff(a);
    CallIff(b);
    var x, y := a.payload.message.id.value, b.payload.message.id.value;
    if IdText(x) == IdText(y) { IdTextInjective(x, y); }
  }

  ghost predicate AllGetResults(events: seq<Event>) {
    forall i :: 0 <= i < |events| && CallsTool(events[i]) ==>
      events[i].payload.message.id.Some? && GetsResult(events, events[i].payload.message.id.value)
  }

  lemma {:induction false} AnsweredAtPlaces(events: seq<Event>, at: seq<nat>, sent: seq<Event>)
    requires Picks(at, |events|, Calling(events)) && SentFrom(events, at, sent)
    ensures AllGetResults(events) <==> forall k :: 0 <= k < |sent| ==>
              RequestId(sent[k]).Some? && Answered(events, RequestId(sent[k]).value)
  {
    forall i | 0 <= i < |events| && CallsTool(events[i])
      ensures RequestId(events[i]).Some? <==> events[i].payload.message.id.Some?
      ensures RequestId(events[i]).Some? ==>
                (GetsResult(events, events[i].payload.message.id.value)
                 <==> Answered(events, RequestId(events[i]).value))
    {
      CallIff(events[i]);
      if events[i].payload.message.id.Some? { GetsIff(events, events[i].payload.message.id.value); }
    }
    forall k | 0 <= k < |sent| ensures CallsTool(events[at[k]]) { CallsAtPlaces(events, at, k); }
    forall i: nat | i < |events| && CallsTool(events[i]) ensures exists k :: 0 <= k < |sent| && sent[k] == events[i] {
      var k := CallPlace(events, at, i);
    }
  }

  /** `extract_mcp_calls` accepts exactly the extractable traces. */
  lemma {:induction false} ExtractableIff(events: seq<Event>)
    ensures Extractable(events) <==> Collectable(events) && AllAnswered(events, Requests(events, |events|))
  {
    var at := RequestsAt(events, |events|);
    var sent := Requests(events, |events|);
    ResultIdsIff(events);
    AnsweredAtPlaces(events, at, sent);
    forall k | 0 <= k < |events|
      ensures CallsTool(events[k]) <==> IsRequest(events[k], ToolsCall)
      ensures HasMessage(events[k]) <==> Readable(events[k])
      ensures IsRequest(events[k], ToolsCall) ==> (ProperCall(events[k]) <==> RequestIn(events[k]).Ok?)
    {
      CallIff(events[k]);
    }
    if AllGetResults(events) { DistinctIff(events, at, sent); }
  }

  lemma {:induction false} MadeIff(events: seq<Event>, e: Event, call: McpCall)
    requires CallFor(events, e, call) && CallsTool(e)
    ensures MadeBy(events, e, call)
  {
    CallIff(e);
    var id := e.payload.message.id.value;
    var j :| 0 <= j < |events| && ResultIn(events[j]) == Some((IdText(id), call.result));
    ResultIff(events[j], id, call.result);
  }

  /** What it returns is one call per tool-call message, in order, with the result sent
      under its id. */
  lemma {:induction false} ExtractionIs(events: seq<Event>, calls: seq<McpCall>)
    requires Extraction(events, calls)
    ensures Extracts(events, calls)
  {
    var at := RequestsAt(events, |events|);
    forall k | 0 <= k < |at| ensures MadeBy(events, events[at[k]], calls[k]) {
      CallsAtPlaces(events, at, k);
      MadeIff(events, events[at[k]], calls[k]);
    }
    assert AllMade(events, at, calls);
  }

  // ---- correlation ----

  /** On parsed values, outputs correlate exactly when they are equal up to key order. */
  lemma {:induction false} CorrelatesIff(rollout: seq<HostRollout.Call>, mcp: seq<McpCall>)
    requires forall k :: 0 <= k < |rollout| ==>
               rollout[k].output.Some? && Json.UniqueKeys(rollout[k].output.value.value)
    requires forall k :: 0 <= k < |mcp| ==> Json.UniqueKeys(mcp[k].result.value)
    ensures Correlates(rollout, mcp)
            <==> |rollout| == |mcp| && forall k :: 0 <= k < |mcp| ==>
                   rollout[k].tool == mcp[k].tool && Json.Same(rollout[k].output.value.value, mcp[k].result.value)
  {
    if |rollout| == |mcp| {
      forall k | 0 <= k < |mcp|
        ensures SameOutput(rollout[k], mcp[k])
                <==> Json.Same(rollout[k].output.value.value, mcp[k].result.value)
      {
        CanonicalVersionsAgree(rollout[k].output.value.value);
        CanonicalVersionsAgree(mcp[k].result.value);
        CanonicalIffSame(rollout[k].output.value.value, mcp[k].result.value);
      }
    }
  }
}
