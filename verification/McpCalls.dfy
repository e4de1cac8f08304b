/** `extract_mcp_calls`, `correlate_calls` and the per-call loop of `build_receipt`. */
module McpCalls {
  import opened Wrappers
  import opened McpTrace
  import opened JsonCanonical
  import HostRollout

  datatype Rejection =
    | Unreadable | MissingId | BadToolName | BadExpectedHash | DuplicateResponse | NoResult | BadContentHash | BadStatus
    | CountsDiffer | OrderDiffers | OutputsDiffer | NotFollowed

  predicate LowerHex32(text: string) {
    |text| == 32 && forall i :: 0 <= i < 32 ==> '0' <= text[i] <= '9' || 'a' <= text[i] <= 'f'
  }

  predicate SafeName(text: string) {
    text != [] && forall i :: 0 <= i < |text| ==>
      'a' <= text[i] <= 'z' || 'A' <= text[i] <= 'Z' || '0' <= text[i] <= '9' || text[i] in "_-."
  }

  datatype Request = Request(id: string, tool: string, expectedHash: Option<string>)

  datatype McpCall = McpCall(tool: string, result: ToolResult, expectedHash: Option<string>)

  // ---- collecting requests and results ----

  /** The request in an event, checked as the source checks it. */
  function RequestIn(e: Event): Result<Request, Rejection>
    requires IsRequest(e, ToolsCall)
  {
    var message := e.payload.message;
    if message.id.None? then Err(MissingId)
    else if message.tool.None? || !SafeName(message.tool.value) then Err(BadToolName)
    else if message.expectedHash.Some? && !LowerHex32(message.expectedHash.value) then Err(BadExpectedHash)
    else Ok(Request(IdText(message.id.value), message.tool.value, message.expectedHash))
  }

  /** A server message with an id and a result. */
  function ResultIn(e: Event): Option<(string, ToolResult)> {
    var message := MessageFrom(e, ServerToClient);
    if message.Some? && message.value.id.Some? && message.value.result.Some?
    then Some((IdText(message.value.id.value), message.value.result.value)) else None
  }

  /** The tool-call requests of the first `n` events, in order. */
  function Requests(events: seq<Event>, n: nat): seq<Event>
    requires n <= |events|
    ensures forall e :: e in Requests(events, n) ==> IsRequest(e, ToolsCall)
  {
    if n == 0 then []
    else if IsRequest(events[n - 1], ToolsCall) then Requests(events, n - 1) + [events[n - 1]]
    else Requests(events, n - 1)
  }

  ghost predicate SentBefore(events: seq<Event>, n: nat, id: string, value: ToolResult)
    requires n <= |events|
  {
    exists j :: 0 <= j < n && ResultIn(events[j]) == Some((id, value))
  }

  lemma {:induction false} StillSent(events: seq<Event>, n: nat, id: string, value: ToolResult)
    requires n < |events| && SentBefore(events, n, id, value)
    ensures SentBefore(events, n + 1, id, value)
  {
    var j :| 0 <= j < n && ResultIn(events[j]) == Some((id, value));
    assert 0 <= j < n + 1 && ResultIn(events[j]) == Some((id, value));
  }

  ghost predicate ResultsUpTo(events: seq<Event>, n: nat, results: map<string, ToolResult>)
    requires n <= |events|
  {
    && (forall id :: id in results ==> SentBefore(events, n, id, results[id]))
    && (forall j :: 0 <= j < n && ResultIn(events[j]).Some? ==>
          ResultIn(events[j]).value.0 in results && results[ResultIn(events[j]).value.0] == ResultIn(events[j]).value.1)
    && ResultIdsDistinct(events, n)
  }

  ghost predicate ResultIdsDistinct(events: seq<Event>, n: nat)
    requires n <= |events|
  {
    forall j, k :: 0 <= j < k < n && ResultIn(events[j]).Some? && ResultIn(events[k]).Some? ==>
      ResultIn(events[j]).value.0 != ResultIn(events[k]).value.0
  }

  ghost predicate RequestsUpTo(events: seq<Event>, n: nat, requests: seq<Request>)
    requires n <= |events|
  {
    |requests| == |Requests(events, n)|
    && forall k :: 0 <= k < |requests| ==> RequestIn(Requests(events, n)[k]) == Ok(requests[k])
  }

  /** The first `n` events are readable and their tool-call requests valid. */
  ghost predicate SoundUpTo(events: seq<Event>, n: nat)
    requires n <= |events|
  {
    forall k :: 0 <= k < n ==> Readable(events[k]) && (IsRequest(events[k], ToolsCall) ==> RequestIn(events[k]).Ok?)
  }

  ghost predicate Collectable(events: seq<Event>) {
    SoundUpTo(events, |events|) && ResultIdsDistinct(events, |events|)
  }

  /** A request, or a message that is neither request nor result. */
  lemma {:induction false} NoResultAt(events: seq<Event>, n: nat, results: map<string, ToolResult>)
    requires n < |events| && ResultsUpTo(events, n, results) && ResultIn(events[n]).None?
    ensures ResultsUpTo(events, n + 1, results)
  {
    forall id | id in results ensures SentBefore(events, n + 1, id, results[id]) {
      StillSent(events, n, id, results[id]);
    }
  }

  lemma {:induction false} RepeatedResult(events: seq<Event>, n: nat, results: map<string, ToolResult>)
    requires n < |events| && ResultsUpTo(events, n, results)
    requires ResultIn(events[n]).Some? && ResultIn(events[n]).value.0 in results
    ensures !ResultIdsDistinct(events, |events|)
  {
    var id := ResultIn(events[n]).value.0;
    var j :| 0 <= j < n && ResultIn(events[j]) == Some((id, results[id]));
  }

  lemma {:induction false} RequestAdded(events: seq<Event>, n: nat, requests: seq<Request>)
    requires n < |events| && RequestsUpTo(events, n, requests)
    ensures if IsRequest(events[n], ToolsCall)
            then RequestIn(events[n]).Ok? ==> RequestsUpTo(events, n + 1, requests + [RequestIn(events[n]).value])
            else RequestsUpTo(events, n + 1, requests)
    ensures IsRequest(events[n], ToolsCall) ==> ResultIn(events[n]).None?
  {
  }

  /** The first loop of `extract_mcp_calls`. */
  method CollectCalls(events: seq<Event>) returns (r: Result<(seq<Request>, map<string, ToolResult>), Rejection>)
    ensures r.Ok? <==> Collectable(events)
    ensures r.Ok? ==> RequestsUpTo(events, |events|, r.value.0) && ResultsUpTo(events, |events|, r.value.1)
  {
    var requests: seq<Request> := [];
    var results: map<string, ToolResult> := map[];
    var n := 0;
    while n < |events|
      invariant n <= |events| && SoundUpTo(events, n)
      invariant RequestsUpTo(events, n, requests) && ResultsUpTo(events, n, results)
    {
      var e := events[n];
      if !Readable(e) {
        return Err(Unreadable);
      }
      RequestAdded(events, n, requests);
      var result := ResultIn(e);
      if IsRequest(e, ToolsCall) {
        var request := RequestIn(e);
        if request.Err? {
          return Err(request.error);
        }
        NoResultAt(events, n, results);
        requests := requests + [request.value];
      } else if result.Some? {
        if result.value.0 in results {
          RepeatedResult(events, n, results);
          return Err(DuplicateResponse);
        }
        ResultAdded(events, n, results);
        results := results[result.value.0 := result.value.1];
      } else {
        NoResultAt(events, n, results);
      }
      n := n + 1;
    }
    r := Ok((requests, results));
  }

  lemma {:induction false} ResultAdded(events: seq<Event>, n: nat, results: map<string, ToolResult>)
    requires n < |events| && ResultsUpTo(events, n, results)
    requires ResultIn(events[n]).Some? && ResultIn(events[n]).value.0 !in results
    ensures ResultsUpTo(events, n + 1, results[ResultIn(events[n]).value.0 := ResultIn(events[n]).value.1])
  {
    var (id, value) := ResultIn(events[n]).value;
    var grown := results[id := value];
    assert SentBefore(events, n + 1, id, value) by { assert ResultIn(events[n]) == Some((id, value)); }
    forall j | 0 <= j < n + 1 && ResultIn(events[j]).Some?
      ensures ResultIn(events[j]).value.0 in grown && grown[ResultIn(events[j]).value.0] == ResultIn(events[j]).value.1
    {
      assert j < n ==> ResultIn(events[j]).value.0 in results;
    }
    forall other | other in grown ensures SentBefore(events, n + 1, other, grown[other]) {
      if other != id { StillSent(events, n, other, results[other]); }
    }
  }

  // ---- matching results to requests ----

  ghost predicate IdsDistinct(requests: seq<Request>) {
    forall i, j :: 0 <= i < j < |requests| ==> requests[i].id != requests[j].id
  }

  predicate ValidResult(r: ToolResult) {
    (r.contentHash.Some? ==> LowerHex32(r.contentHash.value)) && (r.status.Some? ==> SafeName(r.status.value))
  }

  ghost predicate Matchable(requests: seq<Request>, results: map<string, ToolResult>) {
    IdsDistinct(requests)
    && forall k :: 0 <= k < |requests| ==> requests[k].id in results && ValidResult(results[requests[k].id])
  }

  ghost predicate MatchesUpTo(requests: seq<Request>, results: map<string, ToolResult>, calls: seq<McpCall>) {
    |calls| <= |requests| && forall k :: 0 <= k < |calls| ==>
      requests[k].id in results && ValidResult(results[requests[k].id])
      && calls[k] == McpCall(requests[k].tool, results[requests[k].id], requests[k].expectedHash)
  }

  /** What is left of the map when the results of these requests are taken out. */
  ghost predicate LeftAfter(taken: seq<Request>, results: map<string, ToolResult>, left: map<string, ToolResult>) {
    && (forall id :: id in left <==> id in results && forall k :: 0 <= k < |taken| ==> taken[k].id != id)
    && (forall id :: id in left ==> left[id] == results[id])
  }

  lemma {:induction false} ResultTaken(requests: seq<Request>, n: nat, results: map<string, ToolResult>,
                                       left: map<string, ToolResult>)
    requires n < |requests| && IdsDistinct(requests[..n]) && LeftAfter(requests[..n], results, left)
             && requests[n].id in left
    ensures IdsDistinct(requests[..n + 1]) && LeftAfter(requests[..n + 1], results, left - {requests[n].id})
  {
    var taken := requests[..n + 1];
    assert taken == requests[..n] + [requests[n]];
    forall i | 0 <= i < n ensures taken[i].id != requests[n].id {
      assert requests[..n][i] == taken[i];
    }
  }

  /** The `map` over the requests: each takes its result out of the map. */
  method MatchResults(requests: seq<Request>, results: map<string, ToolResult>)
    returns (r: Result<seq<McpCall>, Rejection>)
    ensures r.Ok? <==> Matchable(requests, results)
    ensures r.Ok? ==> |r.value| == |requests| && MatchesUpTo(requests, results, r.value)
  {
    var left := results;
    var calls: seq<McpCall> := [];
    var n := 0;
    while n < |requests|
      invariant n == |calls| <= |requests| && MatchesUpTo(requests, results, calls)
      invariant IdsDistinct(requests[..n]) && LeftAfter(requests[..n], results, left)
    {
      var request := requests[n];
      if request.id !in left {
        return Err(NoResult);
      }
      var result := left[request.id];
      ResultTaken(requests, n, results, left);
      left := left - {request.id};
      if result.contentHash.Some? && !LowerHex32(result.contentHash.value) {
        return Err(BadContentHash);
      }
      if result.status.Some? && !SafeName(result.status.value) {
        return Err(BadStatus);
      }
      calls := calls + [McpCall(request.tool, result, request.expectedHash)];
      n := n + 1;
    }
    assert requests[..n] == requests;
    r := Ok(calls);
  }

  /** `extract_mcp_calls` on success: one call per request, in request order, with
      pairwise distinct ids; each carries the one result sent under its id. */
  ghost predicate Extraction(events: seq<Event>, calls: seq<McpCall>) {
    var requests := Requests(events, |events|);
    && |calls| == |requests|
    && (forall i, j :: 0 <= i < j < |requests| ==> RequestId(requests[i]) != RequestId(requests[j]))
    && forall k :: 0 <= k < |requests| ==> CallFor(events, requests[k], calls[k])
  }

  ghost predicate CallFor(events: seq<Event>, request: Event, call: McpCall) {
    && request.payload.Present? && RequestId(request).Some?
    && request.payload.message.tool == Some(call.tool)
    && request.payload.message.expectedHash == call.expectedHash
    && SentBefore(events, |events|, RequestId(request).value, call.result)
    && (forall j ::
          0 <= j < |events| && ResultIn(events[j]).Some? && Some(ResultIn(events[j]).value.0) == RequestId(request) ==>
          ResultIn(events[j]).value.1 == call.result)
  }

  /** Some result was sent under the id, and it is in order. */
  ghost predicate Answered(events: seq<Event>, id: string) {
    exists j :: 0 <= j < |events| && AnswersWith(events[j], id)
  }

  predicate AnswersWith(e: Event, id: string) {
    ResultIn(e).Some? && ResultIn(e).value.0 == id && ValidResult(ResultIn(e).value.1)
  }

  /** The requests have distinct ids and each is answered. */
  ghost predicate AllAnswered(events: seq<Event>, requests: seq<Event>) {
    && (forall i, j :: 0 <= i < j < |requests| ==> RequestId(requests[i]) != RequestId(requests[j]))
    && (forall k :: 0 <= k < |requests| ==>
        RequestId(requests[k]).Some? && Answered(events, RequestId(requests[k]).value))
  }

  /** `extract_mcp_calls`: accepts exactly the traces with sound requests, distinct
      result ids, and distinct request ids that are all answered. */
  method ExtractCalls(events: seq<Event>) returns (r: Result<seq<McpCall>, Rejection>)
    ensures r.Ok? <==> Collectable(events) && AllAnswered(events, Requests(events, |events|))
    ensures r.Ok? ==> Extraction(events, r.value)
  {
    var collected := CollectCalls(events);
    if collected.Err? {
      return Err(collected.error);
    }
    var (requests, results) := collected.value;
    MatchableIff(events, requests, results);
    r := MatchResults(requests, results);
    if r.Ok? {
      ExtractionFrom(events, requests, results, r.value);
    }
  }

  lemma {:induction false} MatchableIff(events: seq<Event>, requests: seq<Request>, results: map<string, ToolResult>)
    requires RequestsUpTo(events, |events|, requests) && ResultsUpTo(events, |events|, results)
    ensures Matchable(requests, results) <==> AllAnswered(events, Requests(events, |events|))
  {
    SentIds(events, requests);
    MatchableByIds(events, Requests(events, |events|), requests, results);
  }

  lemma {:induction false} MatchableByIds(events: seq<Event>, sent: seq<Event>, requests: seq<Request>,
                                          results: map<string, ToolResult>)
    requires |sent| == |requests| && forall k :: 0 <= k < |requests| ==> RequestId(sent[k]) == Some(requests[k].id)
    requires ResultsUpTo(events, |events|, results)
    ensures Matchable(requests, results) <==> AllAnswered(events, sent)
  {
    forall k | 0 <= k < |requests|
      ensures Answered(events, requests[k].id) <==> requests[k].id in results && ValidResult(results[requests[k].id])
    {
      AnsweredIff(events, results, requests[k].id);
    }
  }

  lemma {:induction false} SentIds(events: seq<Event>, requests: seq<Request>)
    requires RequestsUpTo(events, |events|, requests)
    ensures |requests| == |Requests(events, |events|)|
    ensures forall k :: 0 <= k < |requests| ==> RequestId(Requests(events, |events|)[k]) == Some(requests[k].id)
  {
    var sent := Requests(events, |events|);
    forall k | 0 <= k < |sent| ensures RequestId(sent[k]) == Some(requests[k].id) {
      assert IsRequest(sent[k], ToolsCall) && RequestIn(sent[k]) == Ok(requests[k]);
    }
  }

  lemma {:induction false} AnsweredIff(events: seq<Event>, results: map<string, ToolResult>, id: string)
    requires ResultsUpTo(events, |events|, results)
    ensures Answered(events, id) <==> id in results && ValidResult(results[id])
  {
    if id in results && ValidResult(results[id]) {
      var j :| 0 <= j < |events| && ResultIn(events[j]) == Some((id, results[id]));
      assert AnswersWith(events[j], id);
    }
  }

  lemma {:induction false} ExtractionFrom(events: seq<Event>, requests: seq<Request>, results: map<string, ToolResult>,
                                          calls: seq<McpCall>)
    requires RequestsUpTo(events, |events|, requests) && ResultsUpTo(events, |events|, results)
    requires IdsDistinct(requests) && |calls| == |requests| && MatchesUpTo(requests, results, calls)
    ensures Extraction(events, calls)
  {
    var sent := Requests(events, |events|);
    forall k | 0 <= k < |sent|
           ensures CallFor(events, sent[k], calls[k]) && RequestId(sent[k]) == Some(requests[k].id) {
      assert IsRequest(sent[k], ToolsCall) && RequestIn(sent[k]) == Ok(requests[k]);
    }
  }

  // ---- correlation with the rollout ----

  /** The expected hash of call `k` was the content hash of an earlier result. */
  ghost predicate KnownFollowUp(mcp: seq<McpCall>, k: nat)
    requires k < |mcp|
  {
    mcp[k].expectedHash.Some? && exists j :: 0 <= j < k && mcp[j].result.contentHash == mcp[k].expectedHash
  }

  ghost function CountFollowUps(mcp: seq<McpCall>, n: nat): nat
    requires n <= |mcp|
  {
    if n == 0 then 0 else CountFollowUps(mcp, n - 1) + if KnownFollowUp(mcp, n - 1) then 1 else 0
  }

  ghost function CountNotModified(mcp: seq<McpCall>, n: nat): nat
    requires n <= |mcp|
  {
    if n == 0 then 0
    else CountNotModified(mcp, n - 1) + if mcp[n - 1].result.status == Some("not_modified") then 1 else 0
  }

  ghost predicate SeenHashes(mcp: seq<McpCall>, n: nat, seen: set<string>)
    requires n <= |mcp|
  {
    forall h :: h in seen <==> exists j :: 0 <= j < n && mcp[j].result.contentHash == Some(h)
  }

  lemma {:induction false} SeenStep(mcp: seq<McpCall>, n: nat, seen: set<string>)
    requires n < |mcp| && SeenHashes(mcp, n, seen)
    ensures var hash := mcp[n].result.contentHash;
            SeenHashes(mcp, n + 1, if hash.Some? then seen + {hash.value} else seen)
    ensures (mcp[n].expectedHash.Some? && mcp[n].expectedHash.value in seen) <==> KnownFollowUp(mcp, n)
  {
    var hash := mcp[n].result.contentHash;
    var grown := if hash.Some? then seen + {hash.value} else seen;
    forall h ensures h in grown <==> exists j :: 0 <= j < n + 1 && mcp[j].result.contentHash == Some(h) {
      if h in seen {
        var j :| 0 <= j < n && mcp[j].result.contentHash == Some(h);
        assert 0 <= j < n + 1 && mcp[j].result.contentHash == Some(h);
      }
      if hash == Some(h) { assert mcp[n].result.contentHash == Some(h); }
    }
  }

  datatype Correlation = Correlation(calls: nat, semanticMatches: nat, knownHashFollowUps: nat, notModified: nat)

  /** The comparison of `canonical_json_hash` values, made on the canonical forms. */
  predicate SameOutput(call: HostRollout.Call, mcp: McpCall)
    requires call.output.Some?
  {
    CanonicalizeTree(call.output.value.value) == CanonicalizeTree(mcp.result.value)
  }

  /** Call by call, the same tool and the same output up to key order. */
  ghost predicate Correlates(rollout: seq<HostRollout.Call>, mcp: seq<McpCall>)
    requires forall k :: 0 <= k < |rollout| ==> rollout[k].output.Some?
  {
    && |rollout| == |mcp|
    && forall k :: 0 <= k < |mcp| ==> rollout[k].tool == mcp[k].tool && SameOutput(rollout[k], mcp[k])
  }

  /** `correlate_calls` */
  method CorrelateCalls(rollout: seq<HostRollout.Call>, mcp: seq<McpCall>) returns (r: Result<Correlation, Rejection>)
    requires forall k :: 0 <= k < |rollout| ==> rollout[k].output.Some?
    ensures r.Ok? <==> Correlates(rollout, mcp)
    ensures r.Ok? ==> r.value == Correlation(|mcp|, |mcp|, CountFollowUps(mcp, |mcp|), CountNotModified(mcp, |mcp|))
  {
    if |rollout| != |mcp| {
      return Err(CountsDiffer);
    }
    if exists k :: 0 <= k < |mcp| && rollout[k].tool != mcp[k].tool {
      return Err(OrderDiffers);
    }
    var matches, followUps, notModified := 0, 0, 0;
    var seen: set<string> := {};
    var n := 0;
    while n < |mcp|
      invariant n <= |mcp| && matches == n
      invariant forall k :: 0 <= k < n ==> SameOutput(rollout[k], mcp[k])
      invariant SeenHashes(mcp, n, seen)
      invariant followUps == CountFollowUps(mcp, n) && notModified == CountNotModified(mcp, n)
    {
      if !SameOutput(rollout[n], mcp[n]) {
        return Err(OutputsDiffer);
      }
      SeenStep(mcp, n, seen);
      matches := matches + 1;
      if mcp[n].expectedHash.Some? && mcp[n].expectedHash.value in seen {
        followUps := followUps + 1;
      }
      if mcp[n].result.contentHash.Some? {
        seen := seen + {mcp[n].result.contentHash.value};
      }
      if mcp[n].result.status == Some("not_modified") {
        notModified := notModified + 1;
      }
      n := n + 1;
    }
    r := Ok(Correlation(|rollout|, matches, followUps, notModified));
  }

  // ---- the receipts of the calls ----

  datatype CallReceipt = CallReceipt(sequence: nat, turn: nat, tool: string, expectedHashSupplied: bool,
                                     knownHashFollowUp: bool, status: Option<string>, isError: bool,
                                     followedByResponse: bool, followedByUsage: bool)

  /** Something of this turn comes after the record. */
  predicate FollowedIn(places: seq<(nat, nat)>, turn: nat, record: nat) {
    exists i :: 0 <= i < |places| && places[i].1 == turn && places[i].0 > record
  }

  /** The usage snapshots, by record and turn. */
  function UsagePlaces(s: HostRollout.State): seq<(nat, nat)> {
    seq(|s.snapshots|, i requires 0 <= i < |s.snapshots| => (s.snapshots[i].record, s.snapshots[i].turn))
  }

  predicate AnsweredByModel(s: HostRollout.State, call: HostRollout.Call)
    requires call.output.Some?
  {
    FollowedIn(s.modelResponses, call.turn, call.output.value.record)
  }

  predicate Accounted(s: HostRollout.State, call: HostRollout.Call)
    requires call.output.Some?
  {
    FollowedIn(UsagePlaces(s), call.turn, call.output.value.record)
  }

  ghost predicate ReceiptFor(s: HostRollout.State, mcp: seq<McpCall>, k: nat, receipt: CallReceipt)
    requires k < |s.calls| && k < |mcp| && s.calls[k].output.Some?
  {
    var call := s.calls[k];
    receipt == CallReceipt(k, call.turn, call.tool, mcp[k].expectedHash.Some?, KnownFollowUp(mcp, k),
                           mcp[k].result.status,
                           mcp[k].result.isError, AnsweredByModel(s, call), Accounted(s, call))
  }

  /** After every output its turn goes on with a model response and a snapshot. */
  ghost predicate AllFollowed(s: HostRollout.State) {
    forall k :: 0 <= k < |s.calls| && s.calls[k].output.Some? ==>
      AnsweredByModel(s, s.calls[k]) && Accounted(s, s.calls[k])
  }

  /** The per-call loop of `build_receipt` and the check after it. */
  method CallReceipts(s: HostRollout.State, mcp: seq<McpCall>) returns (r: Result<seq<CallReceipt>, Rejection>)
    requires |s.calls| == |mcp| && forall k :: 0 <= k < |s.calls| ==> s.calls[k].output.Some?
    ensures r.Ok? <==> AllFollowed(s)
    ensures r.Ok? ==> |r.value| == |mcp| && forall k :: 0 <= k < |mcp| ==> ReceiptFor(s, mcp, k, r.value[k])
  {
    var receipts: seq<CallReceipt> := [];
    var seen: set<string> := {};
    var n := 0;
    while n < |mcp|
      invariant n == |receipts| <= |mcp|
      invariant SeenHashes(mcp, n, seen)
      invariant forall k :: 0 <= k < n ==> ReceiptFor(s, mcp, k, receipts[k])
    {
      var call := s.calls[n];
      SeenStep(mcp, n, seen);
      var known := mcp[n].expectedHash.Some? && mcp[n].expectedHash.value in seen;
      if mcp[n].result.contentHash.Some? {
        seen := seen + {mcp[n].result.contentHash.value};
      }
      receipts := receipts + [CallReceipt(n, call.turn, call.tool, mcp[n].expectedHash.Some?, known,
                                          mcp[n].result.status,
                                          mcp[n].result.isError, AnsweredByModel(s, call), Accounted(s, call))];
      n := n + 1;
    }
    assert forall k :: 0 <= k < |receipts| ==>
      receipts[k].followedByResponse == AnsweredByModel(s, s.calls[k])
          && receipts[k].followedByUsage == Accounted(s, s.calls[k]);
    if exists k :: 0 <= k < |receipts| && (!receipts[k].followedByResponse || !receipts[k].followedByUsage) {
      return Err(NotFollowed);
    }
    r := Ok(receipts);
  }

  function CountFlags(receipts: seq<CallReceipt>, n: nat): nat
    requires n <= |receipts|
  {
    if n == 0 then 0 else CountFlags(receipts, n - 1) + if receipts[n - 1].knownHashFollowUp then 1 else 0
  }

  lemma {:induction false} FlagsCountFollowUps(mcp: seq<McpCall>, receipts: seq<CallReceipt>, n: nat)
    requires |receipts| == |mcp| && n <= |mcp|
    requires forall k :: 0 <= k < |mcp| ==> receipts[k].knownHashFollowUp == KnownFollowUp(mcp, k)
    ensures CountFlags(receipts, n) == CountFollowUps(mcp, n)
  {
    if n > 0 {
      FlagsCountFollowUps(mcp, receipts, n - 1);
    }
  }

  /** Correlation and receipts of one rollout: the aggregate count of follow-ups is
      the number of receipts that carry the flag. */
  method CorrelateWithReceipts(s: HostRollout.State, mcp: seq<McpCall>)
    returns (r: Result<(Correlation, seq<CallReceipt>), Rejection>)
    requires forall k :: 0 <= k < |s.calls| ==> s.calls[k].output.Some?
    ensures r.Ok? <==> Correlates(s.calls, mcp) && AllFollowed(s)
    ensures r.Ok? ==>
            |r.value.1| == |mcp|
            && r.value.0.knownHashFollowUps == CountFlags(r.value.1, |mcp|) == CountFollowUps(mcp, |mcp|)
  {
    var correlation := CorrelateCalls(s.calls, mcp);
    if correlation.Err? {
      return Err(correlation.error);
    }
    var receipts := CallReceipts(s, mcp);
    if receipts.Err? {
      return Err(receipts.error);
    }
    FlagsCountFollowUps(mcp, receipts.value, |mcp|);
    r := Ok((correlation.value, receipts.value));
  }
}
