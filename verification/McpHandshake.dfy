/** `validate_mcp_host_order`: recognises traces that open like the handshake of MCP
    specification 2025-06-18, Lifecycle, section "Initialization". Any message from
    the server under the id of a request passes for its result, requests and errors
    among them; `ConformsIff` says when that makes no difference. */
module McpHandshake {
  import opened Wrappers
  import opened McpTrace

  datatype Rejection =
    | Unreadable | DuplicateInitialize | DuplicateInitialized | DuplicateToolsList | MissingId | DuplicateResponse
    | NoInitialize | NoInitializeResponse | NoInitialized | NoToolsList | NoToolsListResponse | NoToolCall | OutOfOrder

  ghost predicate OnlyRequestAt(events: seq<Event>, m: Method, k: nat) {
    k < |events| && IsRequest(events[k], m) && forall j :: 0 <= j < |events| && IsRequest(events[j], m) ==> j == k
  }

  ghost predicate ServerIdsDistinct(events: seq<Event>) {
    forall j, k :: 0 <= j < k < |events| && ServerId(events[j]).Some? ==> ServerId(events[j]) != ServerId(events[k])
  }

  /** The places of the handshake: initialize, the server message under its id, the
      initialized notification, tools/list, the server message under its id, and
      after that every tool call. */
  datatype Places = Places(initialize: nat, initializeResponse: nat, initialized: nat, list: nat, listResponse: nat)

  ghost predicate Handshake(events: seq<Event>, p: Places) {
    && OnlyRequestAt(events, Initialize, p.initialize)
    && OnlyRequestAt(events, Initialized, p.initialized)
    && OnlyRequestAt(events, ToolsList, p.list)
    && RequestId(events[p.initialize]).Some? && RequestId(events[p.list]).Some?
    && p.initialize < p.initializeResponse < p.initialized < p.list < p.listResponse < |events|
    && ServerId(events[p.initializeResponse]) == RequestId(events[p.initialize])
    && ServerId(events[p.listResponse]) == RequestId(events[p.list])
    && (forall k :: 0 <= k < |events| && IsRequest(events[k], ToolsCall) ==> p.listResponse < k)
    && (exists k :: 0 <= k < |events| && IsRequest(events[k], ToolsCall))
  }

  ghost predicate WellOrdered(events: seq<Event>) {
    && (forall k :: 0 <= k < |events| ==> Readable(events[k]))
    && ServerIdsDistinct(events)
    && exists p :: Handshake(events, p)
  }

  // ---- what the loop has found in the first n events ----

  ghost predicate Found(events: seq<Event>, n: nat, m: Method, at: Option<nat>)
    requires n <= |events|
  {
    match at
    case None => forall j :: 0 <= j < n ==> !IsRequest(events[j], m)
    case Some(k) => k < n && IsRequest(events[k], m) && forall j :: 0 <= j < n && IsRequest(events[j], m) ==> j == k
  }

  ghost predicate FoundWithId(events: seq<Event>, n: nat, m: Method, at: Option<(nat, string)>)
    requires n <= |events|
  {
    Found(events, n, m, if at.Some? then Some(at.value.0) else None)
    && (at.Some? ==> RequestId(events[at.value.0]) == Some(at.value.1))
  }

  ghost predicate FirstCall(events: seq<Event>, n: nat, at: Option<nat>)
    requires n <= |events|
  {
    match at
    case None => forall j :: 0 <= j < n ==> !IsRequest(events[j], ToolsCall)
    case Some(k) =>
      k < n && IsRequest(events[k], ToolsCall) && forall j :: 0 <= j < k ==> !IsRequest(events[j], ToolsCall)
  }

  ghost predicate Responses(events: seq<Event>, n: nat, responses: map<string, nat>)
    requires n <= |events|
  {
    && (forall id :: id in responses ==> responses[id] < n && ServerId(events[responses[id]]) == Some(id))
    && (forall j :: 0 <= j < n && ServerId(events[j]).Some? ==>
          ServerId(events[j]).value in responses && responses[ServerId(events[j]).value] == j)
  }

  /** A request seen twice rules the handshake out. */
  lemma {:induction false} SeenTwice(events: seq<Event>, m: Method, j: nat, k: nat)
    requires j < k < |events| && IsRequest(events[j], m) && IsRequest(events[k], m)
    requires m == Initialize || m == Initialized || m == ToolsList
    ensures !WellOrdered(events)
  {
    forall p ensures !Handshake(events, p) {
    }
  }

  lemma {:induction false} NoIdOn(events: seq<Event>, m: Method, k: nat)
    requires k < |events| && IsRequest(events[k], m) && RequestId(events[k]).None?
    requires m == Initialize || m == ToolsList
    ensures !WellOrdered(events)
  {
    forall p ensures !Handshake(events, p) {
    }
  }

  /** What has been seen so far. */
  datatype Seen = Seen(initialize: Option<(nat, string)>, initialized: Option<nat>, list: Option<(nat, string)>,
                       firstCall: Option<nat>, responses: map<string, nat>)

  ghost predicate SeenIn(events: seq<Event>, n: nat, s: Seen)
    requires n <= |events|
  {
    && (forall k :: 0 <= k < n ==> Readable(events[k]))
    && FoundWithId(events, n, Initialize, s.initialize)
    && Found(events, n, Initialized, s.initialized)
    && FoundWithId(events, n, ToolsList, s.list)
    && FirstCall(events, n, s.firstCall)
    && Responses(events, n, s.responses)
  }

  /** A request that must not repeat; `None` when it did or lacks its id. */
  method ObserveOnce(events: seq<Event>, n: nat, m: Method, seen: Option<(nat, string)>)
    returns (r: Result<Option<(nat, string)>, Rejection>)
    requires n < |events| && FoundWithId(events, n, m, seen) && IsRequest(events[n], m)
    requires m == Initialize || m == ToolsList
    ensures r.Ok? ==> FoundWithId(events, n + 1, m, r.value)
    ensures r.Err? ==> !WellOrdered(events)
  {
    if seen.Some? {
      SeenTwice(events, m, seen.value.0, n);
      return Err(if m.Initialize? then DuplicateInitialize else DuplicateToolsList);
    }
    var id := RequestId(events[n]);
    if id.None? {
      NoIdOn(events, m, n);
      return Err(MissingId);
    }
    r := Ok(Some((n, id.value)));
  }

  lemma {:induction false} NothingNew(events: seq<Event>, n: nat, s: Seen)
    requires n < |events| && SeenIn(events, n, s) && Readable(events[n])
    ensures forall k :: 0 <= k < n + 1 ==> Readable(events[k])
    ensures !IsRequest(events[n], Initialize) ==> FoundWithId(events, n + 1, Initialize, s.initialize)
    ensures !IsRequest(events[n], Initialized) ==> Found(events, n + 1, Initialized, s.initialized)
    ensures !IsRequest(events[n], ToolsList) ==> FoundWithId(events, n + 1, ToolsList, s.list)
    ensures !IsRequest(events[n], ToolsCall) || s.firstCall.Some? ==> FirstCall(events, n + 1, s.firstCall)
    ensures ServerId(events[n]).None? ==> Responses(events, n + 1, s.responses)
  {
  }

  /** A message from the client. */
  method ObserveRequest(events: seq<Event>, n: nat, s: Seen) returns (r: Result<Seen, Rejection>)
    requires n < |events| && SeenIn(events, n, s) && Readable(events[n]) && events[n].direction.ClientToServer?
    ensures r.Ok? ==> SeenIn(events, n + 1, r.value)
    ensures r.Err? ==> !WellOrdered(events)
  {
    NothingNew(events, n, s);
    var e := events[n];
    if IsRequest(e, Initialize) {
      var at := ObserveOnce(events, n, Initialize, s.initialize);
      if at.Err? { return Err(at.error); }
      r := Ok(s.(initialize := at.value));
    } else if IsRequest(e, Initialized) {
      if s.initialized.Some? {
        SeenTwice(events, Initialized, s.initialized.value, n);
        return Err(DuplicateInitialized);
      }
      r := Ok(s.(initialized := Some(n)));
    } else if IsRequest(e, ToolsList) {
      var at := ObserveOnce(events, n, ToolsList, s.list);
      if at.Err? { return Err(at.error); }
      r := Ok(s.(list := at.value));
    } else if IsRequest(e, ToolsCall) && s.firstCall.None? {
      r := Ok(s.(firstCall := Some(n)));
    } else {
      r := Ok(s);
    }
  }

  /** One event of the loop. */
  method Observe(events: seq<Event>, n: nat, s: Seen) returns (r: Result<Seen, Rejection>)
    requires n < |events| && SeenIn(events, n, s)
    ensures r.Ok? ==> SeenIn(events, n + 1, r.value)
    ensures r.Err? ==> !WellOrdered(events)
  {
    var e := events[n];
    if !Readable(e) {
      return Err(Unreadable);
    }
    if e.direction.ClientToServer? {
      r := ObserveRequest(events, n, s);
      return;
    }
    r := ObserveOther(events, n, s);
  }

  /** A message from the server, or a handoff. */
  method ObserveOther(events: seq<Event>, n: nat, s: Seen) returns (r: Result<Seen, Rejection>)
    requires n < |events| && SeenIn(events, n, s) && Readable(events[n]) && !events[n].direction.ClientToServer?
    ensures r.Ok? ==> SeenIn(events, n + 1, r.value)
    ensures r.Err? ==> !WellOrdered(events)
  {
    NothingNew(events, n, s);
    var id := ServerId(events[n]);
    if id.None? {
      return Ok(s);
    }
    if id.value in s.responses {
      assert ServerId(events[s.responses[id.value]]) == ServerId(events[n]);
      return Err(DuplicateResponse);
    }
    NewResponse(events, n, s.responses, id.value);
    r := Ok(s.(responses := s.responses[id.value := n]));
  }

  lemma {:induction false} NewResponse(events: seq<Event>, n: nat, responses: map<string, nat>, id: string)
    requires n < |events| && Responses(events, n, responses) && ServerId(events[n]) == Some(id) && id !in responses
    ensures Responses(events, n + 1, responses[id := n])
  {
  }

  /** `validate_mcp_host_order`: accepts exactly the well-ordered traces. */
  method ValidateHostOrder(events: seq<Event>) returns (r: Result<(), Rejection>)
    ensures r.Ok? <==> WellOrdered(events)
  {
    var s := Seen(None, None, None, None, map[]);
    var n := 0;
    while n < |events|
      invariant n <= |events| && SeenIn(events, n, s)
    {
      var next := Observe(events, n, s);
      if next.Err? {
        return Err(next.error);
      }
      s := next.value;
      n := n + 1;
    }
    r := CheckOrder(events, s);
  }

  /** The checks after the loop. */
  method CheckOrder(events: seq<Event>, s: Seen) returns (r: Result<(), Rejection>)
    requires SeenIn(events, |events|, s)
    ensures r.Ok? <==> WellOrdered(events)
  {
    PlacesAreSeen(events, s);
    if s.initialize.None? { return Err(NoInitialize); }
    var (initialize, initializeId) := s.initialize.value;
    if initializeId !in s.responses { return Err(NoInitializeResponse); }
    var initializeResponse := s.responses[initializeId];
    if s.initialized.None? { return Err(NoInitialized); }
    var initialized := s.initialized.value;
    if s.list.None? { return Err(NoToolsList); }
    var (list, listId) := s.list.value;
    if listId !in s.responses { return Err(NoToolsListResponse); }
    var listResponse := s.responses[listId];
    if s.firstCall.None? { return Err(NoToolCall); }
    if !(initialize < initializeResponse && initializeResponse < initialized && initialized < list
         && list < listResponse
         && listResponse < s.firstCall.value) {
      return Err(OutOfOrder);
    }
    SeenInOrder(events, s, Places(initialize, initializeResponse, initialized, list, listResponse));
    r := Ok(());
  }

  /** The places of a handshake are the ones the loop found. */
  ghost predicate PlacesFrom(s: Seen, p: Places) {
    && s.initialize.Some? && s.initialize.value.0 == p.initialize
    && s.initialized == Some(p.initialized)
    && s.list.Some? && s.list.value.0 == p.list
    && s.initialize.value.1 in s.responses && s.responses[s.initialize.value.1] == p.initializeResponse
    && s.list.value.1 in s.responses && s.responses[s.list.value.1] == p.listResponse
    && s.firstCall.Some? && p.listResponse < s.firstCall.value
    && p.initialize < p.initializeResponse < p.initialized < p.list < p.listResponse
  }

  lemma {:induction false} PlacesAreSeen(events: seq<Event>, s: Seen)
    requires SeenIn(events, |events|, s)
    ensures WellOrdered(events) ==> exists p :: PlacesFrom(s, p)
  {
    if WellOrdered(events) {
      var p :| Handshake(events, p);
      HandshakeIsSeen(events, s, p);
    }
  }

  lemma {:induction false} OnlyRequestIsFound(events: seq<Event>, m: Method, k: nat, at: Option<nat>)
    requires OnlyRequestAt(events, m, k) && Found(events, |events|, m, at)
    ensures at == Some(k)
  {
  }

  lemma {:induction false} ResponseIsFound(events: seq<Event>, responses: map<string, nat>, k: nat, id: string)
    requires Responses(events, |events|, responses) && k < |events| && ServerId(events[k]) == Some(id)
    ensures id in responses && responses[id] == k
  {
  }

  lemma {:induction false} HandshakeIsSeen(events: seq<Event>, s: Seen, p: Places)
    requires SeenIn(events, |events|, s) && Handshake(events, p)
    ensures PlacesFrom(s, p)
  {
    OnlyRequestIsFound(events, Initialize, p.initialize, if s.initialize.Some? then Some(s.initialize.value.0)
                       else None);
    OnlyRequestIsFound(events, Initialized, p.initialized, s.initialized);
    OnlyRequestIsFound(events, ToolsList, p.list, if s.list.Some? then Some(s.list.value.0) else None);
    ResponseIsFound(events, s.responses, p.initializeResponse, s.initialize.value.1);
    ResponseIsFound(events, s.responses, p.listResponse, s.list.value.1);
  }

  lemma {:induction false} SeenInOrder(events: seq<Event>, s: Seen, p: Places)
    requires SeenIn(events, |events|, s) && PlacesFrom(s, p)
    ensures WellOrdered(events)
  {
    assert Handshake(events, p);
    forall j, k | 0 <= j < k < |events| && ServerId(events[j]).Some?
           ensures ServerId(events[j]) != ServerId(events[k]) {
      assert s.responses[ServerId(events[j]).value] == j;
    }
  }

  // ---- the handshake of the specification ----

  /** A message from the server under an id that brings a result: no request of its
      own, and no error (section 5 of JSON-RPC 2.0). */
  predicate IsResult(e: Event) {
    var message := MessageFrom(e, ServerToClient);
    ServerId(e).Some? && message.value.rpcMethod.None? && message.value.result.Some?
  }

  /** The handshake, answered with results. */
  ghost predicate AnsweredHandshake(events: seq<Event>, p: Places) {
    Handshake(events, p) && IsResult(events[p.initializeResponse]) && IsResult(events[p.listResponse])
  }

  ghost predicate Conforming(events: seq<Event>) {
    && (forall k :: 0 <= k < |events| ==> Readable(events[k]))
    && exists p :: AnsweredHandshake(events, p)
  }

  /** A message of the server under the id of an initialize or tools/list request
      that is no result. */
  ghost predicate Impersonates(events: seq<Event>, j: nat, k: nat) {
    && j < |events| && k < |events|
    && (IsRequest(events[j], Initialize) || IsRequest(events[j], ToolsList))
    && ServerId(events[k]).Some? && ServerId(events[k]) == RequestId(events[j]) && !IsResult(events[k])
  }

  lemma {:induction false} RespondedTo(events: seq<Event>)
    requires WellOrdered(events) && forall j, k :: !Impersonates(events, j, k)
    ensures Conforming(events)
  {
    var p :| Handshake(events, p);
    assert !Impersonates(events, p.initialize, p.initializeResponse);
    assert !Impersonates(events, p.list, p.listResponse);
    assert AnsweredHandshake(events, p);
  }

  lemma {:induction false} NoImpersonation(events: seq<Event>, p: Places, j: nat, k: nat)
    requires AnsweredHandshake(events, p) && ServerIdsDistinct(events)
    ensures !Impersonates(events, j, k)
  {
  }

  lemma {:induction false} AnsweredIsAccepted(events: seq<Event>)
    requires Conforming(events) && ServerIdsDistinct(events)
    ensures WellOrdered(events)
  {
    var p :| AnsweredHandshake(events, p);
    assert Handshake(events, p);
  }

  /** An accepted trace holds the handshake of the specification exactly when whatever
      the server sends under the id of an initialize or tools/list request is a result;
      and a trace that holds it is accepted exactly when no two messages of the server
      share an id. */
  lemma {:induction false} ConformsIff(events: seq<Event>)
    ensures WellOrdered(events) ==> (Conforming(events) <==> !exists j, k :: Impersonates(events, j, k))
    ensures Conforming(events) ==> (WellOrdered(events) <==> ServerIdsDistinct(events))
  {
    if Conforming(events) {
      if ServerIdsDistinct(events) {
        AnsweredIsAccepted(events);
        var p :| AnsweredHandshake(events, p);
        forall j, k ensures !Impersonates(events, j, k) { NoImpersonation(events, p, j, k); }
      }
    } else if WellOrdered(events) && !exists j, k :: Impersonates(events, j, k) {
      RespondedTo(events);
    }
  }

  function FromClient(m: Method, id: Option<string>): Event {
    Event(ClientToServer,
          Present(Message(Some(m), if id.Some? then Some(StringId(id.value)) else None, None, None, None)))
  }

  function FromServer(m: Option<Method>, id: string, result: Option<ToolResult>): Event {
    Event(ServerToClient, Present(Message(m, Some(StringId(id)), None, None, result)))
  }

  const ANSWER := Some(ToolResult(Json.Obj([]), None, None, false))

  /** The opening of a trace, in which the server sends messages with method `m` and
      this result under the ids of both requests, and at the end a request of its own
      under id `last`. */
  function Opening(m: Option<Method>, result: Option<ToolResult>, last: string): seq<Event> {
    [FromClient(Initialize, Some("a")), FromServer(m, "a", result), FromClient(Initialized, None),
     FromClient(ToolsList, Some("b")), FromServer(m, "b", result), FromClient(ToolsCall, Some("c")),
     FromServer(Some(OtherMethod), last, None)]
  }

  const OPENING := Places(0, 1, 2, 3, 4)

  lemma {:induction false} OpeningOrdered(m: Option<Method>, result: Option<ToolResult>, last: string)
    ensures Handshake(Opening(m, result, last), OPENING)
    ensures forall k :: 0 <= k < 7 ==> Readable(Opening(m, result, last)[k])
  {
    var events := Opening(m, result, last);
    assert IsRequest(events[5], ToolsCall);
  }

  /** Whatever the server sends under the two ids, the opening is accepted; it conforms
      when results are sent. */
  lemma {:induction false} OpeningAccepted(m: Option<Method>, result: Option<ToolResult>)
    ensures WellOrdered(Opening(m, result, "d"))
    ensures Conforming(Opening(m, result, "d")) <==> m.None? && result.Some?
  {
    var events := Opening(m, result, "d");
    OpeningOrdered(m, result, "d");
    OpeningIds(m, result, "d");
    if m.None? && result.Some? {
      assert AnsweredHandshake(events, OPENING);
    } else {
      assert Impersonates(events, 0, 1);
      ConformsIff(events);
    }
  }

  /** Every message of the server has a method, so that none is a response. */
  ghost predicate OnlyServerRequests(events: seq<Event>) {
    forall e :: e in events && MessageFrom(e, ServerToClient).Some? ==> e.payload.message.rpcMethod.Some?
  }

  lemma {:induction false} OpeningOnlyRequests(result: Option<ToolResult>, last: string)
    ensures OnlyServerRequests(Opening(Some(OtherMethod), result, last))
  {
  }

  /** Accepted, although the server never responds: it sends requests under the ids
      of the client's requests. */
  lemma {:induction false} RequestsPassForResponses() returns (events: seq<Event>)
    ensures WellOrdered(events) && !Conforming(events)
    ensures OnlyServerRequests(events)
  {
    events := Opening(Some(OtherMethod), None, "d");
    OpeningAccepted(Some(OtherMethod), None);
    OpeningOnlyRequests(None, "d");
  }

  /** Accepted, although neither answer of the server brings a result: a response
      without one is an error. */
  lemma {:induction false} ErrorsPassForResults() returns (events: seq<Event>, p: Places)
    ensures WellOrdered(events) && !Conforming(events) && Handshake(events, p)
    ensures forall k :: k == p.initializeResponse || k == p.listResponse ==>
              events[k].payload.message.rpcMethod == None && events[k].payload.message.result == None
  {
    events, p := Opening(None, None, "d"), OPENING;
    OpeningAccepted(None, None);
    OpeningOrdered(None, None, "d");
  }

  /** Rejected, although the handshake is there: the server uses for a request of its
      own an id that the client used. */
  lemma {:induction false} SharedIdIsRejected() returns (events: seq<Event>)
    ensures Conforming(events) && !WellOrdered(events)
  {
    events := Opening(None, ANSWER, "a");
    OpeningOrdered(None, ANSWER, "a");
    assert AnsweredHandshake(events, OPENING);
    assert ServerId(events[1]) == ServerId(events[6]);
  }

  lemma {:induction false} DifferentTexts(x: string, y: string)
    requires x != y
    ensures IdText(StringId(x)) != IdText(StringId(y))
  {
    if IdText(StringId(x)) == IdText(StringId(y)) { IdTextInjective(StringId(x), StringId(y)); }
  }

  lemma {:induction false} OpeningIds(m: Option<Method>, result: Option<ToolResult>, last: string)
    requires last != "a" && last != "b"
    ensures ServerIdsDistinct(Opening(m, result, last))
  {
    var events := Opening(m, result, last);
    DifferentTexts("a", "b");
    DifferentTexts("a", last);
    DifferentTexts("b", last);
    assert ServerId(events[1]) == Some(IdText(StringId("a"))) && ServerId(events[4]) == Some(IdText(StringId("b")));
    assert ServerId(events[6]) == Some(IdText(StringId(last)));
  }
}
