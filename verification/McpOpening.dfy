/** What `validate_mcp_host_order` accepts, said on the messages. */
module McpOpening {
  import opened Wrappers
  import opened McpTrace
  import opened McpHandshake

  /** The client sends a message with this method. */
  predicate Asks(e: Event, m: Method) {
    e.direction == ClientToServer && e.payload.Present? && e.payload.message.rpcMethod == Some(m)
  }

  /** The server sends a message under this id. */
  predicate SentUnder(e: Event, id: ScalarId) {
    e.direction == ServerToClient && e.payload.Present? && e.payload.message.id == Some(id)
  }

  ghost predicate AskedOnceAt(events: seq<Event>, m: Method, k: nat) {
    k < |events| && Asks(events[k], m) && forall j :: 0 <= j < |events| && Asks(events[j], m) ==> j == k
  }

  /** The messages at `j` and `k`: the client's has an id, and the server's comes under it. */
  ghost predicate Paired(events: seq<Event>, j: nat, k: nat) {
    && j < |events| && k < |events| && events[j].payload.Present? && events[j].payload.message.id.Some?
    && SentUnder(events[k], events[j].payload.message.id.value)
  }

  /** initialize and the server's message under its id, initialized, tools/list and the
      server's message under its id, and then the tool calls. */
  ghost predicate OpensAt(events: seq<Event>, p: Places) {
    && p.initialize < p.initializeResponse < p.initialized < p.list < p.listResponse < |events|
    && AskedOnceAt(events, Initialize, p.initialize) && AskedOnceAt(events, Initialized, p.initialized)
    && AskedOnceAt(events, ToolsList, p.list)
    && Paired(events, p.initialize, p.initializeResponse) && Paired(events, p.list, p.listResponse)
    && (forall k :: 0 <= k < |events| && Asks(events[k], ToolsCall) ==> p.listResponse < k)
    && exists k :: 0 <= k < |events| && Asks(events[k], ToolsCall)
  }

  ghost predicate AllReadable(events: seq<Event>) {
    forall k :: 0 <= k < |events| ==>
      events[k].payload.Present? || (events[k].payload == Absent && events[k].direction == Handoff)
  }

  /** No two messages of the server come under one id. */
  ghost predicate IdsUsedOnce(events: seq<Event>) {
    forall j, k, id ::
      0 <= j < |events| && 0 <= k < |events| && SentUnder(events[j], id) && SentUnder(events[k], id) ==> j == k
  }

  /** Every event is readable, the server uses no id twice, and the trace opens in order. */
  ghost predicate Opened(events: seq<Event>) {
    AllReadable(events) && IdsUsedOnce(events) && exists p :: OpensAt(events, p)
  }

  /** The message brings a result, and no method. */
  predicate BringsResult(e: Event) {
    e.payload.Present? && e.payload.message.rpcMethod == None && e.payload.message.result.Some?
  }

  lemma {:induction false} AsksIff(e: Event, m: Method)
    ensures Asks(e, m) <==> IsRequest(e, m)
    ensures Asks(e, m) ==> RequestId(e) == match e.payload.message.id
                                           case Some(id) => Some(IdText(id))
                                           case None => None
  {
  }

  lemma {:induction false} SentIff(e: Event, id: ScalarId)
    ensures SentUnder(e, id) <==> ServerId(e) == Some(IdText(id))
  {
    if ServerId(e) == Some(IdText(id)) {
      IdTextInjective(id, e.payload.message.id.value);
    }
  }

  lemma {:induction false} OnceIff(events: seq<Event>, m: Method, k: nat)
    ensures AskedOnceAt(events, m, k) <==> OnlyRequestAt(events, m, k)
  {
    forall e { AsksIff(e, m); }
  }

  lemma {:induction false} PairedIff(events: seq<Event>, m: Method, j: nat, k: nat)
    requires j < |events| && k < |events| && Asks(events[j], m)
    ensures Paired(events, j, k) <==> RequestId(events[j]).Some? && ServerId(events[k]) == RequestId(events[j])
  {
    AsksIff(events[j], m);
    var id := events[j].payload.message.id;
    if id.Some? { SentIff(events[k], id.value); }
  }

  lemma {:induction false} OpensIff(events: seq<Event>, p: Places)
    ensures Handshake(events, p) <==> OpensAt(events, p)
  {
    OnceIff(events, Initialize, p.initialize);
    OnceIff(events, Initialized, p.initialized);
    OnceIff(events, ToolsList, p.list);
    forall e ensures Asks(e, ToolsCall) <==> IsRequest(e, ToolsCall) { AsksIff(e, ToolsCall); }
    if AskedOnceAt(events, Initialize, p.initialize) && p.initializeResponse < |events| {
      PairedIff(events, Initialize, p.initialize, p.initializeResponse);
    }
    if AskedOnceAt(events, ToolsList, p.list) && p.listResponse < |events| {
      PairedIff(events, ToolsList, p.list, p.listResponse);
    }
  }

  lemma {:induction false} OnceUsedIff(events: seq<Event>)
    ensures IdsUsedOnce(events) <==> ServerIdsDistinct(events)
  {
    forall e, id ensures SentUnder(e, id) <==> ServerId(e) == Some(IdText(id)) { SentIff(e, id); }
    if IdsUsedOnce(events) {
      forall j, k | 0 <= j < k < |events| && ServerId(events[j]).Some?
        ensures ServerId(events[j]) != ServerId(events[k])
      {
        assert SentUnder(events[j], events[j].payload.message.id.value);
      }
    }
    if ServerIdsDistinct(events) {
      forall j, k, id | 0 <= j < |events| && 0 <= k < |events| && SentUnder(events[j], id) && SentUnder(events[k], id)
        ensures j == k
      {
        assert ServerId(events[j]) == ServerId(events[k]) && ServerId(events[j]).Some?;
      }
    }
  }

  /** These are exactly the traces that are accepted. */
  lemma {:induction false} OrderedIff(events: seq<Event>)
    ensures WellOrdered(events) <==> Opened(events)
  {
    OnceUsedIff(events);
    forall p ensures Handshake(events, p) <==> OpensAt(events, p) { OpensIff(events, p); }
  }

  /** It conforms exactly when it opens in this order and both answers bring a result. */
  lemma {:induction false} ConformingIff(events: seq<Event>)
    ensures Conforming(events) <==>
            AllReadable(events)
            && exists p :: OpensAt(events, p) && BringsResult(events[p.initializeResponse])
                           && BringsResult(events[p.listResponse])
  {
    forall p ensures AnsweredHandshake(events, p) <==>
                     OpensAt(events, p) && BringsResult(events[p.initializeResponse])
                     && BringsResult(events[p.listResponse])
    {
      OpensIff(events, p);
    }
  }
}
