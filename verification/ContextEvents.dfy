/** The report of `classify`, said on the events of the trajectory and the calls of the
    trace. */
module ContextEvents {
  import opened Wrappers
  import opened Text
  import opened Sorting
  import opened ContextSignals
  import opened ContextReport
  import opened ContextTerms

  // ---- context calls ----

  ghost predicate LastAt(trace: seq<ToolCall>, id: string, i: int) {
    0 <= i < |trace| && trace[i].callId == id && forall j :: i < j < |trace| ==> trace[j].callId != id
  }

  /** The last call of the trace under the id. */
  ghost predicate LastCall(trace: seq<ToolCall>, id: string, call: ToolCall) {
    exists i :: LastAt(trace, id, i) && trace[i] == call
  }

  lemma {:induction false} LastAtFront(trace: seq<ToolCall>, id: string, i: int)
    requires trace != [] && trace[|trace| - 1].callId != id
    ensures LastAt(trace, id, i) <==> LastAt(trace[..|trace| - 1], id, i)
  {
    assert forall j :: 0 <= j < |trace| - 1 ==> trace[..|trace| - 1][j] == trace[j];
  }

  lemma {:induction false} TraceByIdIs(trace: seq<ToolCall>, id: string) returns (i: int)
    requires HasCall(trace, id)
    ensures LastAt(trace, id, i) && TraceById(trace, id) == Some(trace[i])
  {
    if trace[|trace| - 1].callId == id {
      i := |trace| - 1;
    } else {
      EarlierCall(trace, id);
      i := TraceByIdIs(trace[..|trace| - 1], id);
      LastAtFront(trace, id, i);
    }
  }

  lemma {:induction false} LastCallSequence(trace: seq<ToolCall>, id: string, call: ToolCall)
    requires LastCall(trace, id, call)
    ensures LastSequence(trace, id, call.sequence)
  {
    var i :| LastAt(trace, id, i) && trace[i] == call;
  }

  ghost predicate ContextEvent(trace: seq<ToolCall>, events: seq<TrajectoryEvent>, id: string) {
    exists k :: 0 <= k < |events| && Calls(trace, events[k], Context, id)
  }

  /** The ids of the calls that a context event stands for, in ascending order. */
  ghost predicate ContextIds(trace: seq<ToolCall>, events: seq<TrajectoryEvent>, ids: seq<string>) {
    Ascending(ids) && forall id :: id in ids <==> ContextEvent(trace, events, id)
  }

  ghost predicate OriginsAre(trace: seq<ToolCall>, ids: seq<string>, context: seq<ContextCall>) {
    |context| == |ids| && forall c :: 0 <= c < |ids| ==> LastCall(trace, ids[c], context[c].origin)
  }

  ghost predicate CallsUnder(calls: map<string, TrajectoryCall>, ids: seq<string>, context: seq<ContextCall>) {
    |context| == |ids| && forall c :: 0 <= c < |ids| ==> ids[c] in calls && calls[ids[c]] == context[c].call
  }

  /** The context calls among the first `n` keys. */
  ghost predicate ContextKeys(keys: seq<string>, calls: map<string, TrajectoryCall>, n: nat, ids: seq<string>)
    requires n <= |keys| && forall k :: k in keys ==> k in calls
  {
    Ascending(ids) && forall id :: id in ids <==> id in keys[..n] && calls[id].tool == Context
  }

  lemma {:induction false} ContextKeyAdded(keys: seq<string>, calls: map<string, TrajectoryCall>, n: nat,
                                           ids: seq<string>)
    requires n < |keys| && Ascending(keys) && (forall k :: k in keys ==> k in calls)
    requires ContextKeys(keys, calls, n, ids)
    ensures ContextKeys(keys, calls, n + 1, if calls[keys[n]].tool == Context then ids + [keys[n]] else ids)
  {
    assert keys[..n + 1] == keys[..n] + [keys[n]];
    forall j | 0 <= j < |ids| ensures Less(ids[j], keys[n]) {
      assert ids[j] in ids;
      var i :| 0 <= i < n && keys[..n][i] == ids[j];
      assert keys[i] == ids[j];
    }
  }

  lemma {:induction false} ContextAdded(trace: seq<ToolCall>, keys: seq<string>, calls: map<string, TrajectoryCall>,
                                        n: nat, ids: seq<string>)
    requires n < |keys| && forall k :: k in keys ==> k in calls && HasCall(trace, k)
    requires OriginsAre(trace, ids, ContextCalls(trace, keys, calls, n))
    requires CallsUnder(calls, ids, ContextCalls(trace, keys, calls, n))
    ensures var next, context := if calls[keys[n]].tool == Context then ids + [keys[n]] else ids,
            ContextCalls(trace, keys, calls, n + 1);
            OriginsAre(trace, next, context) && CallsUnder(calls, next, context)
  {
    if calls[keys[n]].tool == Context {
      var i := TraceByIdIs(trace, keys[n]);
      assert LastCall(trace, keys[n], trace[i]);
    }
  }

  lemma {:induction false} ContextUpTo(trace: seq<ToolCall>, keys: seq<string>, calls: map<string, TrajectoryCall>,
                                       n: nat)
    returns (ids: seq<string>)
    requires n <= |keys| && Ascending(keys) && (forall k :: k in keys ==> k in calls && HasCall(trace, k))
    ensures ContextKeys(keys, calls, n, ids)
    ensures OriginsAre(trace, ids, ContextCalls(trace, keys, calls, n))
    ensures CallsUnder(calls, ids, ContextCalls(trace, keys, calls, n))
  {
    if n == 0 {
      ids := [];
    } else {
      var front := ContextUpTo(trace, keys, calls, n - 1);
      ids := ContextNext(trace, keys, calls, n - 1, front);
    }
  }

  lemma {:induction false} ContextNext(trace: seq<ToolCall>, keys: seq<string>, calls: map<string, TrajectoryCall>,
                                       n: nat, front: seq<string>)
    returns (ids: seq<string>)
    requires n < |keys| && Ascending(keys) && (forall k :: k in keys ==> k in calls && HasCall(trace, k))
    requires ContextKeys(keys, calls, n, front)
    requires OriginsAre(trace, front, ContextCalls(trace, keys, calls, n))
    requires CallsUnder(calls, front, ContextCalls(trace, keys, calls, n))
    ensures ContextKeys(keys, calls, n + 1, ids)
    ensures OriginsAre(trace, ids, ContextCalls(trace, keys, calls, n + 1))
    ensures CallsUnder(calls, ids, ContextCalls(trace, keys, calls, n + 1))
  {
    ContextKeyAdded(keys, calls, n, front);
    ContextAdded(trace, keys, calls, n, front);
    ids := if calls[keys[n]].tool == Context then front + [keys[n]] else front;
  }

  /** The context calls are those that context events stand for, by ascending id, each
      with what its event says and the last call of the trace under that id. */
  lemma {:induction false} ContextIs(trace: seq<ToolCall>, events: seq<TrajectoryEvent>, keys: seq<string>,
                                     calls: map<string, TrajectoryCall>)
    returns (ids: seq<string>)
    requires CallsOf(ResolveAll(events, trace), |events|, calls) && KeysInOrder(keys, calls)
    ensures ContextIds(trace, events, ids)
    ensures var context := ContextCalls(trace, keys, calls, |keys|);
            OriginsAre(trace, ids, context) && CallsUnder(calls, ids, context)
  {
    forall k | k in keys ensures k in calls && HasCall(trace, k) { CallHasPlace(trace, events, calls, k); }
    ids := ContextUpTo(trace, keys, calls, |keys|);
    assert keys[..|keys|] == keys;
    forall id ensures id in ids <==> ContextEvent(trace, events, id) {
      ContextEventIff(trace, events, calls, id);
    }
  }

  lemma {:induction false} CallHasPlace(trace: seq<ToolCall>, events: seq<TrajectoryEvent>,
                                        calls: map<string, TrajectoryCall>, id: string)
    requires CallsOf(ResolveAll(events, trace), |events|, calls) && id in calls
    ensures HasCall(trace, id)
  {
    CallIsSaid(trace, events, calls, id);
    var i :| 0 <= i < |events| && SaysWhat(trace, events[i], id, calls[id]);
  }

  lemma {:induction false} ContextEventIff(trace: seq<ToolCall>, events: seq<TrajectoryEvent>,
                                           calls: map<string, TrajectoryCall>, id: string)
    requires CallsOf(ResolveAll(events, trace), |events|, calls)
    ensures ContextEvent(trace, events, id) <==> id in calls && calls[id].tool == Context
  {
    if id in calls && calls[id].tool == Context {
      CallIsSaid(trace, events, calls, id);
      var k :| 0 <= k < |events| && SaysWhat(trace, events[k], id, calls[id]);
      assert Calls(trace, events[k], Context, id);
    }
    if ContextEvent(trace, events, id) {
      var k :| 0 <= k < |events| && Calls(trace, events[k], Context, id);
      EventSays(trace, events, calls, k, Context, id);
    }
  }

  // ---- rows ----

  /** The calls whose ranges are looked at: those of retrieval events, and the left-over
      ones. */
  ghost function Searched(trace: seq<ToolCall>, events: seq<TrajectoryEvent>): set<int> {
    set i | 0 <= i < |trace| && (Retrieved(trace, events, i) || LeftOver(trace, events, i))
  }

  lemma {:induction false} SearchedIs(trace: seq<ToolCall>, events: seq<TrajectoryEvent>,
                                      calls: map<string, TrajectoryCall>)
    requires CallsOf(ResolveAll(events, trace), |events|, calls)
    ensures IndexedCalls(trace, calls) == Searched(trace, events)
  {
    IndexedIsRetrievalIff(trace, calls);
    forall i ensures i in IndexedCalls(trace, calls) <==> i in Searched(trace, events) {
      RetrievedIff(trace, events, calls, i);
      StrayIff(trace, events, calls, i);
      assert i in Strays(trace, calls) <==> Stray(trace, calls, i);
    }
  }

  /** What a row says of a range that `origin` returned. */
  ghost predicate RowSays(normal: Normalizer, u: RangeUtilization, trace: seq<ToolCall>, events: seq<TrajectoryEvent>,
                          relevant: set<string>, origin: ToolCall, range: Range) {
    var key, who := (range.generation, u.path), Searched(trace, events);
    && u.origin == origin.sequence && u.generation == range.generation && normal(range.path) == Some(u.path)
    && u.start == range.start && u.end == range.end && u.hash == range.hash && u.tokens == range.tokens
    && u.relevant == (u.path in relevant)
    && u.hashInputLater == HashNamedLater(trace, events, range.hash, origin.sequence)
    && u.exactReread == ExactReread(normal, trace, who, key, origin.sequence, range)
    && u.overlapReread == OverlapReread(normal, trace, who, key, origin.sequence, range)
    && u.noSignal == !(u.relevant || u.hashInputLater || u.exactReread || u.overlapReread)
    && FirstFollowUp(normal, trace, who, key, origin.sequence, range, u.firstFollowUp)
  }

  lemma {:induction false} RowSaysIff(normal: Normalizer, u: RangeUtilization, trace: seq<ToolCall>,
                                      events: seq<TrajectoryEvent>, calls: map<string, TrajectoryCall>,
                                      relevant: set<string>, origin: ToolCall, range: Range)
    requires CallsOf(ResolveAll(events, trace), |events|, calls)
    ensures Describes(normal, u, trace, IndexedCalls(trace, calls), calls, relevant, origin, range)
            <==> RowSays(normal, u, trace, events, relevant, origin, range)
  {
    SearchedIs(trace, events, calls);
    HashLaterIff(trace, events, calls, range.hash, origin.sequence);
  }

  /** Range `j` of the `c`th context call. */
  ghost predicate ReturnedAt(context: seq<ContextCall>, c: nat, j: nat, origin: ToolCall, range: Range) {
    c < |context| && origin == context[c].origin && j < |origin.ranges| && range == origin.ranges[j]
  }

  lemma {:induction false} ReturnedFrom(context: seq<ContextCall>, n: nat, k: nat) returns (c: nat, j: nat)
    requires n <= |context| && k < |Returned(context, n)|
    ensures c < n && ReturnedAt(context, c, j, Returned(context, n)[k].0, Returned(context, n)[k].1)
  {
    if k < |Returned(context, n - 1)| {
      c, j := ReturnedFrom(context, n - 1, k);
    } else {
      c, j := n - 1, k - |Returned(context, n - 1)|;
    }
  }

  lemma {:induction false} ReturnedTo(context: seq<ContextCall>, n: nat, c: nat, j: nat) returns (k: nat)
    requires c < n <= |context| && j < |context[c].origin.ranges|
    ensures k < |Returned(context, n)| && Returned(context, n)[k] == (context[c].origin, context[c].origin.ranges[j])
  {
    if c < n - 1 {
      k := ReturnedTo(context, n - 1, c, j);
    } else {
      k := |Returned(context, n - 1)| + j;
    }
  }

  /** Row `u` is one of the rows, and says this of the range. */
  ghost predicate RowAmong(normal: Normalizer, rows: seq<RangeUtilization>, trace: seq<ToolCall>,
                           events: seq<TrajectoryEvent>, relevant: set<string>, origin: ToolCall, range: Range) {
    exists u :: u in rows && RowSays(normal, u, trace, events, relevant, origin, range)
  }

  ghost predicate RangeBehind(normal: Normalizer, u: RangeUtilization, trace: seq<ToolCall>,
                              events: seq<TrajectoryEvent>, relevant: set<string>, context: seq<ContextCall>) {
    exists c, j, origin, range ::
      ReturnedAt(context, c, j, origin, range) && RowSays(normal, u, trace, events, relevant, origin, range)
  }

  /** As many rows as ranges were returned; each says what became of one of them, and
      each of them has one. */
  ghost predicate RowsSay(normal: Normalizer, rows: seq<RangeUtilization>, trace: seq<ToolCall>,
                          events: seq<TrajectoryEvent>, relevant: set<string>, context: seq<ContextCall>) {
    && |rows| == Total(context, |context|)
    && (forall u :: u in rows ==> RangeBehind(normal, u, trace, events, relevant, context))
    && forall c, j, origin, range :: ReturnedAt(context, c, j, origin, range) ==>
         RowAmong(normal, rows, trace, events, relevant, origin, range)
  }

  lemma {:induction false} FoundSay(normal: Normalizer, found: seq<RangeUtilization>, trace: seq<ToolCall>,
                                    events: seq<TrajectoryEvent>, calls: map<string, TrajectoryCall>,
                                    relevant: set<string>, context: seq<ContextCall>)
    requires CallsOf(ResolveAll(events, trace), |events|, calls)
    requires RowsFor(normal, found, context, trace, IndexedCalls(trace, calls), calls, relevant)
    ensures RowsSay(normal, found, trace, events, relevant, context)
  {
    var returned := Returned(context, |context|);
    forall k | 0 <= k < |found|
      ensures RowSays(normal, found[k], trace, events, relevant, returned[k].0, returned[k].1)
    {
      RowSaysIff(normal, found[k], trace, events, calls, relevant, returned[k].0, returned[k].1);
    }
    forall u | u in found ensures RangeBehind(normal, u, trace, events, relevant, context) {
      var k :| 0 <= k < |found| && found[k] == u;
      var c, j := ReturnedFrom(context, |context|, k);
      assert ReturnedAt(context, c, j, returned[k].0, returned[k].1);
    }
    forall c: nat, j: nat, origin, range | ReturnedAt(context, c, j, origin, range)
      ensures RowAmong(normal, found, trace, events, relevant, origin, range)
    {
      var k := ReturnedTo(context, |context|, c, j);
      assert found[k] in found && RowSays(normal, found[k], trace, events, relevant, origin, range);
    }
  }

  lemma {:induction false} SortedSay(normal: Normalizer, found: seq<RangeUtilization>, rows: seq<RangeUtilization>,
                                     trace: seq<ToolCall>, events: seq<TrajectoryEvent>, relevant: set<string>,
                                     context: seq<ContextCall>)
    requires RowsSay(normal, found, trace, events, relevant, context)
    requires |rows| == |found| && forall u :: u in rows <==> u in found
    ensures RowsSay(normal, rows, trace, events, relevant, context)
  {
    forall c: nat, j: nat, origin, range | ReturnedAt(context, c, j, origin, range)
      ensures RowAmong(normal, rows, trace, events, relevant, origin, range)
    {
      assert RowAmong(normal, found, trace, events, relevant, origin, range);
      var u :| u in found && RowSays(normal, u, trace, events, relevant, origin, range);
      assert u in rows;
    }
  }

  // ---- the order of the rows ----

  /** By origin, then path, first line, last line and hash. */
  ghost predicate TupleOrder(a: RangeUtilization, b: RangeUtilization) {
    || a.origin < b.origin
    || (a.origin == b.origin
        && (|| Less(a.path, b.path)
            || (a.path == b.path
                && (|| a.start < b.start
                    || (a.start == b.start
                        && (a.end < b.end || (a.end == b.end && (a.hash == b.hash || Less(a.hash, b.hash)))))))))
  }

  lemma {:induction false} TupleOrderIff(a: RangeUtilization, b: RangeUtilization)
    ensures TupleOrder(a, b) <==> !RowLess(b, a)
  {
    LessTotal(a.path, b.path);
    LessTotal(a.hash, b.hash);
    if Less(a.path, b.path) { LessAsymmetric(a.path, b.path); }
    if Less(a.hash, b.hash) { LessAsymmetric(a.hash, b.hash); }
    if a.hash == b.hash { LessIrreflexive(a.hash); }
  }

  ghost predicate InTupleOrder(rows: seq<RangeUtilization>) {
    forall i, j :: 0 <= i < j < |rows| ==> TupleOrder(rows[i], rows[j])
  }

  lemma {:induction false} TupleOrdered(rows: seq<RangeUtilization>)
    requires Sorted(rows, RowLess)
    ensures InTupleOrder(rows)
  {
    forall i, j | 0 <= i < j < |rows| ensures TupleOrder(rows[i], rows[j]) {
      TupleOrderIff(rows[i], rows[j]);
    }
  }

  // ---- follow-ups ----

  /** A retrieval event of a call with sequence `s`. */
  ghost predicate RetrievesAs(trace: seq<ToolCall>, e: TrajectoryEvent, id: string, s: nat) {
    Retrieves(trace, e, id) && LastSequence(trace, id, s)
  }

  /** A context event of a call with sequence `s`. */
  ghost predicate AsksAs(trace: seq<ToolCall>, e: TrajectoryEvent, id: string, s: nat) {
    Calls(trace, e, Context, id) && LastSequence(trace, id, s)
  }

  /** The retrieval event `k` of a call numbered `s` comes after the context event `m`. */
  ghost predicate ComesAfter(trace: seq<ToolCall>, events: seq<TrajectoryEvent>, k: int, m: int, s: nat) {
    && 0 <= k < |events| && 0 <= m < |events|
    && exists id, from, t: nat :: RetrievesAs(trace, events[k], id, s) && AsksAs(trace, events[m], from, t) && t < s
  }

  /** A retrieval call that comes after a context call and was given its receipt. */
  ghost predicate UsesReceipt(trace: seq<ToolCall>, events: seq<TrajectoryEvent>, s: nat) {
    exists k, m :: ComesAfter(trace, events, k, m, s) && events[m].receiptResult.Some?
                   && events[k].receiptInput == events[m].receiptResult
  }

  /** A retrieval call that comes after a context call. */
  ghost predicate ComesAfterContext(trace: seq<ToolCall>, events: seq<TrajectoryEvent>, s: nat) {
    exists k, m :: ComesAfter(trace, events, k, m, s)
  }

  /** The event behind a retrieval key. */
  lemma {:induction false} RetrievalBehind(trace: seq<ToolCall>, events: seq<TrajectoryEvent>,
                                           calls: map<string, TrajectoryCall>, id: string)
    returns (k: int)
    requires CallsOf(ResolveAll(events, trace), |events|, calls) && id in calls && IsRetrieval(calls[id].tool)
    ensures 0 <= k < |events| && RetrievesAs(trace, events[k], id, calls[id].sequence)
    ensures events[k].receiptInput == calls[id].receiptInput
  {
    CallIsSaid(trace, events, calls, id);
    k :| 0 <= k < |events| && SaysWhat(trace, events[k], id, calls[id]);
    RetrievesIff(trace, events[k], id, calls[id]);
  }

  lemma {:induction false} RetrievalKey(trace: seq<ToolCall>, events: seq<TrajectoryEvent>, keys: seq<string>,
                                        calls: map<string, TrajectoryCall>, k: int, id: string, s: nat)
    returns (i: int)
    requires CallsOf(ResolveAll(events, trace), |events|, calls) && KeysInOrder(keys, calls)
    requires 0 <= k < |events| && RetrievesAs(trace, events[k], id, s)
    ensures 0 <= i < |keys| && keys[i] == id && id in calls && IsRetrieval(calls[id].tool)
    ensures calls[id].sequence == s && calls[id].receiptInput == events[k].receiptInput
  {
    EventSays(trace, events, calls, k, events[k].tool.value, id);
    RetrievesIff(trace, events[k], id, calls[id]);
    LastSequenceOnce(trace, id, s, calls[id].sequence);
    assert id in keys;
    i :| 0 <= i < |keys| && keys[i] == id;
  }

  /** The event behind a context call. */
  lemma {:induction false} ContextBehind(trace: seq<ToolCall>, events: seq<TrajectoryEvent>,
                                         calls: map<string, TrajectoryCall>, ids: seq<string>,
                                         context: seq<ContextCall>, c: nat)
    returns (m: int)
    requires CallsOf(ResolveAll(events, trace), |events|, calls) && ContextIds(trace, events, ids)
    requires OriginsAre(trace, ids, context) && CallsUnder(calls, ids, context) && c < |ids|
    ensures 0 <= m < |events| && AsksAs(trace, events[m], ids[c], context[c].origin.sequence)
    ensures events[m].receiptResult == context[c].call.receiptResult
    ensures context[c].call.sequence == context[c].origin.sequence
  {
    assert ids[c] in ids;
    m :| 0 <= m < |events| && Calls(trace, events[m], Context, ids[c]);
    EventSays(trace, events, calls, m, Context, ids[c]);
    LastCallSequence(trace, ids[c], context[c].origin);
    LastSequenceOnce(trace, ids[c], context[c].call.sequence, context[c].origin.sequence);
  }

  lemma {:induction false} ContextPlace(trace: seq<ToolCall>, events: seq<TrajectoryEvent>,
                                        calls: map<string, TrajectoryCall>, ids: seq<string>,
                                        context: seq<ContextCall>, m: int, from: string, t: nat)
    returns (c: nat)
    requires CallsOf(ResolveAll(events, trace), |events|, calls) && ContextIds(trace, events, ids)
    requires OriginsAre(trace, ids, context) && CallsUnder(calls, ids, context)
    requires 0 <= m < |events| && AsksAs(trace, events[m], from, t)
    ensures c < |context| && context[c].origin.sequence == t == context[c].call.sequence
    ensures context[c].call.receiptResult == events[m].receiptResult
  {
    assert ContextEvent(trace, events, from);
    assert from in ids;
    c :| 0 <= c < |ids| && ids[c] == from;
    EventSays(trace, events, calls, m, Context, from);
    LastCallSequence(trace, from, context[c].origin);
    LastSequenceOnce(trace, from, t, context[c].origin.sequence);
    LastSequenceOnce(trace, from, t, context[c].call.sequence);
  }

  /** Retrieval key `i`, numbered `s`, and context call `c` before it. */
  ghost predicate KeyAfter(keys: seq<string>, calls: map<string, TrajectoryCall>, context: seq<ContextCall>, i: int,
                           c: int, s: nat)
    requires forall k :: k in keys ==> k in calls
  {
    && 0 <= i < |keys| && 0 <= c < |context| && IsRetrieval(calls[keys[i]].tool) && calls[keys[i]].sequence == s
    && context[c].origin.sequence < s
  }

  lemma {:induction false} EventsBehind(trace: seq<ToolCall>, events: seq<TrajectoryEvent>, keys: seq<string>,
                                        calls: map<string, TrajectoryCall>, ids: seq<string>,
                                        context: seq<ContextCall>, i: int, c: int, s: nat)
    returns (k: int, m: int)
    requires CallsOf(ResolveAll(events, trace), |events|, calls) && KeysInOrder(keys, calls)
    requires ContextIds(trace, events, ids) && OriginsAre(trace, ids, context) && CallsUnder(calls, ids, context)
    requires KeyAfter(keys, calls, context, i, c, s)
    ensures ComesAfter(trace, events, k, m, s)
    ensures events[k].receiptInput == calls[keys[i]].receiptInput
    ensures events[m].receiptResult == context[c].call.receiptResult
  {
    assert keys[i] in keys;
    k := RetrievalBehind(trace, events, calls, keys[i]);
    m := ContextBehind(trace, events, calls, ids, context, c);
    assert RetrievesAs(trace, events[k], keys[i], s) && AsksAs(trace, events[m], ids[c], context[c].origin.sequence);
  }

  lemma {:induction false} KeysBehind(trace: seq<ToolCall>, events: seq<TrajectoryEvent>, keys: seq<string>,
                                      calls: map<string, TrajectoryCall>, ids: seq<string>,
                                      context: seq<ContextCall>, k: int, m: int, s: nat)
    returns (i: int, c: int)
    requires CallsOf(ResolveAll(events, trace), |events|, calls) && KeysInOrder(keys, calls)
    requires ContextIds(trace, events, ids) && OriginsAre(trace, ids, context) && CallsUnder(calls, ids, context)
    requires ComesAfter(trace, events, k, m, s)
    ensures KeyAfter(keys, calls, context, i, c, s)
    ensures events[k].receiptInput == calls[keys[i]].receiptInput
    ensures events[m].receiptResult == context[c].call.receiptResult
    ensures context[c].call.sequence < s
  {
    var id, from, t: nat :| RetrievesAs(trace, events[k], id, s) && AsksAs(trace, events[m], from, t) && t < s;
    i := RetrievalKey(trace, events, keys, calls, k, id, s);
    c := ContextPlace(trace, events, calls, ids, context, m, from, t);
  }

  lemma {:induction false} ReceiptIff(trace: seq<ToolCall>, events: seq<TrajectoryEvent>, keys: seq<string>,
                                      calls: map<string, TrajectoryCall>, ids: seq<string>,
                                      context: seq<ContextCall>, s: nat)
    requires CallsOf(ResolveAll(events, trace), |events|, calls) && KeysInOrder(keys, calls)
    requires ContextIds(trace, events, ids) && OriginsAre(trace, ids, context) && CallsUnder(calls, ids, context)
    ensures FollowsReceipt(keys, calls, context, |context|, s) <==> UsesReceipt(trace, events, s)
  {
    if FollowsReceipt(keys, calls, context, |context|, s) {
      ReceiptIsUsed(trace, events, keys, calls, ids, context, s);
    }
    if UsesReceipt(trace, events, s) {
      UseFollows(trace, events, keys, calls, ids, context, s);
    }
  }

  lemma {:induction false} ReceiptIsUsed(trace: seq<ToolCall>, events: seq<TrajectoryEvent>, keys: seq<string>,
                                         calls: map<string, TrajectoryCall>, ids: seq<string>,
                                         context: seq<ContextCall>, s: nat)
    requires CallsOf(ResolveAll(events, trace), |events|, calls) && KeysInOrder(keys, calls)
    requires ContextIds(trace, events, ids) && OriginsAre(trace, ids, context) && CallsUnder(calls, ids, context)
    requires FollowsReceipt(keys, calls, context, |context|, s)
    ensures UsesReceipt(trace, events, s)
  {
    var c, i :| 0 <= c < |context| && context[c].call.receiptResult.Some? && s > context[c].origin.sequence
                && ReceiptInputAt(keys, calls, i, context[c].call.receiptResult.value, s);
    var k, m := EventsBehind(trace, events, keys, calls, ids, context, i, c, s);
  }

  lemma {:induction false} UseFollows(trace: seq<ToolCall>, events: seq<TrajectoryEvent>, keys: seq<string>,
                                      calls: map<string, TrajectoryCall>, ids: seq<string>,
                                      context: seq<ContextCall>, s: nat)
    requires CallsOf(ResolveAll(events, trace), |events|, calls) && KeysInOrder(keys, calls)
    requires ContextIds(trace, events, ids) && OriginsAre(trace, ids, context) && CallsUnder(calls, ids, context)
    requires UsesReceipt(trace, events, s)
    ensures FollowsReceipt(keys, calls, context, |context|, s)
  {
    var k, m :| ComesAfter(trace, events, k, m, s) && events[m].receiptResult.Some?
                && events[k].receiptInput == events[m].receiptResult;
    var i, c := KeysBehind(trace, events, keys, calls, ids, context, k, m, s);
    assert ReceiptInputAt(keys, calls, i, context[c].call.receiptResult.value, s);
  }

  /** What the follow-up retrievals are collected by. */
  ghost predicate AfterContext(keys: seq<string>, calls: map<string, TrajectoryCall>, context: seq<ContextCall>, s: nat)
    requires forall k :: k in keys ==> k in calls
  {
    && (exists i :: 0 <= i < |keys| && IsRetrieval(calls[keys[i]].tool) && calls[keys[i]].sequence == s)
    && (exists c :: 0 <= c < |context| && context[c].call.sequence < s)
  }

  lemma {:induction false} AfterContextIff(trace: seq<ToolCall>, events: seq<TrajectoryEvent>, keys: seq<string>,
                                           calls: map<string, TrajectoryCall>, ids: seq<string>,
                                           context: seq<ContextCall>, s: nat)
    requires CallsOf(ResolveAll(events, trace), |events|, calls) && KeysInOrder(keys, calls)
    requires ContextIds(trace, events, ids) && OriginsAre(trace, ids, context) && CallsUnder(calls, ids, context)
    ensures AfterContext(keys, calls, context, s) <==> ComesAfterContext(trace, events, s)
  {
    if AfterContext(keys, calls, context, s) {
      var i :| 0 <= i < |keys| && IsRetrieval(calls[keys[i]].tool) && calls[keys[i]].sequence == s;
      var c :| 0 <= c < |context| && context[c].call.sequence < s;
      var m := ContextBehind(trace, events, calls, ids, context, c);
      var k, n := EventsBehind(trace, events, keys, calls, ids, context, i, c, s);
    }
    if ComesAfterContext(trace, events, s) {
      var k, m :| ComesAfter(trace, events, k, m, s);
      var i, c := KeysBehind(trace, events, keys, calls, ids, context, k, m, s);
    }
  }
}
