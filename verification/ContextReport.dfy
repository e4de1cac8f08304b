/** The parts of `classify`: the context calls, the entry for every range they
    returned, the final order and the receipt follow-ups. */
module ContextReport {
  import opened Wrappers
  import opened Text
  import opened Sorting
  import opened ContextSignals
  import opened ContextIndex

  const MAX_CONTEXT_CALLS := 1_000
  const MAX_CONTEXT_RANGES := 1_000

  // ---- context calls and the ranges they returned ----

  /** `trace_by_id`: the last call with the id. */
  function TraceById(trace: seq<ToolCall>, id: string): (r: Option<ToolCall>)
    ensures r.Some? ==> r.value in trace && r.value.callId == id
  {
    if trace == [] then None
    else if trace[|trace| - 1].callId == id then Some(trace[|trace| - 1])
    else TraceById(trace[..|trace| - 1], id)
  }

  lemma {:induction false} TraceByIdFinds(trace: seq<ToolCall>, id: string)
    requires id in Sequences(trace)
    ensures TraceById(trace, id).Some? && TraceById(trace, id).value.sequence == Sequences(trace)[id]
  {
    if trace[|trace| - 1].callId != id {
      TraceByIdFinds(trace[..|trace| - 1], id);
    }
  }

  datatype ContextCall = ContextCall(call: TrajectoryCall, origin: ToolCall)

  function Total(context: seq<ContextCall>, n: nat): nat
    requires n <= |context|
  {
    if n == 0 then 0 else Total(context, n - 1) + |context[n - 1].origin.ranges|
  }

  /** Every range the first `n` context calls returned, with its call. */
  function Returned(context: seq<ContextCall>, n: nat): (r: seq<(ToolCall, Range)>)
    requires n <= |context|
    ensures |r| == Total(context, n)
  {
    if n == 0 then [] else Returned(context, n - 1) + WithOrigin(context[n - 1].origin, |context[n - 1].origin.ranges|)
  }

  function WithOrigin(origin: ToolCall, m: nat): (r: seq<(ToolCall, Range)>)
    requires m <= |origin.ranges|
    ensures |r| == m
  {
    seq(m, j requires 0 <= j < m => (origin, origin.ranges[j]))
  }

  /** The context calls among the first `n` keys, in key order. */
  function ContextCalls(trace: seq<ToolCall>, keys: seq<string>, calls: map<string, TrajectoryCall>,
                        n: nat): seq<ContextCall>
    requires n <= |keys| && forall k :: k in keys ==> k in calls
  {
    if n == 0 then []
    else
      var origin := TraceById(trace, keys[n - 1]);
      if calls[keys[n - 1]].tool == Context && origin.Some?
      then ContextCalls(trace, keys, calls, n - 1) + [ContextCall(calls[keys[n - 1]], origin.value)]
      else ContextCalls(trace, keys, calls, n - 1)
  }

  method CollectContextCalls(trace: seq<ToolCall>, keys: seq<string>, calls: map<string, TrajectoryCall>)
    returns (r: Result<seq<ContextCall>, Rejection>)
    requires forall k :: k in keys ==> k in calls
    requires forall k :: k in calls ==> k in Sequences(trace)
    ensures r == Ok(ContextCalls(trace, keys, calls, |keys|))
  {
    var context: seq<ContextCall> := [];
    var n := 0;
    while n < |keys|
      invariant n <= |keys| && context == ContextCalls(trace, keys, calls, n)
    {
      if calls[keys[n]].tool == Context {
        TraceByIdFinds(trace, keys[n]);
        var origin := TraceById(trace, keys[n]);
        if origin.None? {
          return Err(NotInTrace);
        }
        context := context + [ContextCall(calls[keys[n]], origin.value)];
      }
      n := n + 1;
    }
    r := Ok(context);
  }

  // ---- one entry per returned range ----

  ghost predicate AllDescribed(normal: Normalizer, found: seq<RangeUtilization>, returned: seq<(ToolCall, Range)>,
                               trace: seq<ToolCall>, who: set<int>, calls: map<string, TrajectoryCall>,
                               relevant: set<string>) {
    |found| == |returned|
    && forall k :: 0 <= k < |found| ==>
       Describes(normal, found[k], trace, who, calls, relevant, returned[k].0, returned[k].1)
  }

  /** One row for every range the context calls returned, in order. */
  ghost predicate RowsFor(normal: Normalizer, found: seq<RangeUtilization>, context: seq<ContextCall>,
                          trace: seq<ToolCall>, who: set<int>, calls: map<string, TrajectoryCall>,
                          relevant: set<string>) {
    AllDescribed(normal, found, Returned(context, |context|), trace, who, calls, relevant)
  }

  /** The paths the context calls returned normalise. */
  ghost predicate ContextKeyed(normal: Normalizer, context: seq<ContextCall>, n: nat)
    requires n <= |context|
  {
    forall c :: 0 <= c < n ==> RangesKeyed(normal, context[c].origin, |context[c].origin.ranges|)
  }

  /** The double loop over context calls and their ranges. */
  method DescribeRanges(normal: Normalizer, trace: seq<ToolCall>, keys: seq<string>, calls: map<string, TrajectoryCall>,
                        relevant: set<string>, index: map<PathKey, seq<Later>>, hashes: map<string, seq<nat>>,
                        context: seq<ContextCall>)
    returns (r: Result<seq<RangeUtilization>, Rejection>)
    requires IndexesRanges(normal, index, trace, calls) && IndexesHashes(hashes, keys, calls)
    ensures r.Ok? ==> RowsFor(normal, r.value, context, trace, IndexedCalls(trace, calls), calls, relevant)
    ensures r.Ok? <==> ContextKeyed(normal, context, |context|)
  {
    ghost var who := IndexedCalls(trace, calls);
    var found: seq<RangeUtilization> := [];
    var n := 0;
    while n < |context|
      invariant n <= |context| && AllDescribed(normal, found, Returned(context, n), trace, who, calls, relevant)
                && ContextKeyed(normal, context, n)
    {
      var origin := context[n].origin;
      var rows := DescribeCall(normal, index, hashes, relevant, origin);
      if rows.None? {
        return Err(BadPath);
      }
      RowsOfDescribe(normal, trace, keys, calls, relevant, index, hashes, origin);
      DescribedBoth(normal, found, rows.value, Returned(context, n), WithOrigin(origin, |origin.ranges|), trace, who,
                    calls, relevant);
      found := found + rows.value;
      n := n + 1;
    }
    r := Ok(found);
  }

  /** The rows of the first `m` ranges of a call. */
  function RowsOf(normal: Normalizer, index: map<PathKey, seq<Later>>, hashes: map<string, seq<nat>>,
                  relevant: set<string>, origin: ToolCall, m: nat): seq<RangeUtilization>
    requires m <= |origin.ranges|
  {
    if m == 0 then []
    else
      var rows := RowsOf(normal, index, hashes, relevant, origin, m - 1);
      match normal(origin.ranges[m - 1].path)
      case Some(path) => rows + [Utilization(index, hashes, relevant, origin, origin.ranges[m - 1], path)]
      case None => rows
  }

  lemma {:induction false} RowsOfAt(normal: Normalizer, index: map<PathKey, seq<Later>>, hashes: map<string, seq<nat>>,
                                    relevant: set<string>, origin: ToolCall, m: nat, k: nat)
    requires k < m <= |origin.ranges| && RangesKeyed(normal, origin, m)
    ensures |RowsOf(normal, index, hashes, relevant, origin, m)| == m && normal(origin.ranges[k].path).Some?
    ensures RowsOf(normal, index, hashes, relevant, origin, m)[k]
            == Utilization(index, hashes, relevant, origin, origin.ranges[k], normal(origin.ranges[k].path).value)
  {
    assert KeyOf(normal, origin.ranges[m - 1]).Some? && KeyOf(normal, origin.ranges[k]).Some?;
    RowsOfSize(normal, index, hashes, relevant, origin, m - 1);
    if k < m - 1 {
      RowsOfAt(normal, index, hashes, relevant, origin, m - 1, k);
    }
  }

  lemma {:induction false} RowsOfSize(normal: Normalizer, index: map<PathKey, seq<Later>>,
                                      hashes: map<string, seq<nat>>, relevant: set<string>, origin: ToolCall, m: nat)
    requires m <= |origin.ranges| && RangesKeyed(normal, origin, m)
    ensures |RowsOf(normal, index, hashes, relevant, origin, m)| == m
  {
    if m > 0 {
      assert KeyOf(normal, origin.ranges[m - 1]).Some?;
      RowsOfSize(normal, index, hashes, relevant, origin, m - 1);
    }
  }

  lemma {:induction false} RowsOfDescribe(normal: Normalizer, trace: seq<ToolCall>, keys: seq<string>,
                                          calls: map<string, TrajectoryCall>, relevant: set<string>,
                                          index: map<PathKey, seq<Later>>, hashes: map<string, seq<nat>>,
                                          origin: ToolCall)
    requires IndexesRanges(normal, index, trace, calls) && IndexesHashes(hashes, keys, calls)
    requires RangesKeyed(normal, origin, |origin.ranges|)
    ensures AllDescribed(normal, RowsOf(normal, index, hashes, relevant, origin, |origin.ranges|),
                         WithOrigin(origin, |origin.ranges|), trace, IndexedCalls(trace, calls), calls, relevant)
  {
    var m := |origin.ranges|;
    var rows := RowsOf(normal, index, hashes, relevant, origin, m);
    RowsOfSize(normal, index, hashes, relevant, origin, m);
    forall k | 0 <= k < m
      ensures Describes(normal, rows[k], trace, IndexedCalls(trace, calls), calls, relevant, origin, origin.ranges[k])
    {
      RowsOfAt(normal, index, hashes, relevant, origin, m, k);
      UtilizationDescribes(normal, trace, keys, calls, index, hashes, relevant, origin, origin.ranges[k],
                           normal(origin.ranges[k].path).value);
    }
  }

  lemma {:induction false} DescribedBoth(normal: Normalizer, found: seq<RangeUtilization>, rows: seq<RangeUtilization>,
                                         before: seq<(ToolCall, Range)>, more: seq<(ToolCall, Range)>,
                                         trace: seq<ToolCall>, who: set<int>, calls: map<string, TrajectoryCall>,
                                         relevant: set<string>)
    requires AllDescribed(normal, found, before, trace, who, calls, relevant)
             && AllDescribed(normal, rows, more, trace, who, calls, relevant)
    ensures AllDescribed(normal, found + rows, before + more, trace, who, calls, relevant)
  {
  }

  /** The inner loop: the rows of one call. */
  method DescribeCall(normal: Normalizer, index: map<PathKey, seq<Later>>, hashes: map<string, seq<nat>>,
                      relevant: set<string>, origin: ToolCall)
    returns (r: Option<seq<RangeUtilization>>)
    ensures r.Some? <==> RangesKeyed(normal, origin, |origin.ranges|)
    ensures r.Some? ==> r.value == RowsOf(normal, index, hashes, relevant, origin, |origin.ranges|)
  {
    var rows: seq<RangeUtilization> := [];
    var m := 0;
    while m < |origin.ranges|
      invariant m <= |origin.ranges| && RangesKeyed(normal, origin, m)
                && rows == RowsOf(normal, index, hashes, relevant, origin, m)
    {
      var path := normal(origin.ranges[m].path);
      if path.None? {
        RangeMissing(normal, origin, m);
        return None;
      }
      rows := rows + [Utilization(index, hashes, relevant, origin, origin.ranges[m], path.value)];
      m := m + 1;
    }
    r := Some(rows);
  }

  // ---- the final order ----

  /** The tuple order of `ranges.sort_by`. */
  predicate RowLess(a: RangeUtilization, b: RangeUtilization) {
    if a.origin != b.origin then a.origin < b.origin
    else if a.path != b.path then Less(a.path, b.path)
    else if a.start != b.start then a.start < b.start
    else if a.end != b.end then a.end < b.end
    else Less(a.hash, b.hash)
  }

  lemma {:induction false} RowLessTransitive(a: RangeUtilization, b: RangeUtilization, c: RangeUtilization)
    requires !RowLess(b, a) && !RowLess(c, b)
    ensures !RowLess(c, a)
  {
    NotLessTransitive(a.path, b.path, c.path);
    NotLessTransitive(a.hash, b.hash, c.hash);
    LessTotal(a.path, b.path);
    LessTotal(b.path, c.path);
    if a.path == c.path && a.path != b.path {
      LessAsymmetric(if Less(a.path, b.path) then a.path else b.path, if Less(a.path, b.path) then b.path else a.path);
    }
  }

  lemma {:induction false} NotLessTransitive(a: string, b: string, c: string)
    ensures !Less(b, a) && !Less(c, b) ==> !Less(c, a)
  {
    LessTotal(a, b);
    LessTotal(b, c);
    if a != b && b != c && Less(a, b) && Less(b, c) {
      LessTransitive(a, b, c);
      LessAsymmetric(a, c);
    }
  }

  lemma {:induction false} RowLessAsymmetric(a: RangeUtilization, b: RangeUtilization)
    requires RowLess(a, b)
    ensures !RowLess(b, a)
  {
    if a.path != b.path && Less(a.path, b.path) { LessAsymmetric(a.path, b.path); }
    if Less(a.hash, b.hash) { LessAsymmetric(a.hash, b.hash); }
  }

  lemma {:induction false} RowLessIsOrder()
    ensures IsOrder(RowLess)
  {
    forall a, b | RowLess(a, b) ensures !RowLess(b, a) { RowLessAsymmetric(a, b); }
    forall a, b, c | !RowLess(b, a) && !RowLess(c, b) ensures !RowLess(c, a) { RowLessTransitive(a, b, c); }
  }

  /** `ranges.sort_by` */
  function SortRows(rows: seq<RangeUtilization>): seq<RangeUtilization> {
    Sort(rows, RowLess)
  }

  lemma {:induction false} SortRowsSorts(rows: seq<RangeUtilization>)
    ensures multiset(SortRows(rows)) == multiset(rows) && Sorted(SortRows(rows), RowLess)
  {
    RowLessIsOrder();
    SortContents(rows, RowLess);
    SortSorts(rows, RowLess);
  }

  // ---- receipts ----

  function ReceiptInputs(keys: seq<string>, calls: map<string, TrajectoryCall>, n: nat): seq<(string, nat)>
    requires n <= |keys| && forall k :: k in keys ==> k in calls
  {
    if n == 0 then []
    else
      var call := calls[keys[n - 1]];
      if IsRetrieval(call.tool) && call.receiptInput.Some?
      then ReceiptInputs(keys, calls, n - 1) + [(call.receiptInput.value, call.sequence)]
      else ReceiptInputs(keys, calls, n - 1)
  }

  ghost predicate ReceiptInputAt(keys: seq<string>, calls: map<string, TrajectoryCall>, i: int, id: string,
                                 sequence: nat)
    requires forall k :: k in keys ==> k in calls
  {
    0 <= i < |keys| && IsRetrieval(calls[keys[i]].tool) && calls[keys[i]].receiptInput == Some(id)
    && calls[keys[i]].sequence == sequence
  }

  lemma {:induction false} ReceiptInputsContains(keys: seq<string>, calls: map<string, TrajectoryCall>, n: nat,
                                                 id: string, s: nat)
    requires n <= |keys| && forall k :: k in keys ==> k in calls
    ensures (id, s) in ReceiptInputs(keys, calls, n)
            <==> exists i :: 0 <= i < n && ReceiptInputAt(keys, calls, i, id, s)
  {
    if n > 0 {
      ReceiptInputsContains(keys, calls, n - 1, id, s);
      assert ReceiptInputAt(keys, calls, n - 1, id, s) <==>
             IsRetrieval(calls[keys[n - 1]].tool) && calls[keys[n - 1]].receiptInput == Some(id)
                 && calls[keys[n - 1]].sequence == s;
    }
  }

  /** A later retrieval call that was given the receipt of a context call. */
  ghost predicate FollowsReceipt(keys: seq<string>, calls: map<string, TrajectoryCall>, context: seq<ContextCall>,
                                 n: nat, s: nat)
    requires n <= |context| && forall k :: k in keys ==> k in calls
  {
    exists c, i :: 0 <= c < n && context[c].call.receiptResult.Some? && s > context[c].origin.sequence
                   && ReceiptInputAt(keys, calls, i, context[c].call.receiptResult.value, s)
  }

  method BuildReceiptIndex(keys: seq<string>, calls: map<string, TrajectoryCall>) returns (index: map<string, seq<nat>>)
    requires forall k :: k in keys ==> k in calls
    ensures Grouped(index, ReceiptInputs(keys, calls, |keys|))
  {
    index := map[];
    var n := 0;
    while n < |keys|
      invariant n <= |keys| && Grouped(index, ReceiptInputs(keys, calls, n))
    {
      var call := calls[keys[n]];
      ReceiptAdded(keys, calls, n, index);
      if IsRetrieval(call.tool) && call.receiptInput.Some? {
        index := Push(index, call.receiptInput.value, call.sequence);
      }
      n := n + 1;
    }
  }

  lemma {:induction false} ReceiptAdded(keys: seq<string>, calls: map<string, TrajectoryCall>, n: nat,
                                        index: map<string, seq<nat>>)
    requires n < |keys| && (forall k :: k in keys ==> k in calls) && Grouped(index, ReceiptInputs(keys, calls, n))
    ensures var call := calls[keys[n]];
            Grouped(if IsRetrieval(call.tool) && call.receiptInput.Some?
                    then Push(index, call.receiptInput.value, call.sequence)
                    else index, ReceiptInputs(keys, calls, n + 1))
  {
    var call := calls[keys[n]];
    if IsRetrieval(call.tool) && call.receiptInput.Some? {
      GroupOne(index, ReceiptInputs(keys, calls, n), call.receiptInput.value, call.sequence);
    }
  }

  lemma {:induction false} ReceiptEntryIff(keys: seq<string>, calls: map<string, TrajectoryCall>,
                                           index: map<string, seq<nat>>, id: string, s: nat)
    requires (forall k :: k in keys ==> k in calls) && Grouped(index, ReceiptInputs(keys, calls, |keys|))
    ensures s in Entries(index, id) <==> exists i :: 0 <= i < |keys| && ReceiptInputAt(keys, calls, i, id, s)
  {
    assert Entries(index, id) == Select<string, nat>(ReceiptInputs(keys, calls, |keys|), id);
    SelectContains<string, nat>(ReceiptInputs(keys, calls, |keys|), id, s);
    ReceiptInputsContains(keys, calls, |keys|, id, s);
  }

  /** `receipt_follow_up_ids` */
  method ReceiptFollowUps(keys: seq<string>, calls: map<string, TrajectoryCall>, context: seq<ContextCall>)
    returns (ids: set<nat>)
    requires forall k :: k in keys ==> k in calls
    ensures forall s :: s in ids <==> FollowsReceipt(keys, calls, context, |context|, s)
  {
    var index := BuildReceiptIndex(keys, calls);
    ids := {};
    var n := 0;
    while n < |context|
      invariant n <= |context| && forall s :: s in ids <==> FollowsReceipt(keys, calls, context, n, s)
    {
      var receipt := context[n].call.receiptResult;
      var later: set<nat> := {};
      if receipt.Some? {
        var sequences := Entries(index, receipt.value);
        later := set s | s in sequences && s > context[n].origin.sequence;
        forall s { ReceiptEntryIff(keys, calls, index, receipt.value, s); }
      }
      forall s ensures s in ids + later <==> FollowsReceipt(keys, calls, context, n + 1, s) {
        ReceiptStep(keys, calls, context, n, s);
      }
      ids := ids + later;
      n := n + 1;
    }
  }

  lemma {:induction false} ReceiptStep(keys: seq<string>, calls: map<string, TrajectoryCall>, context: seq<ContextCall>,
                                       n: nat, s: nat)
    requires n < |context| && forall k :: k in keys ==> k in calls
    ensures FollowsReceipt(keys, calls, context, n + 1, s) <==>
            FollowsReceipt(keys, calls, context, n, s)
            || (context[n].call.receiptResult.Some? && s > context[n].origin.sequence
                && exists i ::
                     0 <= i < |keys| && ReceiptInputAt(keys, calls, i, context[n].call.receiptResult.value, s))
  {
  }
}
