/** `classify` as a whole: the rows of the report and what its summary counts. */
module ContextSummary {
  import opened Wrappers
  import opened Text
  import opened Sorting
  import opened ContextSignals
  import opened ContextIndex
  import opened ContextReport
  import opened ContextTerms
  import opened ContextEvents

  const U64_MAX := 0xffff_ffff_ffff_ffff

  // ---- signal_count ----

  datatype SignalCount = SignalCount(ranges: nat, sourceTokens: nat, complete: bool)

  function KeepRows(rows: seq<RangeUtilization>, keep: RangeUtilization -> bool): seq<RangeUtilization> {
    if rows == [] then []
    else
      var rest := KeepRows(rows[..|rows| - 1], keep);
      if keep(rows[|rows| - 1]) then rest + [rows[|rows| - 1]] else rest
  }

  function Tokens(row: RangeUtilization): nat {
    if row.tokens.Some? then row.tokens.value else 0
  }

  /** The exact sum of the known token counts. */
  function TokenSum(rows: seq<RangeUtilization>): nat {
    if rows == [] then 0 else TokenSum(rows[..|rows| - 1]) + Tokens(rows[|rows| - 1])
  }

  predicate Complete(rows: seq<RangeUtilization>) {
    forall i :: 0 <= i < |rows| ==> rows[i].tokens.Some?
  }

  /** How many rows are kept, what their known tokens add up to, and whether all are
      known. */
  function CountOf(rows: seq<RangeUtilization>, keep: RangeUtilization -> bool): SignalCount {
    var selected := KeepRows(rows, keep);
    SignalCount(|selected|, TokenSum(selected), Complete(selected))
  }

  lemma {:induction false} TokenSumGrows(rows: seq<RangeUtilization>, n: nat)
    requires n <= |rows|
    ensures TokenSum(rows[..n]) <= TokenSum(rows)
    decreases |rows| - n
  {
    if n == |rows| {
      assert rows[..n] == rows;
    } else {
      assert rows[..n + 1][..n] == rows[..n];
      TokenSumGrows(rows, n + 1);
    }
  }

  /** `signal_count`: fails exactly when the token sum exceeds u64. */
  method CountSignal(rows: seq<RangeUtilization>, keep: RangeUtilization -> bool) returns (r: Option<SignalCount>)
    ensures r == if TokenSum(KeepRows(rows, keep)) > 18_446_744_073_709_551_615 then None
                 else Some(CountOf(rows, keep))
  {
    var selected := KeepRows(rows, keep);
    var total := 0;
    var n := 0;
    while n < |selected|
      invariant n <= |selected| && total == TokenSum(selected[..n]) <= U64_MAX
    {
      assert selected[..n + 1][..n] == selected[..n];
      TokenSumGrows(selected, n + 1);
      if selected[n].tokens.Some? {
        if total + selected[n].tokens.value > U64_MAX {
          return None;
        }
        total := total + selected[n].tokens.value;
      }
      n := n + 1;
    }
    assert selected[..n] == selected;
    r := Some(SignalCount(|selected|, total, Complete(selected)));
  }

  /** No selection overflows when all rows together do not. */
  lemma {:induction false} SelectedTokens(rows: seq<RangeUtilization>, keep: RangeUtilization -> bool)
    ensures TokenSum(KeepRows(rows, keep)) <= TokenSum(rows)
  {
    if rows != [] {
      var rest := KeepRows(rows[..|rows| - 1], keep);
      SelectedTokens(rows[..|rows| - 1], keep);
      assert (rest + [rows[|rows| - 1]])[..|rest|] == rest;
    }
  }

  lemma {:induction false} KeepsAll(rows: seq<RangeUtilization>)
    ensures KeepRows(rows, (u: RangeUtilization) => true) == rows
  {
    if rows != [] {
      KeepsAll(rows[..|rows| - 1]);
      assert rows == rows[..|rows| - 1] + [rows[|rows| - 1]];
    }
  }

  predicate HasSignal(u: RangeUtilization) {
    u.relevant || u.hashInputLater || u.exactReread || u.overlapReread
  }

  /** Ranges without a signal and ranges with one add up to all ranges, and so do
      their tokens. */
  lemma {:induction false} NoSignalIsComplement(rows: seq<RangeUtilization>)
    requires forall i :: 0 <= i < |rows| ==> rows[i].noSignal == !HasSignal(rows[i])
    ensures var quiet, loud := CountOf(rows, (u: RangeUtilization) => u.noSignal), CountOf(rows, HasSignal);
            quiet.ranges + loud.ranges == |rows| && quiet.sourceTokens + loud.sourceTokens == TokenSum(rows)
  {
    if rows != [] {
      var front, last := rows[..|rows| - 1], rows[|rows| - 1];
      NoSignalIsComplement(front);
      TokenSumSnoc(KeepRows(front, (u: RangeUtilization) => u.noSignal), last);
      TokenSumSnoc(KeepRows(front, HasSignal), last);
    }
  }

  lemma {:induction false} TokenSumSnoc(rows: seq<RangeUtilization>, row: RangeUtilization)
    ensures TokenSum(rows + [row]) == TokenSum(rows) + Tokens(row)
  {
    assert (rows + [row])[..|rows|] == rows;
  }

  // ---- tokens of the returned ranges, before and after sorting ----

  function ReturnedTokens(returned: seq<(ToolCall, Range)>): nat {
    if returned == [] then 0
    else
      var last := returned[|returned| - 1].1.tokens;
      ReturnedTokens(returned[..|returned| - 1]) + if last.Some? then last.value else 0
  }

  lemma {:induction false} DescribedTokens(normal: Normalizer, found: seq<RangeUtilization>,
                                           returned: seq<(ToolCall, Range)>, trace: seq<ToolCall>, who: set<int>,
                                           calls: map<string, TrajectoryCall>, relevant: set<string>)
    requires AllDescribed(normal, found, returned, trace, who, calls, relevant)
    ensures TokenSum(found) == ReturnedTokens(returned)
  {
    if found != [] {
      DescribedTokens(normal, found[..|found| - 1], returned[..|returned| - 1], trace, who, calls, relevant);
    }
  }

  lemma {:induction false} InsertedTokens(rows: seq<RangeUtilization>, row: RangeUtilization)
    ensures TokenSum(Insert(rows, row, RowLess)) == TokenSum(rows) + Tokens(row)
  {
    if rows == [] {
      TokenSumSnoc([], row);
    } else if RowLess(row, rows[|rows| - 1]) {
      InsertedTokens(rows[..|rows| - 1], row);
      TokenSumSnoc(Insert(rows[..|rows| - 1], row, RowLess), rows[|rows| - 1]);
    } else {
      TokenSumSnoc(rows, row);
    }
  }

  lemma {:induction false} SortedTokens(rows: seq<RangeUtilization>)
    ensures TokenSum(SortRows(rows)) == TokenSum(rows)
  {
    if rows != [] {
      SortedTokens(rows[..|rows| - 1]);
      InsertedTokens(SortRows(rows[..|rows| - 1]), rows[|rows| - 1]);
    }
  }

  // ---- retrieval after the first context call ----

  /** A retrieval call, numbered `s`, after some context call. */
  ghost predicate FollowsContext(keys: seq<string>, calls: map<string, TrajectoryCall>, n: nat,
                                 context: seq<ContextCall>, s: nat)
    requires n <= |keys| && forall k :: k in keys ==> k in calls
  {
    && (exists i :: 0 <= i < n && IsRetrieval(calls[keys[i]].tool) && calls[keys[i]].sequence == s)
    && (exists c :: 0 <= c < |context| && context[c].call.sequence < s)
  }

  method FirstContext(context: seq<ContextCall>) returns (first: Option<nat>)
    ensures first.None? <==> context == []
    ensures first.Some? ==> (exists c :: 0 <= c < |context| && context[c].call.sequence == first.value)
                            && forall c :: 0 <= c < |context| ==> first.value <= context[c].call.sequence
  {
    first := None;
    var n := 0;
    while n < |context|
      invariant n <= |context| && (first.None? <==> n == 0)
      invariant first.Some? ==> (exists c :: 0 <= c < n && context[c].call.sequence == first.value)
                                && forall c :: 0 <= c < n ==> first.value <= context[c].call.sequence
    {
      if first.None? || context[n].call.sequence < first.value {
        first := Some(context[n].call.sequence);
      }
      n := n + 1;
    }
  }

  /** `follow_up_retrieval_ids` */
  method RetrievalFollowUps(keys: seq<string>, calls: map<string, TrajectoryCall>, context: seq<ContextCall>)
    returns (ids: set<nat>)
    requires forall k :: k in keys ==> k in calls
    ensures forall s :: s in ids <==> FollowsContext(keys, calls, |keys|, context, s)
  {
    var first := FirstContext(context);
    ids := {};
    var n := 0;
    while n < |keys|
      invariant n <= |keys|
      invariant forall s :: s in ids <==> FollowsContext(keys, calls, n, context, s)
    {
      var call := calls[keys[n]];
      if IsRetrieval(call.tool) && first.Some? && call.sequence > first.value {
        ids := ids + {call.sequence};
      }
      n := n + 1;
    }
  }

  function Successes(context: seq<ContextCall>): (r: nat)
    ensures r <= |context|
  {
    if context == [] then 0
    else Successes(context[..|context| - 1]) + if context[|context| - 1].origin.success then 1 else 0
  }

  // ---- classify ----

  datatype Report = Report(rows: seq<RangeUtilization>, contextCalls: nat, successful: nat, failed: nat,
                           all: SignalCount, relevant: SignalCount, hashInput: SignalCount, exact: SignalCount,
                           overlap: SignalCount, quiet: SignalCount, receiptFollowUps: nat, retrievalFollowUps: nat)

  /** What a classification says: one row per range that a context call returned, as
      a multiset; each row agrees with the scan of all later calls among `who`; the rows
      are in the report's order; the summary counts them. */
  ghost predicate Classified(normal: Normalizer, trace: seq<ToolCall>, who: set<int>, keys: seq<string>,
                             calls: map<string, TrajectoryCall>, relevant: set<string>, report: Report) {
    && KeysInOrder(keys, calls)
    && var context := ContextCalls(trace, keys, calls, |keys|);
       && SortedRowsFor(normal, report.rows, context, trace, who, calls, relevant)
       && report.contextCalls == |context| && report.successful == Successes(context)
       && report.failed == |context| - Successes(context)
       && Counted(report)
       && (exists ids: set<nat> :: report.receiptFollowUps == |ids| && AreReceiptFollowUps(ids, keys, calls, context))
       && (exists ids: set<nat> ::
           report.retrievalFollowUps == |ids| && AreRetrievalFollowUps(ids, keys, calls, context))
  }

  ghost predicate AreReceiptFollowUps(ids: set<nat>, keys: seq<string>, calls: map<string, TrajectoryCall>,
                                      context: seq<ContextCall>)
    requires forall k :: k in keys ==> k in calls
  {
    forall s :: s in ids <==> FollowsReceipt(keys, calls, context, |context|, s)
  }

  ghost predicate AreRetrievalFollowUps(ids: set<nat>, keys: seq<string>, calls: map<string, TrajectoryCall>,
                                        context: seq<ContextCall>)
    requires forall k :: k in keys ==> k in calls
  {
    forall s :: s in ids <==> FollowsContext(keys, calls, |keys|, context, s)
  }

  ghost predicate Counted(report: Report) {
    && report.all == SignalCount(|report.rows|, TokenSum(report.rows), Complete(report.rows))
    && report.relevant == CountOf(report.rows, (u: RangeUtilization) => u.relevant)
    && report.hashInput == CountOf(report.rows, (u: RangeUtilization) => u.hashInputLater)
    && report.exact == CountOf(report.rows, (u: RangeUtilization) => u.exactReread)
    && report.overlap == CountOf(report.rows, (u: RangeUtilization) => u.overlapReread)
    && report.quiet == CountOf(report.rows, (u: RangeUtilization) => u.noSignal)
  }

  // ---- the report by the events ----

  /** The tokens of the rows that are kept, as far as they are known. */
  function TokensWhere(rows: seq<RangeUtilization>, keep: RangeUtilization -> bool): nat {
    if rows == [] then 0
    else
      var last := rows[|rows| - 1];
      TokensWhere(rows[..|rows| - 1], keep)
      + if keep(last) && last.tokens.Some? then last.tokens.value else 0
  }

  ghost function PlacesWhere(rows: seq<RangeUtilization>, keep: RangeUtilization -> bool): set<int> {
    set i | 0 <= i < |rows| && keep(rows[i])
  }

  lemma {:induction false} PlacesSnoc(rows: seq<RangeUtilization>, keep: RangeUtilization -> bool)
    requires rows != []
    ensures |PlacesWhere(rows, keep)|
            == |PlacesWhere(rows[..|rows| - 1], keep)| + if keep(rows[|rows| - 1]) then 1 else 0
  {
    var front, n := rows[..|rows| - 1], |rows| - 1;
    assert PlacesWhere(rows, keep) == PlacesWhere(front, keep) + if keep(rows[n]) then {n} else {};
    assert n !in PlacesWhere(front, keep);
  }

  lemma {:induction false} CompleteSnoc(rows: seq<RangeUtilization>, row: RangeUtilization)
    ensures Complete(rows + [row]) <==> Complete(rows) && row.tokens.Some?
  {
    assert (rows + [row])[|rows|] == row;
    assert forall i :: 0 <= i < |rows| ==> (rows + [row])[i] == rows[i];
  }

  ghost predicate KnownWhere(rows: seq<RangeUtilization>, keep: RangeUtilization -> bool) {
    forall i :: 0 <= i < |rows| && keep(rows[i]) ==> rows[i].tokens.Some?
  }

  /** A count says how many rows are kept, what their known tokens add up to, and
      whether all of them are known. */
  lemma {:induction false} CountIs(rows: seq<RangeUtilization>, keep: RangeUtilization -> bool)
    ensures var c := CountOf(rows, keep);
            && c.ranges == |PlacesWhere(rows, keep)| && c.sourceTokens == TokensWhere(rows, keep)
            && (c.complete <==> KnownWhere(rows, keep))
  {
    if rows != [] {
      var front, last := rows[..|rows| - 1], rows[|rows| - 1];
      CountIs(front, keep);
      TokenSumSnoc(KeepRows(front, keep), last);
      CompleteSnoc(KeepRows(front, keep), last);
      PlacesSnoc(rows, keep);
      assert KnownWhere(rows, keep) <==> KnownWhere(front, keep) && (keep(last) ==> last.tokens.Some?);
    }
  }

  ghost function Succeeded(context: seq<ContextCall>): set<int> {
    set c | 0 <= c < |context| && context[c].origin.success
  }

  lemma {:induction false} SuccessesIs(context: seq<ContextCall>)
    ensures Successes(context) == |Succeeded(context)|
  {
    if context != [] {
      var front, last := context[..|context| - 1], context[|context| - 1];
      SuccessesIs(front);
      assert Succeeded(context) == Succeeded(front) + if last.origin.success then {|context| - 1} else {};
      assert |context| - 1 !in Succeeded(front);
    }
  }

  /** What the report says of the events: one context call for every call of the trace
      that a context event stands for, one row for every range these returned, and the
      calls that follow them. */
  ghost predicate EventReport(trace: seq<ToolCall>, events: seq<TrajectoryEvent>, relevant: set<string>,
                              report: Report) {
    && Counted(report) && InTupleOrder(report.rows)
    && (exists ids, context :: ContextIds(trace, events, ids) && OriginsAre(trace, ids, context)
                               && ReportsCalls(trace, events, relevant, context, report))
    && (exists used: set<nat> :: report.receiptFollowUps == |used| && AreReceiptUsers(trace, events, used))
    && (exists after: set<nat> :: report.retrievalFollowUps == |after| && AreContextFollowers(trace, events, after))
  }

  ghost predicate AreReceiptUsers(trace: seq<ToolCall>, events: seq<TrajectoryEvent>, used: set<nat>) {
    forall s: nat :: s in used <==> UsesReceipt(trace, events, s)
  }

  ghost predicate AreContextFollowers(trace: seq<ToolCall>, events: seq<TrajectoryEvent>, after: set<nat>) {
    forall s: nat :: s in after <==> ComesAfterContext(trace, events, s)
  }

  ghost predicate ReportsCalls(trace: seq<ToolCall>, events: seq<TrajectoryEvent>, relevant: set<string>,
                               context: seq<ContextCall>, report: Report) {
    && RowsSay(Normalized, report.rows, trace, events, relevant, context)
    && report.contextCalls == |context| && report.successful == |Succeeded(context)|
    && report.failed == |context| - |Succeeded(context)|
  }

  lemma {:induction false} ReportIsOfEvents(trace: seq<ToolCall>, events: seq<TrajectoryEvent>, keys: seq<string>,
                                            calls: map<string, TrajectoryCall>, relevant: set<string>, report: Report)
    requires CallsOf(ResolveAll(events, trace), |events|, calls)
    requires Classified(Normalized, trace, IndexedCalls(trace, calls), keys, calls, relevant, report)
    ensures EventReport(trace, events, relevant, report)
  {
    var context := ContextCalls(trace, keys, calls, |keys|);
    var ids := ContextIs(trace, events, keys, calls);
    SuccessesIs(context);
    var found :| report.rows == SortRows(found)
                 && RowsFor(Normalized, found, context, trace, IndexedCalls(trace, calls), calls, relevant);
    FoundSay(Normalized, found, trace, events, calls, relevant, context);
    SortMembers(found, RowLess);
    SortedSay(Normalized, found, report.rows, trace, events, relevant, context);
    TupleOrdered(report.rows);
    assert ReportsCalls(trace, events, relevant, context, report);
    var used: set<nat> :| report.receiptFollowUps == |used| && AreReceiptFollowUps(used, keys, calls, context);
    ReceiptUsers(trace, events, keys, calls, ids, context, used);
    var after: set<nat> :| report.retrievalFollowUps == |after| && AreRetrievalFollowUps(after, keys, calls, context);
    ContextFollowers(trace, events, keys, calls, ids, context, after);
  }

  lemma {:induction false} ReceiptUsers(trace: seq<ToolCall>, events: seq<TrajectoryEvent>, keys: seq<string>,
                                        calls: map<string, TrajectoryCall>, ids: seq<string>,
                                        context: seq<ContextCall>, used: set<nat>)
    requires CallsOf(ResolveAll(events, trace), |events|, calls) && KeysInOrder(keys, calls)
    requires ContextIds(trace, events, ids) && OriginsAre(trace, ids, context) && CallsUnder(calls, ids, context)
    requires AreReceiptFollowUps(used, keys, calls, context)
    ensures AreReceiptUsers(trace, events, used)
  {
    forall s ensures s in used <==> UsesReceipt(trace, events, s) {
      ReceiptIff(trace, events, keys, calls, ids, context, s);
    }
  }

  lemma {:induction false} ContextFollowers(trace: seq<ToolCall>, events: seq<TrajectoryEvent>, keys: seq<string>,
                                            calls: map<string, TrajectoryCall>, ids: seq<string>,
                                            context: seq<ContextCall>, after: set<nat>)
    requires CallsOf(ResolveAll(events, trace), |events|, calls) && KeysInOrder(keys, calls)
    requires ContextIds(trace, events, ids) && OriginsAre(trace, ids, context) && CallsUnder(calls, ids, context)
    requires AreRetrievalFollowUps(after, keys, calls, context)
    ensures AreContextFollowers(trace, events, after)
  {
    forall s ensures s in after <==> ComesAfterContext(trace, events, s) {
      FollowsIff(keys, calls, context, s);
      AfterContextIff(trace, events, keys, calls, ids, context, s);
    }
  }

  lemma {:induction false} FollowsIff(keys: seq<string>, calls: map<string, TrajectoryCall>,
                                      context: seq<ContextCall>, s: nat)
    requires forall k :: k in keys ==> k in calls
    ensures FollowsContext(keys, calls, |keys|, context, s) <==> AfterContext(keys, calls, context, s)
  {
  }

  /** The bounds that `classify` enforces. */
  ghost predicate Classifiable(normal: Normalizer, trace: seq<ToolCall>, keys: seq<string>,
                               calls: map<string, TrajectoryCall>)
    requires forall k :: k in keys ==> k in calls
  {
    var context := ContextCalls(trace, keys, calls, |keys|);
    && |context| <= 1_000 && Total(context, |context|) <= 1_000
    && PathsKeyed(normal, trace, calls, |trace|) && |HashInputs(keys, calls, |keys|)| <= 100_000
    && ContextKeyed(normal, context, |context|)
    && ReturnedTokens(Returned(context, |context|)) <= 18_446_744_073_709_551_615
  }

  /** `classify`: rejects unresolvable trajectories and exceeded bounds, and nothing
      else; otherwise reports on every returned range. */
  method Classify(trace: seq<ToolCall>, events: seq<TrajectoryEvent>, relevant: set<string>)
    returns (r: Result<Report, Rejection>)
    ensures r.Ok? <==> && Trajectory(trace, events)
                       && exists keys, calls ::
                            CallsOf(ResolveAll(events, trace), |events|, calls) && KeysInOrder(keys, calls)
                            && Classifiable(Normalized, trace, keys, calls)
    ensures r.Ok? ==> exists keys, calls ::
              && CallsOf(ResolveAll(events, trace), |events|, calls)
              && Classified(Normalized, trace, IndexedCalls(trace, calls), keys, calls, relevant, r.value)
              && ((forall i :: !Stray(trace, calls, i)) ==>
                    Classified(Normalized, trace, RetrievalCalls(trace, calls), keys, calls, relevant, r.value))
    ensures r.Ok? ==> EventReport(trace, events, relevant, r.value)
  {
    TrajectoryIff(trace, events);
    var parsed := TrajectoryCalls(events, trace);
    if parsed.Err? {
      return Err(parsed.error);
    }
    var (keys, calls) := parsed.value;
    forall others, other | CallsOf(ResolveAll(events, trace), |events|, other) && KeysInOrder(others, other)
      ensures other == calls && others == keys
    {
      CallsUnique(ResolveAll(events, trace), calls, other);
      AscendingUnique(keys, others);
    }
    CallsInTrace(events, trace, calls);
    IndexedIsRetrievalIff(trace, calls);
    r := ClassifyCalls(Normalized, trace, keys, calls, relevant);
    if r.Ok? {
      ReportIsOfEvents(trace, events, keys, calls, relevant, r.value);
    }
  }

  lemma {:induction false} CallsUnique(rs: seq<Resolution>, a: map<string, TrajectoryCall>,
                                       b: map<string, TrajectoryCall>)
    requires CallsOf(rs, |rs|, a) && CallsOf(rs, |rs|, b)
    ensures a == b
  {
    forall id ensures id in a <==> id in b {
      if id in a || id in b {
        var i :| 0 <= i < |rs| && rs[i].Named? && rs[i].id == id;
      }
    }
    forall id | id in a ensures a[id] == b[id] {
      var i :| 0 <= i < |rs| && rs[i].Named? && rs[i].id == id;
    }
  }

  method ClassifyCalls(normal: Normalizer, trace: seq<ToolCall>, keys: seq<string>, calls: map<string, TrajectoryCall>,
                       relevant: set<string>)
    returns (r: Result<Report, Rejection>)
    requires KeysInOrder(keys, calls) && forall k :: k in calls ==> k in Sequences(trace)
    ensures r.Ok? <==> Classifiable(normal, trace, keys, calls)
    ensures r.Ok? ==> Classified(normal, trace, IndexedCalls(trace, calls), keys, calls, relevant, r.value)
  {
    var collected := CollectContextCalls(trace, keys, calls);
    var context := collected.value;
    if |context| > MAX_CONTEXT_CALLS {
      return Err(TooManyContextCalls);
    }
    if Total(context, |context|) > MAX_CONTEXT_RANGES {
      return Err(TooManyContextRanges);
    }
    var index := BuildRangeIndex(normal, trace, calls);
    if index.Err? {
      return Err(index.error);
    }
    var hashes := BuildHashIndex(keys, calls);
    if hashes.Err? {
      return Err(hashes.error);
    }
    var receipts := ReceiptFollowUps(keys, calls, context);
    assert AreReceiptFollowUps(receipts, keys, calls, context);
    var retrievals := RetrievalFollowUps(keys, calls, context);
    assert AreRetrievalFollowUps(retrievals, keys, calls, context);
    var rows := DescribeSorted(normal, trace, keys, calls, relevant, index.value, hashes.value, context);
    if rows.Err? {
      return Err(rows.error);
    }
    r := Summarise(context, rows.value, |receipts|, |retrievals|);
  }

  /** The rows for the context calls, sorted. */
  ghost predicate SortedRowsFor(normal: Normalizer, rows: seq<RangeUtilization>, context: seq<ContextCall>,
                                trace: seq<ToolCall>, who: set<int>, calls: map<string, TrajectoryCall>,
                                relevant: set<string>) {
    && (exists found :: rows == SortRows(found) && RowsFor(normal, found, context, trace, who, calls, relevant))
    && Sorted(rows, RowLess) && |rows| == Total(context, |context|)
  }

  method DescribeSorted(normal: Normalizer, trace: seq<ToolCall>, keys: seq<string>, calls: map<string, TrajectoryCall>,
                        relevant: set<string>, index: map<PathKey, seq<Later>>, hashes: map<string, seq<nat>>,
                        context: seq<ContextCall>)
    returns (r: Result<seq<RangeUtilization>, Rejection>)
    requires IndexesRanges(normal, index, trace, calls) && IndexesHashes(hashes, keys, calls)
    ensures r.Ok? <==> ContextKeyed(normal, context, |context|)
    ensures r.Ok? ==> SortedRowsFor(normal, r.value, context, trace, IndexedCalls(trace, calls), calls, relevant)
                      && TokenSum(r.value) == ReturnedTokens(Returned(context, |context|))
  {
    var found := DescribeRanges(normal, trace, keys, calls, relevant, index, hashes, context);
    if found.Err? {
      return Err(found.error);
    }
    var rows := SortRows(found.value);
    SortRowsSorts(found.value);
    SortMembers(found.value, RowLess);
    SortedTokens(found.value);
    DescribedTokens(normal, found.value, Returned(context, |context|), trace, IndexedCalls(trace, calls), calls,
                    relevant);
    r := Ok(rows);
  }

  /** The summary. */
  method Summarise(context: seq<ContextCall>, rows: seq<RangeUtilization>, receipts: nat, retrievals: nat)
    returns (r: Result<Report, Rejection>)
    ensures r.Ok? <==> TokenSum(rows) <= U64_MAX
    ensures r.Ok? ==>
            r.value.rows == rows && r.value.contextCalls == |context| && r.value.successful == Successes(context)
                      && r.value.failed == |context| - Successes(context) && r.value.receiptFollowUps == receipts
                      && r.value.retrievalFollowUps == retrievals && Counted(r.value)
  {
    KeepsAll(rows);
    var all := CountSignal(rows, (u: RangeUtilization) => true);
    if all.None? {
      return Err(TooManyTokens);
    }
    var relevant := CountWithin(rows, (u: RangeUtilization) => u.relevant);
    var hashInput := CountWithin(rows, (u: RangeUtilization) => u.hashInputLater);
    var exact := CountWithin(rows, (u: RangeUtilization) => u.exactReread);
    var overlap := CountWithin(rows, (u: RangeUtilization) => u.overlapReread);
    var quiet := CountWithin(rows, (u: RangeUtilization) => u.noSignal);
    r := Ok(Report(rows, |context|, Successes(context), |context| - Successes(context), all.value, relevant, hashInput,
                   exact, overlap, quiet, receipts, retrievals));
  }

  /** A count that cannot overflow because that of all rows did not. */
  method CountWithin(rows: seq<RangeUtilization>, keep: RangeUtilization -> bool) returns (c: SignalCount)
    requires TokenSum(rows) <= U64_MAX
    ensures c == CountOf(rows, keep)
  {
    SelectedTokens(rows, keep);
    var counted := CountSignal(rows, keep);
    c := counted.value;
  }
}
