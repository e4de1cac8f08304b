/** `validate_artifacts`: what the trace must satisfy before it is classified. */
module ContextArtifacts {
  import opened Wrappers
  import opened RepositoryPath
  import opened ContextSignals
  import opened ContextIndex
  import opened ContextReport

  const SCHEMA := 1
  const MAX_TRACE_CALLS := 100_000
  const MAX_TRAJECTORY_EVENTS := 100_000
  const MAX_TRACE_RANGES := 100_000
  const MAX_RANGES_PER_PATH := 10_000

  datatype Refusal =
    | WrongSchema | BindingsDiffer | TooManyCalls | TooManyEvents | NotIncreasing | RepeatedCall | InvalidRange
    | TooManyRanges | TooManyOnPath

  predicate IsHexDigit(c: char) {
    '0' <= c <= '9' || 'a' <= c <= 'f' || 'A' <= c <= 'F'
  }

  /** `validate_range` */
  predicate ValidRange(normal: Normalizer, range: Range) {
    && range.start != 0 && range.start <= range.end
    && KeyOf(normal, range).Some?
    && |range.hash| == 32 && forall i :: 0 <= i < 32 ==> IsHexDigit(range.hash[i])
  }

  ghost predicate RangesValid(normal: Normalizer, call: ToolCall, m: nat)
    requires m <= |call.ranges|
  {
    forall j :: 0 <= j < m ==> ValidRange(normal, call.ranges[j])
  }

  /** The keyed ranges of the first `n` calls. */
  ghost function AllKeyed(normal: Normalizer, trace: seq<ToolCall>, n: nat): seq<(PathKey, Later)>
    requires n <= |trace|
  {
    if n == 0 then [] else AllKeyed(normal, trace, n - 1) + KeyedRanges(normal, trace[n - 1], |trace[n - 1].ranges|)
  }

  /** Few enough ranges, in all and on each path of each generation. */
  ghost predicate Bounded(list: seq<(PathKey, Later)>) {
    |list| <= 100_000 && forall key :: OnPath(list, key) <= 10_000
  }

  ghost function OnPath(list: seq<(PathKey, Later)>, key: PathKey): nat {
    |Select<PathKey, Later>(list, key)|
  }

  /** Sequences increase, call ids differ, ranges are valid. */
  ghost predicate Ordered(normal: Normalizer, trace: seq<ToolCall>, n: nat)
    requires n <= |trace|
  {
    && (forall i, j :: 0 <= i < j < n ==> trace[i].sequence < trace[j].sequence && trace[i].callId != trace[j].callId)
    && (forall i :: 0 <= i < n ==> RangesValid(normal, trace[i], |trace[i].ranges|))
  }

  ghost predicate ValidTrace(normal: Normalizer, trace: seq<ToolCall>) {
    Ordered(normal, trace, |trace|) && Bounded(AllKeyed(normal, trace, |trace|))
  }

  // ---- counting ----

  function CountAt(counts: map<PathKey, nat>, key: PathKey): nat {
    if key in counts then counts[key] else 0
  }

  ghost predicate Counts(counts: map<PathKey, nat>, list: seq<(PathKey, Later)>) {
    forall key :: CountAt(counts, key) == OnPath(list, key)
  }

  lemma {:induction false} OneMoreOnPath(list: seq<(PathKey, Later)>, key: PathKey, e: Later, other: PathKey)
    ensures OnPath(list + [(key, e)], other) == OnPath(list, other) + if other == key then 1 else 0
  {
    assert (list + [(key, e)])[..|list|] == list;
  }

  lemma {:induction false} PrefixBounded(list: seq<(PathKey, Later)>, more: seq<(PathKey, Later)>)
    requires Bounded(list + more)
    ensures Bounded(list)
    decreases |more|
  {
    if more == [] {
      assert list + more == list;
    } else {
      var front, last := more[..|more| - 1], more[|more| - 1];
      assert list + more == (list + front) + [last];
      forall key ensures OnPath(list + front, key) <= MAX_RANGES_PER_PATH {
        OneMoreOnPath(list + front, last.0, last.1, key);
      }
      PrefixBounded(list, front);
    }
  }

  lemma {:induction false} KeyedPrefix(normal: Normalizer, call: ToolCall, m: nat) returns (rest: seq<(PathKey, Later)>)
    requires m <= |call.ranges|
    ensures KeyedRanges(normal, call, |call.ranges|) == KeyedRanges(normal, call, m) + rest
    decreases |call.ranges| - m
  {
    if m == |call.ranges| {
      rest := [];
    } else {
      rest := KeyedPrefix(normal, call, m + 1);
      var key := KeyOf(normal, call.ranges[m]);
      if key.Some? {
        var e := Later(call.sequence, call.ranges[m].start, call.ranges[m].end);
        assert KeyedRanges(normal, call, m) + [(key.value, e)] + rest
               == KeyedRanges(normal, call, m) + ([(key.value, e)] + rest);
        rest := [(key.value, e)] + rest;
      }
    }
  }

  lemma {:induction false} BoundedRange(normal: Normalizer, before: seq<(PathKey, Later)>, call: ToolCall, m: nat)
    requires m <= |call.ranges| && Bounded(before + KeyedRanges(normal, call, |call.ranges|))
    ensures Bounded(before + KeyedRanges(normal, call, m))
  {
    var rest := KeyedPrefix(normal, call, m);
    assert before + KeyedRanges(normal, call, |call.ranges|) == (before + KeyedRanges(normal, call, m)) + rest;
    PrefixBounded(before + KeyedRanges(normal, call, m), rest);
  }

  lemma {:induction false} BoundedCall(normal: Normalizer, trace: seq<ToolCall>, n: nat)
    requires n <= |trace| && Bounded(AllKeyed(normal, trace, |trace|))
    ensures Bounded(AllKeyed(normal, trace, n))
    decreases |trace| - n
  {
    if n < |trace| {
      BoundedCall(normal, trace, n + 1);
      PrefixBounded(AllKeyed(normal, trace, n), KeyedRanges(normal, trace[n], |trace[n].ranges|));
    }
  }

  lemma {:induction false} CountOne(counts: map<PathKey, nat>, list: seq<(PathKey, Later)>, key: PathKey, e: Later)
    requires Counts(counts, list)
    ensures Counts(counts[key := CountAt(counts, key) + 1], list + [(key, e)])
    ensures |list| < MAX_TRACE_RANGES && Bounded(list) ==>
              (Bounded(list + [(key, e)]) <==> CountAt(counts, key) + 1 <= MAX_RANGES_PER_PATH)
  {
    forall other
      ensures OnPath(list + [(key, e)], other) == OnPath(list, other) + if other == key then 1 else 0
    {
      OneMoreOnPath(list, key, e, other);
    }
  }

  lemma {:induction false} NextKeyed(normal: Normalizer, before: seq<(PathKey, Later)>, call: ToolCall, m: nat)
    requires m < |call.ranges| && KeyOf(normal, call.ranges[m]).Some?
    ensures before + KeyedRanges(normal, call, m + 1)
            == (before + KeyedRanges(normal, call, m))
               + [(KeyOf(normal, call.ranges[m]).value, Later(call.sequence, call.ranges[m].start, call.ranges[m].end))]
  {
  }

  // ---- the loops ----

  /** The inner loop: the ranges of one call. */
  method ValidateRanges(normal: Normalizer, call: ToolCall, ghost before: seq<(PathKey, Later)>,
                        counts: map<PathKey, nat>, total: nat)
    returns (r: Result<(map<PathKey, nat>, nat), Refusal>)
    requires Counts(counts, before) && total == |before| && Bounded(before)
    ensures r.Ok? <==>
              RangesValid(normal, call, |call.ranges|) && Bounded(before + KeyedRanges(normal, call, |call.ranges|))
    ensures r.Ok? ==> var after := before + KeyedRanges(normal, call, |call.ranges|);
                      Counts(r.value.0, after) && r.value.1 == |after|
  {
    var counted: map<PathKey, nat> := counts;
    var sum := total;
    var m := 0;
    assert before + KeyedRanges(normal, call, 0) == before;
    while m < |call.ranges|
      invariant m <= |call.ranges| && RangesValid(normal, call, m)
      invariant var list := before + KeyedRanges(normal, call, m);
                Counts(counted, list) && sum == |list| && Bounded(list)
    {
      if !ValidRange(normal, call.ranges[m]) {
        return Err(InvalidRange);
      }
      var key := KeyOf(normal, call.ranges[m]).value;
      ghost var list := before + KeyedRanges(normal, call, m);
      NextKeyed(normal, before, call, m);
      CountOne(counted, list, key, Later(call.sequence, call.ranges[m].start, call.ranges[m].end));
      sum := sum + 1;
      if sum > MAX_TRACE_RANGES {
        NotBounded(normal, before, call, m + 1);
        return Err(TooManyRanges);
      }
      counted := counted[key := CountAt(counted, key) + 1];
      if counted[key] > MAX_RANGES_PER_PATH {
        NotBounded(normal, before, call, m + 1);
        return Err(TooManyOnPath);
      }
      m := m + 1;
    }
    r := Ok((counted, sum));
  }

  lemma {:induction false} NotBounded(normal: Normalizer, before: seq<(PathKey, Later)>, call: ToolCall, m: nat)
    requires m <= |call.ranges| && !Bounded(before + KeyedRanges(normal, call, m))
    ensures !Bounded(before + KeyedRanges(normal, call, |call.ranges|))
  {
    if Bounded(before + KeyedRanges(normal, call, |call.ranges|)) {
      BoundedRange(normal, before, call, m);
    }
  }

  /** `validate_artifacts` */
  method ValidateArtifacts(traceSchema: nat, trajectorySchema: nat, sameBinding: bool, trace: seq<ToolCall>,
                           eventCount: nat)
    returns (r: Result<(), Refusal>)
    ensures r.Ok? <==> traceSchema == 1 == trajectorySchema && sameBinding && |trace| <= 100_000
                       && eventCount <= 100_000 && ValidTrace(Normalized, trace)
  {
    if traceSchema != SCHEMA || trajectorySchema != SCHEMA {
      return Err(WrongSchema);
    }
    if !sameBinding {
      return Err(BindingsDiffer);
    }
    if |trace| > MAX_TRACE_CALLS {
      return Err(TooManyCalls);
    }
    if eventCount > MAX_TRAJECTORY_EVENTS {
      return Err(TooManyEvents);
    }
    r := ValidateCalls(Normalized, trace);
  }

  ghost predicate IdsOf(trace: seq<ToolCall>, n: nat, ids: set<string>)
    requires n <= |trace|
  {
    forall id :: id in ids <==> exists i :: 0 <= i < n && trace[i].callId == id
  }

  lemma {:induction false} RepeatedId(normal: Normalizer, trace: seq<ToolCall>, n: nat, ids: set<string>)
    requires n < |trace| && IdsOf(trace, n, ids) && trace[n].callId in ids
    ensures !ValidTrace(normal, trace)
  {
    var i :| 0 <= i < n && trace[i].callId == trace[n].callId;
  }

  lemma {:induction false} NewId(trace: seq<ToolCall>, n: nat, ids: set<string>)
    requires n < |trace| && IdsOf(trace, n, ids)
    ensures IdsOf(trace, n + 1, ids + {trace[n].callId})
  {
    forall id ensures id in ids + {trace[n].callId} <==> exists i :: 0 <= i < n + 1 && trace[i].callId == id {
      if id in ids {
        var i :| 0 <= i < n && trace[i].callId == id;
        assert 0 <= i < n + 1 && trace[i].callId == id;
      }
    }
  }

  lemma {:induction false} NextOrdered(normal: Normalizer, trace: seq<ToolCall>, n: nat, ids: set<string>)
    requires n < |trace| && Ordered(normal, trace, n) && IdsOf(trace, n, ids) && trace[n].callId !in ids
    requires n > 0 ==> trace[n - 1].sequence < trace[n].sequence
    requires RangesValid(normal, trace[n], |trace[n].ranges|)
    ensures Ordered(normal, trace, n + 1)
  {
  }

  lemma {:induction false} NotAfter(normal: Normalizer, trace: seq<ToolCall>, n: nat)
    requires 0 < n < |trace| && trace[n].sequence <= trace[n - 1].sequence
    ensures !ValidTrace(normal, trace)
  {
  }

  /** A call that passes all checks. */
  lemma {:induction false} NextCall(normal: Normalizer, trace: seq<ToolCall>, n: nat, ids: set<string>)
    requires n < |trace| && Ordered(normal, trace, n) && IdsOf(trace, n, ids) && trace[n].callId !in ids
    requires n > 0 ==> trace[n - 1].sequence < trace[n].sequence
    requires RangesValid(normal, trace[n], |trace[n].ranges|)
    ensures Ordered(normal, trace, n + 1) && IdsOf(trace, n + 1, ids + {trace[n].callId})
    ensures AllKeyed(normal, trace, n + 1)
            == AllKeyed(normal, trace, n) + KeyedRanges(normal, trace[n], |trace[n].ranges|)
  {
    NextOrdered(normal, trace, n, ids);
    NewId(trace, n, ids);
  }

  lemma {:induction false} BadCall(normal: Normalizer, trace: seq<ToolCall>, n: nat)
    requires n < |trace|
    requires !RangesValid(normal, trace[n], |trace[n].ranges|) || !Bounded(AllKeyed(normal, trace, n + 1))
    ensures !ValidTrace(normal, trace)
  {
    if Bounded(AllKeyed(normal, trace, |trace|)) {
      BoundedCall(normal, trace, n + 1);
    }
  }

  /** The loop over the calls. */
  method ValidateCalls(normal: Normalizer, trace: seq<ToolCall>) returns (r: Result<(), Refusal>)
    ensures r.Ok? <==> ValidTrace(normal, trace)
  {
    var prior: Option<nat> := None;
    var ids: set<string> := {};
    var counts: map<PathKey, nat> := map[];
    var total := 0;
    var n := 0;
    while n < |trace|
      invariant n <= |trace| && Ordered(normal, trace, n) && Bounded(AllKeyed(normal, trace, n)) && IdsOf(trace, n, ids)
      invariant prior == if n == 0 then None else Some(trace[n - 1].sequence)
      invariant Counts(counts, AllKeyed(normal, trace, n)) && total == |AllKeyed(normal, trace, n)|
    {
      var call := trace[n];
      if prior.Some? && call.sequence <= prior.value {
        NotAfter(normal, trace, n);
        return Err(NotIncreasing);
      }
      if call.callId in ids {
        RepeatedId(normal, trace, n, ids);
        return Err(RepeatedCall);
      }
      var counted := ValidateRanges(normal, call, AllKeyed(normal, trace, n), counts, total);
      if counted.Err? {
        BadCall(normal, trace, n);
        return Err(counted.error);
      }
      NextCall(normal, trace, n, ids);
      prior := Some(call.sequence);
      ids := ids + {call.callId};
      counts, total := counted.value.0, counted.value.1;
      n := n + 1;
    }
    r := Ok(());
  }

  // ---- what validation gives to classify ----

  /** On a validated trace no path is refused later. */
  lemma {:induction false} ValidTraceIsKeyed(normal: Normalizer, trace: seq<ToolCall>, keys: seq<string>,
                                             calls: map<string, TrajectoryCall>)
    requires ValidTrace(normal, trace) && forall k :: k in keys ==> k in calls
    ensures PathsKeyed(normal, trace, calls, |trace|)
    ensures ContextKeyed(normal, ContextCalls(trace, keys, calls, |keys|), |ContextCalls(trace, keys, calls, |keys|)|)
  {
    forall c | c in trace ensures RangesKeyed(normal, c, |c.ranges|) {
      assert RangesValid(normal, c, |c.ranges|);
      forall j | 0 <= j < |c.ranges| ensures KeyOf(normal, c.ranges[j]).Some? {
        assert ValidRange(normal, c.ranges[j]);
      }
    }
    var context := ContextCalls(trace, keys, calls, |keys|);
    forall c | 0 <= c < |context| ensures RangesKeyed(normal, context[c].origin, |context[c].origin.ranges|) {
      OriginsInTrace(trace, keys, calls, |keys|);
      assert context[c].origin in trace;
    }
  }

  lemma {:induction false} OriginsInTrace(trace: seq<ToolCall>, keys: seq<string>, calls: map<string, TrajectoryCall>,
                                          n: nat)
    requires n <= |keys| && forall k :: k in keys ==> k in calls
    ensures forall c :: c in ContextCalls(trace, keys, calls, n) ==> c.origin in trace
  {
    if n > 0 {
      OriginsInTrace(trace, keys, calls, n - 1);
    }
  }

  lemma {:induction false} SequencesExact(normal: Normalizer, trace: seq<ToolCall>, n: nat, i: nat)
    requires n <= |trace| && Ordered(normal, trace, n) && i < n
    ensures trace[i].callId in Sequences(trace[..n]) && Sequences(trace[..n])[trace[i].callId] == trace[i].sequence
    ensures TraceById(trace[..n], trace[i].callId) == Some(trace[i])
  {
    assert trace[..n][..n - 1] == trace[..n - 1] && trace[..n][n - 1] == trace[n - 1];
    if i < n - 1 {
      SequencesExact(normal, trace, n - 1, i);
    }
  }

  /** On a validated trace both maps by call id find the one call of that id. */
  lemma {:induction false} ValidTraceIsExact(normal: Normalizer, trace: seq<ToolCall>, i: nat)
    requires ValidTrace(normal, trace) && i < |trace|
    ensures trace[i].callId in Sequences(trace) && Sequences(trace)[trace[i].callId] == trace[i].sequence
    ensures TraceById(trace, trace[i].callId) == Some(trace[i])
  {
    SequencesExact(normal, trace, |trace|, i);
    assert trace[..|trace|] == trace;
  }

  // ---- a validated trace with a stray ----

  const PLACE := Range(0, "p", 1, 1, "00000000000000000000000000000000", None)

  /** A context call and a prefixed call, both with one range of one file, and a call
      without ranges whose id lacks the prefix. */
  const STRAY_TRACE := [ToolCall(1, "c", true, [PLACE]), ToolCall(2, "a", true, []),
                        ToolCall(3, PREWALK + "a", true, [PLACE])]

  /** The trajectory names the first two. */
  const STRAY_EVENTS := [Completed(Some("c"), Some(Context), [], None, None, None),
                         Completed(Some("a"), Some(OtherRetrieval), [], None, None, None)]

  const STRAY_CALLS := map["c" := TrajectoryCall(1, Context, [], None, None),
                           "a" := TrajectoryCall(2, OtherRetrieval, [], None, None)]

  /** The exact-reread flag counts the range of a call that nothing in the trajectory
      made: the scan of the retrieval calls does not find one. */
  lemma {:induction false} StrayIsCounted()
    ensures ValidTrace(Normalized, STRAY_TRACE)
    ensures Traceable(ResolveAll(STRAY_EVENTS, STRAY_TRACE), 2)
            && CallsOf(ResolveAll(STRAY_EVENTS, STRAY_TRACE), 2, STRAY_CALLS)
    ensures ExactReread(Normalized, STRAY_TRACE, IndexedCalls(STRAY_TRACE, STRAY_CALLS), (0, "p"), 1, PLACE)
    ensures !ExactReread(Normalized, STRAY_TRACE, RetrievalCalls(STRAY_TRACE, STRAY_CALLS), (0, "p"), 1, PLACE)
  {
    StrayTraceIsValid();
    StrayTrajectory();
    StrayReread();
  }

  lemma {:induction false} StrayReread()
    ensures ExactReread(Normalized, STRAY_TRACE, IndexedCalls(STRAY_TRACE, STRAY_CALLS), (0, "p"), 1, PLACE)
    ensures !ExactReread(Normalized, STRAY_TRACE, RetrievalCalls(STRAY_TRACE, STRAY_CALLS), (0, "p"), 1, PLACE)
  {
    var trace := STRAY_TRACE;
    PlaceIsValid();
    StrayIds();
    assert StripPrewalk(trace[2].callId) == Some("a");
    assert LaterRange(Normalized, trace, IndexedCalls(trace, STRAY_CALLS), (0, "p"), 1, 2, 0);
  }

  lemma {:induction false} PlaceIsValid()
    ensures KeyOf(Normalized, PLACE) == Some((0, "p")) && ValidRange(Normalized, PLACE)
  {
    var parts := ["p"];
    SplitPlain("p", "");
    NormalOfPlain(parts);
    assert Join(parts) == "p";
    assert ""[..] == "" && "p"[1..] == "";
  }

  lemma {:induction false} StrayIds()
    ensures STRAY_TRACE[0].callId == "c" && STRAY_TRACE[1].callId == "a" && STRAY_TRACE[2].callId == PREWALK + "a"
    ensures "c" != "a" && |PREWALK + "a"| == 9 && (PREWALK + "a")[8..] == "a"
  {
    assert "c"[0] == 'c' && "a"[0] == 'a';
  }

  lemma {:induction false} StrayTraceIsValid()
    ensures ValidTrace(Normalized, STRAY_TRACE)
  {
    var trace := STRAY_TRACE;
    PlaceIsValid();
    StrayIds();
    assert Ordered(Normalized, trace, 3);
    var list := AllKeyed(Normalized, trace, 3);
    assert AllKeyed(Normalized, trace, 1) == AllKeyed(Normalized, trace, 0) + KeyedRanges(Normalized, trace[0], 1);
    assert AllKeyed(Normalized, trace, 2) == AllKeyed(Normalized, trace, 1) + KeyedRanges(Normalized, trace[1], 0);
    assert list == AllKeyed(Normalized, trace, 2) + KeyedRanges(Normalized, trace[2], 1);
    KeyedSize(Normalized, trace[0], 1);
    KeyedSize(Normalized, trace[1], 0);
    KeyedSize(Normalized, trace[2], 1);
    assert AllKeyed(Normalized, trace, 0) == [];
    assert |list| <= 2;
    forall key ensures OnPath(list, key) <= MAX_RANGES_PER_PATH {
      OnPathSize(list, key);
    }
  }

  lemma {:induction false} KeyedSize(normal: Normalizer, call: ToolCall, m: nat)
    requires m <= |call.ranges|
    ensures |KeyedRanges(normal, call, m)| <= m
  {
    if m > 0 {
      KeyedSize(normal, call, m - 1);
    }
  }

  lemma {:induction false} OnPathSize(list: seq<(PathKey, Later)>, key: PathKey)
    ensures OnPath(list, key) <= |list|
  {
    if list != [] {
      OnPathSize(list[..|list| - 1], key);
    }
  }

  lemma {:induction false} StrayResolved()
    ensures var rs := ResolveAll(STRAY_EVENTS, STRAY_TRACE);
            |rs| == 2 && rs[0] == Named("c", STRAY_CALLS["c"]) && rs[1] == Named("a", STRAY_CALLS["a"])
  {
    StrayTraceIsValid();
    StrayIds();
    ValidTraceIsExact(Normalized, STRAY_TRACE, 0);
    ValidTraceIsExact(Normalized, STRAY_TRACE, 1);
    assert ArgumentHashes([], None) == [];
  }

  lemma {:induction false} StrayTrajectory()
    ensures Traceable(ResolveAll(STRAY_EVENTS, STRAY_TRACE), 2)
            && CallsOf(ResolveAll(STRAY_EVENTS, STRAY_TRACE), 2, STRAY_CALLS)
  {
    StrayResolved();
    StrayIds();
    var rs := ResolveAll(STRAY_EVENTS, STRAY_TRACE);
    forall id | id in STRAY_CALLS ensures NamedBefore(rs, 2, id) {
      assert rs[if id == "c" then 0 else 1].id == id;
    }
  }
}
