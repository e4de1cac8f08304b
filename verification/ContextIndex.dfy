/** The maps `classify` builds, and the flags it reads off them. */
module ContextIndex {
  import opened Wrappers
  import opened ContextSignals

  // ---- grouping a list by key ----

  function Entries<K, V>(index: map<K, seq<V>>, key: K): seq<V> {
    if key in index then index[key] else []
  }

  function Select<K(==), V>(list: seq<(K, V)>, key: K): seq<V> {
    if list == [] then []
    else
      var rest := Select(list[..|list| - 1], key);
      if list[|list| - 1].0 == key then rest + [list[|list| - 1].1] else rest
  }

  /** The map groups the pairs of the list by key, in order. */
  ghost predicate Grouped<K(!new), V>(index: map<K, seq<V>>, list: seq<(K, V)>) {
    forall key :: Entries(index, key) == Select(list, key)
  }

  /** `entry(key).or_default().push(value)` */
  function Push<K, V>(index: map<K, seq<V>>, key: K, value: V): map<K, seq<V>> {
    index[key := Entries(index, key) + [value]]
  }

  lemma {:induction false} GroupOne<K(!new), V>(index: map<K, seq<V>>, list: seq<(K, V)>, key: K, value: V)
    requires Grouped(index, list)
    ensures Grouped(Push(index, key, value), list + [(key, value)])
  {
    var grown := Push(index, key, value);
    assert (list + [(key, value)])[..|list|] == list;
    forall k ensures Entries(grown, k) == Select(list + [(key, value)], k) {
      assert Entries(index, k) == Select(list, k);
    }
  }

  lemma {:induction false} SelectContains<K, V>(list: seq<(K, V)>, key: K, value: V)
    ensures value in Select(list, key) <==> (key, value) in list
  {
    if list != [] {
      var front, last := list[..|list| - 1], list[|list| - 1];
      SelectContains(front, key, value);
      assert list == front + [last];
    }
  }

  // ---- the per-path index ----

  datatype Later = Later(sequence: nat, start: nat, end: nat)

  /** The first `m` ranges of a call, by key. */
  function KeyedRanges(normal: Normalizer, call: ToolCall, m: nat): seq<(PathKey, Later)>
    requires m <= |call.ranges|
  {
    if m == 0 then []
    else
      var range := call.ranges[m - 1];
      match KeyOf(normal, range)
      case Some(key) => KeyedRanges(normal, call, m - 1) + [(key, Later(call.sequence, range.start, range.end))]
      case None => KeyedRanges(normal, call, m - 1)
  }

  /** All ranges of the retrieval calls among the first `n`. */
  function RetrievalRanges(normal: Normalizer, trace: seq<ToolCall>, calls: map<string, TrajectoryCall>,
                           n: nat): seq<(PathKey, Later)>
    requires n <= |trace|
  {
    if n == 0 then []
    else if IsRetrievalTrace(calls, trace[n - 1]) then
      RetrievalRanges(normal, trace, calls, n - 1) + KeyedRanges(normal, trace[n - 1], |trace[n - 1].ranges|)
    else RetrievalRanges(normal, trace, calls, n - 1)
  }

  ghost predicate RangeAt(normal: Normalizer, call: ToolCall, j: nat, key: PathKey, e: Later) {
    j < |call.ranges| && KeyOf(normal, call.ranges[j]) == Some(key)
        && e == Later(call.sequence, call.ranges[j].start, call.ranges[j].end)
  }

  lemma {:induction false} KeyedRangesContains(normal: Normalizer, call: ToolCall, m: nat, key: PathKey, e: Later)
    requires m <= |call.ranges|
    ensures (key, e) in KeyedRanges(normal, call, m) <==> exists j: nat :: j < m && RangeAt(normal, call, j, key, e)
  {
    if m > 0 {
      KeyedRangesContains(normal, call, m - 1, key, e);
      if RangeAt(normal, call, m - 1, key, e) { assert m - 1 < m && RangeAt(normal, call, m - 1, key, e); }
      if exists j: nat :: j < m - 1 && RangeAt(normal, call, j, key, e) {
        var j: nat :| j < m - 1 && RangeAt(normal, call, j, key, e);
        assert j < m && RangeAt(normal, call, j, key, e);
      }
    }
  }

  ghost predicate RetrievedAt(normal: Normalizer, trace: seq<ToolCall>, calls: map<string, TrajectoryCall>, i: nat,
                              j: nat, key: PathKey, e: Later) {
    i < |trace| && IsRetrievalTrace(calls, trace[i]) && RangeAt(normal, trace[i], j, key, e)
  }

  lemma {:induction false} RetrievalRangesContains(normal: Normalizer, trace: seq<ToolCall>,
                                                   calls: map<string, TrajectoryCall>, n: nat, key: PathKey, e: Later)
    requires n <= |trace|
    ensures (key, e) in RetrievalRanges(normal, trace, calls, n) <==> exists i: nat, j: nat ::
            i < n && RetrievedAt(normal, trace, calls, i, j, key, e)
  {
    if n > 0 {
      RetrievalRangesContains(normal, trace, calls, n - 1, key, e);
      var call := trace[n - 1];
      KeyedRangesContains(normal, call, |call.ranges|, key, e);
      if exists i: nat, j: nat :: i < n - 1 && RetrievedAt(normal, trace, calls, i, j, key, e) {
        var i: nat, j: nat :| i < n - 1 && RetrievedAt(normal, trace, calls, i, j, key, e);
        assert i < n && RetrievedAt(normal, trace, calls, i, j, key, e);
      }
      if IsRetrievalTrace(calls, call) && exists j: nat :: j < |call.ranges| && RangeAt(normal, call, j, key, e) {
        var j: nat :| j < |call.ranges| && RangeAt(normal, call, j, key, e);
        assert n - 1 < n && RetrievedAt(normal, trace, calls, n - 1, j, key, e);
      }
    }
  }

  /** The paths of the first `m` ranges normalise. */
  ghost predicate RangesKeyed(normal: Normalizer, call: ToolCall, m: nat)
    requires m <= |call.ranges|
  {
    forall j :: 0 <= j < m ==> KeyOf(normal, call.ranges[j]).Some?
  }

  /** So do those of the retrieval calls among the first `n`. */
  ghost predicate PathsKeyed(normal: Normalizer, trace: seq<ToolCall>, calls: map<string, TrajectoryCall>, n: nat)
    requires n <= |trace|
  {
    forall i :: 0 <= i < n && IsRetrievalTrace(calls, trace[i]) ==> RangesKeyed(normal, trace[i], |trace[i].ranges|)
  }

  lemma {:induction false} OneMoreRange(normal: Normalizer, before: seq<(PathKey, Later)>, call: ToolCall, m: nat)
    requires m < |call.ranges| && KeyOf(normal, call.ranges[m]).Some?
    ensures before + KeyedRanges(normal, call, m)
            + [(KeyOf(normal, call.ranges[m]).value, Later(call.sequence, call.ranges[m].start, call.ranges[m].end))]
            == before + KeyedRanges(normal, call, m + 1)
  {
  }

  lemma {:induction false} NothingKeyed(normal: Normalizer, before: seq<(PathKey, Later)>, call: ToolCall)
    ensures before + KeyedRanges(normal, call, 0) == before && RangesKeyed(normal, call, 0)
  {
  }

  lemma {:induction false} RangeMissing(normal: Normalizer, call: ToolCall, m: nat)
    requires m < |call.ranges| && KeyOf(normal, call.ranges[m]).None?
    ensures !RangesKeyed(normal, call, |call.ranges|)
  {
  }

  lemma {:induction false} RangeAdded(normal: Normalizer, index: map<PathKey, seq<Later>>,
                                      before: seq<(PathKey, Later)>, call: ToolCall, m: nat)
    requires m < |call.ranges| && KeyOf(normal, call.ranges[m]).Some?
    requires Grouped(index, before + KeyedRanges(normal, call, m)) && RangesKeyed(normal, call, m)
    ensures var range := call.ranges[m];
            Grouped(Push(index, KeyOf(normal, range).value, Later(call.sequence, range.start, range.end)),
                    before + KeyedRanges(normal, call, m + 1))
    ensures RangesKeyed(normal, call, m + 1)
  {
    var range := call.ranges[m];
    GroupOne(index, before + KeyedRanges(normal, call, m), KeyOf(normal, range).value,
             Later(call.sequence, range.start, range.end));
    OneMoreRange(normal, before, call, m);
  }

  lemma {:induction false} CallAdded(normal: Normalizer, trace: seq<ToolCall>, calls: map<string, TrajectoryCall>,
                                     n: nat)
    requires n < |trace| && PathsKeyed(normal, trace, calls, n)
    ensures RetrievalRanges(normal, trace, calls, n + 1) ==
            if IsRetrievalTrace(calls, trace[n])
               then RetrievalRanges(normal, trace, calls, n) + KeyedRanges(normal, trace[n], |trace[n].ranges|)
            else RetrievalRanges(normal, trace, calls, n)
    ensures PathsKeyed(normal, trace, calls, n + 1)
            <==> IsRetrievalTrace(calls, trace[n]) ==> RangesKeyed(normal, trace[n], |trace[n].ranges|)
    ensures !PathsKeyed(normal, trace, calls, n + 1) ==> !PathsKeyed(normal, trace, calls, |trace|)
  {
  }

  /** The index with the first `m` ranges of a call pushed. */
  function PushRanges(normal: Normalizer, index: map<PathKey, seq<Later>>, call: ToolCall,
                      m: nat): map<PathKey, seq<Later>>
    requires m <= |call.ranges|
  {
    if m == 0 then index
    else
      var range := call.ranges[m - 1];
      var pushed := PushRanges(normal, index, call, m - 1);
      match KeyOf(normal, range)
      case Some(key) => Push(pushed, key, Later(call.sequence, range.start, range.end))
      case None => pushed
  }

  lemma {:induction false} PushedRanges(normal: Normalizer, index: map<PathKey, seq<Later>>,
                                        before: seq<(PathKey, Later)>, call: ToolCall, m: nat)
    requires m <= |call.ranges| && Grouped(index, before) && RangesKeyed(normal, call, m)
    ensures Grouped(PushRanges(normal, index, call, m), before + KeyedRanges(normal, call, m))
  {
    if m == 0 {
      NothingKeyed(normal, before, call);
    } else {
      PushedRanges(normal, index, before, call, m - 1);
      RangeAdded(normal, PushRanges(normal, index, call, m - 1), before, call, m - 1);
    }
  }

  /** The inner loop of `retrieval_ranges_by_path`: the ranges of one call. */
  method AddRanges(normal: Normalizer, index: map<PathKey, seq<Later>>, call: ToolCall)
    returns (r: Option<map<PathKey, seq<Later>>>)
    ensures r.Some? <==> RangesKeyed(normal, call, |call.ranges|)
    ensures r.Some? ==> r.value == PushRanges(normal, index, call, |call.ranges|)
  {
    var grown := index;
    var m := 0;
    while m < |call.ranges|
      invariant m <= |call.ranges| && RangesKeyed(normal, call, m) && grown == PushRanges(normal, index, call, m)
    {
      var range := call.ranges[m];
      var key := KeyOf(normal, range);
      if key.None? {
        RangeMissing(normal, call, m);
        return None;
      }
      grown := Push(grown, key.value, Later(call.sequence, range.start, range.end));
      m := m + 1;
    }
    r := Some(grown);
  }

  /** `retrieval_ranges_by_path` */
  method BuildRangeIndex(normal: Normalizer, trace: seq<ToolCall>, calls: map<string, TrajectoryCall>)
    returns (r: Result<map<PathKey, seq<Later>>, Rejection>)
    ensures r.Ok? ==> Grouped(r.value, RetrievalRanges(normal, trace, calls, |trace|))
    ensures r.Ok? <==> PathsKeyed(normal, trace, calls, |trace|)
  {
    var index: map<PathKey, seq<Later>> := map[];
    var n := 0;
    while n < |trace|
      invariant n <= |trace| && Grouped(index, RetrievalRanges(normal, trace, calls, n))
                && PathsKeyed(normal, trace, calls, n)
    {
      var call := trace[n];
      CallAdded(normal, trace, calls, n);
      if IsRetrievalTrace(calls, call) {
        var added := AddRanges(normal, index, call);
        if added.None? {
          return Err(BadPath);
        }
        PushedRanges(normal, index, RetrievalRanges(normal, trace, calls, n), call, |call.ranges|);
        index := added.value;
      }
      n := n + 1;
    }
    r := Ok(index);
  }

  /** The index holds the ranges of all retrieval calls. */
  ghost predicate IndexesRanges(normal: Normalizer, index: map<PathKey, seq<Later>>, trace: seq<ToolCall>,
                                calls: map<string, TrajectoryCall>) {
    Grouped(index, RetrievalRanges(normal, trace, calls, |trace|))
  }

  // ---- the hash index ----

  function HashPairs(hashes: seq<string>, sequence: nat): (r: seq<(string, nat)>)
    ensures |r| == |hashes| && forall i :: 0 <= i < |r| ==> r[i] == (hashes[i], sequence)
  {
    seq(|hashes|, i requires 0 <= i < |hashes| => (hashes[i], sequence))
  }

  /** The hash inputs of the retrieval calls among the first `n` keys. */
  function HashInputs(keys: seq<string>, calls: map<string, TrajectoryCall>, n: nat): seq<(string, nat)>
    requires n <= |keys| && forall k :: k in keys ==> k in calls
  {
    if n == 0 then []
    else
      var call := calls[keys[n - 1]];
      HashInputs(keys, calls, n - 1) + if IsRetrieval(call.tool) then HashPairs(call.hashes, call.sequence) else []
  }

  lemma {:induction false} HashInputsContains(keys: seq<string>, calls: map<string, TrajectoryCall>, n: nat,
                                              hash: string, sequence: nat)
    requires n <= |keys| && forall k :: k in keys ==> k in calls
    ensures (hash, sequence) in HashInputs(keys, calls, n) <==>
            exists i :: 0 <= i < n && HashInputAt(keys, calls, i, hash, sequence)
  {
    if n > 0 {
      HashInputsContains(keys, calls, n - 1, hash, sequence);
      var call := calls[keys[n - 1]];
      var pairs := HashPairs(call.hashes, call.sequence);
      if HashInputAt(keys, calls, n - 1, hash, sequence) {
        var h :| 0 <= h < |call.hashes| && call.hashes[h] == hash;
        assert pairs[h] == (hash, sequence);
      }
      assert (hash, sequence) in pairs ==> hash in call.hashes && call.sequence == sequence;
    }
  }

  /** The index holds the hash inputs of all retrieval calls. */
  ghost predicate IndexesHashes(index: map<string, seq<nat>>, keys: seq<string>, calls: map<string, TrajectoryCall>) {
    KeysInOrder(keys, calls) && Grouped(index, HashInputs(keys, calls, |keys|))
  }

  ghost predicate HashInputAt(keys: seq<string>, calls: map<string, TrajectoryCall>, i: int, hash: string,
                              sequence: nat)
    requires forall k :: k in keys ==> k in calls
  {
    0 <= i < |keys| && IsRetrieval(calls[keys[i]].tool) && hash in calls[keys[i]].hashes
        && calls[keys[i]].sequence == sequence
  }

  const MAX_HASH_INPUTS := 100_000

  lemma {:induction false} NoMorePairs(before: seq<(string, nat)>, pairs: seq<(string, nat)>)
    ensures before + pairs[..0] == before && before + pairs[..|pairs|] == before + pairs
  {
  }

  lemma {:induction false} OneMorePair(before: seq<(string, nat)>, pairs: seq<(string, nat)>, m: nat)
    requires m < |pairs|
    ensures before + pairs[..m] + [pairs[m]] == before + pairs[..m + 1]
  {
  }

  /** The inner loop of `hash_input_sequences`: the hashes of one call, counted. */
  method AddHashes(index: map<string, seq<nat>>, ghost before: seq<(string, nat)>, count: nat, hashes: seq<string>,
                   sequence: nat)
    returns (r: Option<map<string, seq<nat>>>)
    requires Grouped(index, before) && count <= MAX_HASH_INPUTS
    ensures r.Some? <==> count + |hashes| <= MAX_HASH_INPUTS
    ensures r.Some? ==> Grouped(r.value, before + HashPairs(hashes, sequence))
  {
    var grown := index;
    ghost var pairs := HashPairs(hashes, sequence);
    var m := 0;
    NoMorePairs(before, pairs);
    while m < |hashes|
      invariant m <= |hashes| && count + m <= MAX_HASH_INPUTS
      invariant Grouped(grown, before + pairs[..m])
    {
      if count + m + 1 > MAX_HASH_INPUTS {
        return None;
      }
      GroupOne(grown, before + pairs[..m], hashes[m], sequence);
      OneMorePair(before, pairs, m);
      grown := Push(grown, hashes[m], sequence);
      m := m + 1;
    }
    r := Some(grown);
  }

  /** `hash_input_sequences` */
  method BuildHashIndex(keys: seq<string>, calls: map<string, TrajectoryCall>)
    returns (r: Result<map<string, seq<nat>>, Rejection>)
    requires forall k :: k in keys ==> k in calls
    ensures r.Ok? ==> Grouped(r.value, HashInputs(keys, calls, |keys|))
    ensures r.Ok? <==> |HashInputs(keys, calls, |keys|)| <= MAX_HASH_INPUTS
  {
    var index: map<string, seq<nat>> := map[];
    var count := 0;
    var n := 0;
    while n < |keys|
      invariant n <= |keys| && Grouped(index, HashInputs(keys, calls, n))
      invariant count == |HashInputs(keys, calls, n)| <= MAX_HASH_INPUTS
    {
      var call := calls[keys[n]];
      ghost var before := HashInputs(keys, calls, n);
      HashInputsGrow(keys, calls, n + 1, |keys|);
      if IsRetrieval(call.tool) {
        var grown := AddHashes(index, before, count, call.hashes, call.sequence);
        if grown.None? {
          return Err(TooManyHashes);
        }
        index := grown.value;
        count := count + |call.hashes|;
      } else {
        assert before + [] == before;
      }
      n := n + 1;
    }
    r := Ok(index);
  }

  lemma {:induction false} HashInputsGrow(keys: seq<string>, calls: map<string, TrajectoryCall>, m: nat, n: nat)
    requires m <= n <= |keys| && forall k :: k in keys ==> k in calls
    ensures |HashInputs(keys, calls, m)| <= |HashInputs(keys, calls, n)|
    decreases n
  {
    if m < n {
      HashInputsGrow(keys, calls, m, n - 1);
    }
  }

  // ---- reading the flags ----

  function MinSequence(list: seq<Later>): (r: Option<nat>)
    ensures r.None? <==> list == []
    ensures r.Some? ==> (exists i :: 0 <= i < |list| && list[i].sequence == r.value)
    ensures r.Some? ==> forall i :: 0 <= i < |list| ==> r.value <= list[i].sequence
  {
    if list == [] then None
    else match MinSequence(list[1..])
      case None => Some(list[0].sequence)
      case Some(s) => Some(if s < list[0].sequence then s else list[0].sequence)
  }

  function After(list: seq<Later>, sequence: nat): (r: seq<Later>)
    ensures forall e :: e in r <==> e in list && e.sequence > sequence
  {
    if list == [] then [] else (if list[0].sequence > sequence then [list[0]] else []) + After(list[1..], sequence)
  }

  function Overlapping(list: seq<Later>, range: Range): (r: seq<Later>)
    ensures forall e :: e in r <==> e in list && Overlaps(range, e.start, e.end)
  {
    if list == [] then []
    else (if Overlaps(range, list[0].start, list[0].end) then [list[0]] else []) + Overlapping(list[1..], range)
  }

  /** The entries of the index after a call are the later ranges of a naive scan. */
  lemma {:induction false} LaterEntries(normal: Normalizer, trace: seq<ToolCall>, calls: map<string, TrajectoryCall>,
                                        index: map<PathKey, seq<Later>>, key: PathKey, sequence: nat)
    requires Grouped(index, RetrievalRanges(normal, trace, calls, |trace|))
    ensures forall e :: e in After(Entries(index, key), sequence) ==>
              exists i, j :: LaterRange(normal, trace, IndexedCalls(trace, calls), key, sequence, i, j)
                             && e == Later(trace[i].sequence, trace[i].ranges[j].start, trace[i].ranges[j].end)
    ensures forall i, j :: LaterRange(normal, trace, IndexedCalls(trace, calls), key, sequence, i, j) ==>
              Later(trace[i].sequence, trace[i].ranges[j].start, trace[i].ranges[j].end) in After(Entries(index, key),
                  sequence)
  {
    var list := Entries(index, key);
    assert list == Select(RetrievalRanges(normal, trace, calls, |trace|), key);
    forall e | e in After(list, sequence)
      ensures exists i, j :: LaterRange(normal, trace, IndexedCalls(trace, calls), key, sequence, i, j)
                             && e == Later(trace[i].sequence, trace[i].ranges[j].start, trace[i].ranges[j].end)
    {
      SelectContains(RetrievalRanges(normal, trace, calls, |trace|), key, e);
      RetrievalRangesContains(normal, trace, calls, |trace|, key, e);
      var i: nat, j: nat :| i < |trace| && RetrievedAt(normal, trace, calls, i, j, key, e);
      assert LaterRange(normal, trace, IndexedCalls(trace, calls), key, sequence, i, j);
    }
    forall i, j | LaterRange(normal, trace, IndexedCalls(trace, calls), key, sequence, i, j)
      ensures Later(trace[i].sequence, trace[i].ranges[j].start, trace[i].ranges[j].end) in After(list, sequence)
    {
      var e := Later(trace[i].sequence, trace[i].ranges[j].start, trace[i].ranges[j].end);
      assert RetrievedAt(normal, trace, calls, i, j, key, e);
      RetrievalRangesContains(normal, trace, calls, |trace|, key, e);
      SelectContains(RetrievalRanges(normal, trace, calls, |trace|), key, e);
    }
  }

  lemma {:induction false} HashEntryIff(keys: seq<string>, calls: map<string, TrajectoryCall>,
                                        index: map<string, seq<nat>>, hash: string, s: nat)
    requires KeysInOrder(keys, calls) && Grouped(index, HashInputs(keys, calls, |keys|))
    ensures s in Entries(index, hash) <==> exists i :: 0 <= i < |keys| && HashInputAt(keys, calls, i, hash, s)
  {
    assert Entries(index, hash) == Select<string, nat>(HashInputs(keys, calls, |keys|), hash);
    SelectContains<string, nat>(HashInputs(keys, calls, |keys|), hash, s);
    HashInputsContains(keys, calls, |keys|, hash, s);
  }

  lemma {:induction false} HashEntries(keys: seq<string>, calls: map<string, TrajectoryCall>,
                                       index: map<string, seq<nat>>, hash: string, sequence: nat)
    requires KeysInOrder(keys, calls) && Grouped(index, HashInputs(keys, calls, |keys|))
    ensures AnyAfter(Entries(index, hash), sequence) <==> HashInputLater(calls, hash, sequence)
  {
    if s :| s in Entries(index, hash) && s > sequence {
      HashEntryIff(keys, calls, index, hash, s);
      var i :| 0 <= i < |keys| && HashInputAt(keys, calls, i, hash, s);
      assert keys[i] in keys && keys[i] in calls;
    }
    if k :| k in calls && IsRetrieval(calls[k].tool) && hash in calls[k].hashes && calls[k].sequence > sequence {
      assert k in keys;
      var at :| 0 <= at < |keys| && keys[at] == k;
      assert HashInputAt(keys, calls, at, hash, calls[k].sequence);
      HashEntryIff(keys, calls, index, hash, calls[k].sequence);
    }
  }

  /** Some of these ranges has the same lines. */
  predicate AnySame(later: seq<Later>, range: Range) {
    exists i :: 0 <= i < |later| && SameLines(range, later[i].start, later[i].end)
  }

  /** Some of these ranges overlaps without having the same lines. */
  predicate AnyOverlap(later: seq<Later>, range: Range) {
    exists i :: 0 <= i < |later| && Overlaps(range, later[i].start, later[i].end)
                && !SameLines(range, later[i].start, later[i].end)
  }

  /** Some of these calls comes after `sequence`. */
  predicate AnyAfter(sequences: seq<nat>, sequence: nat) {
    exists s :: s in sequences && s > sequence
  }

  /** The flags of one range, read off the indexes. */
  function Utilization(index: map<PathKey, seq<Later>>, hashes: map<string, seq<nat>>, relevant: set<string>,
                       origin: ToolCall, range: Range, path: string): RangeUtilization
  {
    var later := After(Entries(index, (range.generation, path)), origin.sequence);
    var inputs := Entries(hashes, range.hash);
    var isRelevant := path in relevant;
    var hashInputLater := AnyAfter(inputs, origin.sequence);
    var exact := AnySame(later, range);
    var overlap := AnyOverlap(later, range);
    RangeUtilization(origin.sequence, range.generation, path, range.start, range.end, range.hash, range.tokens,
                     isRelevant, hashInputLater, exact, overlap,
                     !isRelevant && !hashInputLater && !exact && !overlap, MinSequence(Overlapping(later, range)))
  }

  /** The indexed flags equal the naive scan. */
  lemma {:induction false} UtilizationDescribes(normal: Normalizer, trace: seq<ToolCall>, keys: seq<string>,
                                                calls: map<string, TrajectoryCall>, index: map<PathKey, seq<Later>>,
                                                hashes: map<string, seq<nat>>, relevant: set<string>, origin: ToolCall,
                                                range: Range, path: string)
    requires Grouped(index, RetrievalRanges(normal, trace, calls, |trace|))
    requires KeysInOrder(keys, calls) && Grouped(hashes, HashInputs(keys, calls, |keys|))
    requires normal(range.path) == Some(path)
    ensures Describes(normal, Utilization(index, hashes, relevant, origin, range, path), trace,
                      IndexedCalls(trace, calls), calls, relevant, origin, range)
  {
    var key := (range.generation, path);
    var u := Utilization(index, hashes, relevant, origin, range, path);
    assert u.hashInputLater == HashInputLater(calls, range.hash, origin.sequence) by {
      HashEntries(keys, calls, hashes, range.hash, origin.sequence);
    }
    assert u.exactReread == ExactReread(normal, trace, IndexedCalls(trace, calls), key, origin.sequence, range)
           && u.overlapReread
              == OverlapReread(normal, trace, IndexedCalls(trace, calls), key, origin.sequence, range) by {
      RereadFlags(normal, trace, calls, index, key, origin.sequence, range);
    }
    assert FirstFollowUp(normal, trace, IndexedCalls(trace, calls), key, origin.sequence, range, u.firstFollowUp) by {
      FirstFollowUpFlag(normal, trace, calls, index, key, origin.sequence, range);
    }
  }

  lemma {:induction false} RereadFlags(normal: Normalizer, trace: seq<ToolCall>, calls: map<string, TrajectoryCall>,
                                       index: map<PathKey, seq<Later>>, key: PathKey, sequence: nat, range: Range)
    requires Grouped(index, RetrievalRanges(normal, trace, calls, |trace|))
    ensures var later := After(Entries(index, key), sequence);
            && (AnySame(later, range) <==> ExactReread(normal, trace, IndexedCalls(trace, calls), key, sequence, range))
            && (AnyOverlap(later, range)
                <==> OverlapReread(normal, trace, IndexedCalls(trace, calls), key, sequence, range))
  {
    var later := After(Entries(index, key), sequence);
    LaterEntries(normal, trace, calls, index, key, sequence);
    forall i | 0 <= i < |later|
      ensures exists a, b :: LaterRange(normal, trace, IndexedCalls(trace, calls), key, sequence, a, b)
                             && later[i] == Later(trace[a].sequence, trace[a].ranges[b].start, trace[a].ranges[b].end)
    {
      assert later[i] in later;
    }
  }

  lemma {:induction false} FirstFollowUpFlag(normal: Normalizer, trace: seq<ToolCall>,
                                             calls: map<string, TrajectoryCall>, index: map<PathKey, seq<Later>>,
                                             key: PathKey, sequence: nat, range: Range)
    requires Grouped(index, RetrievalRanges(normal, trace, calls, |trace|))
    ensures FirstFollowUp(normal, trace, IndexedCalls(trace, calls), key, sequence, range,
                          MinSequence(Overlapping(After(Entries(index, key), sequence), range)))
  {
    var later := After(Entries(index, key), sequence);
    var hits := Overlapping(later, range);
    LaterEntries(normal, trace, calls, index, key, sequence);
    var first := MinSequence(hits);
    forall i, j | LaterRange(normal, trace, IndexedCalls(trace, calls), key, sequence, i, j)
           && Overlaps(range, trace[i].ranges[j].start, trace[i].ranges[j].end)
      ensures first.Some? && first.value <= trace[i].sequence
    {
      var e := Later(trace[i].sequence, trace[i].ranges[j].start, trace[i].ranges[j].end);
      assert e in hits;
      var h :| 0 <= h < |hits| && hits[h] == e;
    }
    if first.Some? {
      var h :| 0 <= h < |hits| && hits[h].sequence == first.value;
      assert hits[h] in hits;
    }
  }
}
