/** What `validate_artifacts` asks of a trace, said on its calls and ranges. */
module ContextValidity {
  import opened Wrappers
  import opened ContextSignals
  import opened ContextIndex
  import opened ContextArtifacts

  // ---- the conditions ----

  /** Lines count from 1, the path is accepted, and the hash is 32 hexadecimal digits, by
      their codes. */
  ghost predicate SoundRange(normal: Normalizer, range: Range) {
    && 1 <= range.start <= range.end && normal(range.path).Some?
    && |range.hash| == 32
    && forall i :: 0 <= i < 32 ==>
         var n := range.hash[i] as int; 48 <= n <= 57 || 65 <= n <= 70 || 97 <= n <= 102
  }

  ghost predicate SoundRanges(normal: Normalizer, trace: seq<ToolCall>) {
    forall i, j :: 0 <= i < |trace| && 0 <= j < |trace[i].ranges| ==> SoundRange(normal, trace[i].ranges[j])
  }

  /** The places of the ranges of the first `n` calls. */
  ghost function RangePlaces(trace: seq<ToolCall>, n: nat): set<(int, int)>
    requires n <= |trace|
  {
    set i, j | 0 <= i < n && 0 <= j < |trace[i].ranges| :: (i, j)
  }

  ghost predicate Keyed(normal: Normalizer, range: Range, key: PathKey) {
    key.0 == range.generation && normal(range.path) == Some(key.1)
  }

  /** The places of the ranges on one path of one generation. */
  ghost function PathPlaces(normal: Normalizer, trace: seq<ToolCall>, n: nat, key: PathKey): set<(int, int)>
    requires n <= |trace|
  {
    set i, j | 0 <= i < n && 0 <= j < |trace[i].ranges| && Keyed(normal, trace[i].ranges[j], key) :: (i, j)
  }

  ghost predicate CallsInOrder(trace: seq<ToolCall>) {
    forall i, j :: 0 <= i < j < |trace| ==>
      trace[i].sequence < trace[j].sequence && trace[i].callId != trace[j].callId
  }

  /** Increasing sequences, distinct ids, sound ranges, and few enough of them, in all
      and on each path. */
  ghost predicate SoundTrace(normal: Normalizer, trace: seq<ToolCall>) {
    && CallsInOrder(trace) && SoundRanges(normal, trace)
    && |RangePlaces(trace, |trace|)| <= 100_000
    && forall key :: |PathPlaces(normal, trace, |trace|, key)| <= 10_000
  }

  // ---- they are what the validation checks ----

  lemma {:induction false} SoundIff(normal: Normalizer, range: Range)
    ensures SoundRange(normal, range) <==> ValidRange(normal, range)
  {
  }

  lemma {:induction false} SoundRangesIff(normal: Normalizer, trace: seq<ToolCall>)
    ensures SoundRanges(normal, trace) <==>
            forall i :: 0 <= i < |trace| ==> RangesValid(normal, trace[i], |trace[i].ranges|)
  {
    forall i, j | 0 <= i < |trace| && 0 <= j < |trace[i].ranges|
      ensures SoundRange(normal, trace[i].ranges[j]) <==> ValidRange(normal, trace[i].ranges[j])
    {
      SoundIff(normal, trace[i].ranges[j]);
    }
  }

  lemma {:induction false} KeyedIff(normal: Normalizer, range: Range, key: PathKey)
    ensures Keyed(normal, range, key) <==> KeyOf(normal, range) == Some(key)
  {
  }

  lemma {:induction false} OnPathAppend(a: seq<(PathKey, Later)>, b: seq<(PathKey, Later)>, key: PathKey)
    ensures OnPath(a + b, key) == OnPath(a, key) + OnPath(b, key)
  {
    if b == [] {
      assert a + b == a;
    } else {
      var front, last := b[..|b| - 1], b[|b| - 1];
      OnPathAppend(a, front, key);
      assert a + b == (a + front) + [last] && b == front + [last];
      OneMoreOnPath(a + front, last.0, last.1, key);
      OneMoreOnPath(front, last.0, last.1, key);
    }
  }

  /** The places of the first `m` ranges of call `i`. */
  ghost function CallPlaces(trace: seq<ToolCall>, i: nat, m: nat): set<(int, int)>
    requires i < |trace| && m <= |trace[i].ranges|
  {
    set p | p in RangePlaces(trace, i + 1) && p.0 == i && p.1 < m
  }

  ghost function CallPathPlaces(normal: Normalizer, trace: seq<ToolCall>, i: nat, m: nat, key: PathKey): set<(int, int)>
    requires i < |trace| && m <= |trace[i].ranges|
  {
    set j | 0 <= j < m && Keyed(normal, trace[i].ranges[j], key) :: (i as int, j)
  }

  lemma {:induction false} CallCounted(normal: Normalizer, trace: seq<ToolCall>, i: nat, m: nat, key: PathKey)
    requires i < |trace| && m <= |trace[i].ranges| && RangesValid(normal, trace[i], m)
    ensures |KeyedRanges(normal, trace[i], m)| == |CallPlaces(trace, i, m)| == m
    ensures OnPath(KeyedRanges(normal, trace[i], m), key) == |CallPathPlaces(normal, trace, i, m, key)|
  {
    if m > 0 {
      CallCounted(normal, trace, i, m - 1, key);
      var range := trace[i].ranges[m - 1];
      assert ValidRange(normal, range);
      KeyedIff(normal, range, key);
      var e := Later(trace[i].sequence, range.start, range.end);
      OneMoreOnPath(KeyedRanges(normal, trace[i], m - 1), KeyOf(normal, range).value, e, key);
      PlaceAdded(normal, trace, i, m, key);
    }
  }

  lemma {:induction false} PlaceAdded(normal: Normalizer, trace: seq<ToolCall>, i: nat, m: nat, key: PathKey)
    requires i < |trace| && 0 < m <= |trace[i].ranges|
    ensures |CallPlaces(trace, i, m)| == |CallPlaces(trace, i, m - 1)| + 1
    ensures |CallPathPlaces(normal, trace, i, m, key)|
            == |CallPathPlaces(normal, trace, i, m - 1, key)|
               + if Keyed(normal, trace[i].ranges[m - 1], key) then 1 else 0
  {
    var place := (i as int, m - 1);
    assert CallPlaces(trace, i, m) == CallPlaces(trace, i, m - 1) + {place};
    assert place !in CallPlaces(trace, i, m - 1) && place !in CallPathPlaces(normal, trace, i, m - 1, key);
    assert CallPathPlaces(normal, trace, i, m, key)
           == CallPathPlaces(normal, trace, i, m - 1, key)
              + if Keyed(normal, trace[i].ranges[m - 1], key) then {place} else {};
  }

  lemma {:induction false} PlacesJoin(normal: Normalizer, trace: seq<ToolCall>, n: nat, key: PathKey)
    requires n < |trace|
    ensures |RangePlaces(trace, n + 1)| == |RangePlaces(trace, n)| + |CallPlaces(trace, n, |trace[n].ranges|)|
    ensures |PathPlaces(normal, trace, n + 1, key)|
            == |PathPlaces(normal, trace, n, key)| + |CallPathPlaces(normal, trace, n, |trace[n].ranges|, key)|
  {
    var own := CallPlaces(trace, n, |trace[n].ranges|);
    var ownPath := CallPathPlaces(normal, trace, n, |trace[n].ranges|, key);
    assert RangePlaces(trace, n + 1) == RangePlaces(trace, n) + own;
    assert RangePlaces(trace, n) !! own;
    assert PathPlaces(normal, trace, n + 1, key) == PathPlaces(normal, trace, n, key) + ownPath;
    assert PathPlaces(normal, trace, n, key) !! ownPath;
  }

  lemma {:induction false} TraceCounted(normal: Normalizer, trace: seq<ToolCall>, n: nat, key: PathKey)
    requires n <= |trace| && forall i :: 0 <= i < n ==> RangesValid(normal, trace[i], |trace[i].ranges|)
    ensures |AllKeyed(normal, trace, n)| == |RangePlaces(trace, n)|
    ensures OnPath(AllKeyed(normal, trace, n), key) == |PathPlaces(normal, trace, n, key)|
  {
    if n > 0 {
      TraceCounted(normal, trace, n - 1, key);
      CallCounted(normal, trace, n - 1, |trace[n - 1].ranges|, key);
      PlacesJoin(normal, trace, n - 1, key);
      OnPathAppend(AllKeyed(normal, trace, n - 1), KeyedRanges(normal, trace[n - 1], |trace[n - 1].ranges|), key);
    }
  }

  /** The validation accepts exactly the sound traces. */
  lemma {:induction false} ValidTraceIff(normal: Normalizer, trace: seq<ToolCall>)
    ensures ValidTrace(normal, trace) <==> SoundTrace(normal, trace)
  {
    SoundRangesIff(normal, trace);
    if SoundRanges(normal, trace) {
      TraceCounted(normal, trace, |trace|, (0, ""));
      forall key ensures OnPath(AllKeyed(normal, trace, |trace|), key) == |PathPlaces(normal, trace, |trace|, key)| {
        TraceCounted(normal, trace, |trace|, key);
      }
    }
  }
}
