/** `classify`: what happens, later in a trajectory, to the ranges a context call
    returned. */
module ContextSignals {
  import opened Wrappers
  import opened Text
  import opened RepositoryPath

  // ---- the two artifacts ----

  datatype Range = Range(generation: nat, path: string, start: nat, end: nat, hash: string, tokens: Option<nat>)

  datatype ToolCall = ToolCall(sequence: nat, callId: string, success: bool, ranges: seq<Range>)

  datatype Tool = Context | OtherRetrieval | OtherTool

  predicate IsRetrieval(tool: Tool) {
    tool != OtherTool
  }

  /** A trajectory event; only a completed MCP tool call matters. */
  datatype TrajectoryEvent =
    | Completed(id: Option<string>, tool: Option<Tool>, knownHashes: seq<Option<string>>, expectedHash: Option<string>,
                receiptInput: Option<string>, receiptResult: Option<string>)
    | OtherEvent

  datatype TrajectoryCall = TrajectoryCall(sequence: nat, tool: Tool, hashes: seq<string>, receiptInput: Option<string>,
                                           receiptResult: Option<string>)

  datatype Rejection =
    | NoId | NotInTrace | NoTool | DuplicateCall | TooManyContextCalls | TooManyContextRanges | TooManyHashes
    | TooManyTokens | BadPath

  const PREWALK := "prewalk:"

  function StripPrewalk(id: string): Option<string> {
    if PREWALK <= id then Some(id[|PREWALK|..]) else None
  }

  /** `argument_hashes`: the strings among the known hashes and the expected hash,
      as a sorted set. */
  function ArgumentHashes(known: seq<Option<string>>, expected: Option<string>): seq<string> {
    SortedKeys(Strings(known) + if expected.Some? then [expected.value] else [])
  }

  function Strings(values: seq<Option<string>>): seq<string> {
    if values == [] then [] else (if values[0].Some? then [values[0].value] else []) + Strings(values[1..])
  }

  // ---- trajectory calls ----

  /** Call ids of the trace with their sequences; a later call wins. */
  function Sequences(calls: seq<ToolCall>): map<string, nat> {
    if calls == [] then map[]
    else Sequences(calls[..|calls| - 1])[calls[|calls| - 1].callId := calls[|calls| - 1].sequence]
  }

  /** `resolve_trace_id` */
  function ResolveTraceId(sequences: map<string, nat>, id: string): (r: Option<string>)
    ensures r.Some? ==> r.value in sequences
  {
    if id in sequences then Some(id)
    else
      var stripped := StripPrewalk(id);
      if stripped.Some? && stripped.value in sequences then stripped
      else if PREWALK + id in sequences then Some(PREWALK + id)
      else None
  }

  /** `trajectory_call_for_trace_id` */
  function CallForTraceId(calls: map<string, TrajectoryCall>, id: string): Option<TrajectoryCall> {
    if id in calls then Some(calls[id])
    else
      var stripped :- StripPrewalk(id);
      if stripped in calls then Some(calls[stripped]) else None
  }

  /** Iteration over a `BTreeMap`: its keys in ascending order. */
  ghost predicate KeysInOrder(keys: seq<string>, calls: map<string, TrajectoryCall>) {
    Ascending(keys) && forall k :: k in keys <==> k in calls
  }

  /** What one event contributes: nothing, an error, or a call under the trace id it
      resolves to. */
  datatype Resolution = Ignored | Refused(why: Rejection) | Named(id: string, call: TrajectoryCall)

  function ResolveEvent(e: TrajectoryEvent, sequences: map<string, nat>): (r: Resolution)
    ensures r.Named? ==> r.id in sequences && r.call.sequence == sequences[r.id]
  {
    if e.OtherEvent? then Ignored
    else if e.id.None? then Refused(NoId)
    else
      var id := ResolveTraceId(sequences, e.id.value);
      if id.None? then Refused(NotInTrace)
      else if e.tool.None? then Refused(NoTool)
      else Named(id.value,
                 TrajectoryCall(sequences[id.value], e.tool.value, ArgumentHashes(e.knownHashes, e.expectedHash),
                                          e.receiptInput, e.receiptResult))
  }

  function ResolveAll(events: seq<TrajectoryEvent>, trace: seq<ToolCall>): (r: seq<Resolution>)
    ensures |r| == |events| && forall i :: 0 <= i < |r| ==> r[i] == ResolveEvent(events[i], Sequences(trace))
  {
    var sequences := Sequences(trace);
    seq(|events|, i requires 0 <= i < |events| => ResolveEvent(events[i], sequences))
  }

  /** None of the first `n` is refused, and no two name one call of the trace. */
  ghost predicate Traceable(rs: seq<Resolution>, n: nat)
    requires n <= |rs|
  {
    && (forall i :: 0 <= i < n ==> !rs[i].Refused?)
    && forall i, j :: 0 <= i < j < n && rs[i].Named? && rs[j].Named? ==> rs[i].id != rs[j].id
  }

  ghost predicate NamedBefore(rs: seq<Resolution>, n: nat, id: string)
    requires n <= |rs|
  {
    exists i :: 0 <= i < n && rs[i].Named? && rs[i].id == id
  }

  /** The calls the first `n` name, each under its id. */
  ghost predicate CallsOf(rs: seq<Resolution>, n: nat, calls: map<string, TrajectoryCall>)
    requires n <= |rs|
  {
    && (forall i :: 0 <= i < n && rs[i].Named? ==> rs[i].id in calls && calls[rs[i].id] == rs[i].call)
    && forall id :: id in calls ==> NamedBefore(rs, n, id)
  }

  lemma {:induction false} StillNamed(rs: seq<Resolution>, n: nat, id: string)
    requires n < |rs| && NamedBefore(rs, n, id)
    ensures NamedBefore(rs, n + 1, id)
  {
    var i :| 0 <= i < n && rs[i].Named? && rs[i].id == id;
    assert 0 <= i < n + 1 && rs[i].Named? && rs[i].id == id;
  }

  lemma {:induction false} SecondCall(rs: seq<Resolution>, n: nat, calls: map<string, TrajectoryCall>)
    requires n < |rs| && CallsOf(rs, n, calls) && rs[n].Named? && rs[n].id in calls
    ensures !Traceable(rs, |rs|)
  {
    var i :| 0 <= i < n && rs[i].Named? && rs[i].id == rs[n].id;
  }

  lemma {:induction false} NewCall(rs: seq<Resolution>, n: nat, calls: map<string, TrajectoryCall>)
    requires n < |rs| && Traceable(rs, n) && CallsOf(rs, n, calls) && !rs[n].Refused?
    requires rs[n].Named? ==> rs[n].id !in calls
    ensures Traceable(rs, n + 1)
    ensures CallsOf(rs, n + 1, if rs[n].Named? then calls[rs[n].id := rs[n].call] else calls)
  {
    var grown := if rs[n].Named? then calls[rs[n].id := rs[n].call] else calls;
    forall id | id in grown ensures NamedBefore(rs, n + 1, id) {
      if id in calls { StillNamed(rs, n, id); } else { assert rs[n].id == id; }
    }
  }

  /** `trajectory_calls`: accepts exactly the trajectories whose completed calls
      resolve to distinct calls of the trace, and keys them by that call. */
  method TrajectoryCalls(events: seq<TrajectoryEvent>, trace: seq<ToolCall>)
    returns (r: Result<(seq<string>, map<string, TrajectoryCall>), Rejection>)
    ensures r.Ok? <==> Traceable(ResolveAll(events, trace), |events|)
    ensures r.Ok? ==> KeysInOrder(r.value.0, r.value.1) && CallsOf(ResolveAll(events, trace), |events|, r.value.1)
  {
    var sequences := Sequences(trace);
    ghost var rs := ResolveAll(events, trace);
    var calls: map<string, TrajectoryCall> := map[];
    var keys: seq<string> := [];
    var n := 0;
    while n < |events|
      invariant n <= |events| && KeysInOrder(keys, calls)
      invariant Traceable(rs, n) && CallsOf(rs, n, calls)
    {
      var resolved := ResolveEvent(events[n], sequences);
      match resolved {
        case Ignored => NewCall(rs, n, calls);
        case Refused(why) => return Err(why);
        case Named(id, call) =>
          if id in calls {
            SecondCall(rs, n, calls);
            return Err(DuplicateCall);
          }
          NewCall(rs, n, calls);
          calls := calls[id := call];
          keys := InsertKey(id, keys);
      }
      n := n + 1;
    }
    r := Ok((keys, calls));
  }

  /** Every call stands under a call of the trace and has its sequence number. */
  lemma {:induction false} CallsInTrace(events: seq<TrajectoryEvent>, trace: seq<ToolCall>,
                                        calls: map<string, TrajectoryCall>)
    requires CallsOf(ResolveAll(events, trace), |events|, calls)
    ensures forall id :: id in calls ==> id in Sequences(trace) && calls[id].sequence == Sequences(trace)[id]
  {
    var rs := ResolveAll(events, trace);
    forall id | id in calls ensures id in Sequences(trace) && calls[id].sequence == Sequences(trace)[id] {
      var i :| 0 <= i < |events| && rs[i].Named? && rs[i].id == id;
      assert rs[i] == ResolveEvent(events[i], Sequences(trace));
    }
  }

  // ---- the naive meaning of the signals ----

  /** What a range is looked up by. */
  type PathKey = (nat, string)

  /** What becomes of a path, if it is accepted. The indexes do not depend on how. */
  type Normalizer = string -> Option<string>

  /** The normaliser of the harness. */
  function Normalized(path: string): Option<string> {
    match NormalizePath(path)
    case Ok(normal) => Some(normal)
    case Err(_) => None
  }

  function KeyOf(normal: Normalizer, range: Range): Option<PathKey> {
    match normal(range.path)
    case Some(path) => Some((range.generation, path))
    case None => None
  }

  predicate IsRetrievalCall(calls: map<string, TrajectoryCall>, id: string) {
    id in calls && IsRetrieval(calls[id].tool)
  }

  /** The calls of the trace that a retrieval call of the trajectory resolves to. */
  ghost function RetrievalCalls(trace: seq<ToolCall>, calls: map<string, TrajectoryCall>): set<int> {
    set i | 0 <= i < |trace| && IsRetrievalCall(calls, trace[i].callId)
  }

  /** The test the per-path index is filled by: through `trajectory_call_for_trace_id`. */
  predicate IsRetrievalTrace(calls: map<string, TrajectoryCall>, call: ToolCall) {
    var found := CallForTraceId(calls, call.callId);
    found.Some? && IsRetrieval(found.value.tool)
  }

  /** The calls of the trace whose ranges the per-path index holds. */
  ghost function IndexedCalls(trace: seq<ToolCall>, calls: map<string, TrajectoryCall>): set<int> {
    set i | 0 <= i < |trace| && IsRetrievalTrace(calls, trace[i])
  }

  /** A prefixed call that no event of the trajectory resolves to, beside an unprefixed
      one that a retrieval call resolves to. */
  ghost predicate Stray(trace: seq<ToolCall>, calls: map<string, TrajectoryCall>, i: int) {
    && 0 <= i < |trace| && trace[i].callId !in calls
    && StripPrewalk(trace[i].callId).Some? && IsRetrievalCall(calls, StripPrewalk(trace[i].callId).value)
  }

  ghost function Strays(trace: seq<ToolCall>, calls: map<string, TrajectoryCall>): set<int> {
    set i | 0 <= i < |trace| && Stray(trace, calls, i)
  }

  /** The index holds the ranges of the retrieval calls and of the strays: of nothing
      else than the retrieval calls exactly when there is no stray. */
  lemma {:induction false} IndexedIsRetrievalIff(trace: seq<ToolCall>, calls: map<string, TrajectoryCall>)
    ensures IndexedCalls(trace, calls) == RetrievalCalls(trace, calls) + Strays(trace, calls)
    ensures RetrievalCalls(trace, calls) !! Strays(trace, calls)
    ensures IndexedCalls(trace, calls) == RetrievalCalls(trace, calls) <==> forall i :: !Stray(trace, calls, i)
  {
    forall i ensures i in Strays(trace, calls) <==> Stray(trace, calls, i) {
    }
  }

  /** Range `j` of call `i`, one of the calls `who`, after `sequence`, on the same file
      of the same generation. */
  ghost predicate LaterRange(normal: Normalizer, trace: seq<ToolCall>, who: set<int>, key: PathKey, sequence: nat,
                             i: int, j: int) {
    && 0 <= i < |trace| && 0 <= j < |trace[i].ranges| && i in who
    && trace[i].sequence > sequence
    && KeyOf(normal, trace[i].ranges[j]) == Some(key)
  }

  predicate Overlaps(a: Range, start: nat, end: nat) {
    start <= a.end && a.start <= end
  }

  predicate SameLines(a: Range, start: nat, end: nat) {
    start == a.start && end == a.end
  }

  ghost predicate ExactReread(normal: Normalizer, trace: seq<ToolCall>, who: set<int>, key: PathKey, sequence: nat,
                              range: Range) {
    exists i, j :: LaterRange(normal, trace, who, key, sequence, i, j)
                   && SameLines(range, trace[i].ranges[j].start, trace[i].ranges[j].end)
  }

  ghost predicate OverlapReread(normal: Normalizer, trace: seq<ToolCall>, who: set<int>, key: PathKey, sequence: nat,
                                range: Range) {
    exists i, j :: LaterRange(normal, trace, who, key, sequence, i, j)
                   && Overlaps(range, trace[i].ranges[j].start, trace[i].ranges[j].end)
                   && !SameLines(range, trace[i].ranges[j].start, trace[i].ranges[j].end)
  }

  /** Some later retrieval call of the trajectory names the hash. */
  ghost predicate HashInputLater(calls: map<string, TrajectoryCall>, hash: string, sequence: nat) {
    exists k :: k in calls && IsRetrieval(calls[k].tool) && hash in calls[k].hashes && calls[k].sequence > sequence
  }

  /** The least sequence of a later call with an overlapping range. */
  ghost predicate FirstFollowUp(normal: Normalizer, trace: seq<ToolCall>, who: set<int>, key: PathKey, sequence: nat,
                                range: Range, first: Option<nat>) {
    match first
    case None => forall i, j :: LaterRange(normal, trace, who, key, sequence, i, j) ==>
                   !Overlaps(range, trace[i].ranges[j].start, trace[i].ranges[j].end)
    case Some(s) =>
      && (exists i, j :: LaterRange(normal, trace, who, key, sequence, i, j) && trace[i].sequence == s
                         && Overlaps(range, trace[i].ranges[j].start, trace[i].ranges[j].end))
      && (forall i, j :: LaterRange(normal, trace, who, key, sequence, i, j) ==>
            Overlaps(range, trace[i].ranges[j].start, trace[i].ranges[j].end) ==> s <= trace[i].sequence)
  }

  datatype RangeUtilization = RangeUtilization(origin: nat, generation: nat, path: string, start: nat, end: nat,
                                               hash: string, tokens: Option<nat>, relevant: bool, hashInputLater: bool,
                                               exactReread: bool, overlapReread: bool, noSignal: bool,
                                               firstFollowUp: Option<nat>)

  /** The report on one range says what a scan of all later calls among `who` says. */
  ghost predicate Describes(normal: Normalizer, u: RangeUtilization, trace: seq<ToolCall>, who: set<int>,
                            calls: map<string, TrajectoryCall>, relevant: set<string>, origin: ToolCall, range: Range) {
    && u.origin == origin.sequence && u.generation == range.generation && Some(u.path) == normal(range.path)
    && u.start == range.start && u.end == range.end && u.hash == range.hash && u.tokens == range.tokens
    && u.relevant == (u.path in relevant)
    && u.hashInputLater == HashInputLater(calls, range.hash, origin.sequence)
    && u.exactReread == ExactReread(normal, trace, who, (range.generation, u.path), origin.sequence, range)
    && u.overlapReread == OverlapReread(normal, trace, who, (range.generation, u.path), origin.sequence, range)
    && u.noSignal == !(u.relevant || u.hashInputLater || u.exactReread || u.overlapReread)
    && FirstFollowUp(normal, trace, who, (range.generation, u.path), origin.sequence, range, u.firstFollowUp)
  }

  /** For a validated range the first follow-up is present exactly when a reread
      flag is set. */
  lemma {:induction false} FollowUpIffReread(normal: Normalizer, u: RangeUtilization, trace: seq<ToolCall>,
                                             who: set<int>, calls: map<string, TrajectoryCall>, relevant: set<string>,
                                             origin: ToolCall, range: Range)
    requires Describes(normal, u, trace, who, calls, relevant, origin, range) && range.start <= range.end
    ensures u.firstFollowUp.Some? <==> u.exactReread || u.overlapReread
    ensures u.noSignal ==> u.firstFollowUp.None?
  {
  }

  // ---- rows that count strays ----

  /** Every later stray range that would set a flag or be the first follow-up is
      outdone by one of a retrieval call. */
  ghost predicate StraysOutdone(normal: Normalizer, trace: seq<ToolCall>, calls: map<string, TrajectoryCall>,
                                key: PathKey, sequence: nat, range: Range) {
    var strays, own := Strays(trace, calls), RetrievalCalls(trace, calls);
    && (ExactReread(normal, trace, strays, key, sequence, range) ==>
        ExactReread(normal, trace, own, key, sequence, range))
    && (OverlapReread(normal, trace, strays, key, sequence, range) ==>
        OverlapReread(normal, trace, own, key, sequence, range))
    && forall i, j :: LaterRange(normal, trace, strays, key, sequence, i, j) ==>
         Overlaps(range, trace[i].ranges[j].start, trace[i].ranges[j].end) ==>
         OverlapBy(normal, trace, own, key, sequence, range, trace[i].sequence)
  }

  /** A later overlapping range of one of the calls, no later than `last`. */
  ghost predicate OverlapBy(normal: Normalizer, trace: seq<ToolCall>, who: set<int>, key: PathKey, sequence: nat,
                            range: Range, last: nat) {
    exists i, j :: LaterRange(normal, trace, who, key, sequence, i, j) && trace[i].sequence <= last
                   && Overlaps(range, trace[i].ranges[j].start, trace[i].ranges[j].end)
  }

  lemma {:induction false} LaterInEither(normal: Normalizer, trace: seq<ToolCall>, calls: map<string, TrajectoryCall>,
                                         key: PathKey, sequence: nat, i: int, j: int)
    ensures LaterRange(normal, trace, IndexedCalls(trace, calls), key, sequence, i, j)
            <==> || LaterRange(normal, trace, RetrievalCalls(trace, calls), key, sequence, i, j)
                 || LaterRange(normal, trace, Strays(trace, calls), key, sequence, i, j)
  {
    IndexedIsRetrievalIff(trace, calls);
  }

  lemma {:induction false} RereadInEither(normal: Normalizer, trace: seq<ToolCall>, calls: map<string, TrajectoryCall>,
                                          key: PathKey, sequence: nat, range: Range)
    ensures ExactReread(normal, trace, IndexedCalls(trace, calls), key, sequence, range)
            <==> || ExactReread(normal, trace, RetrievalCalls(trace, calls), key, sequence, range)
                 || ExactReread(normal, trace, Strays(trace, calls), key, sequence, range)
    ensures OverlapReread(normal, trace, IndexedCalls(trace, calls), key, sequence, range)
            <==> || OverlapReread(normal, trace, RetrievalCalls(trace, calls), key, sequence, range)
                 || OverlapReread(normal, trace, Strays(trace, calls), key, sequence, range)
  {
    forall i, j { LaterInEither(normal, trace, calls, key, sequence, i, j); }
  }

  lemma {:induction false} FirstInEither(normal: Normalizer, trace: seq<ToolCall>, calls: map<string, TrajectoryCall>,
                                         key: PathKey, sequence: nat, range: Range, first: Option<nat>)
    requires FirstFollowUp(normal, trace, IndexedCalls(trace, calls), key, sequence, range, first)
    ensures FirstFollowUp(normal, trace, RetrievalCalls(trace, calls), key, sequence, range, first)
            <==> forall i, j :: LaterRange(normal, trace, Strays(trace, calls), key, sequence, i, j) ==>
                   Overlaps(range, trace[i].ranges[j].start, trace[i].ranges[j].end) ==>
                   OverlapBy(normal, trace, RetrievalCalls(trace, calls), key, sequence, range, trace[i].sequence)
  {
    forall i, j { LaterInEither(normal, trace, calls, key, sequence, i, j); }
  }

  /** A row read off the index says what a scan of the retrieval calls says exactly when
      the strays are outdone; without strays it always does. */
  lemma {:induction false} DescribesIff(normal: Normalizer, u: RangeUtilization, trace: seq<ToolCall>,
                                        calls: map<string, TrajectoryCall>, relevant: set<string>, origin: ToolCall,
                                        range: Range)
    requires Describes(normal, u, trace, IndexedCalls(trace, calls), calls, relevant, origin, range)
    ensures Describes(normal, u, trace, RetrievalCalls(trace, calls), calls, relevant, origin, range)
            <==> StraysOutdone(normal, trace, calls, (range.generation, u.path), origin.sequence, range)
    ensures (forall i :: !Stray(trace, calls, i)) ==>
              Describes(normal, u, trace, RetrievalCalls(trace, calls), calls, relevant, origin, range)
  {
    var key := (range.generation, u.path);
    RereadInEither(normal, trace, calls, key, origin.sequence, range);
    FirstInEither(normal, trace, calls, key, origin.sequence, range, u.firstFollowUp);
    IndexedIsRetrievalIff(trace, calls);
  }
}
