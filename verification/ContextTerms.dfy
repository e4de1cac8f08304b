/** What the maps of `classify` mean, said on the events of the trajectory and the calls
    of the trace. */
module ContextTerms {
  import opened Wrappers
  import opened Text
  import opened ContextSignals

  // ---- which call of the trace an event stands for ----

  ghost predicate HasCall(trace: seq<ToolCall>, id: string) {
    exists i :: 0 <= i < |trace| && trace[i].callId == id
  }

  /** The call of the event's own id; else that of the id without the prefix; else that
      of the prefixed id. */
  ghost predicate StandsFor(trace: seq<ToolCall>, own: string, id: string) {
    && HasCall(trace, id)
    && (own == id || (!HasCall(trace, own)
                      && (own == "prewalk:" + id || (Unstripped(trace, own) && id == "prewalk:" + own))))
  }

  /** The id has no prefix, or none whose removal gives a call of the trace. */
  ghost predicate Unstripped(trace: seq<ToolCall>, own: string) {
    forall rest :: own == "prewalk:" + rest ==> !HasCall(trace, rest)
  }

  /** The last call of the trace under the id has this sequence. */
  ghost predicate LastSequence(trace: seq<ToolCall>, id: string, s: nat) {
    exists i :: 0 <= i < |trace| && trace[i].callId == id && trace[i].sequence == s
                && forall j :: i < j < |trace| ==> trace[j].callId != id
  }

  lemma {:induction false} SequencesIff(trace: seq<ToolCall>, id: string)
    ensures id in Sequences(trace) <==> HasCall(trace, id)
    ensures forall s :: id in Sequences(trace) && Sequences(trace)[id] == s <==> LastSequence(trace, id, s)
  {
    if trace != [] {
      var n := |trace| - 1;
      SequencesIff(trace[..n], id);
      if trace[n].callId == id {
        assert LastSequence(trace, id, trace[n].sequence);
      } else {
        EarlierCall(trace, id);
      }
    }
  }

  lemma {:induction false} EarlierCall(trace: seq<ToolCall>, id: string)
    requires trace != [] && trace[|trace| - 1].callId != id
    ensures HasCall(trace, id) <==> HasCall(trace[..|trace| - 1], id)
    ensures forall s :: LastSequence(trace, id, s) <==> LastSequence(trace[..|trace| - 1], id, s)
  {
    var front := trace[..|trace| - 1];
    assert forall i :: 0 <= i < |front| ==> front[i] == trace[i];
    forall s ensures LastSequence(trace, id, s) <==> LastSequence(front, id, s) {
      if LastSequence(trace, id, s) {
        var i :| 0 <= i < |trace| && trace[i].callId == id && trace[i].sequence == s
                 && forall j :: i < j < |trace| ==> trace[j].callId != id;
        assert front[i] == trace[i];
      }
      if LastSequence(front, id, s) {
        var i :| 0 <= i < |front| && front[i].callId == id && front[i].sequence == s
                 && forall j :: i < j < |front| ==> front[j].callId != id;
        assert trace[i] == front[i];
      }
    }
  }

  lemma {:induction false} PrefixIff(own: string, rest: string)
    ensures own == "prewalk:" + rest <==> StripPrewalk(own) == Some(rest)
  {
    assert |"prewalk:"| == 8;
    if "prewalk:" <= own {
      assert own == "prewalk:" + own[8..];
    }
    if own == "prewalk:" + rest {
      assert own[8..] == rest;
    }
  }

  lemma {:induction false} ResolveIff(trace: seq<ToolCall>, own: string, id: string)
    ensures ResolveTraceId(Sequences(trace), own) == Some(id) <==> StandsFor(trace, own, id)
  {
    SequencesIff(trace, own);
    SequencesIff(trace, id);
    SequencesIff(trace, "prewalk:" + own);
    PrefixIff(own, id);
    var stripped := StripPrewalk(own);
    if stripped.Some? {
      SequencesIff(trace, stripped.value);
      PrefixIff(own, stripped.value);
    }
    forall rest ensures own == "prewalk:" + rest <==> stripped == Some(rest) { PrefixIff(own, rest); }
  }

  // ---- the hashes an event names ----

  lemma {:induction false} StringsIff(values: seq<Option<string>>, h: string)
    ensures h in Strings(values) <==> Some(h) in values
  {
    if values != [] {
      StringsIff(values[1..], h);
      assert values == [values[0]] + values[1..];
    }
  }

  /** Exactly the known hashes that are strings, and the expected hash. */
  lemma {:induction false} HashesIff(known: seq<Option<string>>, expected: Option<string>, h: string)
    ensures h in ArgumentHashes(known, expected) <==> Some(h) in known || expected == Some(h)
    ensures Ascending(ArgumentHashes(known, expected))
  {
    StringsIff(known, h);
  }

  // ---- what the calls of the trajectory are ----

  /** The event is a completed call of this tool that stands for this call of the trace. */
  ghost predicate Calls(trace: seq<ToolCall>, e: TrajectoryEvent, tool: Tool, id: string) {
    e.Completed? && e.id.Some? && e.tool == Some(tool) && StandsFor(trace, e.id.value, id)
  }

  lemma {:induction false} NamedIff(trace: seq<ToolCall>, e: TrajectoryEvent, id: string)
    ensures var r := ResolveEvent(e, Sequences(trace));
            r.Named? && r.id == id <==> e.Completed? && e.tool.Some? && Calls(trace, e, e.tool.value, id)
    ensures var r := ResolveEvent(e, Sequences(trace));
            r.Named? && r.id == id ==>
              && r.call.tool == e.tool.value && LastSequence(trace, id, r.call.sequence)
              && (forall h :: h in r.call.hashes <==> Some(h) in e.knownHashes || e.expectedHash == Some(h))
              && r.call.receiptInput == e.receiptInput && r.call.receiptResult == e.receiptResult
  {
    if e.Completed? && e.id.Some? {
      ResolveIff(trace, e.id.value, id);
      SequencesIff(trace, id);
      forall h { HashesIff(e.knownHashes, e.expectedHash, h); }
    }
  }

  /** Accepted are the trajectories whose completed calls have an id, a tool and a call
      of the trace, no two the same one. */
  ghost predicate Trajectory(trace: seq<ToolCall>, events: seq<TrajectoryEvent>) {
    && (forall i :: 0 <= i < |events| ==> !Unfit(trace, events[i]))
    && forall i, j, id :: 0 <= i < j < |events| && StandsAs(trace, events[i], id) ==> !StandsAs(trace, events[j], id)
  }

  lemma {:induction false} RefusedIff(trace: seq<ToolCall>, e: TrajectoryEvent)
    ensures ResolveEvent(e, Sequences(trace)).Refused? <==> Unfit(trace, e)
  {
    if e.Completed? && e.id.Some? {
      forall id ensures ResolveTraceId(Sequences(trace), e.id.value) == Some(id) <==> StandsFor(trace, e.id.value, id) {
        ResolveIff(trace, e.id.value, id);
      }
      var r := ResolveTraceId(Sequences(trace), e.id.value);
      if r.Some? { assert StandsFor(trace, e.id.value, r.value); }
    }
  }

  /** What the trajectory parser makes of each event. */
  ghost predicate Resolved(trace: seq<ToolCall>, events: seq<TrajectoryEvent>, rs: seq<Resolution>) {
    && |rs| == |events|
    && (forall i :: 0 <= i < |events| ==> (rs[i].Refused? <==> Unfit(trace, events[i])))
    && forall i, id :: 0 <= i < |events| ==> (rs[i].Named? && rs[i].id == id <==> StandsAs(trace, events[i], id))
  }

  /** A completed call without an id, a tool or a call of the trace. */
  ghost predicate Unfit(trace: seq<ToolCall>, e: TrajectoryEvent) {
    e.Completed? && !(e.id.Some? && e.tool.Some? && exists id :: StandsFor(trace, e.id.value, id))
  }

  ghost predicate StandsAs(trace: seq<ToolCall>, e: TrajectoryEvent, id: string) {
    e.Completed? && e.tool.Some? && Calls(trace, e, e.tool.value, id)
  }

  lemma {:induction false} ResolvedAll(trace: seq<ToolCall>, events: seq<TrajectoryEvent>)
    ensures Resolved(trace, events, ResolveAll(events, trace))
  {
    forall i | 0 <= i < |events| { RefusedIff(trace, events[i]); }
    forall i, id | 0 <= i < |events|
      ensures ResolveAll(events, trace)[i].Named? && ResolveAll(events, trace)[i].id == id
              <==> StandsAs(trace, events[i], id)
    {
      NamedIff(trace, events[i], id);
    }
  }

  lemma {:induction false} TraceableIff(trace: seq<ToolCall>, events: seq<TrajectoryEvent>, rs: seq<Resolution>)
    requires Resolved(trace, events, rs)
    ensures Traceable(rs, |events|) <==> Trajectory(trace, events)
  {
    if Traceable(rs, |events|) {
      forall i, j, id | 0 <= i < j < |events| && StandsAs(trace, events[i], id) && StandsAs(trace, events[j], id)
        ensures rs[i].Named? && rs[j].Named? && rs[i].id == rs[j].id
      {
      }
    }
    if Trajectory(trace, events) {
      forall i, j | 0 <= i < j < |events| && rs[i].Named? && rs[j].Named? ensures rs[i].id != rs[j].id {
        assert StandsAs(trace, events[i], rs[i].id) && StandsAs(trace, events[j], rs[j].id);
      }
    }
  }

  lemma {:induction false} TrajectoryIff(trace: seq<ToolCall>, events: seq<TrajectoryEvent>)
    ensures Traceable(ResolveAll(events, trace), |events|) <==> Trajectory(trace, events)
  {
    ResolvedAll(trace, events);
    TraceableIff(trace, events, ResolveAll(events, trace));
  }

  // ---- the calls of the trajectory, by the events ----

  /** The call says what the event says, at the place of the call it stands for. */
  ghost predicate SaysWhat(trace: seq<ToolCall>, e: TrajectoryEvent, id: string, call: TrajectoryCall) {
    && Calls(trace, e, call.tool, id) && LastSequence(trace, id, call.sequence)
    && (forall h :: h in call.hashes <==> Some(h) in e.knownHashes || e.expectedHash == Some(h))
    && call.receiptInput == e.receiptInput && call.receiptResult == e.receiptResult
  }

  ghost predicate SomeEventSays(trace: seq<ToolCall>, events: seq<TrajectoryEvent>, id: string, call: TrajectoryCall) {
    exists i :: 0 <= i < |events| && SaysWhat(trace, events[i], id, call)
  }

  /** The calls are what the events say. */
  lemma {:induction false} CallsAre(trace: seq<ToolCall>, events: seq<TrajectoryEvent>,
                                    calls: map<string, TrajectoryCall>)
    requires CallsOf(ResolveAll(events, trace), |events|, calls)
    ensures forall id :: id in calls ==> SomeEventSays(trace, events, id, calls[id])
    ensures forall i, tool, id :: 0 <= i < |events| && Calls(trace, events[i], tool, id) ==>
              id in calls && SaysWhat(trace, events[i], id, calls[id])
  {
    var rs := ResolveAll(events, trace);
    forall id | id in calls ensures SomeEventSays(trace, events, id, calls[id]) {
      var i :| 0 <= i < |events| && rs[i].Named? && rs[i].id == id;
      NamedIff(trace, events[i], id);
      assert SaysWhat(trace, events[i], id, calls[id]);
    }
    forall i, tool, id | 0 <= i < |events| && Calls(trace, events[i], tool, id)
      ensures id in calls && SaysWhat(trace, events[i], id, calls[id])
    {
      NamedIff(trace, events[i], id);
      assert rs[i].Named? && rs[i].id == id;
    }
  }

  lemma {:induction false} CallIsSaid(trace: seq<ToolCall>, events: seq<TrajectoryEvent>,
                                      calls: map<string, TrajectoryCall>, id: string)
    requires CallsOf(ResolveAll(events, trace), |events|, calls) && id in calls
    ensures SomeEventSays(trace, events, id, calls[id])
  {
    CallsAre(trace, events, calls);
  }

  lemma {:induction false} EventSays(trace: seq<ToolCall>, events: seq<TrajectoryEvent>,
                                     calls: map<string, TrajectoryCall>, i: int, tool: Tool, id: string)
    requires CallsOf(ResolveAll(events, trace), |events|, calls)
    requires 0 <= i < |events| && Calls(trace, events[i], tool, id)
    ensures id in calls && SaysWhat(trace, events[i], id, calls[id])
  {
    CallsAre(trace, events, calls);
  }

  ghost predicate Retrieves(trace: seq<ToolCall>, e: TrajectoryEvent, id: string) {
    Calls(trace, e, Context, id) || Calls(trace, e, OtherRetrieval, id)
  }

  lemma {:induction false} RetrievesIff(trace: seq<ToolCall>, e: TrajectoryEvent, id: string, call: TrajectoryCall)
    requires SaysWhat(trace, e, id, call)
    ensures IsRetrieval(call.tool) <==> Retrieves(trace, e, id)
  {
  }

  // ---- the signals ----

  /** A retrieval event of a later call of the trace names the hash. */
  ghost predicate NamesHash(trace: seq<ToolCall>, e: TrajectoryEvent, id: string, hash: string, sequence: nat, s: nat) {
    && Retrieves(trace, e, id) && LastSequence(trace, id, s) && s > sequence
    && (Some(hash) in e.knownHashes || e.expectedHash == Some(hash))
  }

  ghost predicate HashNamedLater(trace: seq<ToolCall>, events: seq<TrajectoryEvent>, hash: string, sequence: nat) {
    exists i, id, s :: 0 <= i < |events| && NamesHash(trace, events[i], id, hash, sequence, s)
  }

  lemma {:induction false} InputIsNamed(trace: seq<ToolCall>, events: seq<TrajectoryEvent>, id: string,
                                        call: TrajectoryCall, hash: string, sequence: nat)
    requires SomeEventSays(trace, events, id, call) && IsRetrieval(call.tool) && hash in call.hashes
    requires call.sequence > sequence
    ensures HashNamedLater(trace, events, hash, sequence)
  {
    var i :| 0 <= i < |events| && SaysWhat(trace, events[i], id, call);
    RetrievesIff(trace, events[i], id, call);
    assert NamesHash(trace, events[i], id, hash, sequence, call.sequence);
  }

  lemma {:induction false} NamedIsInput(trace: seq<ToolCall>, e: TrajectoryEvent, id: string, call: TrajectoryCall,
                                        hash: string, sequence: nat, s: nat)
    requires SaysWhat(trace, e, id, call) && NamesHash(trace, e, id, hash, sequence, s)
    ensures IsRetrieval(call.tool) && hash in call.hashes && call.sequence > sequence
  {
    LastSequenceOnce(trace, id, s, call.sequence);
    RetrievesIff(trace, e, id, call);
  }

  lemma {:induction false} HashLaterIff(trace: seq<ToolCall>, events: seq<TrajectoryEvent>,
                                        calls: map<string, TrajectoryCall>, hash: string, sequence: nat)
    requires CallsOf(ResolveAll(events, trace), |events|, calls)
    ensures HashInputLater(calls, hash, sequence) <==> HashNamedLater(trace, events, hash, sequence)
  {
    if HashInputLater(calls, hash, sequence) {
      var id :| id in calls && IsRetrieval(calls[id].tool) && hash in calls[id].hashes && calls[id].sequence > sequence;
      CallIsSaid(trace, events, calls, id);
      InputIsNamed(trace, events, id, calls[id], hash, sequence);
    }
    if HashNamedLater(trace, events, hash, sequence) {
      var i, id, s :| 0 <= i < |events| && NamesHash(trace, events[i], id, hash, sequence, s);
      EventSays(trace, events, calls, i, events[i].tool.value, id);
      NamedIsInput(trace, events[i], id, calls[id], hash, sequence, s);
    }
  }

  lemma {:induction false} LastSequenceOnce(trace: seq<ToolCall>, id: string, s: nat, t: nat)
    requires LastSequence(trace, id, s) && LastSequence(trace, id, t)
    ensures s == t
  {
  }

  /** The calls of the trace that a retrieval event stands for. */
  ghost predicate Retrieved(trace: seq<ToolCall>, events: seq<TrajectoryEvent>, i: int) {
    0 <= i < |trace| && exists k :: 0 <= k < |events| && Retrieves(trace, events[k], trace[i].callId)
  }

  lemma {:induction false} RetrievalEventIff(trace: seq<ToolCall>, events: seq<TrajectoryEvent>,
                                             calls: map<string, TrajectoryCall>, id: string)
    requires CallsOf(ResolveAll(events, trace), |events|, calls)
    ensures IsRetrievalCall(calls, id) <==> exists k :: 0 <= k < |events| && Retrieves(trace, events[k], id)
  {
    if IsRetrievalCall(calls, id) {
      CallIsSaid(trace, events, calls, id);
      var k :| 0 <= k < |events| && SaysWhat(trace, events[k], id, calls[id]);
      RetrievesIff(trace, events[k], id, calls[id]);
    }
    if k :| 0 <= k < |events| && Retrieves(trace, events[k], id) {
      EventSays(trace, events, calls, k, events[k].tool.value, id);
      RetrievesIff(trace, events[k], id, calls[id]);
    }
  }

  lemma {:induction false} RetrievedIff(trace: seq<ToolCall>, events: seq<TrajectoryEvent>,
                                        calls: map<string, TrajectoryCall>, i: int)
    requires CallsOf(ResolveAll(events, trace), |events|, calls)
    ensures i in RetrievalCalls(trace, calls) <==> Retrieved(trace, events, i)
  {
    if 0 <= i < |trace| { RetrievalEventIff(trace, events, calls, trace[i].callId); }
  }

  /** A call of the trace that no event stands for, although its id is the prefix and
      that of a retrieval event's call. */
  ghost predicate LeftOver(trace: seq<ToolCall>, events: seq<TrajectoryEvent>, i: int) {
    && 0 <= i < |trace| && (forall k, tool :: 0 <= k < |events| ==> !Calls(trace, events[k], tool, trace[i].callId))
    && exists rest, k :: trace[i].callId == "prewalk:" + rest && 0 <= k < |events| && Retrieves(trace, events[k], rest)
  }

  lemma {:induction false} CalledIff(trace: seq<ToolCall>, events: seq<TrajectoryEvent>,
                                     calls: map<string, TrajectoryCall>, id: string)
    requires CallsOf(ResolveAll(events, trace), |events|, calls)
    ensures id in calls <==> exists k, tool :: 0 <= k < |events| && Calls(trace, events[k], tool, id)
  {
    if id in calls {
      CallIsSaid(trace, events, calls, id);
      var k :| 0 <= k < |events| && SaysWhat(trace, events[k], id, calls[id]);
    }
    if k, tool :| 0 <= k < |events| && Calls(trace, events[k], tool, id) {
      EventSays(trace, events, calls, k, tool, id);
    }
  }

  lemma {:induction false} StrayIff(trace: seq<ToolCall>, events: seq<TrajectoryEvent>,
                                    calls: map<string, TrajectoryCall>, i: int)
    requires CallsOf(ResolveAll(events, trace), |events|, calls)
    ensures Stray(trace, calls, i) <==> LeftOver(trace, events, i)
  {
    if 0 <= i < |trace| {
      var id := trace[i].callId;
      CalledIff(trace, events, calls, id);
      var stripped := StripPrewalk(id);
      forall rest ensures id == "prewalk:" + rest <==> stripped == Some(rest) { PrefixIff(id, rest); }
      if stripped.Some? { RetrievalEventIff(trace, events, calls, stripped.value); }
    }
  }

  // ---- ranges that meet ----

  predicate HasLine(start: nat, end: nat, line: nat) {
    start <= line <= end
  }

  /** Two ranges overlap exactly when they share a line, and have the same lines exactly
      when each line of one is a line of the other. */
  lemma {:induction false} OverlapsIff(a: Range, start: nat, end: nat)
    requires a.start <= a.end && start <= end
    ensures Overlaps(a, start, end) <==> exists line :: HasLine(a.start, a.end, line) && HasLine(start, end, line)
    ensures SameLines(a, start, end) <==> forall line :: HasLine(a.start, a.end, line) <==> HasLine(start, end, line)
  {
    var line := if a.start < start then start else a.start;
    if Overlaps(a, start, end) { assert HasLine(a.start, a.end, line) && HasLine(start, end, line); }
    assert HasLine(a.start, a.end, a.start) && HasLine(a.start, a.end, a.end);
    assert HasLine(start, end, start) && HasLine(start, end, end);
  }
}
