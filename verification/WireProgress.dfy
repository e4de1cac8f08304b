/** The threads of the wire capture never block each other for good. */
module WireProgress {
  import opened Bytes
  import opened WireCut
  import opened WireLines
  import opened WireProxy
  import opened WireProxyProofs

  predicate Ended(t: Thread) {
    t.phase.Done? || t.phase.Failed?
  }

  predicate AllEnded(s: System) {
    Ended(s.client) && Ended(s.server) && Ended(s.main)
  }

  /** The thread wants the lock while some thread has it. */
  predicate Waits(h: Shared, t: Thread) {
    (t.phase.WantLog? || t.phase.WantPersist?) && h.lock.Some?
  }

  // ---- the work that is left ----

  /** The steps left for the line at hand. */
  function PhaseWork(p: Phase): nat {
    match p
    case Forwarding(_) => 11
    case Deciding(_) => 10
    case WantLog(_) => 9
    case Numbering(_) => 8
    case Pushing(_, _) => 7
    case WantPersist(_) => 6
    case Sorting(_) => 5
    case Writing(_) => 4
    case Written(_) => 3
    case Renaming(_) => 2
    case Reading => 1
    case Done => 0
    case Failed => 0
  }

  function ThreadWork(t: Thread): nat {
    11 * |t.unread| + PhaseWork(t.phase)
  }

  function Work(s: System): nat {
    ThreadWork(s.client) + ThreadWork(s.server) + ThreadWork(s.main)
  }

  /** A step of a thread that neither waits nor has ended leaves less to do. */
  lemma {:induction false} AdvanceWorks(decode: Decoder, h: Shared, who: Agent, t: Thread)
    ensures Waits(h, t) || Ended(t) ==> Step(decode, h, who, t) == (h, t)
    ensures !Waits(h, t) && !Ended(t) ==> ThreadWork(Step(decode, h, who, t).1) < ThreadWork(t)
  {
  }

  lemma {:induction false} FailureWorks(h: Shared, t: Thread, written: nat)
    ensures Break(h, t, written) == (h, t) || ThreadWork(Break(h, t, written).1) < ThreadWork(t)
  {
  }

  /** Nothing has changed, or less is left to do. */
  predicate Falls(s: System, t: System) {
    t == s || Work(t) < Work(s)
  }

  lemma {:induction false} ChoiceWorks(decode: Decoder, s: System, choice: Choice)
    ensures Falls(s, Apply(decode, s, choice))
  {
    var own := ThreadOf(s, choice.who);
    match choice
    case Advance(who) => AdvanceWorks(decode, s.shared, who, own);
    case Fail(who, written) => FailureWorks(s.shared, own, written);
  }

  /** How often the state changes up to the `n`th of these states. */
  function CountChanges(states: seq<System>, n: nat): nat
    requires n < |states|
  {
    if n == 0 then 0 else CountChanges(states, n - 1) + if states[n] == states[n - 1] then 0 else 1
  }

  lemma {:induction false} ChangesAndWork(states: seq<System>, n: nat)
    requires n < |states| && forall i :: 0 <= i < n ==> Falls(states[i], states[i + 1])
    ensures CountChanges(states, n) + Work(states[n]) <= Work(states[0])
  {
    if n > 0 {
      ChangesAndWork(states, n - 1);
      assert Falls(states[n - 1], states[n - 1 + 1]);
    }
  }

  lemma {:induction false} StartWork(client: seq<byte>, server: seq<byte>)
    ensures Work(Start(client, server)) == 11 * (|Lines(client)| + |Lines(server)|) + 8
  {
  }

  lemma {:induction false} AfterNext(decode: Decoder, s: System, choices: seq<Choice>, n: nat)
    requires n < |choices|
    ensures After(decode, s, choices, n + 1) == Apply(decode, After(decode, s, choices, n), choices[n])
  {
  }

  /** However long a run is, and whatever fails in it, it changes the state at most 11
      times for every line and 8 times more. */
  lemma {:induction false} ChangesAreBounded(decode: Decoder, client: seq<byte>, server: seq<byte>,
                                             choices: seq<Choice>)
    ensures CountChanges(States(decode, Start(client, server), choices, |choices|), |choices|)
            <= 11 * (|Lines(client)| + |Lines(server)|) + 8
  {
    var states := States(decode, Start(client, server), choices, |choices|);
    forall i | 0 <= i < |choices| ensures Falls(states[i], states[i + 1]) {
      AfterNext(decode, Start(client, server), choices, i);
      ChoiceWorks(decode, states[i], choices[i]);
    }
    ChangesAndWork(states, |choices|);
    StartWork(client, server);
    assert After(decode, Start(client, server), choices, 0) == Start(client, server);
  }

  // ---- someone can always go on ----

  /** While a thread has not ended, some thread can go on: the holder of the lock never
      waits, and while there is none nobody does. */
  lemma {:induction false} SomeoneAdvances(s: System, waiting: Agent) returns (who: Agent)
    requires (forall w :: LockOk(s.shared, w, ThreadOf(s, w))) && !Ended(ThreadOf(s, waiting))
    ensures !Waits(s.shared, ThreadOf(s, who)) && !Ended(ThreadOf(s, who))
  {
    who := if s.shared.lock.Some? then s.shared.lock.value else waiting;
    assert LockOk(s.shared, who, ThreadOf(s, who));
  }

  /** In every reachable state with a thread that has not ended, some thread can take a
      step that changes the state: waiting for the lock cannot become a deadlock. */
  lemma {:induction false} NoDeadlock(decode: Decoder, client: seq<byte>, server: seq<byte>, choices: seq<Choice>,
                                      n: nat)
    requires n <= |choices|
    ensures var s := After(decode, Start(client, server), choices, n);
            AllEnded(s) <==> forall who :: Apply(decode, s, Advance(who)) == s
  {
    var s := After(decode, Start(client, server), choices, n);
    RunKeepsInv(decode, client, server, choices, n);
    if AllEnded(s) {
      forall who ensures Apply(decode, s, Advance(who)) == s { AdvanceWorks(decode, s.shared, who, ThreadOf(s, who)); }
    } else {
      var who := SomeoneAdvances(s, if !Ended(s.client) then Client else if !Ended(s.server) then Server else Main);
      AdvanceWorks(decode, s.shared, who, ThreadOf(s, who));
      ThreadsAfter(decode, s, Advance(who), who);
    }
  }

  // ---- every run can be brought to its end ----

  lemma {:induction false} AfterFirst(decode: Decoder, s: System, first: Choice, rest: seq<Choice>, n: nat)
    requires n <= |rest|
    ensures After(decode, s, [first] + rest, n + 1) == After(decode, Apply(decode, s, first), rest, n)
  {
    var all, next := [first] + rest, Apply(decode, s, first);
    AfterNext(decode, s, all, n);
    if n == 0 {
      assert After(decode, s, all, 0) == s && After(decode, next, rest, 0) == next;
    } else {
      AfterFirst(decode, s, first, rest, n - 1);
      AfterNext(decode, next, rest, n - 1);
      assert all[n] == rest[n - 1];
    }
  }

  /** No thread fails between the two states. */
  predicate NoneFails(s: System, t: System) {
    forall who :: ThreadOf(t, who).phase.Failed? ==> ThreadOf(s, who).phase.Failed?
  }

  lemma {:induction false} AdvanceFailsNone(decode: Decoder, s: System, who: Agent)
    ensures NoneFails(s, Apply(decode, s, Advance(who)))
  {
    forall w | ThreadOf(Apply(decode, s, Advance(who)), w).phase.Failed? ensures ThreadOf(s, w).phase.Failed? {
      ThreadsAfter(decode, s, Advance(who), w);
    }
  }

  lemma {:induction false} NoneFailsTransitive(s: System, t: System, u: System)
    requires NoneFails(s, t) && NoneFails(t, u)
    ensures NoneFails(s, u)
  {
  }

  /** A thread that can go on, and what its step leaves. */
  lemma {:induction false} NextToAdvance(decode: Decoder, client: seq<Line>, server: seq<Line>, s: System)
    returns (who: Agent)
    requires Inv(decode, client, server, s) && !AllEnded(s)
    ensures var t := Apply(decode, s, Advance(who));
            Work(t) < Work(s) && NoneFails(s, t) && Inv(decode, client, server, t)
  {
    who := SomeoneAdvances(s, if !Ended(s.client) then Client else if !Ended(s.server) then Server else Main);
    AdvanceWorks(decode, s.shared, who, ThreadOf(s, who));
    AdvanceFailsNone(decode, s, who);
    StepKeepsInv(decode, client, server, s, Advance(who));
  }

  /** Advancing whoever can brings all threads to their end. */
  lemma {:induction false} Finish(decode: Decoder, client: seq<Line>, server: seq<Line>, s: System)
    returns (more: seq<Choice>)
    requires Inv(decode, client, server, s)
    ensures var t := After(decode, s, more, |more|); AllEnded(t) && NoneFails(s, t) && Inv(decode, client, server, t)
    decreases Work(s)
  {
    if AllEnded(s) {
      more := [];
    } else {
      var who := NextToAdvance(decode, client, server, s);
      var next := Apply(decode, s, Advance(who));
      var rest := Finish(decode, client, server, next);
      AfterFirst(decode, s, Advance(who), rest, |rest|);
      NoneFailsTransitive(s, next, After(decode, next, rest, |rest|));
      more := [Advance(who)] + rest;
    }
  }

  /** The thread has recorded and forwarded its whole input. */
  ghost predicate Copied(decode: Decoder, s: System, who: Agent, input: seq<byte>) {
    var (t, d) := if who == Client then (s.client, ClientToServer) else (s.server, ServerToClient);
    && t.forwarded == input
    && exists lines, raws :: IsCut(input, lines) && Said(decode, lines, raws) && Heard(s.shared.events, d, raws)
  }

  lemma {:induction false} EndedIsCopied(decode: Decoder, s: System, who: Agent, input: seq<byte>)
    requires who != Main && ThreadOf(s, who).phase.Done?
    requires CopyOk(decode, s.shared.events, DirectionOf(who), ThreadOf(s, who), Lines(input))
    ensures Copied(decode, s, who, input)
  {
    LinesConcat(input);
    CopyOkPrefixes(decode, s.shared.events, DirectionOf(who), ThreadOf(s, who), Lines(input));
    var lines := Lines(input);
    CutIff(input, lines);
    SaidIff(decode, lines, Messages(decode, lines));
    HeardIff(s.shared.events, DirectionOf(who), Messages(decode, lines));
  }

  /** Every reachable state can be brought to its end, and then a proxy thread that had
      not failed has recorded and forwarded all of its input. */
  lemma {:induction false} RunCanFinish(decode: Decoder, client: seq<byte>, server: seq<byte>, choices: seq<Choice>,
                                        n: nat)
    returns (more: seq<Choice>)
    requires n <= |choices|
    ensures var s := After(decode, Start(client, server), choices, n);
            var t := After(decode, s, more, |more|);
            AllEnded(t) && (!s.client.phase.Failed? ==> Copied(decode, t, Client, client))
            && (!s.server.phase.Failed? ==> Copied(decode, t, Server, server))
  {
    var s := After(decode, Start(client, server), choices, n);
    RunKeepsInv(decode, client, server, choices, n);
    more := Finish(decode, Lines(client), Lines(server), s);
    var t := After(decode, s, more, |more|);
    assert NoneFails(s, t);
    if !s.client.phase.Failed? {
      assert ThreadOf(t, Client) == t.client && ThreadOf(s, Client) == s.client;
      EndedIsCopied(decode, t, Client, client);
    }
    if !s.server.phase.Failed? {
      assert ThreadOf(t, Server) == t.server && ThreadOf(s, Server) == s.server;
      EndedIsCopied(decode, t, Server, server);
    }
  }
}
