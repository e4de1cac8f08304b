/** The recorder as a class and as a state machine agree where they overlap. */
module WireSequential {
  import opened Bytes
  import opened Wrappers
  import opened WireCut
  import opened WireLines
  import opened WireRecorder
  import opened WireProxy
  import opened WireProxyProofs

  /** The input of the two proxy threads when only this one has any. */
  function ClientInput(who: Agent, input: seq<byte>): seq<byte> {
    if who == Client then input else []
  }

  function ServerInput(who: Agent, input: seq<byte>): seq<byte> {
    if who == Server then input else []
  }

  // ---- every recorded event is published in the end ----

  /** The events of a direction are those its thread returned from, and the one it is
      about to publish, unless it failed. */
  ghost predicate Accounted(events: seq<Event>, d: Direction, t: Thread) {
    t.phase.Failed? || forall i :: 0 <= i < |events| && events[i].direction == d ==>
      i in t.returned || (InPersist(t.phase) && OwnOf(t.phase) == Some(i))
  }

  lemma {:induction false} OwnAccounted(decode: Decoder, h: Shared, choice: Choice, t: Thread)
    requires LogOk(h) && NumbersOk(h, t) && Accounted(h.events, DirectionOf(choice.who), t)
    requires InPersist(t.phase) ==> OwnOf(t.phase).Some?
    ensures var (k, u) := Move(decode, h, choice, t); Accounted(k.events, DirectionOf(choice.who), u)
  {
    MoveShared(decode, h, choice, t);
  }

  lemma {:induction false} OtherAccounted(decode: Decoder, h: Shared, choice: Choice, t: Thread, d: Direction,
                                          other: Thread)
    requires LogOk(h) && (t.phase.Pushing? ==> d != DirectionOf(choice.who)) && Accounted(h.events, d, other)
    ensures Accounted(Move(decode, h, choice, t).0.events, d, other)
  {
    MoveShared(decode, h, choice, t);
  }

  lemma {:induction false} RunKeepsAccounted(decode: Decoder, client: seq<byte>, server: seq<byte>,
                                             choices: seq<Choice>, n: nat, who: Agent)
    requires n <= |choices| && who != Main
    ensures var s := After(decode, Start(client, server), choices, n);
            Accounted(s.shared.events, DirectionOf(who), ThreadOf(s, who))
  {
    if n > 0 {
      RunKeepsAccounted(decode, client, server, choices, n - 1, who);
      NextAccounted(decode, client, server, choices, n - 1, who);
    }
  }

  lemma {:induction false} NextAccounted(decode: Decoder, client: seq<byte>, server: seq<byte>, choices: seq<Choice>,
                                         n: nat, who: Agent)
    requires n < |choices| && who != Main
    requires var s := After(decode, Start(client, server), choices, n);
             Accounted(s.shared.events, DirectionOf(who), ThreadOf(s, who))
    ensures var s := After(decode, Start(client, server), choices, n + 1);
            Accounted(s.shared.events, DirectionOf(who), ThreadOf(s, who))
  {
    RunKeepsInv(decode, client, server, choices, n);
    StepKeepsAccounted(decode, Lines(client), Lines(server), After(decode, Start(client, server), choices, n),
                       choices[n],
                       who);
  }

  lemma {:induction false} StepKeepsAccounted(decode: Decoder, client: seq<Line>, server: seq<Line>, s: System,
                                              choice: Choice, who: Agent)
    requires Inv(decode, client, server, s) && who != Main
    requires Accounted(s.shared.events, DirectionOf(who), ThreadOf(s, who))
    ensures var t := Apply(decode, s, choice); Accounted(t.shared.events, DirectionOf(who), ThreadOf(t, who))
  {
    ThreadsAfter(decode, s, choice, who);
    assert NumbersOk(s.shared, ThreadOf(s, who));
    if who == choice.who {
      OwnAccounted(decode, s.shared, choice, ThreadOf(s, who));
    } else {
      OtherAccounted(decode, s.shared, choice, ThreadOf(s, choice.who), DirectionOf(who), ThreadOf(s, who));
    }
  }

  /** A log whose events are all of one thread at its end is published. */
  lemma {:induction false} AllPublished(h: Shared, d: Direction, t: Thread)
    requires LogOk(h) && NumbersOk(h, t) && Accounted(h.events, d, t) && t.phase.Done?
    requires forall i :: 0 <= i < |h.events| ==> h.events[i].direction == d
    ensures h.output == Whole(h.events)
  {
    if h.events != [] {
      assert |h.events| - 1 in t.returned;
    }
  }

  // ---- one thread alone ----

  lemma {:induction false} LoneThreadRecords(decode: Decoder, who: Agent, input: seq<byte>, choices: seq<Choice>,
                                             n: nat)
    requires n <= |choices| && who != Main
    requires ThreadOf(After(decode, Start(ClientInput(who, input), ServerInput(who, input)), choices, n),
                      who).phase.Done?
    ensures var s := After(decode, Start(ClientInput(who, input), ServerInput(who, input)), choices, n);
            s.shared.events == WithMessages([], decode, DirectionOf(who), Lines(input))
            && ThreadOf(s, who).forwarded == input
  {
    var client, server := ClientInput(who, input), ServerInput(who, input);
    var other, d := if who == Client then Server else Client, DirectionOf(who);
    var events := After(decode, Start(client, server), choices, n).shared.events;
    LogIsContiguous(decode, client, server, choices, n);
    DirectionCopies(decode, client, server, choices, n, who);
    DirectionCopies(decode, client, server, choices, n, other);
    assert RawIn(events, Opposite(d)) <= Messages(decode, Lines([]));
    OneDirection(events, d);
    assert [] + EventsFor(0, d, RawIn(events, d)) == EventsFor(0, d, RawIn(events, d));
  }

  lemma {:induction false} DonePublished(decode: Decoder, client: seq<byte>, server: seq<byte>, choices: seq<Choice>,
                                         n: nat, who: Agent)
    requires n <= |choices| && who != Main
    requires var s := After(decode, Start(client, server), choices, n);
             ThreadOf(s, who).phase.Done?
             && forall i :: 0 <= i < |s.shared.events| ==> s.shared.events[i].direction == DirectionOf(who)
    ensures var h := After(decode, Start(client, server), choices, n).shared; h.output == Whole(h.events)
  {
    var s := After(decode, Start(client, server), choices, n);
    RunKeepsAccounted(decode, client, server, choices, n, who);
    RunKeepsInv(decode, client, server, choices, n);
    assert NumbersOk(s.shared, ThreadOf(s, who));
    AllPublished(s.shared, DirectionOf(who), ThreadOf(s, who));
  }

  /** When one proxy thread alone has input, then at its end the log, the published file
      and the forwarded bytes are what `CopyLines` leaves, whatever the main thread and
      the idle thread did in between. */
  lemma {:induction false} LoneThreadCopies(decode: Decoder, who: Agent, input: seq<byte>, choices: seq<Choice>, n: nat)
    returns (lines: seq<Line>, raws: seq<string>)
    requires n <= |choices| && who != Main
    requires ThreadOf(After(decode, Start(ClientInput(who, input), ServerInput(who, input)), choices, n),
                      who).phase.Done?
    ensures var s := After(decode, Start(ClientInput(who, input), ServerInput(who, input)), choices, n);
            var log := WithMessages([], decode, DirectionOf(who), Lines(input));
            s.shared.events == log && s.shared.output == Whole(log) && ThreadOf(s, who).forwarded == input
            && IsCut(input, lines) && Said(decode, lines, raws)
            && Logged([], if who == Client then ClientToServer else ServerToClient, raws, log)
  {
    lines, raws := LoggedAll([], decode, DirectionOf(who), input);
    LoneThreadRecords(decode, who, input, choices, n);
    DonePublished(decode, ClientInput(who, input), ServerInput(who, input), choices, n, who);
  }
}
