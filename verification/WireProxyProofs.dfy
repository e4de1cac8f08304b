/** What holds on every run of the wire capture. */
module WireProxyProofs {
  import opened Bytes
  import opened Wrappers
  import opened WireCut
  import opened WireLines
  import opened WireProxy

  // ---- one step of one thread ----

  /** A step takes the lock only when it is free, and releases only its own. */
  lemma {:induction false} MoveLock(decode: Decoder, h: Shared, choice: Choice, t: Thread)
    requires LockOk(h, choice.who, t)
    ensures var (k, u) := Move(decode, h, choice, t);
            && LockOk(k, choice.who, u)
            && forall other :: other != choice.who ==> (k.lock == Some(other) <==> h.lock == Some(other))
  {
  }

  /** Which step changes which shared variable, and how. */
  lemma {:induction false} MoveShared(decode: Decoder, h: Shared, choice: Choice, t: Thread)
    requires Numbered(h.events)
    ensures var (k, u) := Move(decode, h, choice, t);
            && k.events == (if choice.Advance? && t.phase.Pushing?
                            then h.events + [Event(t.phase.number, DirectionOf(choice.who), t.phase.raw)] else h.events)
            && k.output == (if choice.Advance? && t.phase.Renaming? then h.temporary else h.output)
            && k.sequence == h.sequence + (if choice.Advance? && t.phase.Numbering? then 1 else 0)
            && (u.phase.Pushing? ==>
                u.phase == t.phase || (t.phase.Numbering? && choice.Advance? && u.phase.number == h.sequence))
            && (choice.Advance? && t.phase.Pushing? ==> !u.phase.Pushing?)
            && (!choice.Advance? && t.phase.Pushing? ==> u == t)
            && (choice.Advance? && t.phase.Numbering? ==> u.phase.Pushing?)
  {
    SortKeepsNumbered(h.events);
  }

  /** A step extends the log by at most one event, never changes what is there, and
      leaves the published file a complete prefix of the log that only grows. */
  lemma {:induction false} MoveLog(decode: Decoder, h: Shared, choice: Choice, t: Thread)
    requires LogOk(h) && NumbersOk(h, t)
    ensures var (k, u) := Move(decode, h, choice, t);
            LogOk(k) && h.events <= k.events && h.output.events <= k.output.events
            && k.sequence - |k.events| - Pending(u) == h.sequence - |h.events| - Pending(t)
  {
    MoveShared(decode, h, choice, t);
  }

  lemma {:induction false} MoveNumbers(decode: Decoder, h: Shared, choice: Choice, t: Thread)
    requires LogOk(h) && NumbersOk(h, t) && (t.phase.Numbering? ==> h.sequence == |h.events|)
    ensures var (k, u) := Move(decode, h, choice, t); NumbersOk(k, u)
  {
    MoveShared(decode, h, choice, t);
    MoveLog(decode, h, choice, t);
    var (k, u) := Move(decode, h, choice, t);
    ReturnedGrow(decode, h, choice, t);
    RenamesWhole(decode, h, choice, t);
    assert InPersist(u.phase) && OwnOf(u.phase).Some? ==>
           if choice.Advance? && t.phase.Pushing? then OwnOf(u.phase).value == t.phase.number
           else InPersist(t.phase) && OwnOf(u.phase) == OwnOf(t.phase);
  }

  lemma {:induction false} ReturnedGrow(decode: Decoder, h: Shared, choice: Choice, t: Thread)
    ensures forall n :: n in Move(decode, h, choice, t).1.returned ==>
              n in t.returned || (choice.Advance? && t.phase.Renaming? && t.phase.own == Some(n))
  {
  }

  lemma {:induction false} RenamesWhole(decode: Decoder, h: Shared, choice: Choice, t: Thread)
    requires NumbersOk(h, t)
    ensures var (k, u) := Move(decode, h, choice, t); u.phase.Renaming? ==> k.temporary == Whole(k.events)
  {
  }

  /** Another thread's step leaves the numbers of this one in place. */
  lemma {:induction false} OtherNumbers(decode: Decoder, h: Shared, choice: Choice, t: Thread, other: Thread,
                                        name: Agent)
    requires LogOk(h) && NumbersOk(h, t) && NumbersOk(h, other) && choice.who != name
    requires LockOk(h, choice.who, t) && LockOk(h, name, other)
    ensures NumbersOk(Move(decode, h, choice, t).0, other)
  {
    MoveLog(decode, h, choice, t);
    SortKeepsNumbered(h.events);
  }

  // ---- copying ----

  /** A step adds no event of the other direction. */
  lemma {:induction false} OthersKeepRaw(decode: Decoder, h: Shared, choice: Choice, t: Thread, d: Direction)
    requires LogOk(h) && (t.phase.Pushing? ==> d != DirectionOf(choice.who))
    ensures RawIn(Move(decode, h, choice, t).0.events, d) == RawIn(h.events, d)
  {
    MoveShared(decode, h, choice, t);
    if t.phase.Pushing? {
      RawInSnoc(h.events, Event(t.phase.number, DirectionOf(choice.who), t.phase.raw), d);
    }
  }

  lemma {:induction false} ReadOne(t: Thread, all: seq<Line>)
    requires t.read + t.unread == all && t.unread != []
    ensures (t.read + [t.unread[0]]) + t.unread[1..] == all
    ensures (t.read + [t.unread[0]])[..|t.read|] == t.read
  {
  }

  /** The last line read, in the messages and in the bytes. */
  lemma {:induction false} LastRead(decode: Decoder, t: Thread)
    requires t.read != []
    ensures var front, last := t.read[..|t.read| - 1], t.read[|t.read| - 1];
            Concat(t.read) == Concat(front) + last
            && Messages(decode, t.read) == Messages(decode, front) + if IsBlank(MessageOf(decode, last)) then []
               else [MessageOf(decode, last)]
  {
    var front, last := t.read[..|t.read| - 1], t.read[|t.read| - 1];
    assert t.read == front + [last];
    MessagesSnoc(decode, front, last);
    ConcatSnoc(front, last);
  }

  /** Reading a line, forwarding it and deciding on it keep a proxy thread in order. */
  lemma {:induction false} ReadStepCopies(decode: Decoder, h: Shared, who: Agent, t: Thread, all: seq<Line>)
    requires t.phase.Reading? && CopyOk(decode, h.events, DirectionOf(who), t, all)
    ensures var (k, u) := Step(decode, h, who, t); k == h && CopyOk(decode, h.events, DirectionOf(who), u, all)
  {
    if t.unread != [] {
      ReadOne(t, all);
      var u := Step(decode, h, who, t).1;
      assert u.read[..|u.read| - 1] == t.read;
    }
  }

  lemma {:induction false} ForwardStepCopies(decode: Decoder, h: Shared, who: Agent, t: Thread, all: seq<Line>)
    requires t.phase.Forwarding? && CopyOk(decode, h.events, DirectionOf(who), t, all)
    ensures var (k, u) := Step(decode, h, who, t); k == h && CopyOk(decode, h.events, DirectionOf(who), u, all)
  {
    LastRead(decode, t);
  }

  lemma {:induction false} DecideStepCopies(decode: Decoder, h: Shared, who: Agent, t: Thread, all: seq<Line>)
    requires t.phase.Deciding? && CopyOk(decode, h.events, DirectionOf(who), t, all)
    ensures var (k, u) := Step(decode, h, who, t); k == h && CopyOk(decode, h.events, DirectionOf(who), u, all)
  {
    LastRead(decode, t);
    assert Messages(decode, Handled(t)) + [] == Messages(decode, Handled(t));
  }

  /** So do numbering and pushing the event of its line. */
  lemma {:induction false} RecordStepCopies(decode: Decoder, h: Shared, who: Agent, t: Thread, all: seq<Line>)
    requires InRecord(t.phase) && CopyOk(decode, h.events, DirectionOf(who), t, all)
    ensures var (k, u) := Step(decode, h, who, t); CopyOk(decode, k.events, DirectionOf(who), u, all)
  {
    if t.phase.Pushing? {
      PushCopies(decode, h, who, t, all);
    }
  }

  /** The pushed event carries the message of the line read last. */
  lemma {:induction false} PushCopies(decode: Decoder, h: Shared, who: Agent, t: Thread, all: seq<Line>)
    requires t.phase.Pushing? && CopyOk(decode, h.events, DirectionOf(who), t, all)
    ensures var (k, u) := Step(decode, h, who, t); CopyOk(decode, k.events, DirectionOf(who), u, all)
  {
    LastRead(decode, t);
    RawInSnoc(h.events, Event(t.phase.number, DirectionOf(who), t.phase.raw), DirectionOf(who));
  }

  /** And so does publishing. */
  lemma {:induction false} PersistStepCopies(decode: Decoder, h: Shared, who: Agent, t: Thread, all: seq<Line>)
    requires !t.phase.Reading? && !t.phase.Forwarding? && !t.phase.Deciding? && !InRecord(t.phase)
    requires LogOk(h) && CopyOk(decode, h.events, DirectionOf(who), t, all)
    ensures var (k, u) := Step(decode, h, who, t); CopyOk(decode, k.events, DirectionOf(who), u, all)
  {
    SortKeepsNumbered(h.events);
  }

  lemma {:induction false} OwnStepCopies(decode: Decoder, h: Shared, who: Agent, t: Thread, all: seq<Line>)
    requires LogOk(h) && CopyOk(decode, h.events, DirectionOf(who), t, all)
    ensures var (k, u) := Step(decode, h, who, t); CopyOk(decode, k.events, DirectionOf(who), u, all)
  {
    if t.phase.Reading? {
      ReadStepCopies(decode, h, who, t, all);
    } else if t.phase.Forwarding? {
      ForwardStepCopies(decode, h, who, t, all);
    } else if t.phase.Deciding? {
      DecideStepCopies(decode, h, who, t, all);
    } else if InRecord(t.phase) {
      RecordStepCopies(decode, h, who, t, all);
    } else {
      PersistStepCopies(decode, h, who, t, all);
    }
  }

  /** What is recorded and forwarded is never ahead of what is read. */
  lemma {:induction false} NeverAhead(decode: Decoder, t: Thread)
    ensures Messages(decode, Handled(t)) <= Messages(decode, t.read) && Concat(Sent(t)) <= Concat(t.read)
  {
    var handled, sent := |Handled(t)|, |Sent(t)|;
    assert Handled(t) == t.read[..handled] && Sent(t) == t.read[..sent];
    PrefixMessages(decode, t.read, handled);
    PrefixMessages(decode, t.read, sent);
  }

  lemma {:induction false} OwnFailureCopies(decode: Decoder, h: Shared, who: Agent, t: Thread, written: nat,
                                            all: seq<Line>)
    requires CopyOk(decode, h.events, DirectionOf(who), t, all)
    ensures var (k, u) := Break(h, t, written); CopyOk(decode, k.events, DirectionOf(who), u, all)
  {
    NeverAhead(decode, t);
  }

  lemma {:induction false} OwnMoveCopies(decode: Decoder, h: Shared, choice: Choice, t: Thread, all: seq<Line>)
    requires choice.who != Main && LogOk(h) && CopyOk(decode, h.events, DirectionOf(choice.who), t, all)
    ensures var (k, u) := Move(decode, h, choice, t); CopyOk(decode, k.events, DirectionOf(choice.who), u, all)
  {
    match choice
    case Advance(who) => OwnStepCopies(decode, h, who, t, all);
    case Fail(who, written) => OwnFailureCopies(decode, h, who, t, written, all);
  }

  /** Another thread's step does not disturb it. */
  lemma {:induction false} OtherMoveCopies(decode: Decoder, h: Shared, choice: Choice, t: Thread, d: Direction,
                                           other: Thread, all: seq<Line>)
    requires LogOk(h) && (t.phase.Pushing? ==> d != DirectionOf(choice.who)) && CopyOk(decode, h.events, d, other, all)
    ensures CopyOk(decode, Move(decode, h, choice, t).0.events, d, other, all)
  {
    OthersKeepRaw(decode, h, choice, t, d);
  }

  lemma {:induction false} MainMoves(decode: Decoder, h: Shared, choice: Choice, t: Thread)
    requires MainOk(t)
    ensures MainOk(Move(decode, h, choice, t).1)
  {
  }

  // ---- every run ----

  lemma {:induction false} ThreadsAfter(decode: Decoder, s: System, choice: Choice, who: Agent)
    ensures var (k, u) := Move(decode, s.shared, choice, ThreadOf(s, choice.who));
            var t := Apply(decode, s, choice);
            t.shared == k && ThreadOf(t, who) == if who == choice.who then u else ThreadOf(s, who)
  {
  }

  /** When a number is drawn, no other number is pending. */
  lemma {:induction false} NothingPending(s: System, who: Agent)
    requires forall w :: LockOk(s.shared, w, ThreadOf(s, w))
    ensures ThreadOf(s, who).phase.Numbering? ==> Pending(s.client) == Pending(s.server) == Pending(s.main) == 0
  {
    assert LockOk(s.shared, who, ThreadOf(s, who));
    assert LockOk(s.shared, Client, ThreadOf(s, Client));
    assert LockOk(s.shared, Server, ThreadOf(s, Server));
    assert LockOk(s.shared, Main, ThreadOf(s, Main));
  }

  lemma {:induction false} StepKeepsThreads(decode: Decoder, client: seq<Line>, server: seq<Line>, s: System,
                                            choice: Choice, who: Agent)
    requires Inv(decode, client, server, s)
    ensures var t := Apply(decode, s, choice);
            LockOk(t.shared, who, ThreadOf(t, who)) && NumbersOk(t.shared, ThreadOf(t, who))
  {
    var own := ThreadOf(s, choice.who);
    assert LockOk(s.shared, choice.who, own) && NumbersOk(s.shared, own);
    assert LockOk(s.shared, who, ThreadOf(s, who)) && NumbersOk(s.shared, ThreadOf(s, who));
    ThreadsAfter(decode, s, choice, who);
    MoveLock(decode, s.shared, choice, own);
    if who == choice.who {
      NothingPending(s, who);
      MoveNumbers(decode, s.shared, choice, own);
    } else {
      OtherNumbers(decode, s.shared, choice, own, ThreadOf(s, who), who);
    }
  }

  lemma {:induction false} StepKeepsCopies(decode: Decoder, client: seq<Line>, server: seq<Line>, s: System,
                                           choice: Choice, who: Agent)
    requires Inv(decode, client, server, s) && who != Main
    ensures var t := Apply(decode, s, choice);
            CopyOk(decode, t.shared.events, DirectionOf(who), ThreadOf(t, who), if who == Client then client
                   else server)
  {
    var all := if who == Client then client else server;
    ThreadsAfter(decode, s, choice, who);
    if who == choice.who {
      OwnMoveCopies(decode, s.shared, choice, ThreadOf(s, who), all);
    } else {
      OtherMoveCopies(decode, s.shared, choice, ThreadOf(s, choice.who), DirectionOf(who), ThreadOf(s, who), all);
    }
  }

  lemma {:induction false} StepKeepsLog(decode: Decoder, client: seq<Line>, server: seq<Line>, s: System,
                                        choice: Choice)
    requires Inv(decode, client, server, s)
    ensures var t := Apply(decode, s, choice);
            && LogOk(t.shared) && MainOk(t.main)
            && t.shared.sequence == |t.shared.events| + Pending(t.client) + Pending(t.server) + Pending(t.main)
            && s.shared.events <= t.shared.events && s.shared.output.events <= t.shared.output.events
  {
    assert NumbersOk(s.shared, ThreadOf(s, choice.who));
    MoveLog(decode, s.shared, choice, ThreadOf(s, choice.who));
    MainMoves(decode, s.shared, choice, s.main);
    ThreadsAfter(decode, s, choice, Client);
    ThreadsAfter(decode, s, choice, Server);
    ThreadsAfter(decode, s, choice, Main);
  }

  lemma {:induction false} StepKeepsInv(decode: Decoder, client: seq<Line>, server: seq<Line>, s: System,
                                        choice: Choice)
    requires Inv(decode, client, server, s)
    ensures Inv(decode, client, server, Apply(decode, s, choice))
  {
    var t := Apply(decode, s, choice);
    StepKeepsLog(decode, client, server, s, choice);
    forall who ensures LockOk(t.shared, who, ThreadOf(t, who)) && NumbersOk(t.shared, ThreadOf(t, who)) {
      StepKeepsThreads(decode, client, server, s, choice, who);
    }
    StepKeepsCopies(decode, client, server, s, choice, Client);
    StepKeepsCopies(decode, client, server, s, choice, Server);
  }

  lemma {:induction false} StartInv(decode: Decoder, client: seq<byte>, server: seq<byte>)
    ensures Inv(decode, Lines(client), Lines(server), Start(client, server))
  {
  }

  lemma {:induction false} RunKeepsInv(decode: Decoder, client: seq<byte>, server: seq<byte>, choices: seq<Choice>,
                                       n: nat)
    requires n <= |choices|
    ensures Inv(decode, Lines(client), Lines(server), After(decode, Start(client, server), choices, n))
  {
    if n == 0 {
      StartInv(decode, client, server);
    } else {
      RunKeepsInv(decode, client, server, choices, n - 1);
      StepKeepsInv(decode, Lines(client), Lines(server), After(decode, Start(client, server), choices, n - 1),
                   choices[n - 1]);
    }
  }

  /** On every run, at every moment: the sequence numbers in memory are 0, 1, 2, ...
      in list order, so the sort before a snapshot changes nothing; the published
      file is a complete snapshot and a prefix of the log. */
  lemma {:induction false} LogIsContiguous(decode: Decoder, client: seq<byte>, server: seq<byte>, choices: seq<Choice>,
                                           n: nat)
    requires n <= |choices|
    ensures var s := After(decode, Start(client, server), choices, n);
            Numbered(s.shared.events) && SortBySequence(s.shared.events) == s.shared.events
            && s.shared.output.Whole? && s.shared.output.events <= s.shared.events
  {
    RunKeepsInv(decode, client, server, choices, n);
    SortKeepsNumbered(After(decode, Start(client, server), choices, n).shared.events);
  }

  lemma {:induction false} PrefixTransitive<T>(a: seq<T>, b: seq<T>, c: seq<T>)
    requires a <= b && b <= c
    ensures a <= c
  {
  }

  ghost predicate Grows(s: System, t: System) {
    && s.shared.output.Whole? && t.shared.output.Whole?
    && s.shared.events <= t.shared.events && s.shared.output.events <= t.shared.output.events
  }

  lemma {:induction false} GrowsTransitive(s: System, t: System, u: System)
    requires Grows(s, t) && Grows(t, u)
    ensures Grows(s, u)
  {
    PrefixTransitive(s.shared.events, t.shared.events, u.shared.events);
    PrefixTransitive(s.shared.output.events, t.shared.output.events, u.shared.output.events);
  }

  /** Along a run the log and the published file only ever grow. */
  lemma {:induction false} StepGrows(decode: Decoder, client: seq<Line>, server: seq<Line>, s: System, choice: Choice)
    requires Inv(decode, client, server, s)
    ensures Grows(s, Apply(decode, s, choice))
  {
    StepKeepsLog(decode, client, server, s, choice);
  }

  lemma {:induction false} StandsStill(decode: Decoder, client: seq<byte>, server: seq<byte>, choices: seq<Choice>,
                                       n: nat)
    requires n <= |choices|
    ensures var s := After(decode, Start(client, server), choices, n); Grows(s, s)
  {
    RunKeepsInv(decode, client, server, choices, n);
  }

  lemma {:induction false} NextGrows(decode: Decoder, client: seq<byte>, server: seq<byte>, choices: seq<Choice>,
                                     n: nat)
    requires n < |choices|
    ensures Grows(After(decode, Start(client, server), choices, n),
                  After(decode, Start(client, server), choices, n + 1))
  {
    RunKeepsInv(decode, client, server, choices, n);
    StepGrows(decode, Lines(client), Lines(server), After(decode, Start(client, server), choices, n), choices[n]);
  }

  /** The states of a run. */
  ghost function States(decode: Decoder, start: System, choices: seq<Choice>, n: nat): (r: seq<System>)
    requires n <= |choices|
    ensures |r| == n + 1 && forall i :: 0 <= i <= n ==> r[i] == After(decode, start, choices, i)
  {
    seq(n + 1, i requires 0 <= i < n + 1 => After(decode, start, choices, i))
  }

  lemma {:induction false} ChainGrows(states: seq<System>, m: nat, n: nat)
    requires m <= n < |states| && Grows(states[m], states[m])
    requires forall i :: m <= i < n ==> Grows(states[i], states[i + 1])
    ensures Grows(states[m], states[n])
  {
    if m < n {
      ChainGrows(states, m, n - 1);
      GrowsTransitive(states[m], states[n - 1], states[n]);
    }
  }

  lemma {:induction false} NothingIsLost(decode: Decoder, client: seq<byte>, server: seq<byte>, choices: seq<Choice>,
                                         m: nat, n: nat)
    requires m <= n <= |choices|
    ensures Grows(After(decode, Start(client, server), choices, m), After(decode, Start(client, server), choices, n))
  {
    var states := States(decode, Start(client, server), choices, n);
    StandsStill(decode, client, server, choices, m);
    forall i | m <= i < n ensures Grows(states[i], states[i + 1]) {
      NextGrows(decode, client, server, choices, i);
    }
    ChainGrows(states, m, n);
  }

  /** Once `record` has returned for an event, that event is in every later file. */
  lemma {:induction false} ReturnedIsPublished(decode: Decoder, client: seq<byte>, server: seq<byte>,
                                               choices: seq<Choice>, m: nat, n: nat, who: Agent, number: nat)
    requires m <= n <= |choices| && number in ThreadOf(After(decode, Start(client, server), choices, m), who).returned
    ensures var s, t := After(decode, Start(client, server), choices, m),
            After(decode, Start(client, server), choices, n);
            number < |s.shared.events| && t.shared.output.Whole? && number < |t.shared.output.events|
            && t.shared.output.events[number] == s.shared.events[number]
  {
    RunKeepsInv(decode, client, server, choices, m);
    NothingIsLost(decode, client, server, choices, m, n);
    var s := After(decode, Start(client, server), choices, m);
    assert NumbersOk(s.shared, ThreadOf(s, who));
  }

  /** A thread in order has recorded and forwarded prefixes of its input. */
  lemma {:induction false} CopyOkPrefixes(decode: Decoder, events: seq<Event>, d: Direction, t: Thread, all: seq<Line>)
    requires CopyOk(decode, events, d, t, all)
    ensures RawIn(events, d) <= Messages(decode, all) && t.forwarded <= Concat(all)
    ensures t.phase.Done? ==> RawIn(events, d) == Messages(decode, all) && t.forwarded == Concat(all)
  {
    var handled, sent := |Handled(t)|, |Sent(t)|;
    assert t.read == all[..|t.read|];
    assert Handled(t) == all[..handled] && Sent(t) == all[..sent];
    PrefixMessages(decode, all, handled);
    PrefixMessages(decode, all, sent);
    PrefixMessages(decode, all, |t.read|);
    if t.phase.Failed? {
      PrefixTransitive(RawIn(events, d), Messages(decode, t.read), Messages(decode, all));
      PrefixTransitive(t.forwarded, Concat(t.read), Concat(all));
    }
    if t.phase.Done? {
      assert t.read + [] == t.read;
    }
  }

  lemma {:induction false} DirectionCopies(decode: Decoder, client: seq<byte>, server: seq<byte>,
                                           choices: seq<Choice>, n: nat, who: Agent)
    requires n <= |choices| && who != Main
    ensures var s := After(decode, Start(client, server), choices, n);
            var t, input := ThreadOf(s, who), if who == Client then client else server;
            && RawIn(s.shared.events, DirectionOf(who)) <= Messages(decode, Lines(input))
            && t.forwarded <= input
            && (t.phase.Done? ==>
                RawIn(s.shared.events, DirectionOf(who)) == Messages(decode, Lines(input)) && t.forwarded == input)
  {
    RunKeepsInv(decode, client, server, choices, n);
    var s := After(decode, Start(client, server), choices, n);
    var input := if who == Client then client else server;
    LinesConcat(input);
    CopyOkPrefixes(decode, s.shared.events, DirectionOf(who), ThreadOf(s, who), Lines(input));
  }

  /** Each direction records a prefix of the messages of its lines, in order, and
      forwards a prefix of its bytes; a thread that reached the end of its input has
      recorded and forwarded all of it. */
  lemma {:induction false} DirectionsInOrder(decode: Decoder, client: seq<byte>, server: seq<byte>,
                                             choices: seq<Choice>, n: nat, who: Agent)
    returns (lines: seq<Line>, raws: seq<string>, heard: seq<string>)
    requires n <= |choices| && who != Main
    ensures var s := After(decode, Start(client, server), choices, n);
            var (t, input, d) := if who == Client then (s.client, client, ClientToServer)
                                 else (s.server, server, ServerToClient);
            && IsCut(input, lines) && Said(decode, lines, raws) && Heard(s.shared.events, d, heard)
            && heard <= raws && t.forwarded <= input
            && (t.phase.Done? ==> heard == raws && t.forwarded == input)
  {
    var input := if who == Client then client else server;
    var events := After(decode, Start(client, server), choices, n).shared.events;
    lines := Lines(input);
    raws, heard := Messages(decode, lines), RawIn(events, DirectionOf(who));
    DirectionCopies(decode, client, server, choices, n, who);
    CutIff(input, lines);
    SaidIff(decode, lines, raws);
    HeardIff(events, DirectionOf(who), heard);
  }

  /** Between lines, a thread has forwarded exactly the bytes it has read and
      recorded exactly the messages in them. */
  lemma {:induction false} CaughtUpBetweenLines(decode: Decoder, client: seq<byte>, server: seq<byte>,
                                                choices: seq<Choice>, n: nat, who: Agent)
    returns (heard: seq<string>)
    requires n <= |choices| && who != Main
             && ThreadOf(After(decode, Start(client, server), choices, n), who).phase.Reading?
    ensures var s := After(decode, Start(client, server), choices, n);
            var (t, input, d) := if who == Client then (s.client, client, ClientToServer)
                                 else (s.server, server, ServerToClient);
            && IsCut(input, t.read + t.unread) && t.forwarded == Concat(t.read)
            && Heard(s.shared.events, d, heard) && Said(decode, t.read, heard)
  {
    RunKeepsInv(decode, client, server, choices, n);
    var s := After(decode, Start(client, server), choices, n);
    var t, input := ThreadOf(s, who), if who == Client then client else server;
    heard := Messages(decode, t.read);
    CutIff(input, t.read + t.unread);
    SaidIff(decode, t.read, heard);
    HeardIff(s.shared.events, DirectionOf(who), heard);
  }
}
