/** The two proxy threads and the main thread of the wire capture as one state
    machine: any of them may take the next step. */
module WireProxy {
  import opened Bytes
  import opened Wrappers
  import opened WireLines

  datatype Agent = Client | Server | Main

  /** Where a thread is in `copy_lines`, `record` and `persist`. */
  datatype Phase =
    | Reading
    | Forwarding(line: Line)
    | Deciding(line: Line)
    | WantLog(raw: string)
    | Numbering(raw: string)
    | Pushing(raw: string, number: nat)
    | WantPersist(own: Option<nat>)
    | Sorting(own: Option<nat>)
    | Writing(own: Option<nat>)
    | Written(own: Option<nat>)
    | Renaming(own: Option<nat>)
    | Done
    | Failed

  /** `returned` holds the numbers of the events whose `record` call returned. */
  datatype Thread = Thread(phase: Phase, unread: seq<Line>, read: seq<Line>, forwarded: seq<byte>, returned: set<nat>)

  datatype File = Missing | Partial | Whole(events: seq<Event>)

  /** The lock guards `events`; `sequence` is the atomic counter. */
  datatype Shared = Shared(lock: Option<Agent>, events: seq<Event>, sequence: nat, temporary: File, output: File)

  datatype System = System(shared: Shared, client: Thread, server: Thread, main: Thread)

  function ThreadOf(s: System, who: Agent): Thread {
    match who
    case Client => s.client
    case Server => s.server
    case Main => s.main
  }

  function With(s: System, who: Agent, moved: (Shared, Thread)): System {
    match who
    case Client => System(moved.0, moved.1, s.server, s.main)
    case Server => System(moved.0, s.client, moved.1, s.main)
    case Main => System(moved.0, s.client, s.server, moved.1)
  }

  /** The phases in which a thread holds the lock. */
  predicate Holds(p: Phase) {
    p.Numbering? || p.Pushing? || p.Sorting? || p.Writing? || p.Written? || p.Renaming?
  }

  function DirectionOf(who: Agent): Direction {
    if who == Client then ClientToServer else ServerToClient
  }

  /** `Recorder::new` has published the empty trace; the main thread will persist
      once more, at any time. */
  function Start(client: seq<byte>, server: seq<byte>): System {
    System(Shared(None, [], 0, Missing, Whole([])),
           Thread(Reading, Lines(client), [], [], {}), Thread(Reading, Lines(server), [], [], {}),
           Thread(WantPersist(None), [], [], [], {}))
  }

  // ---- steps ----

  /** The next step of a thread; waiting for the lock changes nothing. */
  function Step(decode: Decoder, h: Shared, who: Agent, t: Thread): (Shared, Thread) {
    match t.phase
    case Reading =>
      if t.unread == [] then (h, t.(phase := Done))
      else (h, t.(phase := Forwarding(t.unread[0]), unread := t.unread[1..], read := t.read + [t.unread[0]]))
    case Forwarding(line) => (h, t.(phase := Deciding(line), forwarded := t.forwarded + line))
    case Deciding(line) =>
      var raw := MessageOf(decode, line);
      (h, t.(phase := if IsBlank(raw) then Reading else WantLog(raw)))
    case WantLog(raw) => if h.lock.Some? then (h, t) else (h.(lock := Some(who)), t.(phase := Numbering(raw)))
    case Numbering(raw) => (h.(sequence := h.sequence + 1), t.(phase := Pushing(raw, h.sequence)))
    case Pushing(raw, number) =>
      (h.(events := h.events + [Event(number, DirectionOf(who), raw)], lock := None),
       t.(phase := WantPersist(Some(number))))
    case WantPersist(own) => if h.lock.Some? then (h, t) else (h.(lock := Some(who)), t.(phase := Sorting(own)))
    case Sorting(own) => (h.(events := SortBySequence(h.events)), t.(phase := Writing(own)))
    case Writing(own) => (h.(temporary := Partial), t.(phase := Written(own)))
    case Written(own) => (h.(temporary := Whole(h.events)), t.(phase := Renaming(own)))
    case Renaming(None) => (h.(output := h.temporary, temporary := Missing, lock := None), t.(phase := Done))
    case Renaming(Some(number)) =>
      (h.(output := h.temporary, temporary := Missing, lock := None),
       t.(phase := Reading, returned := t.returned + {number}))
    case Done => (h, t)
    case Failed => (h, t)
  }

  /** An I/O error ends the thread and releases the lock it holds. A failing write to
      the peer may have forwarded part of the line. */
  function Break(h: Shared, t: Thread, written: nat): (Shared, Thread) {
    match t.phase
    case Reading => (h, t.(phase := Failed))
    case Forwarding(line) =>
      (h, t.(phase := Failed, forwarded := t.forwarded + line[..if written < |line| then written else |line|]))
    case Writing(_) => (h.(lock := None, temporary := Partial), t.(phase := Failed))
    case Written(_) => (h.(lock := None), t.(phase := Failed))
    case Renaming(_) => (h.(lock := None), t.(phase := Failed))
    case _ => (h, t)
  }

  /** A thread goes on, or its I/O operation fails after `written` bytes. */
  datatype Choice = Advance(who: Agent) | Fail(who: Agent, written: nat)

  function Move(decode: Decoder, h: Shared, choice: Choice, t: Thread): (Shared, Thread) {
    match choice
    case Advance(who) => Step(decode, h, who, t)
    case Fail(who, written) => Break(h, t, written)
  }

  function Apply(decode: Decoder, s: System, choice: Choice): System {
    With(s, choice.who, Move(decode, s.shared, choice, ThreadOf(s, choice.who)))
  }

  /** The state after the first `n` choices of a run. */
  function After(decode: Decoder, start: System, choices: seq<Choice>, n: nat): System
    requires n <= |choices|
  {
    if n == 0 then start else Apply(decode, After(decode, start, choices, n - 1), choices[n - 1])
  }

  // ---- the invariant ----

  predicate InRecord(p: Phase) {
    p.WantLog? || p.Numbering? || p.Pushing?
  }

  predicate InPersist(p: Phase) {
    p.WantPersist? || p.Sorting? || p.Writing? || p.Written? || p.Renaming?
  }

  function RawOf(p: Phase): string
    requires InRecord(p)
  {
    match p
    case WantLog(raw) => raw
    case Numbering(raw) => raw
    case Pushing(raw, _) => raw
  }

  function OwnOf(p: Phase): Option<nat>
    requires InPersist(p)
  {
    p.own
  }

  /** The lines of this thread whose messages are in the log, or are blank. */
  function Handled(t: Thread): seq<Line> {
    if (t.phase.Forwarding? || t.phase.Deciding? || InRecord(t.phase)) && t.read != [] then t.read[..|t.read| - 1]
       else t.read
  }

  function Sent(t: Thread): seq<Line> {
    if t.phase.Forwarding? && t.read != [] then t.read[..|t.read| - 1] else t.read
  }

  /** A proxy thread has forwarded and recorded what it has read so far. */
  ghost predicate CopyOk(decode: Decoder, events: seq<Event>, d: Direction, t: Thread, all: seq<Line>) {
    && t.read + t.unread == all
    && (t.phase.Done? ==> t.unread == [])
    && (t.phase.Forwarding? ==> t.read != [] && t.read[|t.read| - 1] == t.phase.line)
    && (t.phase.Deciding? ==> t.read != [] && t.read[|t.read| - 1] == t.phase.line)
    && (InRecord(t.phase) ==>
        t.read != [] && MessageOf(decode, t.read[|t.read| - 1]) == RawOf(t.phase) && !IsBlank(RawOf(t.phase)))
    && (InPersist(t.phase) ==> OwnOf(t.phase).Some?)
    && if t.phase.Failed? then RawIn(events, d) <= Messages(decode, t.read) && t.forwarded <= Concat(t.read)
       else RawIn(events, d) == Messages(decode, Handled(t)) && t.forwarded == Concat(Sent(t))
  }

  /** The main thread only persists. */
  predicate MainOk(t: Thread) {
    (t.phase.Done? || t.phase.Failed? || (InPersist(t.phase) && OwnOf(t.phase).None?)) && t.returned == {}
  }

  /** The thread holds the lock exactly in the phases that need it. */
  predicate LockOk(h: Shared, who: Agent, t: Thread) {
    Holds(t.phase) <==> h.lock == Some(who)
  }

  /** A number that has been drawn but whose event is not in the log yet. */
  function Pending(t: Thread): nat {
    if t.phase.Pushing? then 1 else 0
  }

  /** Numbers a thread has been given exist in the log; those of returned calls are
      in the published file. */
  ghost predicate NumbersOk(h: Shared, t: Thread) {
    && (InPersist(t.phase) && OwnOf(t.phase).Some? ==> OwnOf(t.phase).value < |h.events|)
    && (h.output.Whole? ==> forall n :: n in t.returned ==> n < |h.output.events|)
    && (t.phase.Pushing? ==> t.phase.number == |h.events|)
    && (t.phase.Renaming? ==> h.temporary == Whole(h.events))
  }

  ghost predicate LogOk(h: Shared) {
    Numbered(h.events) && h.output.Whole? && h.output.events <= h.events
  }

  ghost predicate Inv(decode: Decoder, client: seq<Line>, server: seq<Line>, s: System) {
    && LogOk(s.shared) && MainOk(s.main)
    && s.shared.sequence == |s.shared.events| + Pending(s.client) + Pending(s.server) + Pending(s.main)
    && (forall who :: LockOk(s.shared, who, ThreadOf(s, who)) && NumbersOk(s.shared, ThreadOf(s, who)))
    && CopyOk(decode, s.shared.events, ClientToServer, s.client, client)
    && CopyOk(decode, s.shared.events, ServerToClient, s.server, server)
  }
}
