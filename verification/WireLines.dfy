/** What `copy_lines` makes of a byte stream: its lines, and the messages in them. */
module WireLines {
  import opened Sorting
  import opened Bytes

  const NEWLINE: byte := 0x0a

  type Line = seq<byte>

  /** `read_until(b'\n')`: the bytes up to and including the first newline. */
  function FirstLine(input: seq<byte>): (n: nat)
    ensures n <= |input| && (input != [] ==> n > 0)
  {
    if input == [] then 0 else if input[0] == NEWLINE then 1 else 1 + FirstLine(input[1..])
  }

  function Lines(input: seq<byte>): seq<Line>
    decreases |input|
  {
    if input == [] then [] else [input[..FirstLine(input)]] + Lines(input[FirstLine(input)..])
  }

  function Concat(lines: seq<Line>): seq<byte> {
    if lines == [] then [] else Concat(lines[..|lines| - 1]) + lines[|lines| - 1]
  }

  lemma {:induction false} ConcatCons(line: Line, lines: seq<Line>)
    ensures Concat([line] + lines) == line + Concat(lines)
  {
    if lines == [] {
      assert [line] + lines == [line];
      assert [line][..0] == [];
      assert Concat([line]) == [] + line;
    } else {
      var front, last := lines[..|lines| - 1], lines[|lines| - 1];
      ConcatCons(line, front);
      assert ([line] + lines)[..|lines|] == [line] + front;
      Regroup(line, Concat(front), last);
    }
  }

  lemma {:induction false} Regroup<T>(a: seq<T>, b: seq<T>, c: seq<T>)
    ensures a + (b + c) == (a + b) + c
  {
  }

  /** The lines are the input, cut up. */
  lemma {:induction false} LinesConcat(input: seq<byte>)
    ensures Concat(Lines(input)) == input
    decreases |input|
  {
    if input != [] {
      var n := FirstLine(input);
      LinesConcat(input[n..]);
      ConcatCons(input[..n], Lines(input[n..]));
      assert input == input[..n] + input[n..];
    }
  }

  // ---- messages ----

  /** `trim_end_matches(['\r', '\n'])` */
  function TrimEnd(text: string): string {
    if text != [] && (text[|text| - 1] == '\r' || text[|text| - 1] == '\n') then TrimEnd(text[..|text| - 1]) else text
  }

  /** The Unicode property White_Space. */
  predicate IsWhitespace(c: char) {
    var n := c as int;
    || 0x09 <= n <= 0x0d || n == 0x20 || n == 0x85 || n == 0xa0 || n == 0x1680
    || 0x2000 <= n <= 0x200a || n == 0x2028 || n == 0x2029 || n == 0x202f || n == 0x205f || n == 0x3000
  }

  predicate IsBlank(text: string) {
    forall i :: 0 <= i < |text| ==> IsWhitespace(text[i])
  }

  /** `String::from_utf8_lossy`, left to the caller. */
  type Decoder = seq<byte> -> string

  function MessageOf(decode: Decoder, line: Line): string {
    TrimEnd(decode(line))
  }

  /** The non-blank messages of the lines, in order. */
  function Messages(decode: Decoder, lines: seq<Line>): seq<string> {
    if lines == [] then []
    else
      var rest := Messages(decode, lines[..|lines| - 1]);
      var message := MessageOf(decode, lines[|lines| - 1]);
      if IsBlank(message) then rest else rest + [message]
  }

  lemma {:induction false} MessagesSnoc(decode: Decoder, lines: seq<Line>, line: Line)
    ensures Messages(decode, lines + [line]) ==
            Messages(decode, lines) + if IsBlank(MessageOf(decode, line)) then [] else [MessageOf(decode, line)]
  {
    assert (lines + [line])[..|lines|] == lines;
    assert Messages(decode, lines) + [] == Messages(decode, lines);
  }

  lemma {:induction false} ConcatSnoc(lines: seq<Line>, line: Line)
    ensures Concat(lines + [line]) == Concat(lines) + line
  {
    assert (lines + [line])[..|lines|] == lines;
  }

  lemma {:induction false} PrefixMessages(decode: Decoder, lines: seq<Line>, n: nat)
    requires n <= |lines|
    ensures Messages(decode, lines[..n]) <= Messages(decode, lines) && Concat(lines[..n]) <= Concat(lines)
    decreases |lines| - n
  {
    if n == |lines| {
      assert lines[..n] == lines;
    } else {
      PrefixMessages(decode, lines, n + 1);
      assert lines[..n + 1] == lines[..n] + [lines[n]];
      MessagesSnoc(decode, lines[..n], lines[n]);
      ConcatSnoc(lines[..n], lines[n]);
    }
  }

  // ---- events ----

  datatype Direction = ClientToServer | ServerToClient

  datatype Event = Event(sequence: nat, direction: Direction, rawJson: string)

  /** Sequence numbers are 0, 1, 2, ... in list order. */
  ghost predicate Numbered(events: seq<Event>) {
    forall i :: 0 <= i < |events| ==> events[i].sequence == i
  }

  predicate SequenceLess(a: Event, b: Event) {
    a.sequence < b.sequence
  }

  /** `sort_by_key` on the sequence numbers. */
  function SortBySequence(events: seq<Event>): seq<Event> {
    Sort(events, SequenceLess)
  }

  /** The sort before each snapshot changes nothing. */
  lemma {:induction false} SortKeepsNumbered(events: seq<Event>)
    requires Numbered(events)
    ensures SortBySequence(events) == events
  {
    SortKeeps(events, SequenceLess);
  }

  /** The events that record these messages, numbered from `base` on. */
  function EventsFor(base: nat, d: Direction, messages: seq<string>): (r: seq<Event>)
    ensures |r| == |messages| && forall i :: 0 <= i < |r| ==> r[i] == Event(base + i, d, messages[i])
  {
    seq(|messages|, i requires 0 <= i < |messages| => Event(base + i, d, messages[i]))
  }

  /** The raw messages recorded in one direction. */
  function RawIn(events: seq<Event>, d: Direction): seq<string> {
    if events == [] then []
    else
      var rest := RawIn(events[..|events| - 1], d);
      if events[|events| - 1].direction == d then rest + [events[|events| - 1].rawJson] else rest
  }

  lemma {:induction false} RawInSnoc(events: seq<Event>, e: Event, d: Direction)
    ensures RawIn(events + [e], d) == RawIn(events, d) + if e.direction == d then [e.rawJson] else []
  {
    assert (events + [e])[..|events|] == events;
    assert RawIn(events, d) + [] == RawIn(events, d);
  }

  function Opposite(d: Direction): Direction {
    match d
    case ClientToServer => ServerToClient
    case ServerToClient => ClientToServer
  }

  /** A log with events of one direction only is determined by their messages. */
  lemma {:induction false} OneDirection(events: seq<Event>, d: Direction)
    requires Numbered(events) && RawIn(events, Opposite(d)) == []
    ensures events == EventsFor(0, d, RawIn(events, d))
  {
    if events != [] {
      var front, last := events[..|events| - 1], events[|events| - 1];
      assert events == front + [last];
      RawInSnoc(front, last, d);
      RawInSnoc(front, last, Opposite(d));
      assert last.direction == d;
      OneDirection(front, d);
    }
  }
}
