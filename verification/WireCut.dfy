/** The lines of a byte stream and the messages in them, said without computing them. */
module WireCut {
  import opened Bytes
  import opened Selection
  import opened WireLines

  // ---- the cut into lines ----

  /** The pieces are the input; none is empty; 0x0a stands only at the end of a piece,
      and at the end of every piece but perhaps the last. */
  ghost predicate IsCut(input: seq<byte>, lines: seq<Line>) {
    && Concat(lines) == input
    && (forall k :: 0 <= k < |lines| ==> lines[k] != [])
    && (forall k, i :: 0 <= k < |lines| && 0 <= i < |lines[k]| - 1 ==> lines[k][i] != 0x0a)
    && (forall k :: 0 <= k < |lines| - 1 ==> lines[k][|lines[k]| - 1] == 0x0a)
  }

  lemma {:induction false} FirstLineIs(input: seq<byte>, n: nat)
    requires 0 < n <= |input| && (n < |input| ==> input[n - 1] == 0x0a)
    requires forall i :: 0 <= i < n - 1 ==> input[i] != 0x0a
    ensures FirstLine(input) == n
    decreases n
  {
    if n > 1 {
      assert input[0] != 0x0a;
      FirstLineIs(input[1..], n - 1);
    } else {
      assert |input| == 1 ==> input[1..] == [];
    }
  }

  lemma {:induction false} FirstLineEnds(input: seq<byte>)
    requires input != []
    ensures var n := FirstLine(input);
            0 < n <= |input| && (n < |input| ==> input[n - 1] == 0x0a)
            && forall i :: 0 <= i < n - 1 ==> input[i] != 0x0a
  {
    if input[0] != 0x0a && |input| > 1 {
      FirstLineEnds(input[1..]);
      var n := FirstLine(input);
      forall i | 0 <= i < n - 1 ensures input[i] != 0x0a {
        if i > 0 { assert input[i] == input[1..][i - 1]; }
      }
    }
  }

  lemma {:induction false} CutTail(input: seq<byte>, lines: seq<Line>)
    requires IsCut(input, lines) && lines != []
    ensures input == lines[0] + Concat(lines[1..]) && IsCut(Concat(lines[1..]), lines[1..])
    ensures 0 < |lines[0]| <= |input| && FirstLine(input) == |lines[0]|
    ensures input[..|lines[0]|] == lines[0] && input[|lines[0]|..] == Concat(lines[1..])
  {
    var rest := lines[1..];
    assert lines == [lines[0]] + rest;
    ConcatCons(lines[0], rest);
    assert forall k :: 0 <= k < |rest| ==> rest[k] == lines[k + 1];
    if rest == [] {
      assert Concat(rest) == [];
    }
    FirstLineIs(input, |lines[0]|);
  }

  lemma {:induction false} LinesAreCut(input: seq<byte>)
    ensures IsCut(input, Lines(input))
    decreases |input|
  {
    LinesConcat(input);
    if input != [] {
      var n := FirstLine(input);
      var rest := Lines(input[n..]);
      FirstLineEnds(input);
      LinesAreCut(input[n..]);
      assert Lines(input) == [input[..n]] + rest;
      assert rest != [] ==> n < |input|;
    }
  }

  /** Every input has one cut, and `Lines` is it. */
  lemma {:induction false} CutIff(input: seq<byte>, lines: seq<Line>)
    ensures IsCut(input, lines) <==> lines == Lines(input)
    decreases |lines|
  {
    LinesAreCut(input);
    if IsCut(input, lines) {
      if lines == [] {
        assert input == [];
      } else {
        CutTail(input, lines);
        CutIff(Concat(lines[1..]), lines[1..]);
        assert lines == [lines[0]] + lines[1..];
      }
    }
  }

  // ---- the message of a line ----

  /** `raw` is the text without the carriage returns and line feeds at its end. */
  ghost predicate IsTrimmed(text: string, raw: string) {
    && raw <= text
    && (raw != "" ==> raw[|raw| - 1] != '\r' && raw[|raw| - 1] != '\n')
    && forall i :: |raw| <= i < |text| ==> text[i] == '\r' || text[i] == '\n'
  }

  lemma {:induction false} TrimmedIff(text: string, raw: string)
    ensures IsTrimmed(text, raw) <==> raw == TrimEnd(text)
    decreases |text|
  {
    var last := if text == "" then 'x' else text[|text| - 1];
    if last == '\r' || last == '\n' {
      var front := text[..|text| - 1];
      TrimmedIff(front, raw);
      if IsTrimmed(text, raw) {
        assert |raw| < |text|;
        assert IsTrimmed(front, raw);
      }
      if IsTrimmed(front, raw) {
        assert front <= text;
      }
    }
  }

  /** The characters with the Unicode property White_Space. */
  const WHITE_SPACE: set<int> :=
    {0x09, 0x0a, 0x0b, 0x0c, 0x0d, 0x20, 0x85, 0xa0, 0x1680, 0x2000, 0x2001, 0x2002, 0x2003, 0x2004, 0x2005, 0x2006,
     0x2007, 0x2008, 0x2009, 0x200a, 0x2028, 0x2029, 0x202f, 0x205f, 0x3000}

  ghost predicate Blank(raw: string) {
    forall i :: 0 <= i < |raw| ==> raw[i] as int in WHITE_SPACE
  }

  lemma {:induction false} BlankIff(raw: string)
    ensures Blank(raw) <==> IsBlank(raw)
  {
    forall i | 0 <= i < |raw| ensures IsWhitespace(raw[i]) <==> raw[i] as int in WHITE_SPACE {
      WhitespaceIff(raw[i]);
    }
  }

  lemma {:induction false} WhitespaceIff(c: char)
    ensures IsWhitespace(c) <==> c as int in WHITE_SPACE
  {
  }

  // ---- the messages of all lines ----

  /** The line carries a message. */
  ghost predicate Speaks(decode: Decoder, lines: seq<Line>, i: nat) {
    i < |lines| && forall raw :: IsTrimmed(decode(lines[i]), raw) ==> !Blank(raw)
  }

  ghost function Speaking(decode: Decoder, lines: seq<Line>): nat -> bool {
    (i: nat) => Speaks(decode, lines, i)
  }

  /** The trimmed texts of the lines `at`, in order. */
  ghost predicate SaidAt(decode: Decoder, lines: seq<Line>, at: seq<nat>, raws: seq<string>) {
    |raws| == |at| && forall k :: 0 <= k < |at| ==> at[k] < |lines| && IsTrimmed(decode(lines[at[k]]), raws[k])
  }

  /** These are the trimmed texts of the lines that are not blank, in order. */
  ghost predicate Said(decode: Decoder, lines: seq<Line>, raws: seq<string>) {
    exists at :: Picks(at, |lines|, Speaking(decode, lines)) && SaidAt(decode, lines, at, raws)
  }

  lemma {:induction false} SpeaksIff(decode: Decoder, lines: seq<Line>, i: nat)
    requires i < |lines|
    ensures Speaks(decode, lines, i) <==> !IsBlank(MessageOf(decode, lines[i]))
  {
    var raw := MessageOf(decode, lines[i]);
    TrimmedIff(decode(lines[i]), raw);
    BlankIff(raw);
    forall other | IsTrimmed(decode(lines[i]), other) ensures other == raw {
      TrimmedIff(decode(lines[i]), other);
    }
  }

  /** The places of the lines among the first `n` that carry a message. */
  lemma {:induction false} SpeakersUpTo(decode: Decoder, lines: seq<Line>, n: nat) returns (at: seq<nat>)
    requires n <= |lines|
    ensures Picks(at, n, Speaking(decode, lines)) && SaidAt(decode, lines, at, Messages(decode, lines[..n]))
  {
    if n == 0 {
      at := [];
    } else {
      var front := SpeakersUpTo(decode, lines, n - 1);
      at := SpeakersNext(decode, lines, n - 1, front);
    }
  }

  lemma {:induction false} SpeakersNext(decode: Decoder, lines: seq<Line>, n: nat, front: seq<nat>)
    returns (at: seq<nat>)
    requires n < |lines| && Picks(front, n, Speaking(decode, lines))
    requires SaidAt(decode, lines, front, Messages(decode, lines[..n]))
    ensures Picks(at, n + 1, Speaking(decode, lines)) && SaidAt(decode, lines, at, Messages(decode, lines[..n + 1]))
  {
    PicksNext(front, n, Speaking(decode, lines));
    SaidNext(decode, lines, n, front);
    at := if Speaking(decode, lines)(n) then front + [n] else front;
  }

  lemma {:induction false} SaidNext(decode: Decoder, lines: seq<Line>, n: nat, front: seq<nat>)
    requires n < |lines| && SaidAt(decode, lines, front, Messages(decode, lines[..n]))
    ensures SaidAt(decode, lines, if Speaks(decode, lines, n) then front + [n] else front,
                   Messages(decode, lines[..n + 1]))
  {
    SpeaksIff(decode, lines, n);
    TrimmedIff(decode(lines[n]), MessageOf(decode, lines[n]));
    assert lines[..n + 1] == lines[..n] + [lines[n]];
    MessagesSnoc(decode, lines[..n], lines[n]);
  }

  /** Every list of lines has one list of messages, and `Messages` is it. */
  lemma {:induction false} SaidIff(decode: Decoder, lines: seq<Line>, raws: seq<string>)
    ensures Said(decode, lines, raws) <==> raws == Messages(decode, lines)
  {
    var p := Speaking(decode, lines);
    var at := SpeakersUpTo(decode, lines, |lines|);
    assert lines[..|lines|] == lines;
    if Said(decode, lines, raws) {
      var other :| Picks(other, |lines|, Speaking(decode, lines)) && SaidAt(decode, lines, other, raws);
      PicksOnce(at, other, |lines|, p);
      forall k | 0 <= k < |at| ensures raws[k] == Messages(decode, lines)[k] {
        TrimmedIff(decode(lines[at[k]]), raws[k]);
        TrimmedIff(decode(lines[at[k]]), Messages(decode, lines)[k]);
      }
    }
  }

  // ---- what a log says of these messages ----

  /** The log grew by one event for each of these messages, in order. */
  ghost predicate Logged(before: seq<Event>, d: Direction, raws: seq<string>, after: seq<Event>) {
    && before <= after && |after| == |before| + |raws|
    && forall i :: 0 <= i < |raws| ==> after[|before| + i] == Event(|before| + i, d, raws[i])
  }

  ghost function GoingIn(events: seq<Event>, d: Direction): nat -> bool {
    (i: nat) => i < |events| && events[i].direction == d
  }

  /** These are the messages of the events of one direction, in order. */
  ghost predicate Heard(events: seq<Event>, d: Direction, raws: seq<string>) {
    exists at :: Picks(at, |events|, GoingIn(events, d)) && HeardAt(events, at, raws)
  }

  ghost predicate HeardAt(events: seq<Event>, at: seq<nat>, raws: seq<string>) {
    |raws| == |at| && forall k :: 0 <= k < |at| ==> at[k] < |events| && events[at[k]].rawJson == raws[k]
  }

  lemma {:induction false} HeardUpTo(events: seq<Event>, d: Direction, n: nat) returns (at: seq<nat>)
    requires n <= |events|
    ensures Picks(at, n, GoingIn(events, d)) && HeardAt(events, at, RawIn(events[..n], d))
  {
    if n == 0 {
      at := [];
    } else {
      var front := HeardUpTo(events, d, n - 1);
      PicksNext(front, n - 1, GoingIn(events, d));
      assert events[..n] == events[..n - 1] + [events[n - 1]];
      RawInSnoc(events[..n - 1], events[n - 1], d);
      at := if GoingIn(events, d)(n - 1) then front + [n - 1] else front;
    }
  }

  lemma {:induction false} HeardIff(events: seq<Event>, d: Direction, raws: seq<string>)
    ensures Heard(events, d, raws) <==> raws == RawIn(events, d)
  {
    var at := HeardUpTo(events, d, |events|);
    assert events[..|events|] == events;
    if Heard(events, d, raws) {
      var other :| Picks(other, |events|, GoingIn(events, d)) && HeardAt(events, other, raws);
      PicksOnce(at, other, |events|, GoingIn(events, d));
    }
  }
}
