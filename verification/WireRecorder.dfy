/** `Recorder` and `copy_lines` on one thread: what each call leaves in the log, in
    the file and on the forwarded stream. */
module WireRecorder {
  import opened Bytes
  import opened WireCut
  import opened WireLines

  class Recorder {
    var events: seq<Event>
    var sequence: nat
    /** The published trace file; `temporary` is renamed over it. */
    var published: seq<Event>

    ghost predicate Valid()
      reads this
    {
      Numbered(events) && sequence == |events| && published == events
    }

    /** `Recorder::new` publishes the empty trace. */
    constructor ()
      ensures Valid() && events == []
    {
      events, sequence, published := [], 0, [];
    }

    /** `persist`: sort, write a temporary file, rename it. */
    method Persist()
      requires Numbered(events)
      modifies this
      ensures events == old(events) && sequence == old(sequence) && published == events
    {
      SortKeepsNumbered(events);
      events := SortBySequence(events);
      var temporary := events;
      published := temporary;
    }

    /** `record`: number the event, push it, publish. */
    method Record(direction: Direction, rawJson: string)
      requires Valid()
      modifies this
      ensures Valid() && events == old(events) + [Event(|old(events)|, direction, rawJson)]
    {
      var event := Event(sequence, direction, rawJson);
      sequence := sequence + 1;
      events := events + [event];
      Persist();
    }
  }

  lemma {:induction false} NextLine(output: seq<byte>, rest: seq<byte>, read: seq<Line>)
    requires rest != []
    ensures output + rest == (output + rest[..FirstLine(rest)]) + rest[FirstLine(rest)..]
    ensures read + Lines(rest) == (read + [rest[..FirstLine(rest)]]) + Lines(rest[FirstLine(rest)..])
  {
    var n := FirstLine(rest);
    assert rest == rest[..n] + rest[n..];
    Regroup(output, rest[..n], rest[n..]);
    Regroup(read, [rest[..n]], Lines(rest[n..]));
  }

  /** The log after the messages of the lines read so far were recorded. */
  function WithMessages(before: seq<Event>, decode: Decoder, direction: Direction, read: seq<Line>): seq<Event> {
    before + EventsFor(|before|, direction, Messages(decode, read))
  }

  lemma {:induction false} LineRecorded(before: seq<Event>, decode: Decoder, direction: Direction, read: seq<Line>,
                                        line: Line)
    ensures var message, events := MessageOf(decode, line), WithMessages(before, decode, direction, read);
            WithMessages(before, decode, direction, read + [line])
            == if IsBlank(message) then events else events + [Event(|events|, direction, message)]
  {
    var message := MessageOf(decode, line);
    var messages := Messages(decode, read);
    MessagesSnoc(decode, read, line);
    if IsBlank(message) {
      assert messages + [] == messages;
    } else {
      assert EventsFor(|before|, direction, messages + [message])
             == EventsFor(|before|, direction, messages) + [Event(|before| + |messages|, direction, message)];
    }
  }

  lemma {:induction false} LoggedAll(before: seq<Event>, decode: Decoder, direction: Direction, input: seq<byte>)
    returns (lines: seq<Line>, raws: seq<string>)
    ensures IsCut(input, lines) && Said(decode, lines, raws)
    ensures Logged(before, direction, raws, WithMessages(before, decode, direction, Lines(input)))
  {
    lines, raws := Lines(input), Messages(decode, Lines(input));
    CutIff(input, lines);
    SaidIff(decode, lines, raws);
  }

  /** `copy_lines`: every byte is forwarded, every non-blank line is recorded, and
      nothing else. */
  method CopyLines(input: seq<byte>, decode: Decoder, direction: Direction, recorder: Recorder)
    returns (output: seq<byte>)
    requires recorder.Valid()
    modifies recorder
    ensures recorder.Valid() && output == input
    ensures recorder.events == WithMessages(old(recorder.events), decode, direction, Lines(input))
    ensures exists lines, raws ::
              IsCut(input, lines) && Said(decode, lines, raws)
              && Logged(old(recorder.events), direction, raws, recorder.events)
  {
    output := [];
    var rest := input;
    ghost var read: seq<Line> := [];
    ghost var before := recorder.events;
    assert WithMessages(before, decode, direction, read) == before;
    while rest != []
      invariant recorder.Valid() && recorder.events == WithMessages(before, decode, direction, read)
      invariant output + rest == input && read + Lines(rest) == Lines(input)
      decreases |rest|
    {
      var line := rest[..FirstLine(rest)];
      NextLine(output, rest, read);
      LineRecorded(before, decode, direction, read, line);
      rest := rest[FirstLine(rest)..];
      output := output + line;
      read := read + [line];
      var rawJson := TrimEnd(decode(line));
      if IsBlank(rawJson) {
        continue;
      }
      recorder.Record(direction, rawJson);
    }
    assert read + Lines([]) == read && output + [] == output;
    ghost var lines, raws := LoggedAll(before, decode, direction, input);
  }
}
