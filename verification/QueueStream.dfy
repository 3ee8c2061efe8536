/**
 The decoder refines framing the whole stream at once, and the client of the queue
 events delivers a gap-free, duplicate-free stretch of the server's log across
 reconnects (desktop/core/src/queue_events.rs:104-194).
 */
module QueueStream {
  import opened Outcomes
  import opened Texts
  import opened QueueEvents

  function Flat(chunks: seq<string>): string {
    if chunks == [] then "" else Flat(chunks[..|chunks| - 1]) + chunks[|chunks| - 1]
  }

  lemma FlatNext(chunks: seq<string>, i: nat)
    requires i < |chunks|
    ensures Flat(chunks[..i + 1]) == Flat(chunks[..i]) + chunks[i]
  {
    assert chunks[..i + 1][..i] == chunks[..i];
  }

  lemma {:induction false} FlatSplits(chunks: seq<string>, i: nat)
    requires i <= |chunks|
    ensures Flat(chunks) == Flat(chunks[..i]) + Flat(chunks[i..])
    decreases |chunks|
  {
    if i == |chunks| {
      assert chunks[..i] == chunks;
    } else {
      var front, last := chunks[..|chunks| - 1], chunks[|chunks| - 1];
      FlatSplits(front, i);
      assert front[..i] == chunks[..i] && front[i..] == chunks[i..][..|chunks| - 1 - i];
    }
  }

  /** An error stops the events, wherever the frames are cut. */
  lemma {:induction false} EventsSplit(codec: Codec, first: seq<string>, second: seq<string>)
    ensures Events(codec, first + second)
            == if Events(codec, first).Success? then After(Events(codec, first).value, Events(codec, second))
                else Events(codec, first)
  {
    if first == [] {
      assert first + second == second;
      AfterBoth([], [], Events(codec, second));
    } else {
      assert (first + second)[1..] == first[1..] + second;
      EventsSplit(codec, first[1..], second);
      if Decode(codec, first[0]).Success? && Events(codec, first[1..]).Success? {
        var event := Decode(codec, first[0]).value;
        AfterBoth(if event.Some? then [event.value] else [], Events(codec, first[1..]).value, Events(codec, second));
      }
    }
  }

  /** The events of the whole stream, framed at once. */
  function Whole(codec: Codec, bytes: string): Result<seq<QueueEvent>, Error> {
    Events(codec, Frame(bytes).frames)
  }

  lemma WholeContinues(codec: Codec, bytes: string, more: string)
    ensures Whole(codec, bytes + more)
            == if Whole(codec, bytes).Success?
                then After(Whole(codec, bytes).value, Whole(codec, Frame(bytes).tail + more)) else Whole(codec, bytes)
  {
    FramingContinues(bytes, more);
    EventsSplit(codec, Frame(bytes).frames, Frame(Frame(bytes).tail + more).frames);
  }

  lemma NothingYet(codec: Codec)
    ensures Whole(codec, "") == Success([]) && Frame("").tail == ""
  {
  }

  /** The chunk finds room behind the tail that is not framed yet. */
  ghost predicate FitsAt(chunks: seq<string>, i: nat)
    requires i < |chunks|
  {
    |Frame(Flat(chunks[..i])).tail| + |chunks[i]| <= LIMIT
  }

  ghost predicate FitsTo(chunks: seq<string>, n: nat)
    requires n <= |chunks|
  {
    forall i :: 0 <= i < n ==> FitsAt(chunks, i)
  }

  ghost predicate Fits(chunks: seq<string>) {
    FitsTo(chunks, |chunks|)
  }

  lemma FitsNext(chunks: seq<string>, i: nat)
    requires i < |chunks|
    ensures FitsTo(chunks, i + 1) <==> FitsTo(chunks, i) && FitsAt(chunks, i)
    ensures Fits(chunks) ==> FitsAt(chunks, i)
  {
    hide FitsAt;
  }

  /** A stream that has failed by some chunk has failed, with that error. */
  lemma FailureStays(codec: Codec, chunks: seq<string>, i: nat)
    requires i < |chunks|
    ensures Whole(codec, Flat(chunks[..i + 1])).Failure? ==>
              Whole(codec, Flat(chunks)) == Whole(codec, Flat(chunks[..i + 1]))
    ensures !FitsAt(chunks, i) ==> !Fits(chunks)
  {
    hide Whole, Fits, FitsAt, FitsTo, Flat, Frame, Events, FrameEnd;
    FitsNext(chunks, i);
    FlatSplits(chunks, i + 1);
    WholeContinues(codec, Flat(chunks[..i + 1]), Flat(chunks[i + 1..]));
  }

  /** After `i` chunks that fit, the decoder has given the events so far and holds the tail. */
  ghost predicate Consumed(codec: Codec, chunks: seq<string>, i: nat, got: seq<QueueEvent>, buffer: string)
    requires i <= |chunks|
  {
    && FitsTo(chunks, i) && Whole(codec, Flat(chunks[..i])) == Success(got)
    && buffer == Frame(Flat(chunks[..i])).tail
  }

  /** Chunk `i` finds no room, or completes a frame that is no event. */
  ghost predicate Breaks(codec: Codec, chunks: seq<string>, i: nat)
    requires i < |chunks|
  {
    !FitsAt(chunks, i) || Whole(codec, Flat(chunks[..i + 1])).Failure?
  }

  /** How many of the first `n` chunks a connection takes: those before the first that breaks it. */
  ghost function Taken(codec: Codec, chunks: seq<string>, n: nat): (taken: nat)
    requires n <= |chunks|
    ensures taken <= n && (taken < n ==> Breaks(codec, chunks, taken))
  {
    if n == 0 then 0
    else
      var taken := Taken(codec, chunks, n - 1);
      if taken == n - 1 && !Breaks(codec, chunks, n - 1) then n else taken
  }

  /** The events a connection carries that is given up at chunk `givenUp`, unless it breaks or ends before. */
  ghost function Carried(codec: Codec, chunks: seq<string>, givenUp: nat): seq<QueueEvent> {
    var taken := Taken(codec, chunks, if givenUp < |chunks| then givenUp else |chunks|);
    var whole := Whole(codec, Flat(chunks[..taken]));
    if whole.Success? then whole.value else []
  }

  lemma {:induction false} TakenStops(codec: Codec, chunks: seq<string>, i: nat, n: nat)
    requires i < n <= |chunks| && Taken(codec, chunks, i) == i && Breaks(codec, chunks, i)
    ensures Taken(codec, chunks, n) == i
  {
    hide Breaks;
    if i + 1 < n {
      TakenStops(codec, chunks, i, n - 1);
    }
  }

  lemma TakenNext(codec: Codec, chunks: seq<string>, i: nat, got: seq<QueueEvent>, buffer: string)
    requires i < |chunks| && Taken(codec, chunks, i) == i && Consumed(codec, chunks, i + 1, got, buffer)
    ensures Taken(codec, chunks, i + 1) == i + 1
  {
    hide Whole, FitsAt, Flat, Frame;
    FitsNext(chunks, i);
  }

  /** Where the connection is given up, breaks or ends, it has carried what it has given. */
  lemma CarriedIsConsumed(codec: Codec, chunks: seq<string>, i: nat, givenUp: nat, got: seq<QueueEvent>, buffer: string)
    requires i <= |chunks| && i <= givenUp && Taken(codec, chunks, i) == i && Consumed(codec, chunks, i, got, buffer)
    requires i == givenUp || i == |chunks| || Breaks(codec, chunks, i)
    ensures Carried(codec, chunks, givenUp) == got
  {
    hide Whole, Breaks, Flat, Frame, FitsTo;
    if i < givenUp && i < |chunks| {
      TakenStops(codec, chunks, i, if givenUp < |chunks| then givenUp else |chunks|);
    }
  }

  lemma NothingConsumed(codec: Codec, chunks: seq<string>)
    ensures Consumed(codec, chunks, 0, [], "")
  {
    NothingYet(codec);
    assert Flat(chunks[..0]) == "";
  }

  lemma AllConsumed(codec: Codec, chunks: seq<string>, got: seq<QueueEvent>, buffer: string)
    requires Consumed(codec, chunks, |chunks|, got, buffer)
    ensures Fits(chunks) && Whole(codec, Flat(chunks)) == Success(got) && buffer == Frame(Flat(chunks)).tail
  {
    hide FitsTo, Whole, Frame;
    assert chunks[..|chunks|] == chunks;
  }

  lemma ConsumedNext(codec: Codec, chunks: seq<string>, i: nat, got: seq<QueueEvent>, buffer: string,
                     pushed: Result<seq<QueueEvent>, Error>, next: string)
    requires i < |chunks| && Consumed(codec, chunks, i, got, buffer)
    requires |buffer| + |chunks[i]| > LIMIT ==> pushed.Failure?
    requires |buffer| + |chunks[i]| <= LIMIT ==> pushed == Events(codec, Frame(buffer + chunks[i]).frames)
    requires pushed.Success? ==> next == Frame(buffer + chunks[i]).tail
    ensures pushed.Success? ==> Consumed(codec, chunks, i + 1, got + pushed.value, next)
    ensures pushed.Failure? ==> Breaks(codec, chunks, i)
    ensures pushed.Failure? ==> !Fits(chunks) || Whole(codec, Flat(chunks)).Failure?
  {
    hide Events, Frame, FrameEnd, Decode;
    FlatNext(chunks, i);
    WholeContinues(codec, Flat(chunks[..i]), chunks[i]);
    FramingContinues(Flat(chunks[..i]), chunks[i]);
    FitsNext(chunks, i);
    FailureStays(codec, chunks, i);
  }

  /**
   However the bytes are cut into chunks, the decoder gives the events of the whole
   stream framed at once and holds its tail; it fails exactly when a chunk does not
   fit or a frame of the whole stream is no event and no other frame.
   */
  method PushEach(codec: Codec, chunks: seq<string>)
    returns (r: Result<seq<QueueEvent>, Error>, decoder: QueueEventDecoder)
    ensures fresh(decoder)
    ensures r.Success? <==> Fits(chunks) && Whole(codec, Flat(chunks)).Success?
    ensures r.Success? ==>
              r == Whole(codec, Flat(chunks)) && decoder.Valid() && decoder.buffer == Frame(Flat(chunks)).tail
  {
    NothingConsumed(codec, chunks);
    hide Events, Frame, FrameEnd, Decode, Consumed, Fits, Whole;
    decoder := new QueueEventDecoder(codec);
    var events := [];
    for i := 0 to |chunks|
      invariant fresh(decoder) && decoder.Valid() && decoder.codec == codec
      invariant Consumed(codec, chunks, i, events, decoder.buffer)
    {
      ghost var buffer := decoder.buffer;
      var pushed := decoder.Push(chunks[i]);
      ConsumedNext(codec, chunks, i, events, buffer, pushed, decoder.buffer);
      if pushed.Failure? {
        return pushed, decoder;
      }
      events := events + pushed.value;
    }
    AllConsumed(codec, chunks, events, decoder.buffer);
    r := Success(events);
  }

  // The server's side.

  /** A frame of three lines. */
  function FrameOf(id: string, name: string, data: string): string {
    "id: " + id + "\n" + "event: " + name + "\n" + "data: " + data
  }

  /** What the server writes for one event. */
  function EventFrame(sequence: string, data: string): string {
    FrameOf(sequence, "queue-invalidated", data)
  }

  predicate OneLine(text: string) {
    forall i :: 0 <= i < |text| ==> text[i] != '\n' && text[i] != '\r'
  }

  lemma {:induction false} FindNewline(line: string, rest: string)
    requires OneLine(line)
    ensures Find(line, '\n') == |line| && Find(line + "\n" + rest, '\n') == |line|
  {
    if line != "" {
      assert (line + "\n" + rest)[1..] == line[1..] + "\n" + rest;
      FindNewline(line[1..], rest);
    }
  }

  lemma FirstLine(line: string, rest: string)
    requires OneLine(line)
    ensures Lines(line + "\n" + rest) == [line] + Lines(rest)
    ensures line != "" ==> Lines(line) == [line]
  {
    FindNewline(line, rest);
    var text := line + "\n" + rest;
    assert text[..|line|] == line && text[|line| + 1..] == rest;
    assert line != "" ==> text[|line| - 1] == line[|line| - 1];
  }

  /** A line loses the carriage return before its newline. */
  lemma CarriageReturnGoes(line: string, rest: string)
    requires OneLine(line)
    ensures Lines(line + "\r\n" + rest) == [line] + Lines(rest)
  {
    var ended := line + "\r";
    var text := ended + "\n" + rest;
    assert '\n' !in ended;
    FindFirst(ended, '\n', rest);
    assert text == line + "\r\n" + rest && text[..|ended| - 1] == line && text[|ended| + 1..] == rest;
    assert text[|ended| - 1] == '\r';
  }

  /** A frame of three lines tells its id, its event's name and its data. */
  lemma FieldsOfFrame(id: string, name: string, data: string)
    requires OneLine(id) && OneLine(name) && OneLine(data)
    ensures FieldsOf(Lines(FrameOf(id, name, data))) == Fields(Some(id), Some(name), [data])
  {
    NoLines(data);
    hide Lines, FieldsOf, WithLine, Join;
    var first, second, third := "id: " + id, "event: " + name, "data: " + data;
    var frame := FrameOf(id, name, data);
    assert frame == first + "\n" + (second + "\n" + third);
    FirstLine(first, second + "\n" + third);
    FirstLine(second, third);
    FirstLine(third, "");
    FieldsOfThree(first, second, third);
    assert Lines(frame) == [first, second, third];
    IdLine(Fields(None, None, []), id);
    NameLine(Fields(Some(id), None, []), name);
    DataLine(Fields(Some(id), Some(name), []), data);
  }

  /** The server's frame of a valid event decodes to that event. */
  lemma EventFrameDecodes(codec: Codec, data: string, payload: Payload)
    requires OneLine(payload.sequence) && OneLine(data) && codec.isUtf8(EventFrame(payload.sequence, data))
    requires codec.parse(data) == Some(payload)
    requires payload.revision != "" && IsU64(payload.sequence) && "queue" in payload.invalidates
    ensures Decode(codec, EventFrame(payload.sequence, data)) == Success(Some(QueueEvent(payload, payload.sequence)))
  {
    NoLines(data);
    hide Lines, FieldsOf, IsU64;
    FieldsOfFrame(payload.sequence, "queue-invalidated", data);
  }

  /** Every 64-bit number the server counts to arrives, in the frame the server writes. */
  lemma NumberedFrameDecodes(codec: Codec, n: nat, revision: string, data: string)
    requires n < 0x1_0000_0000_0000_0000 && revision != "" && OneLine(data)
    requires codec.parse(data) == Some(Payload(revision, Digits(n), ["queue"]))
    requires codec.isUtf8(EventFrame(Digits(n), data))
    ensures Decode(codec, EventFrame(Digits(n), data))
            == Success(Some(QueueEvent(Payload(revision, Digits(n), ["queue"]), Digits(n))))
  {
    hide Number, Digits, Lines, FieldsOf, Find;
    var sequence := Digits(n);
    DigitsAreNumber(n);
    assert forall i :: 0 <= i < |sequence| ==> IsDigit(sequence[i]);
    EventFrameDecodes(codec, data, Payload(revision, sequence, ["queue"]));
  }

  /** A sign in front of the number is read over. */
  lemma PlusIsReadOver(n: nat)
    requires n < 0x1_0000_0000_0000_0000
    ensures IsU64("+" + Digits(n)) && IsU64(Digits(n))
  {
    DigitsAreNumber(n);
    assert ("+" + Digits(n))[1..] == Digits(n);
  }

  /** What no 64-bit number is written as. */
  predicate IsNoNumber(text: string) {
    || text == "" || text == "+"
    || (exists i :: 0 <= i < |text| && !('0' <= text[i] <= '9') && (i > 0 || text[i] != '+'))
    || (var digits := if text[0] == '+' then text[1..] else text;
        AllDigits(digits) && Number(digits) >= 0x1_0000_0000_0000_0000)
  }

  /** An event whose fields are not whole is refused. */
  lemma BrokenFrameIsRefused(codec: Codec, id: string, data: string, payload: Payload)
    requires OneLine(id) && OneLine(data) && codec.parse(data) == Some(payload)
    requires codec.isUtf8(EventFrame(id, data))
    requires payload.revision == "" || IsNoNumber(payload.sequence) || "queue" !in payload.invalidates
    ensures Decode(codec, EventFrame(id, data)) == Failure(BadFields)
  {
    NoLines(data);
    hide Lines, FieldsOf, Number;
    FieldsOfFrame(id, "queue-invalidated", data);
    if IsNoNumber(payload.sequence) {
      NumberOrNot(payload.sequence);
    }
  }

  lemma NumberOrNot(text: string)
    ensures IsU64(text) <==> !IsNoNumber(text)
  {
    hide Number;
    var digits := if text != "" && text[0] == '+' then text[1..] else text;
    var skipped := |text| - |digits|;
    assert forall i :: skipped <= i < |text| ==> text[i] == digits[i - skipped];
    if i :| 0 <= i < |digits| && !IsDigit(digits[i]) {
      assert text[i + skipped] == digits[i];
    }
  }

  /** A frame of another name is no event, whatever it holds. */
  lemma OtherFramesPass(codec: Codec, id: string, name: string, data: string)
    requires OneLine(id) && OneLine(name) && OneLine(data) && name != "queue-invalidated"
    requires codec.isUtf8(FrameOf(id, name, data))
    ensures Decode(codec, FrameOf(id, name, data)) == Success(None)
  {
    hide Lines, FieldsOf;
    FieldsOfFrame(id, name, data);
  }

  lemma NoLines(data: string)
    ensures FieldsOf([]) == Fields(None, None, []) && Join([data], '\n') == data
  {
  }

  lemma IdLine(fields: Fields, value: string)
    ensures WithLine(fields, "id: " + value) == fields.(id := Some(value))
  {
    assert ("id: " + value)[4..] == value;
  }

  lemma NameLine(fields: Fields, value: string)
    ensures WithLine(fields, "event: " + value) == fields.(name := Some(value))
  {
    assert ("event: " + value)[0] == 'e' && ("event: " + value)[7..] == value;
  }

  lemma DataLine(fields: Fields, value: string)
    ensures WithLine(fields, "data: " + value) == fields.(data := fields.data + [value])
  {
    assert ("data: " + value)[0] == 'd' && ("data: " + value)[6..] == value;
  }

  lemma OtherLine(fields: Fields, line: string)
    requires line != "" && line[0] == ':'
    ensures WithLine(fields, line) == fields
  {
  }

  lemma FieldsOfNext(lines: seq<string>, line: string)
    ensures FieldsOf(lines + [line]) == WithLine(FieldsOf(lines), line)
  {
    assert (lines + [line])[..|lines|] == lines;
  }

  lemma FieldsOfThree(id: string, name: string, body: string)
    ensures FieldsOf([id, name, body]) == WithLine(WithLine(WithLine(Fields(None, None, []), id), name), body)
  {
    FieldsOfNext([], id);
    FieldsOfNext([id], name);
    FieldsOfNext([id, name], body);
    assert [] + [id] == [id] && [id] + [name] == [id, name] && [id, name] + [body] == [id, name, body];
  }

  /** A comment between events. */
  lemma KeepAliveIsNoEvent(codec: Codec)
    requires codec.isUtf8(": keep-alive")
    ensures Decode(codec, ": keep-alive") == Success(None)
  {
    NoLines("");
    hide Lines, FieldsOf, WithLine;
    var line := ": keep-alive";
    FirstLine(line, "");
    FieldsOfNext([], line);
    assert [] + [line] == [line];
    OtherLine(Fields(None, None, []), line);
  }

  /** The bytes of frames are framed as those frames. */
  lemma {:induction false} FramesOfJoined(frames: seq<string>)
    requires forall frame :: frame in frames ==> IsFrame(frame)
    ensures Frame(Joined(frames)) == Framed(frames, "")
  {
    if frames != [] {
      var ended, rest := frames[0] + "\n\n", Joined(frames[1..]);
      var bytes := Joined(frames);
      assert bytes == ended + rest && IsFrame(frames[0]);
      assert bytes[..|ended|] == ended;
      SameFrameEnd(ended, bytes);
      assert bytes[|ended|..] == rest && bytes[..|frames[0]|] == frames[0];
      FrameAtEnd(bytes, rest, |frames[0]|);
      FramesOfJoined(frames[1..]);
    }
  }

  /** However far the bytes go, the frames that are whole and decode are the log's next events. */
  ghost predicate Serves(codec: Codec, events: seq<QueueEvent>, bytes: string) {
    forall n :: 0 <= n <= |Frame(bytes).frames| && Events(codec, Frame(bytes).frames[..n]).Success? ==>
      Events(codec, Frame(bytes).frames[..n]).value <= events
  }

  /** A connection cut anywhere serves the events of the frames it carries whole. */
  lemma CutStreamServes(codec: Codec, frames: seq<string>, bytes: string, lost: string)
    requires forall frame :: frame in frames ==> IsFrame(frame)
    requires Events(codec, frames).Success? && bytes + lost == Joined(frames)
    ensures Serves(codec, Events(codec, frames).value, bytes)
  {
    hide Frame, Events, FrameEnd, Joined, IsFrame;
    FramesOfJoined(frames);
    FramingContinues(bytes, lost);
    var whole := Frame(bytes).frames;
    assert whole <= frames;
    forall n | 0 <= n <= |whole| && Events(codec, whole[..n]).Success?
      ensures Events(codec, whole[..n]).value <= Events(codec, frames).value
    {
      assert frames == whole[..n] + frames[n..];
      EventsSplit(codec, whole[..n], frames[n..]);
    }
  }

  // The client's side.

  predicate DistinctIds(log: seq<QueueEvent>) {
    forall i, j :: 0 <= i < j < |log| ==> log[i].lastEventId != log[j].lastEventId
  }

  predicate Within(log: seq<QueueEvent>, places: seq<nat>) {
    forall i :: 0 <= i < |places| ==> places[i] < |log|
  }

  /** The log's events at these places. */
  function At(log: seq<QueueEvent>, places: seq<nat>): (events: seq<QueueEvent>)
    requires Within(log, places)
    ensures |events| == |places| && forall i :: 0 <= i < |places| ==> events[i] == log[places[i]]
  {
    seq(|places|, i requires 0 <= i < |places| => log[places[i]])
  }

  lemma AtBoth(log: seq<QueueEvent>, places: seq<nat>, more: seq<nat>)
    ensures Within(log, places + more) <==> Within(log, places) && Within(log, more)
    ensures Within(log, places + more) ==> At(log, places + more) == At(log, places) + At(log, more)
  {
    assert forall i :: 0 <= i < |more| ==> (places + more)[|places| + i] == more[i];
    assert forall i :: 0 <= i < |places| ==> (places + more)[i] == places[i];
  }

  lemma AtPrefix(log: seq<QueueEvent>, places: seq<nat>, events: seq<QueueEvent>)
    requires Within(log, places) && events <= At(log, places)
    ensures events == At(log, places[..|events|])
  {
  }

  /** What the client asks to resume after, once it has been given these events. */
  function LastId(events: seq<QueueEvent>): Option<string> {
    if events == [] then None else Some(events[|events| - 1].lastEventId)
  }

  /** The id once these are delivered too. */
  function IdAfter(id: Option<string>, events: seq<QueueEvent>): Option<string> {
    if events == [] then id else LastId(events)
  }

  lemma LastIdOfBoth(events: seq<QueueEvent>, more: seq<QueueEvent>)
    ensures LastId(events + more) == IdAfter(LastId(events), more)
  {
    assert more == [] ==> events + more == events;
  }

  class Client {
    const codec: Codec
    var lastEventId: Option<string>
    ghost var delivered: seq<QueueEvent>

    constructor (codec: Codec)
      ensures this.codec == codec && lastEventId == None && delivered == []
    {
      this.codec, lastEventId, delivered := codec, None, [];
    }

    /** The id advances with each delivery. */
    method Deliver(events: seq<QueueEvent>)
      modifies this
      ensures delivered == old(delivered) + events
      ensures lastEventId == IdAfter(old(lastEventId), events)
    {
      for i := 0 to |events|
        invariant delivered == old(delivered) + events[..i]
        invariant lastEventId == if i == 0 then old(lastEventId) else Some(events[i - 1].lastEventId)
      {
        lastEventId := Some(events[i].lastEventId);
        delivered := delivered + [events[i]];
      }
    }

    /** One connection, until it ends, carries what is no event, or is given up at chunk `givenUp`. */
    method Consume(chunks: seq<string>, givenUp: nat) returns (ended: bool)
      modifies this
      ensures delivered == old(delivered) + Carried(codec, chunks, givenUp)
      ensures lastEventId == IdAfter(old(lastEventId), Carried(codec, chunks, givenUp))
      ensures ended <==> |chunks| <= givenUp && Fits(chunks) && Whole(codec, Flat(chunks)).Success?
      ensures ended ==> Whole(codec, Flat(chunks)) == Success(Carried(codec, chunks, givenUp))
    {
      ended := false;
      NothingConsumed(codec, chunks);
      ghost var got := [];
      hide Events, Frame, FrameEnd, Decode, Whole, Consumed, Fits, Flat, Breaks, Carried;
      var decoder := new QueueEventDecoder(codec);
      for i := 0 to |chunks|
        invariant fresh(decoder) && decoder.Valid() && decoder.codec == codec
        invariant delivered == old(delivered) + got && lastEventId == IdAfter(old(lastEventId), got)
        invariant Consumed(codec, chunks, i, got, decoder.buffer) && i <= givenUp && Taken(codec, chunks, i) == i
      {
        ghost var buffer := decoder.buffer;
        if i == givenUp {
          CarriedIsConsumed(codec, chunks, i, givenUp, got, buffer);
          return;
        }
        var pushed := decoder.Push(chunks[i]);
        ConsumedNext(codec, chunks, i, got, buffer, pushed, decoder.buffer);
        if pushed.Failure? {
          CarriedIsConsumed(codec, chunks, i, givenUp, got, buffer);
          return;
        }
        Deliver(pushed.value);
        got := got + pushed.value;
        TakenNext(codec, chunks, i, got, decoder.buffer);
      }
      ended := true;
      AllConsumed(codec, chunks, got, decoder.buffer);
      CarriedIsConsumed(codec, chunks, |chunks|, givenUp, got, decoder.buffer);
    }
  }

  /** What is carried of an answer is the first of the events it serves. */
  lemma CarriedIsServed(codec: Codec, events: seq<QueueEvent>, chunks: seq<string>, givenUp: nat)
    requires Serves(codec, events, Flat(chunks))
    ensures Carried(codec, chunks, givenUp) <= events
  {
    var i := Taken(codec, chunks, if givenUp < |chunks| then givenUp else |chunks|);
    hide Events, FrameEnd, Decode, Taken, Breaks;
    FlatSplits(chunks, i);
    FramingContinues(Flat(chunks[..i]), Flat(chunks[i..]));
    var frames, all := Frame(Flat(chunks[..i])).frames, Frame(Flat(chunks)).frames;
    assert all[..|frames|] == frames;
  }

  /** The places of all connections' deliveries, in order. */
  function Places(parts: seq<seq<nat>>): seq<nat> {
    if parts == [] then [] else Places(parts[..|parts| - 1]) + parts[|parts| - 1]
  }

  lemma PlacesNext(parts: seq<seq<nat>>, part: seq<nat>)
    ensures Places(parts + [part]) == Places(parts) + part
  {
    assert (parts + [part])[..|parts|] == parts;
  }

  /** Each answer carries the log at the places the server sends, for as long as it lasts. */
  ghost predicate Sends(codec: Codec, log: seq<QueueEvent>, serve: (nat, Option<string>) -> seq<string>,
                        sends: (nat, Option<string>) -> seq<nat>) {
    forall n: nat, id :: Within(log, sends(n, id)) && Serves(codec, At(log, sends(n, id)), Flat(serve(n, id)))
  }

  /** Each connection delivers the first of what the server sends to a client that asks after what it has. */
  ghost predicate Takes(log: seq<QueueEvent>, sends: (nat, Option<string>) -> seq<nat>, parts: seq<seq<nat>>) {
    parts == [] ||
    var earlier, last := parts[..|parts| - 1], parts[|parts| - 1];
    && Takes(log, sends, earlier) && Within(log, Places(earlier))
    && last <= sends(|earlier|, LastId(At(log, Places(earlier))))
  }

  /** What becomes of an attempt: the server refuses it, or its answer is followed until it is given up. */
  datatype Attempt = Refused | Answered(givenUp: nat)

  ghost function CarriedBy(codec: Codec, attempt: Attempt, chunks: seq<string>): seq<QueueEvent> {
    match attempt
    case Refused => []
    case Answered(givenUp) => Carried(codec, chunks, givenUp)
  }

  /** All that is delivered: each attempt asks after the last delivery of those before it. */
  ghost function Delivered(codec: Codec, serve: (nat, Option<string>) -> seq<string>,
                           attempts: seq<Attempt>): seq<QueueEvent>
  {
    if attempts == [] then [] else
    var n := |attempts| - 1;
    var earlier := Delivered(codec, serve, attempts[..n]);
    earlier + CarriedBy(codec, attempts[n], serve(n, LastId(earlier)))
  }

  /**
   `run_queue_event_stream` for one origin: over any attempts, each refused, cut,
   given up for a reconnect, or ended by bytes that are no event, exactly what the
   answers carry is delivered, and the id is that of the last delivery.
   */
  method Run(client: Client, attempts: seq<Attempt>, serve: (nat, Option<string>) -> seq<string>)
    requires client.delivered == [] && client.lastEventId == None
    modifies client
    ensures client.delivered == Delivered(client.codec, serve, attempts)
    ensures client.lastEventId == LastId(client.delivered)
  {
    assert attempts[..0] == [] && Delivered(client.codec, serve, []) == [] && LastId([]) == None;
    hide Delivered, LastId;
    for n := 0 to |attempts|
      invariant client.delivered == Delivered(client.codec, serve, attempts[..n])
      invariant client.lastEventId == LastId(client.delivered)
    {
      DeliveredNext(client.codec, serve, attempts, n);
      Attempted(client, attempts[n], serve(n, client.lastEventId));
    }
    assert attempts[..|attempts|] == attempts;
  }

  /** One attempt: refused, or answered in these chunks. */
  method Attempted(client: Client, attempt: Attempt, chunks: seq<string>)
    requires client.lastEventId == LastId(client.delivered)
    modifies client
    ensures client.delivered == old(client.delivered) + CarriedBy(client.codec, attempt, chunks)
    ensures client.lastEventId == LastId(client.delivered)
  {
    hide Carried, LastId;
    LastIdOfBoth(client.delivered, CarriedBy(client.codec, attempt, chunks));
    if attempt.Answered? {
      var ended := client.Consume(chunks, attempt.givenUp);
    }
  }

  lemma DeliveredNext(codec: Codec, serve: (nat, Option<string>) -> seq<string>, attempts: seq<Attempt>, n: nat)
    requires n < |attempts|
    ensures var earlier := Delivered(codec, serve, attempts[..n]);
            Delivered(codec, serve, attempts[..n + 1])
                == earlier + CarriedBy(codec, attempts[n], serve(n, LastId(earlier)))
  {
    assert attempts[..n + 1][..n] == attempts[..n];
  }

  function FirstOf(places: seq<nat>, count: nat): (first: seq<nat>)
    ensures first <= places
  {
    if count <= |places| then places[..count] else places
  }

  /** Where the deliveries lie, attempt by attempt. */
  ghost function Parts(codec: Codec, serve: (nat, Option<string>) -> seq<string>,
                       sends: (nat, Option<string>) -> seq<nat>, attempts: seq<Attempt>): seq<seq<nat>>
  {
    if attempts == [] then [] else
    var n := |attempts| - 1;
    var id := LastId(Delivered(codec, serve, attempts[..n]));
    Parts(codec, serve, sends, attempts[..n]) + [FirstOf(sends(n, id), |CarriedBy(codec, attempts[n], serve(n, id))|)]
  }

  /** The deliveries are, connection by connection, the first of what the server sends. */
  lemma {:induction false} DeliveriesAreTaken(codec: Codec, log: seq<QueueEvent>,
          serve: (nat, Option<string>) -> seq<string>,
                                              sends: (nat, Option<string>) -> seq<nat>, attempts: seq<Attempt>)
    requires Sends(codec, log, serve, sends)
    ensures var parts := Parts(codec, serve, sends, attempts);
            && |parts| == |attempts| && Takes(log, sends, parts) && Within(log, Places(parts))
            && Delivered(codec, serve, attempts) == At(log, Places(parts))
  {
    if attempts != [] {
      var n := |attempts| - 1;
      var earlier, parts := Delivered(codec, serve, attempts[..n]), Parts(codec, serve, sends, attempts[..n]);
      var id := LastId(earlier);
      DeliveriesAreTaken(codec, log, serve, sends, attempts[..n]);
      var carried := CarriedBy(codec, attempts[n], serve(n, id));
      if attempts[n].Answered? {
        CarriedIsServed(codec, At(log, sends(n, id)), serve(n, id), attempts[n].givenUp);
      }
      hide CarriedBy, LastId, Takes, Places, Serves, Flat;
      AtPrefix(log, sends(n, id), carried);
      WithinPrefix(log, sends(n, id), |carried|);
      TakesNext(log, sends, parts, FirstOf(sends(n, id), |carried|));
    }
  }

  lemma WithinPrefix(log: seq<QueueEvent>, places: seq<nat>, count: nat)
    requires Within(log, places) && count <= |places|
    ensures Within(log, places[..count])
  {
  }

  lemma TakesNext(log: seq<QueueEvent>, sends: (nat, Option<string>) -> seq<nat>, parts: seq<seq<nat>>, part: seq<nat>)
    requires Takes(log, sends, parts) && Within(log, Places(parts)) && Within(log, part)
    requires part <= sends(|parts|, LastId(At(log, Places(parts))))
    ensures Takes(log, sends, parts + [part]) && Within(log, Places(parts + [part]))
    ensures At(log, Places(parts + [part])) == At(log, Places(parts)) + At(log, part)
  {
    PlacesNext(parts, part);
    AtBoth(log, Places(parts), part);
    hide LastId, At, Within, Places;
    assert (parts + [part])[..|parts|] == parts;
  }

  // What makes it one stretch.

  predicate StretchFrom(log: seq<QueueEvent>, events: seq<QueueEvent>, first: nat) {
    first + |events| <= |log| && events == log[first..first + |events|]
  }

  ghost predicate IsStretch(log: seq<QueueEvent>, events: seq<QueueEvent>) {
    exists first: nat :: StretchFrom(log, events, first)
  }

  predicate Follows(places: seq<nat>, i: int) {
    0 < i < |places| && places[i] == places[i - 1] + 1
  }

  predicate Consecutive(places: seq<nat>) {
    forall i :: 0 < i < |places| ==> Follows(places, i)
  }

  lemma {:induction false} ConsecutiveFrom(places: seq<nat>, i: nat)
    requires Consecutive(places) && i < |places|
    ensures places[i] == places[0] + i
  {
    if i > 0 {
      ConsecutiveFrom(places, i - 1);
      assert Follows(places, i);
    }
  }

  /** With an id for each event, a stretch of the log is what lies at consecutive places. */
  lemma StretchIffConsecutive(log: seq<QueueEvent>, places: seq<nat>)
    requires DistinctIds(log) && Within(log, places)
    ensures IsStretch(log, At(log, places)) <==> Consecutive(places)
  {
    var events := At(log, places);
    if Consecutive(places) {
      var first := if places == [] then 0 else places[0];
      forall i | 0 <= i < |places|
        ensures places[i] == first + i
      {
        ConsecutiveFrom(places, i);
      }
      assert places != [] ==> first + |places| - 1 == places[|places| - 1];
      assert StretchFrom(log, events, first);
    }
    if IsStretch(log, events) {
      var first: nat :| StretchFrom(log, events, first);
      forall i | 0 <= i < |places|
        ensures places[i] == first + i
      {
        assert events[i] == log[first + i];
      }
    }
  }

  /** A part goes on just after what came before it. */
  predicate Joins(before: seq<nat>, part: seq<nat>) {
    Consecutive(part) && (before != [] && part != [] ==> part[0] == before[|before| - 1] + 1)
  }

  lemma FollowsInBoth(before: seq<nat>, part: seq<nat>, i: int)
    ensures 0 < i < |before| ==> (Follows(before + part, i) <==> Follows(before, i))
    ensures 0 < i < |part| ==> (Follows(before + part, |before| + i) <==> Follows(part, i))
  {
  }

  lemma ConsecutiveBoth(before: seq<nat>, part: seq<nat>)
    ensures Consecutive(before + part) <==> Consecutive(before) && Joins(before, part)
  {
    var both := before + part;
    hide Follows;
    if Consecutive(both) {
      forall i | 0 < i < |before|
        ensures Follows(before, i)
      {
        FollowsInBoth(before, part, i);
      }
      forall i | 0 < i < |part|
        ensures Follows(part, i)
      {
        FollowsInBoth(before, part, i);
        assert Follows(both, |before| + i);
      }
      BorderFollows(before, part);
      assert before != [] && part != [] ==> Follows(both, |before|);
    }
    if Consecutive(before) && Joins(before, part) {
      forall i | 0 < i < |both|
        ensures Follows(both, i)
      {
        FollowsInBoth(before, part, i);
        FollowsInBoth(before, part, i - |before|);
        BorderFollows(before, part);
      }
    }
  }

  lemma BorderFollows(before: seq<nat>, part: seq<nat>)
    ensures before != [] && part != [] ==>
              (Follows(before + part, |before|) <==> part[0] == before[|before| - 1] + 1)
  {
  }

  /** Every part goes on just after the ones before it. */
  predicate AllJoin(parts: seq<seq<nat>>) {
    parts == [] || (AllJoin(parts[..|parts| - 1]) && Joins(Places(parts[..|parts| - 1]), parts[|parts| - 1]))
  }

  /** The deliveries are one stretch exactly when each connection that delivers goes on at the next event. */
  lemma OneStretchIffAllJoin(log: seq<QueueEvent>, parts: seq<seq<nat>>)
    requires DistinctIds(log) && Within(log, Places(parts))
    ensures IsStretch(log, At(log, Places(parts))) <==> AllJoin(parts)
  {
    StretchIffConsecutive(log, Places(parts));
    ConsecutiveParts(parts);
  }

  lemma {:induction false} ConsecutiveParts(parts: seq<seq<nat>>)
    ensures Consecutive(Places(parts)) <==> AllJoin(parts)
  {
    hide Consecutive, Joins;
    if parts != [] {
      ConsecutiveParts(parts[..|parts| - 1]);
      ConsecutiveBoth(Places(parts[..|parts| - 1]), parts[|parts| - 1]);
    } else {
      NothingIsConsecutive();
    }
  }

  lemma NothingIsConsecutive()
    ensures Consecutive([])
  {
  }

  // A server that resumes.

  /** Where a server that resumes goes on: just after the last id, or anywhere without one. */
  function ResumeAt(log: seq<QueueEvent>, lastEventId: Option<string>, anywhere: nat): nat {
    if lastEventId.None? then anywhere else IndexAfter(log, lastEventId.value)
  }

  function IndexAfter(log: seq<QueueEvent>, id: string): (next: nat)
    ensures next <= |log|
  {
    if log == [] then 0 else if log[0].lastEventId == id then 1 else
    var next := IndexAfter(log[1..], id);
    1 + next
  }

  lemma {:induction false} OwnIdIsFound(log: seq<QueueEvent>, k: nat)
    requires DistinctIds(log) && k < |log|
    ensures IndexAfter(log, log[k].lastEventId) == k + 1
  {
    if k > 0 {
      assert log[0].lastEventId != log[k].lastEventId;
      forall i, j | 0 <= i < j < |log[1..]|
        ensures log[1..][i].lastEventId != log[1..][j].lastEventId
      {
        assert log[i + 1].lastEventId != log[j + 1].lastEventId;
      }
      OwnIdIsFound(log[1..], k - 1);
    }
  }

  /** It sends every event from there on. */
  ghost predicate Resumes(log: seq<QueueEvent>, sends: (nat, Option<string>) -> seq<nat>, anywhere: nat -> nat) {
    forall n: nat, id ::
      && Consecutive(sends(n, id))
      && (sends(n, id) != [] ==> sends(n, id)[0] == ResumeAt(log, id, anywhere(n)))
  }

  lemma ResumedJoins(log: seq<QueueEvent>, sends: (nat, Option<string>) -> seq<nat>, anywhere: nat -> nat, n: nat,
                     before: seq<nat>, part: seq<nat>)
    requires DistinctIds(log) && Resumes(log, sends, anywhere) && Within(log, before)
    requires part <= sends(n, LastId(At(log, before)))
    ensures Joins(before, part)
  {
    var sent := sends(n, LastId(At(log, before)));
    assert Consecutive(sent);
    forall i | 0 < i < |part|
      ensures Follows(part, i)
    {
      assert Follows(sent, i);
    }
    if before != [] && part != [] {
      OwnIdIsFound(log, before[|before| - 1]);
    }
  }

  lemma {:induction false} ResumedAllJoin(log: seq<QueueEvent>, sends: (nat, Option<string>) -> seq<nat>,
                                          anywhere: nat -> nat, parts: seq<seq<nat>>)
    requires DistinctIds(log) && Resumes(log, sends, anywhere) && Takes(log, sends, parts)
    ensures AllJoin(parts)
  {
    hide Resumes, Joins, DistinctIds;
    if parts != [] {
      var earlier := parts[..|parts| - 1];
      ResumedAllJoin(log, sends, anywhere, earlier);
      ResumedJoins(log, sends, anywhere, |earlier|, Places(earlier), parts[|parts| - 1]);
    }
  }

  /** From a server that resumes, one gap-free, duplicate-free stretch of its log is delivered. */
  lemma ResumedIsOneStretch(log: seq<QueueEvent>, sends: (nat, Option<string>) -> seq<nat>, anywhere: nat -> nat,
                            parts: seq<seq<nat>>)
    requires DistinctIds(log) && Resumes(log, sends, anywhere) && Takes(log, sends, parts) && Within(log, Places(parts))
    ensures IsStretch(log, At(log, Places(parts)))
  {
    ResumedAllJoin(log, sends, anywhere, parts);
    OneStretchIffAllJoin(log, parts);
  }

  /** So whatever becomes of the attempts, the client delivers one stretch of the log of a server that resumes. */
  lemma ResumedRunIsOneStretch(codec: Codec, log: seq<QueueEvent>, serve: (nat, Option<string>) -> seq<string>,
                               sends: (nat, Option<string>) -> seq<nat>, anywhere: nat -> nat, attempts: seq<Attempt>)
    requires DistinctIds(log) && Sends(codec, log, serve, sends) && Resumes(log, sends, anywhere)
    ensures IsStretch(log, Delivered(codec, serve, attempts))
  {
    DeliveriesAreTaken(codec, log, serve, sends, attempts);
    ResumedIsOneStretch(log, sends, anywhere, Parts(codec, serve, sends, attempts));
  }
}
