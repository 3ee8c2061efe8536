/**
 The incremental decoder of the server's queue events: frames end at a blank line,
 however the bytes arrive (desktop/core/src/queue_events.rs:8-75). A byte is the
 character of its value.
 */
module QueueEvents {
  import opened Outcomes
  import opened Texts

  const LIMIT := 65536

  datatype Payload = Payload(revision: string, sequence: string, invalidates: seq<string>)

  datatype QueueEvent = QueueEvent(payload: Payload, lastEventId: string)

  datatype Error = TooLarge | NotUtf8 | BadPayload | BadFields | NoId

  /** The libraries a frame is read with: UTF-8 validation and JSON. */
  datatype Codec = Codec(isUtf8: string -> bool, parse: string -> Option<Payload>)

  predicate BlankAt(bytes: string, index: nat) {
    index + 2 <= |bytes| && bytes[index] == '\n' && bytes[index + 1] == '\n'
  }

  /** The first blank line from an index on, or the length. */
  function BlankFrom(bytes: string, from: nat): (end: nat)
    requires from <= |bytes|
    ensures from <= end <= |bytes| && (end < |bytes| ==> BlankAt(bytes, end))
    ensures forall index :: from <= index < end ==> !BlankAt(bytes, index)
    decreases |bytes| - from
  {
    if from == |bytes| || BlankAt(bytes, from) then from else BlankFrom(bytes, from + 1)
  }

  /** The leftmost blank line's start, or the length. */
  function FrameEnd(bytes: string): nat {
    BlankFrom(bytes, 0)
  }

  datatype Framed = Framed(frames: seq<string>, tail: string)

  /** The whole stream, framed at once. */
  function Frame(bytes: string): Framed
    decreases |bytes|
  {
    var end := FrameEnd(bytes);
    if end == |bytes| then Framed([], bytes)
    else
      var rest := Frame(bytes[end + 2..]);
      Framed([bytes[..end]] + rest.frames, rest.tail)
  }

  /** A stream that begins with the same bytes ends its first frame there too. */
  lemma SameFrameEnd(bytes: string, other: string)
    requires FrameEnd(bytes) < |bytes| && FrameEnd(bytes) + 2 <= |other|
    requires bytes[..FrameEnd(bytes) + 2] == other[..FrameEnd(bytes) + 2]
    ensures FrameEnd(other) == FrameEnd(bytes)
  {
    var end := FrameEnd(bytes);
    forall index: nat | index <= end
      ensures BlankAt(other, index) == BlankAt(bytes, index)
    {
      assert bytes[index] == bytes[..end + 2][index] && bytes[index + 1] == bytes[..end + 2][index + 1];
    }
  }

  /** The frames of two stretches, in order. */
  function Then(front: seq<string>, next: Framed): Framed {
    Framed(front + next.frames, next.tail)
  }

  lemma ThenNothing(next: Framed)
    ensures Then([], next) == next
  {
    assert [] + next.frames == next.frames;
  }

  lemma ThenBoth(first: seq<string>, second: seq<string>, next: Framed)
    ensures Then(first + second, next) == Then(first, Then(second, next))
  {
    assert first + second + next.frames == first + (second + next.frames);
  }

  lemma FrameAtEnd(bytes: string, rest: string, end: nat)
    requires end == FrameEnd(bytes) < |bytes| && rest == bytes[end + 2..]
    ensures Frame(bytes) == Then([bytes[..end]], Frame(rest))
  {
  }

  lemma FirstFrameOf(bytes: string, more: string)
    requires FrameEnd(bytes) < |bytes|
    ensures Frame(bytes + more) == Then([bytes[..FrameEnd(bytes)]], Frame(bytes[FrameEnd(bytes) + 2..] + more))
  {
    var end := FrameEnd(bytes);
    SameFrameEnd(bytes, bytes + more);
    assert (bytes + more)[end + 2..] == bytes[end + 2..] + more && (bytes + more)[..end] == bytes[..end];
    FrameAtEnd(bytes + more, bytes[end + 2..] + more, end);
  }

  /** Framing what is left and what comes next continues the framing of the whole. */
  lemma {:induction false} FramingContinues(bytes: string, more: string)
    ensures Frame(bytes + more) == Then(Frame(bytes).frames, Frame(Frame(bytes).tail + more))
    decreases |bytes|
  {
    var end := FrameEnd(bytes);
    if end == |bytes| {
      ThenNothing(Frame(bytes + more));
    } else {
      var rest := bytes[end + 2..];
      var first, framed := [bytes[..end]], Frame(rest);
      calc {
        Frame(bytes + more);
        { FirstFrameOf(bytes, more); }
        Then(first, Frame(rest + more));
        { FramingContinues(rest, more); }
        Then(first, Then(framed.frames, Frame(framed.tail + more)));
        { ThenBoth(first, framed.frames, Frame(framed.tail + more)); }
        Then(first + framed.frames, Frame(framed.tail + more));
        { FrameAtEnd(bytes, rest, end); }
        Then(Frame(bytes).frames, Frame(Frame(bytes).tail + more));
      }
    }
  }

  function Joined(frames: seq<string>): string {
    if frames == [] then "" else frames[0] + "\n\n" + Joined(frames[1..])
  }

  predicate IsFrame(frame: string) {
    FrameEnd(frame + "\n\n") == |frame|
  }

  /** Framing loses nothing. */
  lemma {:induction false} FramingIsLossless(bytes: string)
    ensures Joined(Frame(bytes).frames) + Frame(bytes).tail == bytes
    decreases |bytes|
  {
    var end := FrameEnd(bytes);
    if end == |bytes| {
      assert "" + bytes == bytes;
    } else {
      var frame, rest := bytes[..end], bytes[end + 2..];
      CutAtEnd(bytes, end);
      FrameAtEnd(bytes, rest, end);
      FramingIsLossless(rest);
      JoinedFirst(frame, Frame(rest).frames, Frame(rest).tail);
    }
  }

  lemma CutAtEnd(bytes: string, end: nat)
    requires end + 2 <= |bytes| && bytes[end] == bytes[end + 1] == '\n'
    ensures (bytes[..end] + "\n\n") + bytes[end + 2..] == bytes
  {
  }

  lemma JoinedFirst(frame: string, frames: seq<string>, tail: string)
    ensures Joined([frame] + frames) + tail == (frame + "\n\n") + (Joined(frames) + tail)
  {
    assert ([frame] + frames)[1..] == frames;
    var ended, joined := frame + "\n\n", Joined(frames);
    assert (ended + joined) + tail == ended + (joined + tail);
  }

  /** Every frame ends at its first blank line, and none is left. */
  lemma {:induction false} FramesEndAtBlankLines(bytes: string)
    ensures forall frame :: frame in Frame(bytes).frames ==> IsFrame(frame)
    ensures FrameEnd(Frame(bytes).tail) == |Frame(bytes).tail|
    decreases |bytes|
  {
    var end := FrameEnd(bytes);
    if end < |bytes| {
      var rest := bytes[end + 2..];
      FramesEndAtBlankLines(rest);
      FrameAtEnd(bytes, rest, end);
      assert bytes[..end] + "\n\n" == bytes[..end + 2];
      SameFrameEnd(bytes, bytes[..end] + "\n\n");
    }
  }

  // One frame.

  /** A line ends at a newline, and a carriage return before it goes with it. */
  function Lines(text: string): seq<string>
    decreases |text|
  {
    if text == "" then []
    else
      var end := Find(text, '\n');
      if end == |text| then [text]
      else [if end > 0 && text[end - 1] == '\r' then text[..end - 1] else text[..end]] + Lines(text[end + 1..])
  }

  datatype Fields = Fields(id: Option<string>, name: Option<string>, data: seq<string>)

  function WithLine(fields: Fields, line: string): Fields {
    if "id: " <= line then fields.(id := Some(line[4..]))
    else if "event: " <= line then fields.(name := Some(line[7..]))
    else if "data: " <= line then fields.(data := fields.data + [line[6..]])
    else fields
  }

  function FieldsOf(lines: seq<string>): Fields {
    if lines == [] then Fields(None, None, [])
    else WithLine(FieldsOf(lines[..|lines| - 1]), lines[|lines| - 1])
  }

  /** What parses as a 64-bit unsigned number. */
  predicate IsU64(text: string) {
    var digits := if text != "" && text[0] == '+' then text[1..] else text;
    digits != "" && AllDigits(digits) && Number(digits) < 0x1_0000_0000_0000_0000
  }

  /** Frames of another name, and comments, are no event. */
  function EventOf(codec: Codec, fields: Fields): Result<Option<QueueEvent>, Error> {
    if fields.name != Some("queue-invalidated") then Success(None)
    else
      match codec.parse(Join(fields.data, '\n'))
      case None => Failure(BadPayload)
      case Some(payload) =>
        if payload.revision == "" || !IsU64(payload.sequence) || "queue" !in payload.invalidates then Failure(BadFields)
        else if fields.id.None? then Failure(NoId)
        else Success(Some(QueueEvent(payload, fields.id.value)))
  }

  function Decode(codec: Codec, frame: string): Result<Option<QueueEvent>, Error> {
    if codec.isUtf8(frame) then EventOf(codec, FieldsOf(Lines(frame))) else Failure(NotUtf8)
  }

  method DecodeQueueEvent(codec: Codec, frame: string) returns (r: Result<Option<QueueEvent>, Error>)
    ensures r == Decode(codec, frame)
  {
    if !codec.isUtf8(frame) {
      return Failure(NotUtf8);
    }
    var id, name: Option<string> := None, None;
    var data := [];
    var lines := Lines(frame);
    for i := 0 to |lines|
      invariant Fields(id, name, data) == FieldsOf(lines[..i])
    {
      assert lines[..i + 1][..i] == lines[..i];
      var line := lines[i];
      if "id: " <= line {
        id := Some(line[4..]);
      } else if "event: " <= line {
        name := Some(line[7..]);
      } else if "data: " <= line {
        data := data + [line[6..]];
      }
    }
    assert lines[..|lines|] == lines;
    r := EventOf(codec, Fields(id, name, data));
  }

  /** The events of the frames, or the first frame's error. */
  function Events(codec: Codec, frames: seq<string>): Result<seq<QueueEvent>, Error> {
    if frames == [] then Success([])
    else
      match Decode(codec, frames[0])
      case Failure(error) => Failure(error)
      case Success(event) => After(if event.Some? then [event.value] else [], Events(codec, frames[1..]))
  }

  function After(events: seq<QueueEvent>, rest: Result<seq<QueueEvent>, Error>): Result<seq<QueueEvent>, Error> {
    if rest.Success? then Success(events + rest.value) else rest
  }

  lemma AfterBoth(first: seq<QueueEvent>, second: seq<QueueEvent>, rest: Result<seq<QueueEvent>, Error>)
    ensures After([], rest) == rest
    ensures After(first + second, rest) == After(first, After(second, rest))
  {
    assert rest.Success? ==> [] + rest.value == rest.value;
    assert rest.Success? ==> first + second + rest.value == first + (second + rest.value);
  }

  class QueueEventDecoder {
    const codec: Codec
    var buffer: string

    /** Only the unframed tail is held, within the limit. */
    ghost predicate Valid()
      reads this
    {
      |buffer| <= LIMIT && FrameEnd(buffer) == |buffer|
    }

    constructor (codec: Codec)
      ensures Valid() && buffer == "" && this.codec == codec
    {
      this.codec, buffer := codec, "";
    }

    /** A chunk that does not fit is refused even if its frames are complete. */
    method Push(chunk: string) returns (r: Result<seq<QueueEvent>, Error>)
      requires Valid()
      modifies this
      ensures |old(buffer)| + |chunk| > 64 * 1024 ==> r == Failure(TooLarge) && buffer == ""
      ensures |old(buffer)| + |chunk| <= 64 * 1024 ==> r == Events(codec, Frame(old(buffer) + chunk).frames)
      ensures r.Success? ==> Valid() && buffer == Frame(old(buffer) + chunk).tail
    {
      if |chunk| > LIMIT - |buffer| {
        buffer := "";
        return Failure(TooLarge);
      }
      buffer := buffer + chunk;
      ghost var whole := buffer;
      var events := [];
      var end := FrameEnd(buffer);
      AfterBoth([], [], Events(codec, Frame(whole).frames));
      while end < |buffer|
        invariant end == FrameEnd(buffer) && |buffer| <= LIMIT
        invariant Events(codec, Frame(whole).frames) == After(events, Events(codec, Frame(buffer).frames))
        invariant Frame(whole).tail == Frame(buffer).tail
        decreases |buffer|
      {
        var frame := buffer[..end];
        ghost var rest := buffer[end + 2..];
        assert Frame(buffer).frames == [frame] + Frame(rest).frames;
        buffer := buffer[end + 2..];
        var event := DecodeQueueEvent(codec, frame);
        if event.Failure? {
          return Failure(event.error);
        }
        AfterBoth(events, if event.value.Some? then [event.value.value] else [], Events(codec, Frame(rest).frames));
        events := if event.value.Some? then events + [event.value.value] else events + [];
        end := FrameEnd(buffer);
      }
      assert events + [] == events;
      r := Success(events);
    }
  }
}
