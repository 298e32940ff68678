/**
 Messages over frames: ValidatedMessageDecoder of packages/protocol/src/codec.ts on top of the
 frame decoder. How a message is written into a payload and read back (CBOR and the schemas)
 is given as functions.
 */
module MessageCodec {
  import opened Wrappers
  import opened FrameFormat
  import opened Framing

  datatype DecodeError = HasFailedBefore | BadFrame | BadMessage | BadFraming

  /** The messages in some payloads, if all of them are valid. */
  function ParseAll<T>(parse: seq<byte> -> Option<T>, payloads: seq<seq<byte>>): Option<seq<T>> {
    if payloads == [] then Some([])
    else
      var before := ParseAll(parse, payloads[..|payloads| - 1]);
      var last := parse(payloads[|payloads| - 1]);
      if before.Some? && last.Some? then Some(before.value + [last.value]) else None
  }

  function EncodeAll<T>(encode: T -> seq<byte>, messages: seq<T>): (payloads: seq<seq<byte>>)
    ensures |payloads| == |messages| && forall i | 0 <= i < |messages| :: payloads[i] == encode(messages[i])
  {
    if messages == [] then []
    else EncodeAll(encode, messages[..|messages| - 1]) + [encode(messages[|messages| - 1])]
  }

  lemma {:induction false} ParseAllFails<T>(parse: seq<byte> -> Option<T>, payloads: seq<seq<byte>>, k: nat)
    requires k <= |payloads| && ParseAll(parse, payloads[..k]).None?
    ensures ParseAll(parse, payloads).None?
    decreases |payloads| - k
  {
    if k == |payloads| {
      assert payloads[..k] == payloads;
    } else {
      assert payloads[..k + 1][..k] == payloads[..k];
      ParseAllFails(parse, payloads, k + 1);
    }
  }

  lemma {:induction false} ParseAllAppend<T>(parse: seq<byte> -> Option<T>, a: seq<seq<byte>>, b: seq<seq<byte>>)
    ensures ParseAll(parse, a + b) ==
            if ParseAll(parse, a).Some? && ParseAll(parse, b).Some? then
              Some(ParseAll(parse, a).value + ParseAll(parse, b).value)
            else None
  {
    if b == [] {
      assert a + b == a;
      assert ParseAll(parse, a).Some? ==> ParseAll(parse, a).value + [] == ParseAll(parse, a).value;
    } else {
      var k := |b| - 1;
      ParseAllAppend(parse, a, b[..k]);
      assert (a + b)[..|a + b| - 1] == a + b[..k];
      var pa, pb, last := ParseAll(parse, a), ParseAll(parse, b[..k]), parse(b[k]);
      if pa.Some? && pb.Some? && last.Some? {
        assert pa.value + pb.value + [last.value] == pa.value + (pb.value + [last.value]);
      }
    }
  }

  lemma {:induction false} ParsedEncoded<T>(encode: T -> seq<byte>, parse: seq<byte> -> Option<T>, messages: seq<T>)
    requires forall i | 0 <= i < |messages| :: parse(encode(messages[i])) == Some(messages[i])
    ensures ParseAll(parse, EncodeAll(encode, messages)) == Some(messages)
  {
    if messages != [] {
      var k := |messages| - 1;
      ParsedEncoded(encode, parse, messages[..k]);
      assert EncodeAll(encode, messages)[..k] == EncodeAll(encode, messages[..k]);
      assert messages[..k] + [messages[k]] == messages;
    }
  }

  /** What a decoder gives for a stream that comes in chunks. */
  function Decoded<T>(parse: seq<byte> -> Option<T>, chunks: seq<seq<byte>>, max: nat): Result<seq<T>, DecodeError> {
    match Feed(chunks, max)
    case Broken(_) => Err(BadFrame)
    case Reading(frames, pending) =>
      var messages := ParseAll(parse, frames);
      if messages.None? then Err(BadMessage) else if pending != [] then Err(BadFraming) else Ok(messages.value)
  }

  /** Encoding messages and decoding them again gives the same messages in order, however the
      stream is cut, whenever reading undoes writing for each of them and they fit the limit. */
  lemma {:induction false} MessagesRoundTrip<T>(encode: T -> seq<byte>, parse: seq<byte> -> Option<T>, messages: seq<T>,
                                                chunks: seq<seq<byte>>, max: nat)
    requires max <= MAX_UINT32
    requires forall i | 0 <= i < |messages| ::
               parse(encode(messages[i])) == Some(messages[i]) && |encode(messages[i])| <= max
    requires Join(chunks) == Wire(EncodeAll(encode, messages))
    ensures Decoded(parse, chunks, max) == Ok(messages)
  {
    hide Feed, Join, Wire, ParseAll;
    RoundTrip(EncodeAll(encode, messages), chunks, max);
    ParsedEncoded(encode, parse, messages);
  }

  /** The payloads are read as these messages, one by one. */
  predicate ReadAs<T(==)>(parse: seq<byte> -> Option<T>, payloads: seq<seq<byte>>, messages: seq<T>) {
    |payloads| == |messages| && forall i | 0 <= i < |messages| :: parse(payloads[i]) == Some(messages[i])
  }

  lemma {:induction false} ParsedOneByOne<T>(parse: seq<byte> -> Option<T>, payloads: seq<seq<byte>>, messages: seq<T>)
    ensures ParseAll(parse, payloads) == Some(messages) <==> ReadAs(parse, payloads, messages)
  {
    if payloads != [] && messages != [] {
      var k := |payloads| - 1;
      ParsedOneByOne(parse, payloads[..k], messages[..|messages| - 1]);
      assert messages == messages[..|messages| - 1] + [messages[|messages| - 1]];
    }
  }

  /** A stream decodes to messages if and only if it is, to its last byte, the frames of payloads
      within the limit that are read as these messages one by one. */
  lemma {:induction false} DecodesExactly<T>(parse: seq<byte> -> Option<T>, chunks: seq<seq<byte>>, messages: seq<T>,
                                             max: nat)
    requires max <= MAX_UINT32
    ensures Decoded(parse, chunks, max) == Ok(messages) <==>
            exists payloads :: Join(chunks) == Wire(payloads) && WithinLimit(payloads, max)
                               && ReadAs(parse, payloads, messages)
  {
    hide Feed, Join, Wire, ParseAll, ReadAs;
    if Decoded(parse, chunks, max) == Ok(messages) {
      var payloads := Feed(chunks, max).frames;
      OnlyWireIsRead(payloads, chunks, max);
      FeedFits(chunks, max);
      ParsedOneByOne(parse, payloads, messages);
    }
    if payloads :| Join(chunks) == Wire(payloads) && WithinLimit(payloads, max) && ReadAs(parse, payloads, messages) {
      RoundTrip(payloads, chunks, max);
      ParsedOneByOne(parse, payloads, messages);
    }
  }

  /** Nothing over the limit is ever read. */
  lemma {:induction false} FeedFits(chunks: seq<seq<byte>>, max: nat)
    requires max <= MAX_UINT32 && Feed(chunks, max).Reading?
    ensures WithinLimit(Feed(chunks, max).frames, max)
  {
    hide Parse;
    if chunks != [] {
      var k := |chunks| - 1;
      FeedFits(chunks[..k], max);
      ParseFits(Feed(chunks[..k], max).pending + chunks[k], max);
    }
  }

  lemma {:induction false} ParseFits(s: seq<byte>, max: nat)
    requires max <= MAX_UINT32
    ensures WithinLimit(FrameFormat.Parse(s, max).frames, max)
  {
    if FrontOf(s, max).Whole? {
      ParseFits(FrontOf(s, max).tail, max);
    }
  }

  class ValidatedMessageDecoder<T> {
    var failed: bool
    const frames: FrameDecoder
    const parse: seq<byte> -> Option<T>

    constructor (maxFrameLength: nat, parse: seq<byte> -> Option<T>)
      requires maxFrameLength <= MAX_UINT32
      ensures Valid() && fresh(frames) && fresh(frames.Repr) && !failed && this.parse == parse
      ensures frames.state == Open && frames.maxFrameLength == maxFrameLength && frames.Pending() == []
    {
      failed := false;
      frames := new FrameDecoder(maxFrameLength);
      this.parse := parse;
    }

    ghost predicate Valid()
      reads this, frames, frames.Repr
    {
      this !in frames.Repr && frames.Valid()
    }

    /** The messages that the chunk completes; any error is final, and loses the messages that
        came before it in the same chunk. */
    method Push(chunk: array<byte>) returns (r: Result<seq<T>, DecodeError>)
      requires Valid() && chunk !in frames.Repr
      modifies this, frames.Repr
      ensures Valid() && fresh(frames.Repr - old(frames.Repr)) && (old(failed) || r.Err? <==> failed)
      ensures old(failed) ==> r == Err(HasFailedBefore)
      ensures !old(failed) && old(frames.state) != Open ==> r == Err(BadFrame)
      ensures !old(failed) && old(frames.state) == Open ==>
                var p := FrameFormat.Parse(old(frames.Pending()) + chunk[..], frames.maxFrameLength);
                if p.oversized then r == Err(BadFrame)
                else
                  && frames.state == Open && frames.Pending() == p.rest
                  && r == (if ParseAll(parse, p.frames).None? then Err(BadMessage)
                           else Ok(ParseAll(parse, p.frames).value))
                  && failed == r.Err?
    {
      hide ParseAll;
      if failed {
        return Err(HasFailedBefore);
      }
      ghost var pending := frames.Pending();
      var arrays := frames.Push(chunk);
      if arrays.Err? {
        failed := true;
        return Err(BadFrame);
      }
      assert old(frames.state) == Open ==>
               Contents(arrays.value) == FrameFormat.Parse(pending + chunk[..], frames.maxFrameLength).frames;
      var messages := ParseFrames(parse, arrays.value, Contents(arrays.value));
      if messages.None? {
        failed := true;
        r := Err(BadMessage);
      } else {
        r := Ok(messages.value);
      }
    }

    /** The end of the stream: it must come between two frames, and only once. */
    method End() returns (r: Result<(), DecodeError>)
      requires Valid()
      modifies this, frames
      ensures Valid() && (old(failed) || r.Err? <==> failed)
      ensures r == if old(failed) then Err(HasFailedBefore)
                   else if old(frames.state) == Open && old(frames.Pending()) == [] then Ok(())
                   else Err(BadFraming)
      ensures r.Ok? ==> frames.state == Ended
    {
      if failed {
        return Err(HasFailedBefore);
      }
      var end := frames.End();
      if end.Err? {
        failed := true;
        return Err(BadFraming);
      }
      return Ok(());
    }
  }

  /** Parses frame by frame, up to the first that is no message. */
  method ParseFrames<T>(parse: seq<byte> -> Option<T>, arrays: seq<array<byte>>, payloads: seq<seq<byte>>)
    returns (messages: Option<seq<T>>)
    requires Hold(arrays, payloads)
    ensures messages == ParseAll(parse, payloads)
  {
    var parsed: seq<T> := [];
    for k := 0 to |arrays|
      invariant ParseAll(parse, payloads[..k]) == Some(parsed)
    {
      assert payloads[..k + 1][..k] == payloads[..k];
      var message := parse(arrays[k][..]);
      if message.None? {
        ParseAllFails(parse, payloads, k + 1);
        return None;
      }
      parsed := parsed + [message.value];
    }
    assert payloads[..|arrays|] == payloads;
    return Some(parsed);
  }

  /** A whole stream through a real decoder: all its messages, or an error. */
  method DecodeMessages<T>(parse: seq<byte> -> Option<T>, chunks: seq<seq<byte>>, maxFrameLength: nat)
    returns (r: Result<seq<T>, DecodeError>)
    requires maxFrameLength <= MAX_UINT32
    ensures var d := Decoded(parse, chunks, maxFrameLength);
            (r.Ok? <==> d.Ok?) && (r.Ok? ==> r == d)
  {
    hide ParseAll;
    var decoder := new ValidatedMessageDecoder(maxFrameLength, parse);
    var messages: seq<T> := [];
    ghost var payloads: seq<seq<byte>> := [];
    NothingParsed(parse);
    for k := 0 to |chunks|
      invariant decoder.Valid() && fresh(decoder) && fresh(decoder.frames) && fresh(decoder.frames.Repr)
      invariant !decoder.failed && decoder.frames.state == Open && decoder.parse == parse
      invariant decoder.frames.maxFrameLength == maxFrameLength
      invariant Feed(chunks[..k], maxFrameLength) == Reading(payloads, decoder.frames.Pending())
      invariant ParseAll(parse, payloads) == Some(messages)
    {
      assert chunks[..k + 1][..k] == chunks[..k];
      ghost var p := FrameFormat.Parse(decoder.frames.Pending() + chunks[k], maxFrameLength);
      var chunk := new byte[|chunks[k]|](i requires 0 <= i < |chunks[k]| => chunks[k][i]);
      assert chunk[..] == chunks[k];
      var more := decoder.Push(chunk);
      ParseAllAppend(parse, payloads, p.frames);
      if more.Err? {
        FailureStays(parse, chunks, k + 1, maxFrameLength);
        return Err(more.error);
      }
      messages := messages + more.value;
      payloads := payloads + p.frames;
    }
    assert chunks[..|chunks|] == chunks;
    var end := decoder.End();
    r := if end.Ok? then Ok(messages) else Err(end.error);
  }

  lemma {:induction false} NothingParsed<T>(parse: seq<byte> -> Option<T>)
    ensures ParseAll(parse, []) == Some([])
  {
  }

  /** What has failed after some chunks does not recover. */
  lemma {:induction false} FailureStays<T>(parse: seq<byte> -> Option<T>, chunks: seq<seq<byte>>, k: nat, max: nat)
    requires k <= |chunks|
    requires match Feed(chunks[..k], max)
             case Broken(_) => true
             case Reading(frames, _) => ParseAll(parse, frames).None?
    ensures Decoded(parse, chunks, max).Err?
    decreases |chunks| - k
  {
    hide ParseAll;
    if k < |chunks| {
      assert chunks[..k + 1][..k] == chunks[..k];
      match Feed(chunks[..k], max) {
        case Broken(_) =>
        case Reading(frames, pending) =>
          ParseAllAppend(parse, frames, FrameFormat.Parse(pending + chunks[k], max).frames);
      }
      FailureStays(parse, chunks, k + 1, max);
    } else {
      assert chunks[..k] == chunks;
    }
  }
}
