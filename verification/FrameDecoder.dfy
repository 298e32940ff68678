/**
 packages/protocol/src/framing.ts: encodeFrame, assertCompleteFrame and the incremental
 FrameDecoder, on real arrays. A thrown FrameError or RangeError is an Err result.
 */
module Framing {
  import opened Wrappers
  import opened FrameFormat

  const PAYLOAD_BLOCK_SIZE: nat := 0x1_0000
  const DEFAULT_MAX_FRAME_LENGTH: nat := 0x100_0000

  datatype FrameError = TooLong | Truncated | NotOneFrame | HasEnded | HasFailed | BadLimit

  function ResolveMaxFrameLength(option: Option<int>): (r: Result<nat, FrameError>)
    ensures r.Ok? <==> 0 <= option.GetOr(DEFAULT_MAX_FRAME_LENGTH) <= MAX_UINT32
    ensures r.Ok? ==> r.value == option.GetOr(DEFAULT_MAX_FRAME_LENGTH) <= MAX_UINT32
    ensures r.Err? ==> r.error == BadLimit
  {
    var value := option.GetOr(DEFAULT_MAX_FRAME_LENGTH);
    if value < 0 || value > MAX_UINT32 then Err(BadLimit) else Ok(value)
  }

  /** `dst.set(src.subarray(from, from + n), at)`. */
  method CopyInto(dst: array<byte>, at: nat, src: array<byte>, from: nat, n: nat)
    requires dst != src && at + n <= dst.Length && from + n <= src.Length
    modifies dst
    ensures dst[..] == old(dst[..at]) + src[from..from + n] + old(dst[at + n..])
  {
    forall i | 0 <= i < n {
      dst[at + i] := src[from + i];
    }
  }

  method EncodeFrame(payload: array<byte>) returns (r: Result<array<byte>, FrameError>)
    ensures r.Ok? <==> payload.Length <= MAX_UINT32
    ensures r.Ok? ==> fresh(r.value) && r.value[..] == Frame(payload[..])
  {
    if payload.Length > MAX_UINT32 {
      return Err(BadLimit);
    }
    var length := payload.Length;
    var frame := new byte[HEADER_LENGTH + length](_ => 0);
    frame[0] := (length / 0x100_0000) % 256;
    frame[1] := (length / 0x1_0000) % 256;
    frame[2] := (length / 0x100) % 256;
    frame[3] := length % 256;
    assert frame[..HEADER_LENGTH] == Header(length);
    CopyInto(frame, HEADER_LENGTH, payload, 0, length);
    assert payload[0..length] == payload[..];
    return Ok(frame);
  }

  /** Accepts exactly the frames of payloads within the limit. */
  method AssertCompleteFrame(frame: array<byte>, option: Option<int>) returns (r: Result<(), FrameError>)
    ensures r.Ok? <==>
              var max := ResolveMaxFrameLength(option);
              max.Ok? && exists p: seq<byte> :: |p| <= max.value && frame[..] == Frame(p)
  {
    var max := ResolveMaxFrameLength(option);
    if max.Ok? {
      CompleteFrames(frame[..], max.value);
      assert frame.Length >= HEADER_LENGTH ==> frame[..][..HEADER_LENGTH] == frame[..HEADER_LENGTH];
    }
    if frame.Length < HEADER_LENGTH {
      return Err(NotOneFrame);
    }
    var length := HeaderValue(frame[..HEADER_LENGTH]);
    if max.Err? {
      return Err(BadLimit);
    }
    if length > max.value {
      return Err(TooLong);
    }
    if frame.Length != HEADER_LENGTH + length {
      return Err(NotOneFrame);
    }
    return Ok(());
  }

  datatype DecoderState = Open | Ended | Failed

  ghost function Allocated(blocks: seq<array<byte>>): nat {
    if blocks == [] then 0 else Allocated(blocks[..|blocks| - 1]) + blocks[|blocks| - 1].Length
  }

  ghost function Bytes(blocks: seq<array<byte>>): seq<byte>
    reads blocks
  {
    if blocks == [] then [] else Bytes(blocks[..|blocks| - 1]) + blocks[|blocks| - 1][..]
  }

  /** All blocks but the last are full ones, and none of them is the last one. */
  ghost predicate FullBlocks(blocks: seq<array<byte>>) {
    forall i | 0 <= i < |blocks| - 1 ::
      blocks[i].Length == PAYLOAD_BLOCK_SIZE && blocks[i] != blocks[|blocks| - 1]
  }

  /** The blocks hold `received`, the last of them up to `filled`; it is a full block too
      unless fewer bytes than that are still announced. */
  ghost predicate Fills(blocks: seq<array<byte>>, filled: nat, received: seq<byte>, n: nat)
    requires blocks != []
    reads blocks
  {
    var k := |blocks| - 1;
    var before := PAYLOAD_BLOCK_SIZE * k;
    && FullBlocks(blocks)
    && before < n
    && blocks[k].Length == Min(PAYLOAD_BLOCK_SIZE, n - before)
    && filled <= blocks[k].Length
    && |received| == before + filled
    && received == Bytes(blocks[..k]) + blocks[k][..filled]
  }

  lemma {:induction false} OneMoreBlock(blocks: seq<array<byte>>, block: array<byte>, received: seq<byte>, n: nat)
    requires block !in blocks && |received| == PAYLOAD_BLOCK_SIZE * |blocks| < n && received == Bytes(blocks)
    requires block.Length == Min(PAYLOAD_BLOCK_SIZE, n - |received|)
    requires forall i | 0 <= i < |blocks| :: blocks[i].Length == PAYLOAD_BLOCK_SIZE
    ensures Fills(blocks + [block], 0, received, n)
  {
    assert (blocks + [block])[..|blocks|] == blocks;
    assert block[..0] == [];
  }

  class FrameDecoder {
    const header: array<byte>
    var headerLength: nat
    const maxFrameLength: nat
    var payloadBlocks: seq<array<byte>>
    var currentPayloadBlock: array?<byte>
    var currentPayloadBlockLength: nat
    var expectedPayloadLength: Option<nat>
    var payloadLength: nat
    var state: DecoderState

    /** The objects of the decoder. */
    ghost var Repr: set<object>
    /** The payload bytes received so far of the frame being read. */
    ghost var Received: seq<byte>

    /** What holds between the steps of one push. */
    ghost predicate Wellformed()
      reads this, Repr
    {
      && this in Repr && header in Repr && header.Length == HEADER_LENGTH
      && headerLength < HEADER_LENGTH
      && maxFrameLength <= MAX_UINT32
      && (state != Open ==> headerLength == 0 && expectedPayloadLength.None?)
      && (expectedPayloadLength.Some? ==> headerLength == 0)
      && (forall i | 0 <= i < |payloadBlocks| :: payloadBlocks[i] in Repr && payloadBlocks[i] != header)
      && ValidPayload()
    }

    /** What holds between pushes: the frame being read, if any, is incomplete, and its
        last block holds at least one byte. */
    ghost predicate Valid()
      reads this, Repr
    {
      && Wellformed()
      && (expectedPayloadLength.Some? ==> |Received| < expectedPayloadLength.value)
      && (payloadBlocks != [] ==> 0 < currentPayloadBlockLength)
    }

    /** The block discipline: blocks are full up to the one being filled, which is never
        longer than what is still announced, and their filled prefix is what was received. */
    ghost predicate ValidPayload()
      reads this, payloadBlocks
    {
      && payloadLength == |Received|
      && (payloadBlocks == [] ==>
            currentPayloadBlock == null && currentPayloadBlockLength == 0 && Received == [])
      && match expectedPayloadLength
         case None => payloadBlocks == []
         case Some(n) =>
           && 0 < n <= maxFrameLength
           && (payloadBlocks != [] ==> FillsLast(n))
    }

    ghost predicate FillsLast(n: nat)
      requires payloadBlocks != []
      reads this, payloadBlocks
    {
      && currentPayloadBlock == payloadBlocks[|payloadBlocks| - 1]
      && Fills(payloadBlocks, currentPayloadBlockLength, Received, n)
    }

    /** The bytes of the incomplete frame being read, as they came off the wire. */
    ghost function Pending(): seq<byte>
      requires Wellformed()
      reads this, Repr
    {
      match expectedPayloadLength
      case None => header[..headerLength]
      case Some(n) => Header(n) + Received
    }

    constructor (maxFrameLength: nat)
      requires maxFrameLength <= MAX_UINT32
      ensures Valid() && fresh(Repr)
      ensures this.maxFrameLength == maxFrameLength && state == Open && Pending() == []
    {
      header := new byte[HEADER_LENGTH](_ => 0);
      headerLength := 0;
      this.maxFrameLength := maxFrameLength;
      payloadBlocks := [];
      currentPayloadBlock := null;
      currentPayloadBlockLength := 0;
      expectedPayloadLength := None;
      payloadLength := 0;
      state := Open;
      Received := [];
      Repr := {this, header};
    }

    /** Reads header bytes; answers the announced length once all four are there. */
    method ReadHeader(chunk: array<byte>, chunkOffset: nat) returns (headerBytes: nat, length: Option<nat>)
      requires Wellformed() && state == Open && expectedPayloadLength.None?
      requires chunkOffset < chunk.Length && chunk != header
      modifies this`headerLength, header
      ensures Wellformed() && 0 < headerBytes && chunkOffset + headerBytes <= chunk.Length
      ensures var s := old(Pending()) + chunk[chunkOffset..chunkOffset + headerBytes];
              match length
              case None => Pending() == s
              case Some(n) => Header(n) == s && headerLength == 0 && n <= MAX_UINT32
    {
      headerBytes := Min(HEADER_LENGTH - headerLength, chunk.Length - chunkOffset);
      ghost var s := Pending() + chunk[chunkOffset..chunkOffset + headerBytes];
      CopyInto(header, headerLength, chunk, chunkOffset, headerBytes);
      headerLength := headerLength + headerBytes;
      assert header[..headerLength] == s;
      if headerLength < HEADER_LENGTH {
        return headerBytes, None;
      }
      assert header[..] == s;
      length := Some(HeaderValue(header[..]));
      HeaderBijection(0, header[..]);
      headerLength := 0;
    }

    /** Makes room in the current block, allocating the next one when it is full. */
    method GrowBlock()
      requires Wellformed() && expectedPayloadLength.Some? && |Received| < expectedPayloadLength.value
      modifies this`payloadBlocks, this`currentPayloadBlock, this`currentPayloadBlockLength, this`Repr
      ensures Wellformed() && fresh(Repr - old(Repr))
      ensures payloadBlocks != [] && currentPayloadBlockLength < currentPayloadBlock.Length
    {
      if currentPayloadBlock == null || currentPayloadBlockLength == currentPayloadBlock.Length {
        ghost var k := |payloadBlocks|;
        AllBytes(payloadBlocks);
        assert |Received| == PAYLOAD_BLOCK_SIZE * k && Received == Bytes(payloadBlocks);
        var block := new byte[Min(PAYLOAD_BLOCK_SIZE, expectedPayloadLength.value - payloadLength)](_ => 0);
        AppendBlock(block);
      }
    }

    method AppendBlock(block: array<byte>)
      requires Wellformed() && expectedPayloadLength.Some? && |Received| < expectedPayloadLength.value
      requires block !in Repr && block.Length == Min(PAYLOAD_BLOCK_SIZE, expectedPayloadLength.value - |Received|)
      requires |Received| == PAYLOAD_BLOCK_SIZE * |payloadBlocks| && Received == Bytes(payloadBlocks)
      requires forall i | 0 <= i < |payloadBlocks| :: payloadBlocks[i].Length == PAYLOAD_BLOCK_SIZE
      modifies this`payloadBlocks, this`currentPayloadBlock, this`currentPayloadBlockLength, this`Repr
      ensures Wellformed() && Repr == old(Repr) + {block}
      ensures payloadBlocks == old(payloadBlocks) + [block] && currentPayloadBlock == block
      ensures currentPayloadBlockLength == 0
    {
      OneMoreBlock(payloadBlocks, block, Received, expectedPayloadLength.value);
      payloadBlocks := payloadBlocks + [block];
      currentPayloadBlock := block;
      currentPayloadBlockLength := 0;
      Repr := Repr + {block};
      assert FillsLast(expectedPayloadLength.value);
    }

    /** Copies as many payload bytes as the current block and the chunk allow. */
    method FillBlock(chunk: array<byte>, chunkOffset: nat, ghost bytes: seq<byte>) returns (payloadBytes: nat)
      requires Wellformed() && expectedPayloadLength.Some? && payloadBlocks != []
      requires currentPayloadBlockLength < currentPayloadBlock.Length
      requires chunkOffset < chunk.Length && chunk !in Repr && chunk[..] == bytes
      modifies this`currentPayloadBlockLength, this`payloadLength, this`Received, currentPayloadBlock
      ensures Wellformed() && 0 < payloadBytes && chunkOffset + payloadBytes <= chunk.Length
      ensures 0 < currentPayloadBlockLength
      ensures chunk[..] == bytes && Received == old(Received) + bytes[chunkOffset..chunkOffset + payloadBytes]
    {
      var block := currentPayloadBlock;
      payloadBytes := Min(block.Length - currentPayloadBlockLength, chunk.Length - chunkOffset);
      CopyInto(block, currentPayloadBlockLength, chunk, chunkOffset, payloadBytes);
      assert chunk[chunkOffset..chunkOffset + payloadBytes] == bytes[chunkOffset..chunkOffset + payloadBytes];
      Received := Received + bytes[chunkOffset..chunkOffset + payloadBytes];
      currentPayloadBlockLength := currentPayloadBlockLength + payloadBytes;
      payloadLength := payloadLength + payloadBytes;
      assert block[..currentPayloadBlockLength] ==
             old(block[..currentPayloadBlockLength]) + bytes[chunkOffset..chunkOffset + payloadBytes];
    }

    /** One pass of the inner loop. */
    method ReadBlock(chunk: array<byte>, chunkOffset: nat, ghost bytes: seq<byte>, ghost before: seq<byte>,
                     ghost start: nat)
      returns (payloadBytes: nat)
      requires Wellformed() && expectedPayloadLength.Some? && |Received| < expectedPayloadLength.value
      requires start <= chunkOffset < chunk.Length && chunk !in Repr && chunk[..] == bytes
      requires Received == before + bytes[start..chunkOffset]
      modifies Repr
      ensures Wellformed() && fresh(Repr - old(Repr)) && chunk !in Repr && unchanged(header)
      ensures state == old(state) && expectedPayloadLength == old(expectedPayloadLength)
      ensures 0 < currentPayloadBlockLength
      ensures 0 < payloadBytes && chunkOffset + payloadBytes <= chunk.Length
      ensures chunk[..] == bytes && Received == before + bytes[start..chunkOffset + payloadBytes]
    {
      GrowBlock();
      payloadBytes := FillBlock(chunk, chunkOffset, bytes);
      ExtendSlice(before, bytes, start, chunkOffset, chunkOffset + payloadBytes);
    }

    /** The inner loop: payload bytes until the chunk or the frame ends. */
    method ReadPayload(chunk: array<byte>, start: nat, ghost bytes: seq<byte>) returns (chunkOffset: nat)
      requires Wellformed() && state == Open && expectedPayloadLength.Some?
      requires payloadBlocks != [] ==> 0 < currentPayloadBlockLength
      requires start <= chunk.Length && chunk !in Repr && chunk[..] == bytes
      modifies Repr
      ensures Wellformed() && fresh(Repr - old(Repr)) && chunk !in Repr && unchanged(header)
      ensures state == Open && expectedPayloadLength == old(expectedPayloadLength)
      ensures payloadBlocks != [] ==> 0 < currentPayloadBlockLength
      ensures start <= chunkOffset <= chunk.Length
      ensures chunkOffset == chunk.Length || |Received| == expectedPayloadLength.value
      ensures chunk[..] == bytes && Received == old(Received) + bytes[start..chunkOffset]
    {
      chunkOffset := start;
      ghost var received := Received;
      while chunkOffset < chunk.Length && payloadLength < expectedPayloadLength.value
        invariant Wellformed() && fresh(Repr - old(Repr)) && chunk !in Repr && unchanged(header)
        invariant state == Open && expectedPayloadLength == old(expectedPayloadLength)
        invariant payloadBlocks != [] ==> 0 < currentPayloadBlockLength
        invariant start <= chunkOffset <= chunk.Length && chunk[..] == bytes
        invariant Received == received + bytes[start..chunkOffset]
      {
        var payloadBytes := ReadBlock(chunk, chunkOffset, bytes, received, start);
        chunkOffset := chunkOffset + payloadBytes;
      }
    }

    /** Hands over the finished payload and gets ready for the next header. */
    method TakePayload() returns (frame: array<byte>)
      requires Wellformed() && state == Open && expectedPayloadLength == Some(|Received|)
      modifies this
      ensures Valid() && Repr == {this, header}
      ensures state == Open && expectedPayloadLength.None? && headerLength == 0
      ensures frame[..] == old(Received)
      ensures frame !in Repr && (frame in old(Repr) || fresh(frame))
    {
      AllBytes(payloadBlocks);
      assert Received == Bytes(payloadBlocks);
      if |payloadBlocks| == 1 {
        frame := payloadBlocks[0];
        assert payloadBlocks == [frame];
        assert frame[..] == Bytes([]) + frame[..];
      } else {
        frame := ConcatBlocks(payloadBlocks, expectedPayloadLength.value);
      }
      payloadBlocks := [];
      currentPayloadBlock := null;
      currentPayloadBlockLength := 0;
      expectedPayloadLength := None;
      payloadLength := 0;
      Received := [];
      Repr := {this, header};
    }

    method Fail(error: FrameError) returns (r: FrameError)
      requires Wellformed()
      modifies this
      ensures Valid() && Repr == {this, header} && state == Failed && Pending() == [] && r == error
    {
      state := Failed;
      headerLength := 0;
      payloadBlocks := [];
      currentPayloadBlock := null;
      currentPayloadBlockLength := 0;
      expectedPayloadLength := None;
      payloadLength := 0;
      Received := [];
      Repr := {this, header};
      r := error;
    }

    /** What a complete header starts: a failure, an empty frame, or a payload. */
    method AcceptHeader(frameLength: nat, ghost s: seq<byte>) returns (r: Result<Option<array<byte>>, FrameError>)
      requires Valid() && state == Open && expectedPayloadLength.None? && headerLength == 0
      requires frameLength <= MAX_UINT32 && s == Header(frameLength)
      modifies this
      ensures Valid() && Repr <= old(Repr)
      ensures r.Ok? && r.value.Some? ==> fresh(r.value.value) && expectedPayloadLength.None?
      ensures Passed(s, r)
    {
      HeaderIsPartial(frameLength, maxFrameLength);
      if frameLength > maxFrameLength {
        var error := Fail(TooLong);
        return Err(error);
      }
      if frameLength == 0 {
        var empty := new byte[0];
        assert empty[..] == [] && Pending() == [];
        return Ok(Some(empty));
      }
      expectedPayloadLength := Some(frameLength);
      payloadBlocks := [];
      currentPayloadBlock := null;
      currentPayloadBlockLength := 0;
      payloadLength := 0;
      assert Pending() == s;
      r := Ok(None);
    }

    /** The header part of one pass of the outer loop. */
    method PushHeader(chunk: array<byte>, chunkOffset: nat, ghost bytes: seq<byte>)
      returns (headerBytes: nat, r: Result<Option<array<byte>>, FrameError>)
      requires Valid() && state == Open && expectedPayloadLength.None?
      requires chunkOffset < chunk.Length && chunk !in Repr && chunk[..] == bytes
      modifies Repr
      ensures Valid() && Repr <= old(Repr) && chunk[..] == bytes
      ensures 0 < headerBytes && chunkOffset + headerBytes <= chunk.Length
      ensures r.Ok? && r.value.Some? ==> fresh(r.value.value) && expectedPayloadLength.None?
      ensures Passed(old(Pending()) + bytes[chunkOffset..chunkOffset + headerBytes], r)
    {
      ghost var s := Pending();
      var length;
      headerBytes, length := ReadHeader(chunk, chunkOffset);
      s := s + bytes[chunkOffset..chunkOffset + headerBytes];
      assert chunk[chunkOffset..chunkOffset + headerBytes] == bytes[chunkOffset..chunkOffset + headerBytes];
      match length {
        case None =>
          r := Ok(None);
        case Some(frameLength) =>
          r := AcceptHeader(frameLength, s);
      }
    }

    /** The payload part of one pass of the outer loop. */
    method PushPayload(chunk: array<byte>, start: nat, ghost bytes: seq<byte>)
      returns (chunkOffset: nat, r: Result<Option<array<byte>>, FrameError>)
      requires Valid() && state == Open && expectedPayloadLength.Some?
      requires start <= chunk.Length && chunk !in Repr && chunk[..] == bytes
      modifies Repr
      ensures Valid() && fresh(Repr - old(Repr)) && chunk !in Repr && chunk[..] == bytes
      ensures start <= chunkOffset <= chunk.Length
      ensures start < chunk.Length ==> start < chunkOffset
      ensures r.Ok? && (r.value.Some? ==> r.value.value !in Repr)
      ensures r.value.Some? ==> r.value.value in old(Repr) || fresh(r.value.value)
      ensures Passed(old(Pending()) + bytes[start..chunkOffset], r)
    {
      ghost var n, received := expectedPayloadLength.value, Received;
      chunkOffset := ReadPayload(chunk, start, bytes);
      ghost var s := Header(n) + Received;
      assert Header(n) + received + bytes[start..chunkOffset] == s;
      HeaderAndPayload(n, Received, maxFrameLength);
      if payloadLength == expectedPayloadLength.value {
        var frame := TakePayload();
        assert Pending() == [];
        r := Ok(Some(frame));
      } else {
        r := Ok(None);
      }
    }

    /** What one pass over the bytes `s` of an incomplete frame must lead to. */
    ghost predicate Passed(s: seq<byte>, r: Result<Option<array<byte>>, FrameError>)
      requires Wellformed()
      reads this, Repr, match r { case Ok(Some(frame)) => {frame as object} case _ => {} }
    {
      var p := Parse(s, maxFrameLength);
      match r
      case Err(e) => e == TooLong && state == Failed && Pending() == [] && p.frames == [] && p.oversized
      case Ok(None) => state == Open && Pending() == s && p == Parsed([], s, false)
      case Ok(Some(frame)) => state == Open && p == Parsed([frame[..]], Pending(), false)
    }

    /** One pass of the outer loop. */
    method PushSome(chunk: array<byte>, start: nat, ghost bytes: seq<byte>)
      returns (chunkOffset: nat, r: Result<Option<array<byte>>, FrameError>)
      requires Valid() && state == Open
      requires start < chunk.Length && chunk !in Repr && chunk[..] == bytes
      modifies Repr
      ensures Valid() && fresh(Repr - old(Repr)) && chunk !in Repr && chunk[..] == bytes
      ensures start < chunkOffset <= chunk.Length
      ensures r.Ok? && r.value.Some? ==>
                r.value.value !in Repr && (r.value.value in old(Repr) || fresh(r.value.value))
      ensures Passed(old(Pending()) + bytes[start..chunkOffset], r)
    {
      hide Fills, FullBlocks, Bytes, Parse, Header;
      chunkOffset := start;
      ghost var pending := Pending();
      assert pending + bytes[start..start] == pending;
      if expectedPayloadLength.None? {
        var headerBytes;
        headerBytes, r := PushHeader(chunk, start, bytes);
        chunkOffset := start + headerBytes;
        if expectedPayloadLength.None? {
          return;
        }
      }
      var middle := chunkOffset;
      ghost var s := Pending();
      assert s == pending + bytes[start..middle];
      chunkOffset, r := PushPayload(chunk, middle, bytes);
      ExtendSlice(pending, bytes, start, middle, chunkOffset);
      assert s + bytes[middle..chunkOffset] == pending + bytes[start..chunkOffset];
    }

    /** One pass, its frame collected behind the `frames` of the passes before it.
        `pending + bytes[..start]` are the bytes those passes have read. */
    method PushAndCollect(chunk: array<byte>, start: nat, frames: seq<array<byte>>, ghost bytes: seq<byte>,
                          ghost pending: seq<byte>, ghost payloads: seq<seq<byte>>)
      returns (chunkOffset: nat, r: Result<seq<array<byte>>, FrameError>, ghost payloads': seq<seq<byte>>)
      requires Valid() && state == Open
      requires start < chunk.Length && chunk !in Repr && chunk[..] == bytes
      requires Hold(frames, payloads) && Separate(frames, Repr + {chunk})
      requires Reached(pending + bytes[..start], payloads)
      modifies Repr
      ensures Valid() && fresh(Repr - old(Repr)) && chunk !in Repr && chunk[..] == bytes
      ensures start < chunkOffset <= chunk.Length
      ensures r.Err? ==> r.error == TooLong && state == Failed && Pending() == []
      ensures r.Err? ==> Parse(pending + bytes, maxFrameLength).oversized
      ensures r.Ok? ==> state == Open && Hold(r.value, payloads') && Separate(r.value, Repr + {chunk})
      ensures r.Ok? ==> Reached(pending + bytes[..chunkOffset], payloads')
    {
      ghost var before := Pending();
      var pass;
      chunkOffset, pass := PushSome(chunk, start, bytes);
      ReachMore(pending, bytes, start, chunkOffset, payloads, before, maxFrameLength);
      payloads' := payloads;
      match pass {
        case Err(e) =>
          r := Err(e);
        case Ok(None) =>
          r := Ok(frames);
        case Ok(Some(frame)) =>
          payloads' := payloads + [frame[..]];
          r := Ok(frames + [frame]);
      }
    }

    /** The frames the chunk completes, each in an array of its own that the decoder no
        longer holds; or the failure of the first header over the limit, which loses the
        frames completed before it in the same chunk. */
    method Push(chunk: array<byte>) returns (r: Result<seq<array<byte>>, FrameError>)
      requires Valid() && chunk !in Repr
      modifies Repr
      ensures Valid() && fresh(Repr - old(Repr)) && chunk !in Repr && chunk[..] == old(chunk[..])
      ensures old(state) == Ended ==> r == Err(HasEnded) && state == Ended && Pending() == old(Pending())
      ensures old(state) == Failed ==> r == Err(HasFailed) && state == Failed && Pending() == old(Pending())
      ensures old(state) == Open ==> Pushed(Parse(old(Pending()) + chunk[..], maxFrameLength), r)
      ensures r.Ok? ==> Separate(r.value, Repr + {chunk})
    {
      if state == Ended {
        return Err(HasEnded);
      }
      if state == Failed {
        return Err(HasFailed);
      }
      var frames: seq<array<byte>> := [];
      var chunkOffset := 0;
      ghost var pending, bytes := Pending(), chunk[..];
      ghost var payloads: seq<seq<byte>> := [];
      PendingIsPartial();
      assert pending + bytes[..0] == pending;
      while chunkOffset < chunk.Length
        invariant Valid() && state == Open && fresh(Repr - old(Repr)) && chunk !in Repr && chunk[..] == bytes
        invariant chunkOffset <= chunk.Length
        invariant Hold(frames, payloads) && Separate(frames, Repr + {chunk})
        invariant Reached(pending + bytes[..chunkOffset], payloads)
      {
        var pass;
        chunkOffset, pass, payloads := PushAndCollect(chunk, chunkOffset, frames, bytes, pending, payloads);
        if pass.Err? {
          return pass;
        }
        frames := pass.value;
      }
      assert pending + bytes[..chunk.Length] == pending + bytes;
      return Ok(frames);
    }

    /** What a push leads to when the stream up to its end reads as `p`. */
    ghost predicate Pushed(p: Parsed, r: Result<seq<array<byte>>, FrameError>)
      requires Valid()
      reads this, Repr, if r.Ok? then r.value else []
    {
      match r
      case Err(e) => p.oversized && e == TooLong && state == Failed && Pending() == []
      case Ok(frames) => !p.oversized && Hold(frames, p.frames) && state == Open && Pending() == p.rest
    }

    /** Succeeds exactly between frames; afterwards the decoder is closed or failed. */
    method End() returns (r: Result<(), FrameError>)
      requires Valid()
      modifies this
      ensures Valid() && Repr <= old(Repr)
      ensures old(state) == Ended ==> r == Err(HasEnded) && state == Ended
      ensures old(state) == Failed ==> r == Err(HasFailed) && state == Failed
      ensures old(state) == Open ==>
                if old(Pending()) == [] then r == Ok(()) && state == Ended else r == Err(Truncated) && state == Failed
    {
      if state == Ended {
        return Err(HasEnded);
      }
      if state == Failed {
        return Err(HasFailed);
      }
      if headerLength != 0 || expectedPayloadLength.Some? {
        var error := Fail(Truncated);
        return Err(error);
      }
      state := Ended;
      return Ok(());
    }

    lemma PendingIsPartial()
      requires Valid()
      ensures Parse(Pending(), maxFrameLength) == Parsed([], Pending(), false)
    {
      if expectedPayloadLength.Some? {
        HeaderAndPayload(expectedPayloadLength.value, Received, maxFrameLength);
      }
    }

    /** The payloads and the incomplete frame that the bytes `s` have led to. */
    ghost predicate Reached(s: seq<byte>, payloads: seq<seq<byte>>)
      requires Valid()
      reads this, Repr
    {
      Parse(s, maxFrameLength) == Parsed(payloads, Pending(), false)
    }
  }

  /** Extends what a stream is known to say by the bytes of one more pass. */
  lemma {:induction false} ReachMore(pending: seq<byte>, bytes: seq<byte>, a: nat, b: nat,
                  payloads: seq<seq<byte>>, before: seq<byte>, max: nat)
    requires a <= b <= |bytes|
    requires Parse(pending + bytes[..a], max) == Parsed(payloads, before, false)
    ensures var q := Parse(before + bytes[a..b], max);
            && Parse(pending + bytes[..b], max) == Parsed(payloads + q.frames, q.rest, q.oversized)
            && (q.oversized ==> Parse(pending + bytes, max).oversized)
  {
    Slices(pending, bytes, a, b);
    ReadOn(pending + bytes[..a], bytes[a..b], bytes[b..], payloads, before, max);
  }

  lemma {:induction false} ReadOn(s: seq<byte>, more: seq<byte>, tail: seq<byte>, payloads: seq<seq<byte>>,
                                  before: seq<byte>, max: nat)
    requires Parse(s, max) == Parsed(payloads, before, false)
    ensures var q := Parse(before + more, max);
            && Parse(s + more, max) == Parsed(payloads + q.frames, q.rest, q.oversized)
            && (q.oversized ==> Parse(s + more + tail, max).oversized)
  {
    ParseAppend(s, more, max);
    ParseAppend(s + more, tail, max);
  }

  lemma {:induction false} Slices(pending: seq<byte>, bytes: seq<byte>, a: nat, b: nat)
    requires a <= b <= |bytes|
    ensures pending + bytes[..a] + bytes[a..b] == pending + bytes[..b]
    ensures pending + bytes[..b] + bytes[b..] == pending + bytes
  {
  }

  ghost predicate Hold(frames: seq<array<byte>>, payloads: seq<seq<byte>>)
    reads frames
  {
    |frames| == |payloads| && forall i | 0 <= i < |frames| :: frames[i][..] == payloads[i]
  }

  /** No two frames share an array, and none is among `others`. */
  ghost predicate Separate(frames: seq<array<byte>>, others: set<object>) {
    && (forall i | 0 <= i < |frames| :: frames[i] !in others)
    && (forall i, j | 0 <= i < j < |frames| :: frames[i] != frames[j])
  }

  /** A complete header alone: oversized, or an empty frame, or the start of one. */
  lemma {:induction false} HeaderIsPartial(n: nat, max: nat)
    requires n <= MAX_UINT32
    ensures Parse(Header(n), max) ==
            if n > max then Parsed([], Header(n), true)
            else if n == 0 then Parsed([[]], [], false)
            else Parsed([], Header(n), false)
  {
    ValueOfHeader(n);
    assert Header(n)[..HEADER_LENGTH] == Header(n);
    if n == 0 {
      assert Parse([], max) == Parsed([], [], false);
      assert FrontOf(Header(n), max) == Whole([], []);
    }
  }

  /** A header and the payload bytes after it: a frame once they are all there. */
  lemma {:induction false} HeaderAndPayload(n: nat, received: seq<byte>, max: nat)
    requires 0 < n <= max <= MAX_UINT32 && |received| <= n
    ensures var s := Header(n) + received;
            Parse(s, max) ==
            if |received| == n then Parsed([received], [], false) else Parsed([], s, false)
  {
    var s := Header(n) + received;
    ValueOfHeader(n);
    assert s[..HEADER_LENGTH] == Header(n);
    if |received| == n {
      assert Parse([], max) == Parsed([], [], false);
      assert s[HEADER_LENGTH..HEADER_LENGTH + n] == received && s[HEADER_LENGTH + n..] == [];
      assert FrontOf(s, max) == Whole(received, []);
    }
  }

  /** Copies the blocks one after the other into one array. */
  method ConcatBlocks(blocks: seq<array<byte>>, length: nat) returns (payload: array<byte>)
    requires length == |Bytes(blocks)|
    ensures fresh(payload) && payload[..] == Bytes(blocks)
  {
    hide Bytes;
    payload := new byte[length](_ => 0);
    var offset := 0;
    NoBytes(blocks);
    for i := 0 to |blocks|
      invariant offset == |Bytes(blocks[..i])| <= length
      invariant payload[..offset] == Bytes(blocks[..i])
    {
      BytesSnoc(blocks, i);
      CopyInto(payload, offset, blocks[i], 0, blocks[i].Length);
      assert blocks[i][0..blocks[i].Length] == blocks[i][..];
      offset := offset + blocks[i].Length;
    }
    assert blocks[..|blocks|] == blocks;
  }

  lemma {:induction false} NoBytes(blocks: seq<array<byte>>)
    ensures Bytes(blocks[..0]) == []
  {
  }

  lemma {:induction false} BytesSnoc(blocks: seq<array<byte>>, i: nat)
    requires i < |blocks|
    ensures Bytes(blocks[..i + 1]) == Bytes(blocks[..i]) + blocks[i][..]
    ensures |Bytes(blocks[..i])| + blocks[i].Length <= |Bytes(blocks)|
    decreases |blocks| - i
  {
    assert blocks[..i + 1][..i] == blocks[..i];
    if i + 1 < |blocks| {
      BytesSnoc(blocks, i + 1);
    } else {
      assert blocks[..i + 1] == blocks;
    }
  }

  lemma {:induction false} AllBytes(blocks: seq<array<byte>>)
    ensures blocks != [] ==>
              var last := blocks[|blocks| - 1];
              Bytes(blocks) == Bytes(blocks[..|blocks| - 1]) + last[..last.Length]
  {
    if blocks != [] {
      var last := blocks[|blocks| - 1];
      assert last[..last.Length] == last[..];
    }
  }

  lemma {:induction false} ExtendSlice(prefix: seq<byte>, s: seq<byte>, a: nat, b: nat, c: nat)
    requires a <= b <= c <= |s|
    ensures prefix + s[a..b] + s[b..c] == prefix + s[a..c]
  {
    assert s[a..c] == s[a..b] + s[b..c];
  }

  function Min(a: int, b: int): int { if a <= b then a else b }

  /** An announced length never makes the decoder allocate ahead of the data: never more
      than the frame needs, and never a whole block more than has arrived. */
  lemma {:induction false} AllocationFollowsData(decoder: FrameDecoder)
    requires decoder.Valid() && decoder.expectedPayloadLength.Some?
    ensures Allocated(decoder.payloadBlocks) <= decoder.expectedPayloadLength.value
    ensures Allocated(decoder.payloadBlocks) < |decoder.Received| + PAYLOAD_BLOCK_SIZE
  {
    if decoder.payloadBlocks != [] {
      AllocatedFull(decoder.payloadBlocks, |decoder.payloadBlocks| - 1);
    }
  }

  lemma {:induction false} AllocatedFull(blocks: seq<array<byte>>, k: nat)
    requires k <= |blocks| && forall i | 0 <= i < k :: blocks[i].Length == PAYLOAD_BLOCK_SIZE
    ensures Allocated(blocks[..k]) == PAYLOAD_BLOCK_SIZE * k
  {
    if k > 0 {
      AllocatedFull(blocks, k - 1);
      assert blocks[..k][..k - 1] == blocks[..k - 1];
    }
  }

  function Contents(frames: seq<array<byte>>): (payloads: seq<seq<byte>>)
    reads frames
    ensures Hold(frames, payloads)
  {
    seq(|frames|, i requires 0 <= i < |frames| reads frames => frames[i][..])
  }

  /** One chunk, and the payloads it completes read out. */
  method PushChunk(decoder: FrameDecoder, bytes: seq<byte>) returns (r: Result<seq<seq<byte>>, FrameError>)
    requires decoder.Valid() && decoder.state == Open
    modifies decoder.Repr
    ensures decoder.Valid() && fresh(decoder.Repr - old(decoder.Repr))
    ensures var p := Parse(old(decoder.Pending()) + bytes, decoder.maxFrameLength);
            if p.oversized then r == Err(TooLong)
            else r == Ok(p.frames) && decoder.state == Open && decoder.Pending() == p.rest
  {
    var chunk := new byte[|bytes|](i requires 0 <= i < |bytes| => bytes[i]);
    assert chunk[..] == bytes;
    ghost var pending := decoder.Pending();
    var frames := decoder.Push(chunk);
    match frames {
      case Err(e) =>
        r := Err(e);
      case Ok(arrays) =>
        assert Contents(arrays) == Parse(pending + bytes, decoder.maxFrameLength).frames;
        r := Ok(Contents(arrays));
    }
  }

  /** A whole stream through a real decoder: one push per chunk, then the end. */
  method DecodeStream(chunks: seq<seq<byte>>, option: Option<int>) returns (r: Result<seq<seq<byte>>, FrameError>)
    ensures var max := ResolveMaxFrameLength(option);
            if max.Err? then r == Err(BadLimit)
            else match Feed(chunks, max.value)
                 case Broken(_) => r == Err(TooLong)
                 case Reading(frames, pending) => r == if pending == [] then Ok(frames) else Err(Truncated)
  {
    var max := ResolveMaxFrameLength(option);
    if max.Err? {
      return Err(BadLimit);
    }
    var decoder := new FrameDecoder(max.value);
    var payloads: seq<seq<byte>> := [];
    for k := 0 to |chunks|
      invariant decoder.Valid() && fresh(decoder.Repr) && decoder.state == Open
      invariant decoder.maxFrameLength == max.value
      invariant Feed(chunks[..k], max.value) == Reading(payloads, decoder.Pending())
    {
      assert chunks[..k + 1][..k] == chunks[..k];
      var frames := PushChunk(decoder, chunks[k]);
      if frames.Err? {
        BrokenStays(chunks, k + 1, max.value);
        return Err(frames.error);
      }
      payloads := payloads + frames.value;
    }
    assert chunks[..|chunks|] == chunks;
    var end := decoder.End();
    r := if end.Ok? then Ok(payloads) else Err(end.error);
  }

  lemma {:induction false} BrokenStays(chunks: seq<seq<byte>>, k: nat, max: nat)
    requires k <= |chunks| && Feed(chunks[..k], max).Broken?
    ensures Feed(chunks, max).Broken?
    decreases |chunks| - k
  {
    if k < |chunks| {
      assert chunks[..k + 1][..k] == chunks[..k];
      BrokenStays(chunks, k + 1, max);
    } else {
      assert chunks[..k] == chunks;
    }
  }
}
