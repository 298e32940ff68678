/**
 The wire format of packages/protocol/src/framing.ts: a four-byte big-endian length
 followed by that many payload bytes. `Parse` is the reference reading of a whole byte
 stream; the incremental decoder is proved against it.
 */
module FrameFormat {
  type byte = b: int | 0 <= b < 256

  const HEADER_LENGTH: nat := 4
  const MAX_UINT32: nat := 0xffff_ffff

  function Header(n: nat): (h: seq<byte>)
    ensures |h| == HEADER_LENGTH
  {
    [(n / 0x100_0000) % 256, (n / 0x1_0000) % 256, (n / 0x100) % 256, n % 256]
  }

  function HeaderValue(h: seq<byte>): (n: nat)
    requires |h| == HEADER_LENGTH
  {
    h[0] as int * 0x100_0000 + h[1] as int * 0x1_0000 + h[2] as int * 0x100 + h[3] as int
  }

  function Frame(payload: seq<byte>): seq<byte> {
    Header(|payload|) + payload
  }

  /** The length prefix is a bijection between 32-bit lengths and four-byte headers. */
  lemma {:induction false} HeaderBijection(n: nat, h: seq<byte>)
    requires |h| == HEADER_LENGTH
    ensures n <= MAX_UINT32 ==> HeaderValue(Header(n)) == n
    ensures HeaderValue(h) <= MAX_UINT32 && Header(HeaderValue(h)) == h
  {
    HeaderOfValue(h[0], h[1], h[2], h[3]);
    assert h == [h[0], h[1], h[2], h[3]];
    if n <= MAX_UINT32 {
      ValueOfHeader(n);
    }
  }

  lemma {:induction false} ValueOfHeader(n: nat)
    requires n <= MAX_UINT32
    ensures HeaderValue(Header(n)) == n
  {
    var q1, q2, q3 := n / 0x100, n / 0x1_0000, n / 0x100_0000;
    assert q2 == q1 / 0x100 && q3 == q2 / 0x100;
    assert n == q1 * 0x100 + n % 0x100 && q1 == q2 * 0x100 + q1 % 0x100 && q2 == q3 * 0x100 + q2 % 0x100;
  }

  lemma {:induction false} HeaderOfValue(a: byte, b: byte, c: byte, d: byte)
    ensures Header(HeaderValue([a, b, c, d])) == [a, b, c, d]
  {
    var q3: int := a;
    var q2: int := q3 * 0x100 + b;
    var q1: int := q2 * 0x100 + c;
    var v: int := q1 * 0x100 + d;
    assert v / 0x100 == q1 && v % 0x100 == d;
    assert v / 0x1_0000 == q2 && q2 % 0x100 == b;
    assert v / 0x100_0000 == q3;
  }

  /** One byte string is before another in lexicographic order. */
  predicate Precedes(h: seq<byte>, g: seq<byte>)
    requires |h| == |g|
  {
    exists i | 0 <= i < |h| :: h[..i] == g[..i] && h[i] < g[i]
  }

  lemma {:induction false} PrecedingIsLess(h: seq<byte>, g: seq<byte>, i: nat)
    requires |h| == HEADER_LENGTH && |g| == HEADER_LENGTH && i < HEADER_LENGTH && h[..i] == g[..i] && h[i] < g[i]
    ensures HeaderValue(h) < HeaderValue(g)
  {
    assert forall j | 0 <= j < i :: h[j] == h[..i][j] == g[j];
  }

  /** The length prefix is big-endian: lengths are ordered as their headers are, byte by byte from the
      first. */
  lemma {:induction false} HeaderOrder(m: nat, n: nat)
    requires m <= MAX_UINT32 && n <= MAX_UINT32
    ensures m < n <==> Precedes(Header(m), Header(n))
  {
    hide Header, HeaderValue;
    var h, g := Header(m), Header(n);
    ValueOfHeader(m);
    ValueOfHeader(n);
    if Precedes(h, g) {
      var i :| 0 <= i < |h| && h[..i] == g[..i] && h[i] < g[i];
      PrecedingIsLess(h, g, i);
    }
    if m < n {
      var i := FirstDifference(h, g);
      if h[i] > g[i] {
        PrecedingIsLess(g, h, i);
      }
    }
  }

  lemma {:induction false} FirstDifference(h: seq<byte>, g: seq<byte>) returns (i: nat)
    requires |h| == |g| && h != g
    ensures i < |h| && h[..i] == g[..i] && h[i] != g[i]
  {
    i := 0;
    while i < |h| && h[i] == g[i]
      invariant i <= |h| && h[..i] == g[..i]
    {
      assert h[..i + 1] == h[..i] + [h[i]] && g[..i + 1] == g[..i] + [g[i]];
      i := i + 1;
    }
    assert h[..|h|] == h && g[..|g|] == g;
  }

  /** What the front of a byte stream is: not yet a whole frame, a header announcing more
      than the limit, or one whole frame and the bytes behind it. */
  datatype Front = Partial | Oversized | Whole(payload: seq<byte>, tail: seq<byte>)

  function FrontOf(s: seq<byte>, max: nat): (f: Front)
    ensures f.Whole? ==> |f.tail| < |s| && |f.payload| <= max
  {
    if |s| < HEADER_LENGTH then Partial
    else
      var n := HeaderValue(s[..HEADER_LENGTH]);
      if n > max then Oversized
      else if |s| < HEADER_LENGTH + n then Partial
      else Whole(s[HEADER_LENGTH..HEADER_LENGTH + n], s[HEADER_LENGTH + n..])
  }

  /** What a byte stream says: its complete payloads, the bytes left over, and whether
      the left-over starts with a header announcing more than the limit. */
  datatype Parsed = Parsed(frames: seq<seq<byte>>, rest: seq<byte>, oversized: bool)

  function Parse(s: seq<byte>, max: nat): Parsed {
    match FrontOf(s, max)
    case Partial => Parsed([], s, false)
    case Oversized => Parsed([], s, true)
    case Whole(payload, tail) => Prepend(payload, Parse(tail, max))
  }

  function Prepend(payload: seq<byte>, p: Parsed): Parsed {
    Parsed([payload] + p.frames, p.rest, p.oversized)
  }

  /** More bytes behind a decided front do not change the decision. */
  lemma {:induction false} FrontAppend(a: seq<byte>, b: seq<byte>, max: nat)
    ensures FrontOf(a, max).Oversized? ==> FrontOf(a + b, max).Oversized?
    ensures FrontOf(a, max).Whole? ==>
              FrontOf(a + b, max) == Whole(FrontOf(a, max).payload, FrontOf(a, max).tail + b)
  {
    if |a| >= HEADER_LENGTH {
      assert (a + b)[..HEADER_LENGTH] == a[..HEADER_LENGTH];
      var n := HeaderValue(a[..HEADER_LENGTH]);
      if |a| >= HEADER_LENGTH + n {
        assert (a + b)[HEADER_LENGTH..HEADER_LENGTH + n] == a[HEADER_LENGTH..HEADER_LENGTH + n];
        assert (a + b)[HEADER_LENGTH + n..] == a[HEADER_LENGTH + n..] + b;
      }
    }
  }

  /** A frame within the limit is a whole front. */
  lemma {:induction false} FrontOfFrame(payload: seq<byte>, tail: seq<byte>, max: nat)
    requires |payload| <= max <= MAX_UINT32
    ensures FrontOf(Frame(payload) + tail, max) == Whole(payload, tail)
  {
    var s := Frame(payload) + tail;
    ValueOfHeader(|payload|);
    assert s[..HEADER_LENGTH] == Header(|payload|);
    assert s[HEADER_LENGTH..HEADER_LENGTH + |payload|] == payload;
    assert s[HEADER_LENGTH + |payload|..] == tail;
  }

  /** A whole front is a frame. */
  lemma {:induction false} FrontIsFrame(s: seq<byte>, max: nat)
    requires FrontOf(s, max).Whole?
    ensures s == Frame(FrontOf(s, max).payload) + FrontOf(s, max).tail
  {
    HeaderBijection(0, s[..HEADER_LENGTH]);
  }

  /** Reading more bytes only continues from the left-over of the bytes before. */
  lemma {:induction false} ParseAppend(a: seq<byte>, b: seq<byte>, max: nat)
    ensures Parse(a + b, max) == Continue(Parse(a, max), b, max)
    decreases |a|
  {
    FrontAppend(a, b, max);
    match FrontOf(a, max)
    case Partial =>
      assert [] + Parse(a + b, max).frames == Parse(a + b, max).frames;
    case Oversized =>
    case Whole(payload, tail) =>
      ParseAppend(tail, b, max);
      ContinuePrepend(payload, Parse(tail, max), b, max);
  }

  lemma {:induction false} ContinuePrepend(payload: seq<byte>, t: Parsed, more: seq<byte>, max: nat)
    ensures Continue(Prepend(payload, t), more, max) == Prepend(payload, Continue(t, more, max))
  {
    var r := Parse(t.rest + more, max);
    assert [payload] + (t.frames + r.frames) == [payload] + t.frames + r.frames;
  }

  function Continue(p: Parsed, more: seq<byte>, max: nat): Parsed {
    if p.oversized then p.(rest := p.rest + more)
    else
      var r := Parse(p.rest + more, max);
      Parsed(p.frames + r.frames, r.rest, r.oversized)
  }

  /** The left-over of a stream reads as itself: it never hides a complete frame. */
  lemma {:induction false} RestIsStuck(s: seq<byte>, max: nat)
    ensures var p := Parse(s, max); Parse(p.rest, max) == Parsed([], p.rest, p.oversized)
  {
    if FrontOf(s, max).Whole? {
      RestIsStuck(FrontOf(s, max).tail, max);
    }
  }

  function Join(parts: seq<seq<byte>>): seq<byte> {
    if parts == [] then [] else Join(parts[..|parts| - 1]) + parts[|parts| - 1]
  }

  function Wire(payloads: seq<seq<byte>>): seq<byte> {
    if payloads == [] then [] else Frame(payloads[0]) + Wire(payloads[1..])
  }

  ghost predicate WithinLimit(payloads: seq<seq<byte>>, max: nat) {
    max <= MAX_UINT32 && forall p | p in payloads :: |p| <= max
  }

  /** Encoding then parsing gives back exactly the payloads, in order, with nothing left. */
  lemma {:induction false} ParseWire(payloads: seq<seq<byte>>, max: nat)
    requires WithinLimit(payloads, max)
    ensures Parse(Wire(payloads), max) == Parsed(payloads, [], false)
  {
    if payloads != [] {
      FrontOfFrame(payloads[0], Wire(payloads[1..]), max);
      ParseWire(payloads[1..], max);
    }
  }

  lemma {:induction false} WireCons(payload: seq<byte>, payloads: seq<seq<byte>>)
    ensures Wire([payload] + payloads) == Frame(payload) + Wire(payloads)
  {
    assert ([payload] + payloads)[1..] == payloads;
  }

  /** The converse: a stream is the wire form of the payloads it parses to followed by the
      left-over. */
  lemma {:induction false} ParseIsSound(s: seq<byte>, max: nat)
    ensures s == Wire(Parse(s, max).frames) + Parse(s, max).rest
    decreases |s|
  {
    match FrontOf(s, max)
    case Whole(payload, tail) =>
      FrontIsFrame(s, max);
      ParseIsSound(tail, max);
      SoundStep(payload, tail, Parse(tail, max));
    case _ =>
      assert Wire([]) + s == s;
  }

  lemma {:induction false} SoundStep(payload: seq<byte>, tail: seq<byte>, t: Parsed)
    requires tail == Wire(t.frames) + t.rest
    ensures Frame(payload) + tail == Wire(Prepend(payload, t).frames) + Prepend(payload, t).rest
  {
    WireCons(payload, t.frames);
    assert Frame(payload) + tail == Frame(payload) + Wire(t.frames) + t.rest;
  }

  /** Which byte strings are one whole frame within a limit, as the header tells it. */
  lemma {:induction false} CompleteFrames(s: seq<byte>, max: nat)
    requires max <= MAX_UINT32
    ensures (exists p: seq<byte> :: |p| <= max && s == Frame(p)) <==>
            |s| >= HEADER_LENGTH && HeaderValue(s[..HEADER_LENGTH]) <= max &&
            |s| == HEADER_LENGTH + HeaderValue(s[..HEADER_LENGTH])
  {
    if |s| >= HEADER_LENGTH && HeaderValue(s[..HEADER_LENGTH]) <= max &&
       |s| == HEADER_LENGTH + HeaderValue(s[..HEADER_LENGTH]) {
      HeaderBijection(0, s[..HEADER_LENGTH]);
      var p := s[HEADER_LENGTH..];
      assert s == Frame(p);
    }
    forall p: seq<byte> | |p| <= max && s == Frame(p)
      ensures s[..HEADER_LENGTH] == Header(|p|) && HeaderValue(s[..HEADER_LENGTH]) == |p|
    {
      ValueOfHeader(|p|);
    }
  }

  /** A decoder's life over a list of chunks, as its pushes go: still reading, or broken by
      the push of chunk number `at`. */
  datatype Life = Reading(frames: seq<seq<byte>>, pending: seq<byte>) | Broken(at: nat)

  function Feed(chunks: seq<seq<byte>>, max: nat): Life {
    if chunks == [] then Reading([], [])
    else
      var k := |chunks| - 1;
      match Feed(chunks[..k], max)
      case Broken(at) => Broken(at)
      case Reading(frames, pending) =>
        var p := Parse(pending + chunks[k], max);
        if p.oversized then Broken(k) else Reading(frames + p.frames, p.rest)
  }

  /** However a stream is cut, the pushes give what the whole stream says, and the push that
      breaks is the one whose chunk completes the first header over the limit. */
  lemma {:induction false} FeedIsParse(chunks: seq<seq<byte>>, max: nat)
    ensures match Feed(chunks, max)
            case Reading(frames, pending) => Parse(Join(chunks), max) == Parsed(frames, pending, false)
            case Broken(at) =>
              && at < |chunks|
              && !Parse(Join(chunks[..at]), max).oversized
              && Parse(Join(chunks[..at + 1]), max).oversized
              && Parse(Join(chunks), max).oversized
  {
    if chunks == [] {
      assert Parse([], max) == Parsed([], [], false);
    } else {
      var k := |chunks| - 1;
      FeedIsParse(chunks[..k], max);
      ParseAppend(Join(chunks[..k]), chunks[k], max);
      assert chunks[..k + 1] == chunks;
      match Feed(chunks[..k], max)
      case Broken(at) =>
        assert chunks[..k][..at] == chunks[..at] && chunks[..k][..at + 1] == chunks[..at + 1];
      case Reading(frames, pending) =>
    }
  }

  /** Two ways of cutting the same bytes give the same payloads and the same left-over, or
      both break. */
  lemma {:induction false} ChunkInvariance(chunks: seq<seq<byte>>, others: seq<seq<byte>>, max: nat)
    requires Join(chunks) == Join(others)
    ensures Feed(chunks, max) == Feed(others, max) || (Feed(chunks, max).Broken? && Feed(others, max).Broken?)
  {
    FeedIsParse(chunks, max);
    FeedIsParse(others, max);
  }

  /** Every cutting of the wire form of some payloads is read back as exactly those payloads,
      and the stream ends between frames. */
  lemma {:induction false} RoundTrip(payloads: seq<seq<byte>>, chunks: seq<seq<byte>>, max: nat)
    requires WithinLimit(payloads, max) && Join(chunks) == Wire(payloads)
    ensures Feed(chunks, max) == Reading(payloads, [])
  {
    ParseWire(payloads, max);
    FeedIsParse(chunks, max);
  }

  /** Conversely a stream that ends between frames was the wire form of what was read. */
  lemma {:induction false} OnlyWireIsRead(payloads: seq<seq<byte>>, chunks: seq<seq<byte>>, max: nat)
    requires Feed(chunks, max) == Reading(payloads, [])
    ensures Join(chunks) == Wire(payloads)
  {
    FeedIsParse(chunks, max);
    ParseIsSound(Join(chunks), max);
  }
}
