/**
  Serial framing (internal/serial/framing.go:13-105): a two-byte marker, a big-endian length
  and the payload, decoded one byte at a time.
 */
module Framing {
  import opened Prelude

  const START1: Byte := 0x94
  const START2: Byte := 0xC3
  const MAX_FRAME := 512

  datatype Phase = WaitStart1 | WaitStart2 | WaitLenMsb | WaitLenLsb | ReadPayload

  datatype Decoder = Decoder(phase: Phase, buf: seq<Byte>, payloadLen: nat)

  const FRESH := Decoder(WaitStart1, [], 0)

  type Frame = seq<Byte>

  /** The effect of one byte, and the frame it completes. */
  function Step(d: Decoder, b: Byte): (Decoder, Option<Frame>) {
    match d.phase
    case WaitStart1 => (if b == START1 then d.(phase := WaitStart2) else d, None)
    case WaitStart2 => (if b == START2 then d.(phase := WaitLenMsb, buf := []) else d.(phase := WaitStart1), None)
    case WaitLenMsb => (d.(phase := WaitLenLsb, payloadLen := b * 256), None)
    case WaitLenLsb =>
      var n := d.payloadLen + b;
      (d.(phase := if n > MAX_FRAME || n == 0 then WaitStart1 else ReadPayload, payloadLen := n), None)
    case ReadPayload =>
      var buf := d.buf + [b];
      if |buf| >= d.payloadLen then (d.(phase := WaitStart1, buf := buf), Some(buf[..d.payloadLen]))
      else (d.(buf := buf), None)
  }

  /** The decoder after the bytes s. */
  function Fed(d: Decoder, s: seq<Byte>): Decoder {
    if s == [] then d else Step(Fed(d, s[..|s| - 1]), s[|s| - 1]).0
  }

  /** The frames completed by the bytes s, in order. */
  function Frames(d: Decoder, s: seq<Byte>): seq<Frame> {
    if s == [] then []
    else
      var f := Step(Fed(d, s[..|s| - 1]), s[|s| - 1]).1;
      Frames(d, s[..|s| - 1]) + if f.Some? then [f.value] else []
  }

  /** One more byte. */
  lemma Snoc(d: Decoder, s: seq<Byte>, b: Byte)
    ensures Fed(d, s + [b]) == Step(Fed(d, s), b).0
    ensures Frames(d, s + [b]) == Frames(d, s) + if Step(Fed(d, s), b).1.Some? then [Step(Fed(d, s), b).1.value] else []
  {
    assert (s + [b])[..|s|] == s;
  }

  /** EncodeFrame; nil when the payload is too long. */
  function Encoded(p: Frame): seq<Byte> {
    if |p| > MAX_FRAME then [] else [START1, START2, |p| / 256, |p| % 256] + p
  }

  /** EncodeFrame: 0x94, 0xC3, the length high byte first, the payload; nothing for more than 512 bytes. */
  method EncodeFrame(payload: seq<Byte>) returns (frame: seq<Byte>)
    ensures frame == Encoded(payload)
    ensures |payload| > 512 ==> frame == []
    ensures |payload| <= 512 ==>
              && |frame| == 4 + |payload| && frame[0] == 0x94 && frame[1] == 0xC3
              && frame[2] == |payload| / 256 && frame[3] == |payload| % 256 && frame[4..] == payload
  {
    if |payload| > MAX_FRAME {
      return [];
    }
    var n: nat := |payload|;
    var header: seq<Byte> := [START1, START2, n / 256, n % 256];
    frame := header + payload;
  }

  lemma FedNothing(d: Decoder)
    ensures Fed(d, []) == d && Frames(d, []) == []
  {
  }

  // ---------------------------------------------------------------------------
  // Bounds
  // ---------------------------------------------------------------------------

  /** The buffer stays within one frame and shorter than the declared length while reading. */
  predicate Bounded(d: Decoder) {
    && |d.buf| <= MAX_FRAME
    && (d.phase == WaitLenLsb ==> d.payloadLen % 256 == 0 && d.payloadLen <= 255 * 256)
    && (d.phase == WaitLenMsb || d.phase == WaitLenLsb ==> d.buf == [])
    && (d.phase == ReadPayload ==> |d.buf| < d.payloadLen <= MAX_FRAME)
  }

  lemma StepBounded(d: Decoder, b: Byte)
    requires Bounded(d)
    ensures Bounded(Step(d, b).0)
    ensures Step(d, b).1.Some? ==> Step(d, b).1.value == d.buf + [b] && |d.buf| + 1 == d.payloadLen
  {
    if d.phase == ReadPayload {
      var buf := d.buf + [b];
      assert |buf| == d.payloadLen ==> buf[..d.payloadLen] == buf;
    }
  }

  lemma {:induction false} FedBounded(d: Decoder, s: seq<Byte>)
    requires Bounded(d)
    ensures Bounded(Fed(d, s))
  {
    if s != [] {
      FedBounded(d, s[..|s| - 1]);
      StepBounded(Fed(d, s[..|s| - 1]), s[|s| - 1]);
    }
  }

  // ---------------------------------------------------------------------------
  // Chunking
  // ---------------------------------------------------------------------------

  lemma {:induction false} FeedSplit(d: Decoder, a: seq<Byte>, b: seq<Byte>)
    ensures Fed(d, a + b) == Fed(Fed(d, a), b)
    ensures Frames(d, a + b) == Frames(d, a) + Frames(Fed(d, a), b)
  {
    if b == [] {
      assert a + b == a;
    } else {
      var front, last := b[..|b| - 1], b[|b| - 1];
      var ab := a + b;
      assert ab[..|ab| - 1] == a + front && ab[|ab| - 1] == last;
      FeedSplit(d, a, front);
    }
  }

  function Flatten(chunks: seq<seq<Byte>>): seq<Byte> {
    if chunks == [] then [] else Flatten(chunks[..|chunks| - 1]) + chunks[|chunks| - 1]
  }

  /** The decoder and all frames after feeding the chunks one by one. */
  function FedChunks(d: Decoder, chunks: seq<seq<Byte>>): (Decoder, seq<Frame>) {
    if chunks == [] then (d, [])
    else
      var (d1, frames) := FedChunks(d, chunks[..|chunks| - 1]);
      (Fed(d1, chunks[|chunks| - 1]), frames + Frames(d1, chunks[|chunks| - 1]))
  }

  /** How a stream is cut into reads makes no difference to the frames or to the final state. */
  lemma {:induction false} ChunkingIrrelevant(d: Decoder, chunks: seq<seq<Byte>>)
    ensures FedChunks(d, chunks) == (Fed(d, Flatten(chunks)), Frames(d, Flatten(chunks)))
  {
    if chunks != [] {
      var front := chunks[..|chunks| - 1];
      ChunkingIrrelevant(d, front);
      FeedSplit(d, Flatten(front), chunks[|chunks| - 1]);
    }
  }

  class FrameDecoder {
    var buf: seq<Byte>
    var phase: Phase
    var payloadLen: nat

    constructor ()
      ensures State() == FRESH
    {
      buf, phase, payloadLen := [], WaitStart1, 0;
    }

    ghost function State(): Decoder
      reads this
    {
      Decoder(phase, buf, payloadLen)
    }

    /** Feed. */
    method Feed(data: seq<Byte>) returns (frames: seq<Frame>)
      requires Bounded(State())
      modifies this
      ensures Bounded(State())
      ensures State() == Fed(old(State()), data)
      ensures frames == Frames(old(State()), data)
    {
      hide Fed, Frames;
      frames := [];
      FedNothing(State());
      assert data[..0] == [];
      for i := 0 to |data|
        invariant Bounded(State())
        invariant State() == Fed(old(State()), data[..i])
        invariant frames == Frames(old(State()), data[..i])
      {
        var b := data[i];
        assert data[..i + 1] == data[..i] + [b];
        Snoc(old(State()), data[..i], b);
        StepBounded(State(), b);
        match phase {
          case WaitStart1 =>
            if b == START1 {
              phase := WaitStart2;
            }
          case WaitStart2 =>
            if b == START2 {
              phase := WaitLenMsb;
              buf := [];
            } else {
              phase := WaitStart1;
            }
          case WaitLenMsb =>
            var msb: nat := b;
            payloadLen := msb * 256;
            phase := WaitLenLsb;
          case WaitLenLsb =>
            payloadLen := payloadLen + b;
            if payloadLen > MAX_FRAME || payloadLen == 0 {
              phase := WaitStart1;
            } else {
              phase := ReadPayload;
            }
          case ReadPayload =>
            buf := buf + [b];
            if |buf| >= payloadLen {
              frames := frames + [buf[..payloadLen]];
              phase := WaitStart1;
            }
        }
      }
      assert data[..|data|] == data;
    }
  }

  // ---------------------------------------------------------------------------
  // Every frame is a stretch of the input
  // ---------------------------------------------------------------------------

  /** Where in s each frame ends. */
  function Ends(d: Decoder, s: seq<Byte>): seq<nat> {
    if s == [] then []
    else
      var f := Step(Fed(d, s[..|s| - 1]), s[|s| - 1]).1;
      Ends(d, s[..|s| - 1]) + if f.Some? then [|s|] else []
  }

  /** The bytes of the frame under construction. */
  function Partial(d: Decoder): seq<Byte>
    requires Bounded(d)
  {
    match d.phase
    case WaitStart1 => []
    case WaitStart2 => [START1]
    case WaitLenMsb => [START1, START2]
    case WaitLenLsb => [START1, START2, d.payloadLen / 256]
    case ReadPayload => [START1, START2, d.payloadLen / 256, d.payloadLen % 256] + d.buf
  }

  /** What one byte does to the frame under construction. */
  lemma PartialStep(d: Decoder, b: Byte)
    requires Bounded(d)
    ensures var (d', f) := Step(d, b);
      && Bounded(d')
      && (f.Some? ==> Partial(d) + [b] == Encoded(f.value) && Partial(d') == [])
      && (f.None? ==> Partial(d') == Partial(d) + [b] || Partial(d') == [])
  {
    StepBounded(d, b);
    var (d', f) := Step(d, b);
    if d.phase == WaitLenLsb {
      LowByte(d.payloadLen, b);
    }
    if f.Some? {
      assert f.value == d.buf + [b] && |f.value| == d.payloadLen;
      assert Partial(d) + [b] == [START1, START2, d.payloadLen / 256, d.payloadLen % 256] + (d.buf + [b]);
    } else if d.phase == ReadPayload {
      assert Partial(d') == Partial(d) + [b];
    }
  }

  lemma LowByte(n: nat, b: Byte)
    requires n % 256 == 0
    ensures (n + b) / 256 == n / 256 && (n + b) % 256 == b
  {
  }

  /** Frame i of the list occupies the bytes before ends[i], header included. */
  ghost predicate Stretch(s: seq<Byte>, frames: seq<Frame>, ends: seq<nat>, i: nat)
    requires i < |frames| && |ends| == |frames|
  {
    && |Encoded(frames[i])| == 4 + |frames[i]| <= ends[i] <= |s|
    && s[ends[i] - |Encoded(frames[i])|..ends[i]] == Encoded(frames[i])
    && (i > 0 ==> ends[i - 1] <= ends[i] - |Encoded(frames[i])|)
  }

  ghost predicate Stretches(s: seq<Byte>, frames: seq<Frame>, ends: seq<nat>) {
    && |ends| == |frames|
    && forall i: nat | i < |frames| :: Stretch(s, frames, ends, i)
  }

  /** s ends with tail, and tail starts after every frame. */
  ghost predicate TailAfter(s: seq<Byte>, ends: seq<nat>, tail: seq<Byte>) {
    && |tail| <= |s| && s[|s| - |tail|..] == tail
    && (ends != [] ==> ends[|ends| - 1] <= |s| - |tail|)
  }

  lemma StretchesGrow(s: seq<Byte>, b: Byte, frames: seq<Frame>, ends: seq<nat>)
    requires Stretches(s, frames, ends)
    ensures Stretches(s + [b], frames, ends)
  {
    forall i: nat | i < |frames|
      ensures Stretch(s + [b], frames, ends, i)
    {
      assert Stretch(s, frames, ends, i);
      var lo, hi := ends[i] - |Encoded(frames[i])|, ends[i];
      assert (s + [b])[lo..hi] == s[lo..hi];
    }
  }

  lemma StretchesAppend(s: seq<Byte>, frames: seq<Frame>, ends: seq<nat>, f: Frame)
    requires Stretches(s, frames, ends) && |f| <= MAX_FRAME
    requires TailAfter(s, ends, Encoded(f))
    ensures Stretches(s, frames + [f], ends + [|s|])
  {
    var frames', ends' := frames + [f], ends + [|s|];
    forall i: nat | i < |frames'|
      ensures Stretch(s, frames', ends', i)
    {
      if i < |frames| {
        assert Stretch(s, frames, ends, i);
      } else {
        assert s[|s| - |Encoded(f)|..|s|] == Encoded(f);
      }
    }
  }

  /**
    From a fresh decoder the emitted frames, headers included, are disjoint stretches of
    the input in order, and the frame under construction is the unconsumed tail.
   */
  lemma {:induction false} FramesAreStretches(s: seq<Byte>)
    ensures Bounded(Fed(FRESH, s))
    ensures Stretches(s, Frames(FRESH, s), Ends(FRESH, s))
    ensures TailAfter(s, Ends(FRESH, s), Partial(Fed(FRESH, s)))
  {
    FedBounded(FRESH, s);
    if s != [] {
      var front, b := s[..|s| - 1], s[|s| - 1];
      assert s == front + [b];
      FramesAreStretches(front);
      StretchesStep(front, b);
    }
  }

  lemma StretchesStep(s: seq<Byte>, b: Byte)
    requires Bounded(Fed(FRESH, s)) && Bounded(Fed(FRESH, s + [b]))
    requires Stretches(s, Frames(FRESH, s), Ends(FRESH, s))
    requires TailAfter(s, Ends(FRESH, s), Partial(Fed(FRESH, s)))
    ensures Stretches(s + [b], Frames(FRESH, s + [b]), Ends(FRESH, s + [b]))
    ensures TailAfter(s + [b], Ends(FRESH, s + [b]), Partial(Fed(FRESH, s + [b])))
  {
    hide Fed, Frames, Ends, Stretches, Step;
    var d := Fed(FRESH, s);
    Snoc(FRESH, s, b);
    EndsSnoc(FRESH, s, b);
    PartialStep(d, b);
    StretchesGrow(s, b, Frames(FRESH, s), Ends(FRESH, s));
    TailGrows(s, b, Ends(FRESH, s), Partial(d));
    var f := Step(d, b).1;
    if f.Some? {
      StepBounded(d, b);
      StretchesAppend(s + [b], Frames(FRESH, s), Ends(FRESH, s), f.value);
      assert (s + [b])[|s| + 1..] == [];
    } else {
      assert Frames(FRESH, s) + [] == Frames(FRESH, s) && Ends(FRESH, s) + [] == Ends(FRESH, s);
    }
  }

  lemma EndsSnoc(d: Decoder, s: seq<Byte>, b: Byte)
    ensures Ends(d, s + [b]) == Ends(d, s) + if Step(Fed(d, s), b).1.Some? then [|s| + 1] else []
  {
    assert (s + [b])[..|s|] == s;
  }

  /** A frame with its header fits in the input it came from. */
  lemma FramesFit(s: seq<Byte>)
    ensures forall i | 0 <= i < |Frames(FRESH, s)| :: 4 + |Frames(FRESH, s)[i]| <= |s|
  {
    FramesAreStretches(s);
    forall i | 0 <= i < |Frames(FRESH, s)|
      ensures 4 + |Frames(FRESH, s)[i]| <= |s|
    {
      assert Stretch(s, Frames(FRESH, s), Ends(FRESH, s), i);
    }
  }

  lemma TailGrows(s: seq<Byte>, b: Byte, ends: seq<nat>, tail: seq<Byte>)
    requires TailAfter(s, ends, tail)
    ensures TailAfter(s + [b], ends, tail + [b])
    ensures TailAfter(s + [b], ends, [])
  {
    var s' := s + [b];
    assert s'[|s'| - |tail + [b]|..] == s[|s| - |tail|..] + [b];
    assert s'[|s'|..] == [];
  }

  // ---------------------------------------------------------------------------
  // Streams of encoded payloads
  // ---------------------------------------------------------------------------

  lemma FeedOne(d: Decoder, b: Byte)
    ensures Fed(d, [b]) == Step(d, b).0
    ensures Frames(d, [b]) == if Step(d, b).1.Some? then [Step(d, b).1.value] else []
  {
    assert [b][..0] == [];
  }

  lemma HeaderRead(d: Decoder, n: nat)
    requires d.phase == WaitStart1 && 0 < n <= MAX_FRAME
    ensures Fed(d, [START1, START2, n / 256, n % 256]) == Decoder(ReadPayload, [], n)
    ensures Frames(d, [START1, START2, n / 256, n % 256]) == []
  {
    hide Fed, Frames;
    var d1 := d.(phase := WaitStart2);
    var d2 := d.(phase := WaitLenMsb, buf := []);
    var d3 := Decoder(WaitLenLsb, [], n / 256 * 256);
    var h1, h2, h3 := [START1], [START1, START2], [START1, START2, n / 256];
    FeedOne(d, START1);
    assert h2 == h1 + [START2] && h3 == h2 + [n / 256];
    FeedSplit(d, h1, [START2]);
    FeedOne(d1, START2);
    FeedSplit(d, h2, [n / 256]);
    FeedOne(d2, n / 256);
    assert [START1, START2, n / 256, n % 256] == h3 + [n % 256];
    FeedSplit(d, h3, [n % 256]);
    FeedOne(d3, n % 256);
  }

  lemma {:induction false} PayloadRead(p: Frame, n: nat)
    requires n <= |p| <= MAX_FRAME && 0 < |p|
    ensures Frames(Decoder(ReadPayload, [], |p|), p[..n]) == if n == |p| then [p] else []
    ensures Fed(Decoder(ReadPayload, [], |p|), p[..n]) ==
            Decoder(if n == |p| then WaitStart1 else ReadPayload, p[..n], |p|)
  {
    hide Fed, Frames;
    var d := Decoder(ReadPayload, [], |p|);
    if n == 0 {
      FedNothing(d);
      assert p[..0] == [];
    } else {
      PayloadRead(p, n - 1);
      assert p[..n - 1] + [p[n - 1]] == p[..n];
      Snoc(d, p[..n - 1], p[n - 1]);
      assert n == |p| ==> p[..n] == p;
    }
  }

  /** A decoder at rest turns an encoded payload of 1..512 bytes into exactly that payload. */
  lemma FrameRead(d: Decoder, p: Frame)
    requires d.phase == WaitStart1 && 0 < |p| <= MAX_FRAME
    ensures Frames(d, Encoded(p)) == [p]
    ensures Fed(d, Encoded(p)).phase == WaitStart1
  {
    var header := [START1, START2, |p| / 256, |p| % 256];
    assert Encoded(p) == header + p;
    FeedSplit(d, header, p);
    HeaderRead(d, |p|);
    PayloadRead(p, |p|);
    assert p[..|p|] == p;
  }

  /** noise[0], payload 0, noise[1], payload 1, ..., noise[n]. */
  function Stream(noise: seq<seq<Byte>>, payloads: seq<Frame>): seq<Byte>
    requires |noise| == |payloads| + 1
    decreases |payloads|
  {
    if payloads == [] then noise[0]
    else
      var n := |payloads|;
      Stream(noise[..n], payloads[..n - 1]) + (Encoded(payloads[n - 1]) + noise[n])
  }

  /** How many bytes 0x94 stand at the end of s. */
  function TrailingStarts(s: seq<Byte>): nat {
    if s == [] || s[|s| - 1] != START1 then 0 else 1 + TrailingStarts(s[..|s| - 1])
  }

  /** No run of bytes 0x94 of odd length is followed by 0xC3. In particular: no 0x94, or no 0xC3. */
  ghost predicate NoHeader(s: seq<Byte>) {
    forall i | 0 <= i < |s| && s[i] == START2 :: TrailingStarts(s[..i]) % 2 == 0
  }

  lemma {:induction false} NoStartIsNoHeader(s: seq<Byte>)
    requires START1 !in s
    ensures NoHeader(s) && TrailingStarts(s) == 0
  {
    forall i | 0 <= i < |s|
      ensures TrailingStarts(s[..i]) == 0
    {
      assert i > 0 ==> s[..i][i - 1] in s;
    }
    assert s != [] ==> s[|s| - 1] in s;
  }

  lemma NoHeaderPrefix(s: seq<Byte>, n: nat)
    requires NoHeader(s) && n <= |s|
    ensures NoHeader(s[..n])
  {
    forall i | 0 <= i < n && s[..n][i] == START2
      ensures TrailingStarts(s[..n][..i]) % 2 == 0
    {
      assert s[..n][..i] == s[..i];
    }
  }

  /** Bytes without a header yield nothing, and every second 0x94 of a run is missed as a start byte. */
  lemma {:induction false} NoiseRead(d: Decoder, s: seq<Byte>)
    requires d.phase == WaitStart1 && NoHeader(s)
    ensures Frames(d, s) == []
    ensures Fed(d, s) == d.(phase := if TrailingStarts(s) % 2 == 0 then WaitStart1 else WaitStart2)
  {
    if s != [] {
      var n := |s| - 1;
      NoHeaderPrefix(s, n);
      NoiseRead(d, s[..n]);
    }
  }

  /**
    Any stream of encoded payloads separated by bytes that contain no header and end in an even
    number of bytes 0x94 decodes to exactly those payloads. What follows the last payload may
    end in any number of them.
   */
  lemma {:induction false} NoisyStreamDecodes(d: Decoder, noise: seq<seq<Byte>>, payloads: seq<Frame>)
    requires d.phase == WaitStart1 && |noise| == |payloads| + 1
    requires forall i | 0 <= i < |noise| :: NoHeader(noise[i])
    requires forall i | 0 <= i < |payloads| :: TrailingStarts(noise[i]) % 2 == 0
    requires forall i | 0 <= i < |payloads| :: 0 < |payloads[i]| <= MAX_FRAME
    ensures Frames(d, Stream(noise, payloads)) == payloads
    ensures Fed(d, Stream(noise, payloads)).phase ==
            if TrailingStarts(noise[|payloads|]) % 2 == 0 then WaitStart1 else WaitStart2
    decreases |payloads|
  {
    hide Fed, Frames, Encoded, NoHeader, TrailingStarts;
    if payloads == [] {
      NoiseRead(d, noise[0]);
    } else {
      var n := |payloads|;
      var before := Stream(noise[..n], payloads[..n - 1]);
      NoisyStreamDecodes(d, noise[..n], payloads[..n - 1]);
      var p, gap := payloads[n - 1], noise[n];
      FeedSplit(d, before, Encoded(p) + gap);
      var d1 := Fed(d, before);
      FeedSplit(d1, Encoded(p), gap);
      FrameRead(d1, p);
      NoiseRead(Fed(d1, Encoded(p)), gap);
      assert payloads == payloads[..n - 1] + [p];
    }
  }

  /** Any stream of encoded payloads separated by bytes other than 0x94 decodes to exactly those payloads. */
  lemma StreamDecodes(d: Decoder, noise: seq<seq<Byte>>, payloads: seq<Frame>)
    requires d.phase == WaitStart1 && |noise| == |payloads| + 1
    requires forall i | 0 <= i < |noise| :: START1 !in noise[i]
    requires forall i | 0 <= i < |payloads| :: 0 < |payloads[i]| <= MAX_FRAME
    ensures Frames(d, Stream(noise, payloads)) == payloads
    ensures Fed(d, Stream(noise, payloads)).phase == WaitStart1
  {
    hide Fed, Frames, Encoded, Stream;
    forall i | 0 <= i < |noise|
      ensures NoHeader(noise[i]) && TrailingStarts(noise[i]) == 0
    {
      NoStartIsNoHeader(noise[i]);
    }
    hide NoHeader, TrailingStarts;
    NoisyStreamDecodes(d, noise, payloads);
  }

  /**
    Bytes without a header in front of a frame are harmless exactly when they end in an even
    number of bytes 0x94.
   */
  lemma NoiseBeforeFrameIff(s: seq<Byte>, p: Frame)
    requires NoHeader(s) && 0 < |p| <= MAX_FRAME
    ensures Frames(FRESH, s + Encoded(p)) == [p] <==> TrailingStarts(s) % 2 == 0
  {
    hide Fed, Frames, NoHeader, TrailingStarts;
    NoiseRead(FRESH, s);
    if TrailingStarts(s) % 2 == 0 {
      FeedSplit(FRESH, s, Encoded(p));
      FrameRead(FRESH, p);
      assert [] + [p] == [p];
    } else {
      var d := FRESH.(phase := WaitStart2);
      var rest := [START2, |p| / 256, |p| % 256] + p;
      assert s + Encoded(p) == s + ([START1] + rest);
      FeedSplit(FRESH, s, [START1] + rest);
      FeedSplit(d, [START1], rest);
      FeedOne(d, START1);
      assert Frames(FRESH, s + Encoded(p)) == [] + ([] + Frames(FRESH, rest));
      assert [] + ([] + Frames(FRESH, rest)) == Frames(FRESH, rest);
      FramesFit(rest);
      assert [p][0] == p;
    }
  }

  /** One stray byte in front of a frame is harmless exactly when it is not the first marker byte. */
  lemma StrayByteIff(x: Byte, p: Frame)
    requires 0 < |p| <= MAX_FRAME
    ensures Frames(FRESH, [x] + Encoded(p)) == [p] <==> x != START1
  {
    hide Fed, Frames;
    assert TrailingStarts([x][..0]) == 0;
    NoiseBeforeFrameIff([x], p);
  }
}
