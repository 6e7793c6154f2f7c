/**
  Protobuf messages as sequences of fields ("Message Structure" of the Protocol Buffers
  encoding specification): one field at a time, and a fold over a whole message. The decoders
  of module MeshCodec are instances of the fold.
 */
module Wire {
  import opened Prelude
  import opened Varint

  /**
    2^63 - 2^48. In a buffer shorter than 2^48 bytes, adding a shorter length to a position stays
    within an int; from here on int(length) or the sum may wrap, and the result is not modelled.
   */
  const HUGE := 0x7FFF_0000_0000_0000

  datatype Body = Word(v: nat) | Fixed64 | Bytes(bytes: seq<Byte>) | Fixed32(u: nat)

  /** A field and its size in bytes; Stop when no complete field starts here. */
  datatype Parse = Stop | Oversize | Field(num: nat, body: Body, size: nat)

  function LittleEndian32(s: seq<Byte>): (u: nat)
    requires |s| >= 4
    ensures u < TWO32
  {
    var (a: nat, b: nat, c: nat, d: nat) := (s[0], s[1], s[2], s[3]);
    a + 256 * (b + 256 * (c + 256 * d))
  }

  /** The field that follows a tag with number num and wire type wireType. */
  function ParseBody(num: nat, wireType: nat, s: seq<Byte>): (p: Parse)
    ensures p.Field? ==> p.size <= |s|
  {
    if wireType == 0 then
      var (v, n) := Decoded(s);
      if n == 0 then Stop else Field(num, Word(v), n)
    else if wireType == 1 then
      if |s| < 8 then Stop else Field(num, Fixed64, 8)
    else if wireType == 2 then
      var (length, n) := Decoded(s);
      if n == 0 then Stop
      else if length >= HUGE then Oversize
      else if n + length > |s| then Stop
      else Field(num, Bytes(s[n..n + length]), n + length)
    else if wireType == 5 then
      if |s| < 4 then Stop else Field(num, Fixed32(LittleEndian32(s)), 4)
    else Stop
  }

  function ParseField(s: seq<Byte>): (p: Parse)
    ensures p.Field? ==> 0 < p.size <= |s|
  {
    var (tag, n) := Decoded(s);
    if n == 0 then Stop
    else
      var p := ParseBody(tag / 8, tag % 8, s[n..]);
      if p.Field? then p.(size := n + p.size) else p
  }

  /** Applies the fields of s from left to right; None when an unmodelled length is met. */
  function Fold<A>(apply: (A, nat, Body) -> Option<A>, acc: A, s: seq<Byte>): Option<A>
    decreases |s|
  {
    if s == [] then Some(acc)
    else
      match ParseField(s)
      case Stop => Some(acc)
      case Oversize => None
      case Field(num, body, size) =>
        var next := apply(acc, num, body);
        if next.None? then None else Fold(apply, next.value, s[size..])
  }

  /** s is a whole number of fields. */
  predicate WellFormed(s: seq<Byte>)
    decreases |s|
  {
    s == [] || (ParseField(s).Field? && WellFormed(s[ParseField(s).size..]))
  }

  // ---------------------------------------------------------------------------
  // Fields are self-delimiting
  // ---------------------------------------------------------------------------

  lemma BodyLocal(num: nat, wireType: nat, s: seq<Byte>, rest: seq<Byte>)
    requires ParseBody(num, wireType, s).Field?
    ensures ParseBody(num, wireType, s + rest) == ParseBody(num, wireType, s)
  {
    if wireType == 0 || wireType == 2 {
      DecodedLocal(s, rest);
      var (length, n) := Decoded(s);
      if wireType == 2 {
        assert (s + rest)[n..n + length] == s[n..n + length];
      }
    }
  }

  lemma FieldLocal(s: seq<Byte>, rest: seq<Byte>)
    requires ParseField(s).Field?
    ensures ParseField(s + rest) == ParseField(s)
  {
    DecodedLocal(s, rest);
    var (tag, n) := Decoded(s);
    assert (s + rest)[n..] == s[n..] + rest;
    BodyLocal(tag / 8, tag % 8, s[n..], rest);
  }

  /** One leading field is applied first, whatever follows it. */
  lemma FoldCons<A>(apply: (A, nat, Body) -> Option<A>, acc: A, x: seq<Byte>, rest: seq<Byte>)
    requires ParseField(x).Field? && ParseField(x).size == |x|
    ensures var next := apply(acc, ParseField(x).num, ParseField(x).body);
      Fold(apply, acc, x + rest) == if next.None? then None else Fold(apply, next.value, rest)
  {
    FieldLocal(x, rest);
    assert (x + rest)[|x|..] == rest;
  }

  /** Decoding a message is decoding its first fields and continuing from there. */
  lemma {:induction false} FoldSplit<A>(apply: (A, nat, Body) -> Option<A>, acc: A, a: seq<Byte>, b: seq<Byte>)
    requires WellFormed(a)
    ensures Fold(apply, acc, a + b) ==
            var first := Fold(apply, acc, a);
            if first.None? then None else Fold(apply, first.value, b)
    decreases |a|
  {
    if a == [] {
      assert a + b == b;
    } else {
      var p := ParseField(a);
      FieldLocal(a, b);
      assert (a + b)[p.size..] == a[p.size..] + b;
      var next := apply(acc, p.num, p.body);
      if next.Some? {
        FoldSplit(apply, next.value, a[p.size..], b);
      }
    }
  }

  /** A field that the decoder ignores changes nothing at any field boundary. */
  lemma IgnoredFieldAnywhere<A>(apply: (A, nat, Body) -> Option<A>, acc: A, a: seq<Byte>, x: seq<Byte>, b: seq<Byte>)
    requires WellFormed(a)
    requires ParseField(x).Field? && ParseField(x).size == |x|
    requires forall acc' :: apply(acc', ParseField(x).num, ParseField(x).body) == Some(acc')
    ensures Fold(apply, acc, a + x + b) == Fold(apply, acc, a + b)
  {
    assert a + x + b == a + (x + b);
    FoldSplit(apply, acc, a, x + b);
    FoldSplit(apply, acc, a, b);
    var first := Fold(apply, acc, a);
    if first.Some? {
      FoldCons(apply, first.value, x, b);
    }
  }

  // ---------------------------------------------------------------------------
  // The decoder loops advance a position through the message
  // ---------------------------------------------------------------------------

  /** The loop has consumed data[..pos] and holds acc; a skip may run past the end. */
  ghost predicate At<A(!new)>(apply: (A, nat, Body) -> Option<A>, start: A, data: seq<Byte>, acc: A, pos: nat) {
    Fold(apply, start, data) == if pos <= |data| then Fold(apply, acc, data[pos..]) else Some(acc)
  }

  lemma AtStart<A(!new)>(apply: (A, nat, Body) -> Option<A>, start: A, data: seq<Byte>)
    ensures At(apply, start, data, start, 0)
  {
    assert data[0..] == data;
  }

  lemma AtEnd<A(!new)>(apply: (A, nat, Body) -> Option<A>, start: A, data: seq<Byte>, acc: A, pos: nat)
    requires At(apply, start, data, acc, pos) && pos >= |data|
    ensures Fold(apply, start, data) == Some(acc)
  {
  }

  lemma AtStop<A(!new)>(apply: (A, nat, Body) -> Option<A>, start: A, data: seq<Byte>, acc: A, pos: nat)
    requires At(apply, start, data, acc, pos) && pos < |data|
    requires !ParseField(data[pos..]).Field?
    ensures Fold(apply, start, data) == if ParseField(data[pos..]).Stop? then Some(acc) else None
  {
  }

  lemma AtField<A(!new)>(apply: (A, nat, Body) -> Option<A>, start: A, data: seq<Byte>, acc: A, pos: nat)
    requires At(apply, start, data, acc, pos) && pos < |data|
    requires ParseField(data[pos..]).Field?
    ensures var p := ParseField(data[pos..]);
      var next := apply(acc, p.num, p.body);
      && 0 < p.size <= |data| - pos
      && (next.None? ==> Fold(apply, start, data) == None)
      && (next.Some? ==> At(apply, start, data, next.value, pos + p.size))
  {
    hide ParseField;
    var p := ParseField(data[pos..]);
    assert data[pos..][p.size..] == data[pos + p.size..];
  }

  /** The sum of ints, wrapped to 64 bits in two's complement. */
  function Int64(x: int): int {
    var u := x % TWO64;
    if u < TWO64 / 2 then u else u - TWO64
  }

  /** Short of the wrap the sum is exact, and from 2^63 on a length takes the position backwards. */
  lemma Int64Is(start: nat, length: nat)
    requires start < TWO64 / 2 && length < TWO64
    ensures start + length < TWO64 / 2 ==> Int64(start + length) == start + length
    ensures length >= TWO64 / 2 ==> Int64(start + length) < start
  {
  }

  /** skipField: the position behind the field, or -1. */
  method SkipField(data: seq<Byte>, start: nat, wireType: nat) returns (next: int)
    requires start <= |data|
    ensures wireType == 1 ==> next == start + 8
    ensures wireType == 5 ==> next == start + 4
    ensures wireType == 2 ==>
              var (length, n) := Decoded(data[start..]);
              && next == (if n == 0 then -1 else Int64(start + n + length))
              && (n > 0 && start + n + length < TWO64 / 2 ==> next == start + n + length)
              && (n > 0 && start + n < TWO64 / 2 <= length ==> next < start + n)
    ensures wireType == 0 && next >= 0 ==>
              && start < next <= |data| && data[next - 1] < 128
              && forall i | start <= i < next - 1 :: data[i] >= 128
    ensures wireType == 0 && next < 0 ==> next == -1 && forall i | start <= i < |data| :: data[i] >= 128
    ensures wireType !in {0, 1, 2, 5} ==> next == -1
  {
    if wireType == 0 {
      var pos := start;
      while pos < |data|
        invariant start <= pos <= |data|
        invariant forall i | start <= i < pos :: data[i] >= 128
      {
        if data[pos] < 128 {
          return pos + 1;
        }
        pos := pos + 1;
      }
      return -1;
    } else if wireType == 1 {
      return start + 8;
    } else if wireType == 2 {
      var length, n := DecodeVarint(data[start..]);
      if n == 0 {
        return -1;
      }
      if start + n < TWO64 / 2 {
        Int64Is(start + n, length);
      }
      return Int64(start + n + length);
    } else if wireType == 5 {
      return start + 4;
    }
    return -1;
  }

  /**
    Reads the field at pos: the tag, then the body by wire type. The decoders of the source
    repeat this code; wire types they do not read themselves go through skipField.
   */
  method ReadField(data: seq<Byte>, pos: nat) returns (p: Parse)
    requires pos < |data|
    ensures p == ParseField(data[pos..])
  {
    var s := data[pos..];
    var tag, n := DecodeVarint(s);
    if n == 0 {
      return Stop;
    }
    p := ReadBody(tag / 8, tag % 8, s[n..]);
    if p.Field? {
      p := p.(size := n + p.size);
    }
  }

  method ReadBody(num: nat, wireType: nat, s: seq<Byte>) returns (p: Parse)
    ensures p == ParseBody(num, wireType, s)
  {
    if wireType == 0 {
      var val, n := DecodeVarint(s);
      return if n == 0 then Stop else Field(num, Word(val), n);
    }
    if wireType == 2 {
      var length, n := DecodeVarint(s);
      if n == 0 {
        return Stop;
      }
      if length >= HUGE {
        return Oversize;
      }
      if n + length > |s| {
        return Stop;
      }
      return Field(num, Bytes(s[n..n + length]), n + length);
    }
    if wireType == 5 {
      return if |s| < 4 then Stop else Field(num, Fixed32(LittleEndian32(s)), 4);
    }
    var next := SkipField(s, 0, wireType);
    return if next < 0 || next > |s| then Stop else Field(num, Fixed64, next);
  }

  // ---------------------------------------------------------------------------
  // Encoders
  // ---------------------------------------------------------------------------

  function Fixed32Bytes(u: nat): (s: seq<Byte>)
    requires u < TWO32
    ensures |s| == 4
  {
    [u % 256, u / 256 % 256, u / 65536 % 256, u / 16777216]
  }

  /** encodeVarintField. */
  function VarintField(num: nat, v: nat): seq<Byte> {
    Encoded(num * 8) + Encoded(v)
  }

  /** encodeLengthDelimited. */
  function BytesField(num: nat, data: seq<Byte>): seq<Byte> {
    Encoded(num * 8 + 2) + Encoded(|data|) + data
  }

  /** encodeFixed32Field. */
  function Fixed32Field(num: nat, u: nat): seq<Byte>
    requires u < TWO32
  {
    Encoded(num * 8 + 5) + Fixed32Bytes(u)
  }

  lemma TagParts(num: nat, wireType: nat)
    requires wireType < 8
    ensures (num * 8 + wireType) / 8 == num && (num * 8 + wireType) % 8 == wireType
  {
  }

  lemma Fixed32RoundTrip(u: nat, rest: seq<Byte>)
    requires u < TWO32
    ensures LittleEndian32(Fixed32Bytes(u) + rest) == u
  {
    var s := Fixed32Bytes(u) + rest;
    var a, b, c := u / 256, u / 256 / 256, u / 256 / 256 / 256;
    assert u / 65536 == b && u / 16777216 == c;
    assert s[3] == c && s[2] == b % 256 && s[1] == a % 256 && s[0] == u % 256;
  }

  lemma VarintFieldParses(num: nat, v: nat)
    requires num * 8 < TWO64 && v < TWO64
    ensures ParseField(VarintField(num, v)) == Field(num, Word(v), |VarintField(num, v)|)
  {
    var x := VarintField(num, v);
    RoundTrip(num * 8, Encoded(v));
    TagParts(num, 0);
    assert x[|Encoded(num * 8)|..] == Encoded(v) == Encoded(v) + [];
    RoundTrip(v, []);
  }

  lemma BytesFieldParses(num: nat, data: seq<Byte>)
    requires num * 8 + 2 < TWO64 && |data| < HUGE
    ensures ParseField(BytesField(num, data)) == Field(num, Bytes(data), |BytesField(num, data)|)
  {
    var tag, x := num * 8 + 2, BytesField(num, data);
    assert x == Encoded(tag) + (Encoded(|data|) + data);
    RoundTrip(tag, Encoded(|data|) + data);
    TagParts(num, 2);
    var tail := x[|Encoded(tag)|..];
    assert tail == Encoded(|data|) + data;
    RoundTrip(|data|, data);
    var n := |Encoded(|data|)|;
    assert tail[n..n + |data|] == data;
  }

  lemma Fixed32FieldParses(num: nat, u: nat)
    requires num * 8 + 5 < TWO64 && u < TWO32
    ensures ParseField(Fixed32Field(num, u)) == Field(num, Fixed32(u), |Fixed32Field(num, u)|)
  {
    var tag, x := num * 8 + 5, Fixed32Field(num, u);
    RoundTrip(tag, Fixed32Bytes(u));
    TagParts(num, 5);
    assert x[|Encoded(tag)|..] == Fixed32Bytes(u) == Fixed32Bytes(u) + [];
    Fixed32RoundTrip(u, []);
  }

  lemma FoldEmpty<A>(apply: (A, nat, Body) -> Option<A>, acc: A)
    ensures Fold(apply, acc, []) == Some(acc)
  {
  }

  /** A leading encoded field is applied to the accumulator. */
  lemma FoldWord<A>(apply: (A, nat, Body) -> Option<A>, acc: A, num: nat, v: nat, rest: seq<Byte>)
    requires num * 8 < TWO64 && v < TWO64
    ensures Fold(apply, acc, VarintField(num, v) + rest) ==
            var next := apply(acc, num, Word(v));
            if next.None? then None else Fold(apply, next.value, rest)
  {
    VarintFieldParses(num, v);
    FoldCons(apply, acc, VarintField(num, v), rest);
  }

  lemma FoldBytes<A>(apply: (A, nat, Body) -> Option<A>, acc: A, num: nat, data: seq<Byte>, rest: seq<Byte>)
    requires num * 8 + 2 < TWO64 && |data| < HUGE
    ensures Fold(apply, acc, BytesField(num, data) + rest) ==
            var next := apply(acc, num, Bytes(data));
            if next.None? then None else Fold(apply, next.value, rest)
  {
    BytesFieldParses(num, data);
    FoldCons(apply, acc, BytesField(num, data), rest);
  }

  lemma FoldFixed32<A>(apply: (A, nat, Body) -> Option<A>, acc: A, num: nat, u: nat, rest: seq<Byte>)
    requires num * 8 + 5 < TWO64 && u < TWO32
    ensures Fold(apply, acc, Fixed32Field(num, u) + rest) ==
            var next := apply(acc, num, Fixed32(u));
            if next.None? then None else Fold(apply, next.value, rest)
  {
    Fixed32FieldParses(num, u);
    FoldCons(apply, acc, Fixed32Field(num, u), rest);
  }

  /** encodeVarintField, encodeLengthDelimited and encodeFixed32Field as written: tag, then body. */
  method EncodeVarintField(num: nat, v: nat) returns (out: seq<Byte>)
    requires num * 8 < TWO64 && v < TWO64
    ensures out == VarintField(num, v)
    ensures ParseField(out) == Field(num, Word(v), |out|)
  {
    VarintFieldParses(num, v);
    var tag := EncodeVarint(num * 8);
    var word := EncodeVarint(v);
    out := tag + word;
  }

  method EncodeLengthDelimited(num: nat, data: seq<Byte>) returns (out: seq<Byte>)
    requires num * 8 + 2 < TWO64 && |data| < HUGE
    ensures out == BytesField(num, data)
    ensures ParseField(out) == Field(num, Bytes(data), |out|)
  {
    BytesFieldParses(num, data);
    var tag := EncodeVarint(num * 8 + 2);
    var length := EncodeVarint(|data|);
    out := tag + length + data;
  }

  method EncodeFixed32Field(num: nat, u: nat) returns (out: seq<Byte>)
    requires num * 8 + 5 < TWO64 && u < TWO32
    ensures out == Fixed32Field(num, u)
    ensures ParseField(out) == Field(num, Fixed32(u), |out|)
  {
    Fixed32FieldParses(num, u);
    var tag := EncodeVarint(num * 8 + 5);
    out := tag + Fixed32Bytes(u);
  }
}
