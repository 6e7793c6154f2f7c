/**
  Base 128 varints (internal/serial/framing.go:417-443), as in "Base 128 Varints" of the
  Protocol Buffers encoding specification. Machine words are naturals below a power of two.
 */
module Varint {
  import opened Prelude

  const TWO64 := 0x1_0000_0000_0000_0000

  /** The longest varint a 64-bit word needs. */
  const MAX_LEN := 10

  /** Seven bits at a time, least significant first; every byte but the last has its top bit set. */
  function Encoded(v: nat): (s: seq<Byte>)
    ensures |s| > 0
  {
    if v < 128 then [v] else [v % 128 + 128] + Encoded(v / 128)
  }

  /** The number that the low seven bits of the bytes spell, least significant first. */
  function Value(s: seq<Byte>): nat {
    if s == [] then 0 else s[0] % 128 + 128 * Value(s[1..])
  }

  /** The first byte from i on without the continuation bit, among the first ten. */
  function Terminator(s: seq<Byte>, i: nat): (t: Option<nat>)
    ensures t.Some? ==> i <= t.value < |s| && t.value < MAX_LEN
    decreases |s| - i
  {
    if i >= |s| || i >= MAX_LEN then None
    else if s[i] < 128 then Some(i)
    else Terminator(s, i + 1)
  }

  /** The decoded word and the bytes consumed; (0, 0) when the input holds no varint. */
  function Decoded(s: seq<Byte>): (r: (nat, nat))
    ensures r.0 < TWO64
    ensures r.1 <= |s| && r.1 <= MAX_LEN
  {
    var t := Terminator(s, 0);
    if t.None? then (0, 0) else (Value(s[..t.value + 1]) % TWO64, t.value + 1)
  }

  // ---------------------------------------------------------------------------
  // Round trip
  // ---------------------------------------------------------------------------

  /** 128^n. */
  function Weight(n: nat): (w: nat)
    ensures w >= 1
  {
    if n == 0 then 1 else 128 * Weight(n - 1)
  }

  lemma TenSeptets()
    ensures Weight(9) * 2 == TWO64
    ensures Weight(9) == 0x8000_0000_0000_0000
  {
    assert Weight(3) == 2097152;
    assert Weight(6) == 4398046511104 by {
      assert Weight(5) == 128 * Weight(4) && Weight(4) == 128 * Weight(3);
    }
    assert Weight(9) == 128 * Weight(8) && Weight(8) == 128 * Weight(7) && Weight(7) == 128 * Weight(6);
  }

  lemma {:induction false} EncodedLength(v: nat, n: nat)
    requires 1 <= n && v < 2 * Weight(n - 1)
    ensures |Encoded(v)| <= n
  {
    if v >= 128 {
      assert n > 1;
      EncodedLength(v / 128, n - 1);
    }
  }

  lemma {:induction false} EncodedValue(v: nat)
    ensures Value(Encoded(v)) == v
  {
    if v >= 128 {
      EncodedValue(v / 128);
      var s := Encoded(v);
      assert s[1..] == Encoded(v / 128);
    }
  }

  lemma {:induction false} EncodedTerminates(v: nat, s: seq<Byte>, i: nat, rest: seq<Byte>)
    requires i <= |s| && s[i..] == Encoded(v) + rest
    requires i + |Encoded(v)| <= MAX_LEN
    ensures Terminator(s, i) == Some(i + |Encoded(v)| - 1)
    decreases v
  {
    assert s[i] == s[i..][0] == Encoded(v)[0];
    if v >= 128 {
      assert s[i + 1..] == s[i..][1..] == Encoded(v / 128) + rest;
      EncodedTerminates(v / 128, s, i + 1, rest);
    }
  }

  /** Decoding undoes encoding for every 64-bit word, whatever follows. */
  lemma RoundTrip(v: nat, rest: seq<Byte>)
    requires v < TWO64
    ensures Decoded(Encoded(v) + rest) == (v, |Encoded(v)|)
    ensures |Encoded(v)| <= MAX_LEN
  {
    TenSeptets();
    EncodedLength(v, MAX_LEN);
    var s := Encoded(v) + rest;
    assert s[0..] == s;
    EncodedTerminates(v, s, 0, rest);
    assert s[..|Encoded(v)|] == Encoded(v);
    EncodedValue(v);
  }

  /** A varint is self-delimiting: bytes after it do not change how it is read. */
  lemma {:induction false} TerminatorLocal(s: seq<Byte>, rest: seq<Byte>, i: nat)
    requires Terminator(s, i).Some?
    ensures Terminator(s + rest, i) == Terminator(s, i)
    decreases |s| - i
  {
    if s[i] >= 128 {
      TerminatorLocal(s, rest, i + 1);
    }
  }

  lemma DecodedLocal(s: seq<Byte>, rest: seq<Byte>)
    requires Decoded(s).1 > 0
    ensures Decoded(s + rest) == Decoded(s)
  {
    TerminatorLocal(s, rest, 0);
    var n := Decoded(s).1;
    assert (s + rest)[..n] == s[..n];
  }

  // ---------------------------------------------------------------------------
  // The loops
  // ---------------------------------------------------------------------------

  lemma {:induction false} ValueAppend(s: seq<Byte>, b: Byte)
    ensures Value(s + [b]) == Value(s) + b % 128 * Weight(|s|)
  {
    if s == [] {
      assert s + [b] == [b];
      assert Value([b]) == b % 128 + 128 * Value([b][1..]);
    } else {
      assert (s + [b])[1..] == s[1..] + [b];
      ValueAppend(s[1..], b);
      DistributeByte(s[0] % 128, Value(s[1..]), b % 128, Weight(|s| - 1));
    }
  }

  lemma DistributeByte(low: nat, high: nat, d: nat, w: nat)
    ensures low + 128 * (high + d * w) == low + 128 * high + d * (128 * w)
  {
    assert 128 * (d * w) == d * (128 * w);
  }

  lemma {:induction false} ValueBound(s: seq<Byte>)
    ensures Value(s) < Weight(|s|)
  {
    if s != [] {
      ValueBound(s[1..]);
    }
  }

  /** One septet less to write: n of at most ten are done and v is what remains. */
  lemma RoomShrinks(v: nat, n: nat)
    requires n <= 9 && v < 2 * Weight(9 - n) && v >= 128
    ensures n < 9 && v / 128 < 2 * Weight(9 - (n + 1))
  {
    if n < 9 {
      QuotientBelow(v, Weight(9 - (n + 1)));
    }
  }

  lemma QuotientBelow(v: nat, w: nat)
    requires v < 2 * (128 * w)
    ensures v / 128 < 2 * w
  {
  }

  lemma EncodedUnfolds(v: nat)
    ensures Encoded(v) == if v < 128 then [v] else [v % 128 + 128] + Encoded(v / 128)
  {
  }

  /** encodeVarint: fills a ten-byte buffer and returns the part in use. */
  method EncodeVarint(val: nat) returns (out: seq<Byte>)
    requires val < TWO64
    ensures out == Encoded(val)
  {
    hide Weight, Encoded;
    var buf := new Byte[MAX_LEN](_ => 0);
    var v: nat, n: nat := val, 0;
    TenSeptets();
    while v >= 128
      invariant 0 <= n <= 9 && v < 2 * Weight(9 - n)
      invariant Encoded(val) == buf[..n] + Encoded(v)
      decreases v
    {
      RoomShrinks(v, n);
      EncodedUnfolds(v);
      buf[n] := v % 128 + 128;
      assert buf[..n + 1] == buf[..n] + [v % 128 + 128];
      v := v / 128;
      n := n + 1;
    }
    EncodedUnfolds(v);
    buf[n] := v;
    assert buf[..n + 1] == buf[..n] + [v];
    out := buf[..n + 1];
  }

  /** Below the tenth byte nothing wraps. */
  lemma {:induction false} SmallSeptet(s: seq<Byte>, b: Byte)
    requires |s| <= 8
    ensures Value(s) + b % 128 * Weight(|s|) < Weight(9)
  {
    ValueAppend(s, b);
    ValueBound(s + [b]);
    WeightGrows(|s| + 1, 9);
  }

  lemma {:induction false} WeightGrows(a: nat, b: nat)
    requires a <= b
    ensures Weight(a) <= Weight(b)
  {
    if a < b {
      WeightGrows(a, b - 1);
    }
  }

  /** At the tenth byte only the lowest bit of the septet survives. */
  lemma TenthSeptet(v: nat, d: nat)
    requires v < TWO64 / 2 && d < 128
    ensures v + d * (TWO64 / 2) % TWO64 == (v + d * (TWO64 / 2)) % TWO64
  {
    var h := TWO64 / 2;
    var q, r := d / 2, d % 2;
    assert d * h == q * TWO64 + r * h;
    ModOf(q, r * h);
    ModOf(q, v + r * h);
  }

  lemma ModOf(q: nat, r: nat)
    requires r < TWO64
    ensures (q * TWO64 + r) % TWO64 == r
  {
  }

  lemma Wraps(s: seq<Byte>, d: Byte)
    requires |s| <= 9 && d < 128
    ensures Value(s) < TWO64
    ensures Value(s) + d * Weight(|s|) % TWO64 == (Value(s) + d * Weight(|s|)) % TWO64
  {
    hide Value, Weight;
    TenSeptets();
    ValueBound(s);
    WeightGrows(|s|, 9);
    if |s| == 9 {
      LastSeptet(Value(s), d);
    } else {
      SmallSeptet(s, d);
      SmallProduct(Value(s), d * Weight(|s|));
    }
  }

  lemma LastSeptet(v: nat, d: nat)
    requires v < Weight(9) && d < 128
    ensures v + d * Weight(9) % TWO64 == (v + d * Weight(9)) % TWO64
  {
    TenSeptets();
    TenthSeptet(v, d);
  }

  lemma SmallProduct(v: nat, x: nat)
    requires v + x < TWO64
    ensures v + x % TWO64 == (v + x) % TWO64
  {
  }

  /** Bitwise or, bit by bit from the lowest. */
  function Or(a: nat, b: nat): nat
    decreases a + b
  {
    if a == 0 && b == 0 then 0 else (if a % 2 == 1 || b % 2 == 1 then 1 else 0) + 2 * Or(a / 2, b / 2)
  }

  lemma {:induction false} OrZero(b: nat)
    ensures Or(0, b) == b
  {
    if b > 0 {
      OrZero(b / 2);
    }
  }

  lemma EvenProduct(d: nat, p: nat)
    ensures d * (2 * p) % 2 == 0 && d * (2 * p) / 2 == d * p
  {
    assert d * (2 * p) == 2 * (d * p);
  }

  /** Numbers without a common bit: the or is the sum. */
  lemma {:induction false} OrDisjoint(a: nat, d: nat, k: nat)
    requires a < Pow2(k)
    ensures Or(a, d * Pow2(k)) == a + d * Pow2(k)
  {
    if k == 0 {
      OrZero(d);
      assert d * Pow2(0) == d;
    } else {
      var b := d * Pow2(k);
      EvenProduct(d, Pow2(k - 1));
      OrDisjoint(a / 2, d, k - 1);
      assert b / 2 == d * Pow2(k - 1) && b % 2 == 0;
      OrHalves(a, b);
    }
  }

  lemma OrHalves(a: nat, b: nat)
    requires b % 2 == 0
    ensures Or(a, b) == a % 2 + 2 * Or(a / 2, b / 2)
  {
  }

  lemma {:induction false} WeightIsPow2(n: nat)
    ensures Weight(n) == Pow2(7 * n)
  {
    if n > 0 {
      WeightIsPow2(n - 1);
      var k := 7 * (n - 1);
      assert Pow2(k + 1) == 2 * Pow2(k) && Pow2(k + 2) == 2 * Pow2(k + 1) && Pow2(k + 3) == 2 * Pow2(k + 2);
      assert Pow2(k + 4) == 2 * Pow2(k + 3) && Pow2(k + 5) == 2 * Pow2(k + 4);
      assert Pow2(k + 6) == 2 * Pow2(k + 5) && Pow2(k + 7) == 2 * Pow2(k + 6);
    }
  }

  /** val | septet << shift on 64-bit words. */
  function Accumulated(val: nat, septet: Byte, weight: nat): nat {
    Or(val, septet * weight % TWO64)
  }

  /** The bits shifted in lie above those already there, also when the tenth septet loses its upper ones. */
  lemma ShiftedIn(s: seq<Byte>, d: Byte)
    requires |s| <= 9 && d < 128
    ensures Accumulated(Value(s), d, Weight(|s|)) == Value(s) + d * Weight(|s|) % TWO64
  {
    hide Value, Weight, Or, Pow2;
    var n := |s|;
    ValueBound(s);
    WeightIsPow2(n);
    TenSeptets();
    if n == 9 {
      TopSeptet(d);
      OrDisjoint(Value(s), d % 2, 63);
    } else {
      SmallSeptet(s, d);
      WeightGrows(n, 9);
      SmallIsSame(d * Weight(n));
      OrDisjoint(Value(s), d, 7 * n);
    }
  }

  lemma SmallIsSame(x: nat)
    requires x < TWO64
    ensures x % TWO64 == x
  {
  }

  lemma TopSeptet(d: nat)
    ensures d * (TWO64 / 2) % TWO64 == d % 2 * (TWO64 / 2)
  {
    var q, r := d / 2, d % 2;
    assert d * (TWO64 / 2) == q * TWO64 + r * (TWO64 / 2);
    ModOf(q, r * (TWO64 / 2));
  }

  lemma SumBelow(s: seq<Byte>)
    requires |s| <= 9
    ensures Value(s) < TWO64 && Value(s) % TWO64 == Value(s)
  {
    TenSeptets();
    ValueBound(s);
    WeightGrows(|s|, 9);
  }

  lemma Accumulates(s: seq<Byte>, b: Byte, d: Byte)
    requires |s| <= 9 && d == b % 128
    ensures Accumulated(Value(s), d, Weight(|s|)) == Value(s + [b]) % TWO64
  {
    hide Value, Weight;
    assert Value(s + [b]) == Value(s) + d * Weight(|s|) by {
      ValueAppend(s, b);
    }
    Wraps(s, d);
    ShiftedIn(s, d);
  }

  /** decodeVarint. */
  method DecodeVarint(data: seq<Byte>) returns (val: nat, n: nat)
    ensures (val, n) == Decoded(data)
  {
    val := 0;
    var weight := 1;
    var i := 0;
    while i < |data|
      invariant 0 <= i <= |data| && i <= MAX_LEN
      invariant Terminator(data, 0) == Terminator(data, i)
      invariant weight == Weight(i)
      invariant i < MAX_LEN ==> val == Value(data[..i])
    {
      if i >= MAX_LEN {
        return 0, 0;
      }
      var b := data[i];
      var septet: Byte := b % 128;
      Accumulates(data[..i], b, septet);
      assert data[..i + 1] == data[..i] + [b];
      val := Accumulated(val, septet, weight);
      if b < 128 {
        return val, i + 1;
      }
      weight := weight * 128;
      i := i + 1;
      if i < MAX_LEN {
        SumBelow(data[..i]);
      }
    }
    return 0, 0;
  }
}
