/**
  Pre-shared keys and the one-byte channel hash a radio puts on the wire
  (internal/fleetsec/keys.go). The fingerprint is kept abstract: every member
  that needs it takes it as a function.
 */
module Keys {
  import opened Prelude

  type Psk = seq<Byte>

  /** A fingerprint: the leading bits of the key's digest, or the empty string. */
  datatype Fp = Blank | Fp(bits: nat)

  /** ValidatePSK: no encryption, AES-128 or AES-256. Length 1 is reserved by the firmware. */
  predicate ValidPskLength(psk: Psk) {
    |psk| == 0 || |psk| == 16 || |psk| == 32
  }

  /** Bitwise exclusive or, bit by bit from the lowest. */
  function Xor(a: nat, b: nat): nat
    decreases a + b
  {
    if a == 0 && b == 0 then 0 else (a + b) % 2 + 2 * Xor(a / 2, b / 2)
  }

  lemma {:induction false} XorOfBytes(a: nat, b: nat, bound: nat)
    requires a < Pow2(bound) && b < Pow2(bound)
    ensures Xor(a, b) < Pow2(bound)
    decreases bound
  {
    if a == 0 && b == 0 {
    } else {
      XorOfBytes(a / 2, b / 2, bound - 1);
    }
  }

  function XorByte(a: Byte, b: Byte): Byte {
    XorOfBytes(a, b, 8);
    assert Pow2(8) == 256 by {
      assert Pow2(4) == 16;
    }
    Xor(a, b)
  }

  lemma {:induction false} XorZero(a: nat)
    ensures Xor(a, 0) == a == Xor(0, a)
  {
    if a > 0 {
      XorZero(a / 2);
    }
  }

  lemma {:induction false} XorSelf(a: nat)
    ensures Xor(a, a) == 0
  {
    if a > 0 {
      XorSelf(a / 2);
    }
  }

  lemma {:induction false} XorCommutes(a: nat, b: nat)
    ensures Xor(a, b) == Xor(b, a)
    decreases a + b
  {
    if a > 0 || b > 0 {
      XorCommutes(a / 2, b / 2);
    }
  }

  lemma BitAndRest(bit: nat, rest: nat)
    requires bit < 2
    ensures (bit + 2 * rest) % 2 == bit && (bit + 2 * rest) / 2 == rest
  {
  }

  /** The lowest bit and the remaining bits of an exclusive or. */
  lemma {:induction false} XorHalves(a: nat, b: nat)
    ensures Xor(a, b) % 2 == (a + b) % 2
    ensures Xor(a, b) / 2 == Xor(a / 2, b / 2)
  {
    if a > 0 || b > 0 {
      BitAndRest((a + b) % 2, Xor(a / 2, b / 2));
    }
  }

  lemma ParityAssociates(a: nat, b: nat, c: nat, ab: nat, bc: nat)
    requires ab % 2 == (a + b) % 2 && bc % 2 == (b + c) % 2
    ensures (a + bc) % 2 == (ab + c) % 2
  {
  }

  lemma SameHalves(x: nat, y: nat)
    requires x % 2 == y % 2 && x / 2 == y / 2
    ensures x == y
  {
  }

  lemma {:induction false} XorAssociates(a: nat, b: nat, c: nat)
    ensures Xor(a, Xor(b, c)) == Xor(Xor(a, b), c)
    decreases a + b + c
  {
    if a + b + c > 0 {
      XorAssociates(a / 2, b / 2, c / 2);
      XorAssociatesStep(a, b, c);
    }
  }

  lemma {:induction false} XorAssociatesStep(a: nat, b: nat, c: nat)
    requires Xor(a / 2, Xor(b / 2, c / 2)) == Xor(Xor(a / 2, b / 2), c / 2)
    ensures Xor(a, Xor(b, c)) == Xor(Xor(a, b), c)
  {
    var bc, ab := Xor(b, c), Xor(a, b);
    XorHalves(b, c);
    XorHalves(a, b);
    XorHalves(a, bc);
    XorHalves(ab, c);
    ParityAssociates(a, b, c, ab, bc);
    SameHalves(Xor(a, bc), Xor(ab, c));
  }

  /** Exclusive or of all bytes, folded from the left. */
  function XorAll(s: seq<Byte>): Byte {
    if s == [] then 0 else XorByte(XorAll(s[..|s| - 1]), s[|s| - 1])
  }

  /** The wire hash of a channel: exclusive or of the name and key bytes. */
  function Hash(name: seq<Byte>, psk: Psk): Byte {
    XorByte(XorAll(name), XorAll(psk))
  }

  /** The hash of a key on an unnamed channel, the only kind the rotation writes. */
  function WireHash(psk: Psk): Byte {
    Hash([], psk)
  }

  /** The two accumulation loops of ChannelHash. */
  method ChannelHash(name: seq<Byte>, psk: Psk) returns (h: Byte)
    ensures h == Hash(name, psk)
  {
    h := 0;
    for i := 0 to |name|
      invariant h == XorAll(name[..i])
    {
      assert name[..i + 1][..i] == name[..i];
      h := XorByte(h, name[i]);
    }
    assert name[..|name|] == name;
    XorZero(XorAll(name));
    for i := 0 to |psk|
      invariant h == XorByte(XorAll(name), XorAll(psk[..i]))
    {
      assert psk[..i + 1][..i] == psk[..i];
      XorAssociates(XorAll(name), XorAll(psk[..i]), psk[i]);
      h := XorByte(h, psk[i]);
    }
    assert psk[..|psk|] == psk;
  }

  lemma {:induction false} XorAllConcat(s: seq<Byte>, t: seq<Byte>)
    ensures XorAll(s + t) == XorByte(XorAll(s), XorAll(t))
  {
    if t == [] {
      assert s + t == s;
      XorZero(XorAll(s));
    } else {
      var front, last := t[..|t| - 1], t[|t| - 1];
      assert (s + t)[..|s + t| - 1] == s + front;
      XorAllConcat(s, front);
      XorAssociates(XorAll(s), XorAll(front), last);
    }
  }

  /** The hash does not see where the name ends and the key begins, nor their order. */
  lemma HashIsOneXor(name: seq<Byte>, psk: Psk)
    ensures Hash(name, psk) == XorAll(name + psk) == Hash(psk, name)
  {
    XorAllConcat(name, psk);
    XorCommutes(XorAll(name), XorAll(psk));
  }

  /** Changing one byte of a key always changes its hash. */
  lemma HashSeesOneByte(psk: Psk, i: nat, b: Byte)
    requires i < |psk| && psk[i] != b
    ensures WireHash(psk[i := b]) != WireHash(psk)
  {
    var pre, post := psk[..i], psk[i + 1..];
    assert psk == pre + [psk[i]] + post && psk[i := b] == pre + [b] + post;
    HashSplit(pre, psk[i], post);
    HashSplit(pre, b, post);
    var rest := XorByte(XorAll(pre), XorAll(post));
    if XorByte(rest, psk[i]) == XorByte(rest, b) {
      XorCancels(rest, psk[i], b);
    }
  }

  lemma XorCancels(r: nat, a: nat, b: nat)
    requires Xor(r, a) == Xor(r, b)
    ensures a == b
  {
    XorAssociates(r, r, a);
    XorAssociates(r, r, b);
    XorSelf(r);
    XorZero(a);
    XorZero(b);
  }

  lemma HashSplit(pre: seq<Byte>, x: Byte, post: seq<Byte>)
    ensures WireHash(pre + [x] + post) == XorByte(XorByte(XorAll(pre), XorAll(post)), x)
  {
    XorZero(XorAll(pre + [x] + post));
    XorAllConcat(pre + [x], post);
    XorAllConcat(pre, [x]);
    XorZero(x);
    var a, c := XorAll(pre), XorAll(post);
    assert XorAll([x]) == XorByte(XorAll([]), x) == x;
    XorAssociates(a, x, c);
    XorCommutes(x, c);
    XorAssociates(a, c, x);
  }

  /** The fingerprint identifies every key that occurs. */
  ghost predicate InjectiveOn(fp: Psk -> Fp, keys: set<Psk>) {
    forall p, q | p in keys && q in keys && fp(p) == fp(q) :: p == q
  }
}
