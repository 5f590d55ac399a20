/** Bytes, byte buffers, bitwise XOR and the 64-bit words the parity kernel works on. */
module Bytes {

  type Byte = x: nat | x < 0x100

  const CHUNK_SIZE: nat := 4096
  const WORD_SIZE: nat := 8

  /** First byte of sector n. */
  function AtSector(n: nat): nat { n * 512 }

  /** First byte of 64-bit word n. */
  function AtWord(n: nat): nat { n * 8 }

  /** The buffer after a memcpy of data to position at. */
  function Splice<T>(buf: seq<T>, at: nat, data: seq<T>): (r: seq<T>)
    requires at + |data| <= |buf|
    ensures |r| == |buf|
    ensures forall i :: 0 <= i < |buf| ==> r[i] == if at <= i < at + |data| then data[i - at] else buf[i]
  {
    buf[..at] + data + buf[at + |data|..]
  }

  // ----- bitwise XOR

  /** XOR of two machine words of any width, bit by bit from the low end. */
  function Xor(a: nat, b: nat): nat {
    if a == 0 && b == 0 then 0 else (a + b) % 2 + 2 * Xor(a / 2, b / 2)
  }

  lemma XorOfBytes(a: nat, b: nat, bits: nat, bound: nat)
    requires bound == Pow2(bits) && a < bound && b < bound
    ensures Xor(a, b) < bound
  {
    if bits > 0 && (a > 0 || b > 0) {
      XorOfBytes(a / 2, b / 2, bits - 1, bound / 2);
    }
  }

  function Pow2(n: nat): nat {
    if n == 0 then 1 else 2 * Pow2(n - 1)
  }

  function ByteXor(a: Byte, b: Byte): Byte {
    assert Pow2(8) == 0x100;
    XorOfBytes(a, b, 8, 0x100);
    Xor(a, b)
  }

  lemma {:induction false} XorCommutes(a: nat, b: nat)
    ensures Xor(a, b) == Xor(b, a)
  {
    if a != 0 || b != 0 { XorCommutes(a / 2, b / 2); }
  }

  lemma {:induction false} XorZero(a: nat)
    ensures Xor(a, 0) == a
  {
    if a != 0 { XorZero(a / 2); }
  }

  lemma {:induction false} XorSelf(a: nat)
    ensures Xor(a, a) == 0
  {
    if a != 0 { XorSelf(a / 2); }
  }

  lemma HalvesOf(bit: nat, half: nat)
    requires bit < 2
    ensures (bit + 2 * half) % 2 == bit && (bit + 2 * half) / 2 == half
  {}

  lemma XorHalves(a: nat, b: nat)
    ensures Xor(a, b) == (a + b) % 2 + 2 * Xor(a / 2, b / 2)
    ensures Xor(a, b) % 2 == (a + b) % 2 && Xor(a, b) / 2 == Xor(a / 2, b / 2)
  {
    HalvesOf((a + b) % 2, Xor(a / 2, b / 2));
  }

  lemma {:induction false} XorAssociates(a: nat, b: nat, c: nat)
    ensures Xor(Xor(a, b), c) == Xor(a, Xor(b, c))
    decreases a + b + c
  {
    if a + b + c > 0 {
      hide Xor;
      XorAssociates(a / 2, b / 2, c / 2);
      XorHalves(a, b);
      XorHalves(b, c);
      XorHalves(Xor(a, b), c);
      XorHalves(a, Xor(b, c));
      SameLowBit(a, b, c, Xor(a, b), Xor(b, c));
    }
  }

  lemma SameLowBit(a: nat, b: nat, c: nat, ab: nat, bc: nat)
    requires ab % 2 == (a + b) % 2 && bc % 2 == (b + c) % 2
    ensures (ab + c) % 2 == (a + bc) % 2
  {}

  lemma XorRegroup(a: Byte, b: Byte, c: Byte)
    ensures ByteXor(ByteXor(a, b), c) == ByteXor(a, ByteXor(b, c))
    ensures ByteXor(a, b) == ByteXor(b, a)
    ensures ByteXor(ByteXor(a, b), c) == ByteXor(ByteXor(a, c), b)
    ensures ByteXor(ByteXor(a, b), b) == a
    ensures ByteXor(a, 0) == a
  {
    XorAssociates(a, b, c);
    XorAssociates(a, c, b);
    XorCommutes(a, b);
    XorCommutes(b, c);
    XorAssociates(a, b, b);
    XorSelf(b);
    XorZero(a);
  }

  lemma XorIsZero(a: Byte, c: Byte)
    ensures ByteXor(a, c) == 0 <==> a == c
  {
    if ByteXor(a, c) == 0 {
      XorRegroup(a, c, c);
      XorCommutes(0, c);
      XorZero(c);
    } else if a == c {
      XorSelf(a);
    }
  }

  lemma XorRewire(a: Byte, x: Byte, y: Byte)
    ensures ByteXor(a, y) == ByteXor(ByteXor(a, x), ByteXor(x, y))
  {
    XorRegroup(ByteXor(a, x), x, y);
    XorRegroup(a, x, x);
  }

  lemma XorShuffle(a: Byte, b: Byte, x: Byte, y: Byte)
    ensures ByteXor(ByteXor(a, b), ByteXor(x, y)) == ByteXor(ByteXor(a, x), ByteXor(b, y))
  {
    XorRegroup(ByteXor(a, b), x, y);
    XorRegroup(a, b, x);
    XorRegroup(ByteXor(a, x), b, y);
  }

  // ----- 64-bit little-endian words

  const U64_RANGE: nat := 0x1_0000_0000_0000_0000
  type U64 = x: nat | x < U64_RANGE

  function WordXor(a: U64, b: U64): U64 {
    Pow2Of64();
    XorOfBytes(a, b, 64, U64_RANGE);
    Xor(a, b)
  }

  lemma Pow2Sum(m: nat, n: nat)
    ensures Pow2(m + n) == Pow2(m) * Pow2(n)
  {
    if m > 0 {
      Pow2Sum(m - 1, n);
      assert Pow2(m + n) == 2 * (Pow2(m - 1) * Pow2(n));
    }
  }

  lemma Pow2Of64()
    ensures Pow2(64) == U64_RANGE
  {
    assert Pow2(8) == 0x100;
    Pow2Sum(8, 8);
    Pow2Sum(16, 16);
    Pow2Sum(32, 32);
  }

  /** The word a load finds in the bytes. */
  function FromBytes(s: seq<Byte>): nat {
    if s == [] then 0 else s[0] + 0x100 * FromBytes(s[1..])
  }

  /** The n bytes a store of the word writes. */
  function ToBytes(w: nat, n: nat): (r: seq<Byte>)
    ensures |r| == n
  {
    if n == 0 then [] else [w % 0x100] + ToBytes(w / 0x100, n - 1)
  }

  /** A store of a load puts the same bytes back. */
  lemma {:induction false} StoreOfLoad(s: seq<Byte>)
    ensures ToBytes(FromBytes(s), |s|) == s
  {
    if s != [] {
      StoreOfLoad(s[1..]);
      var high := FromBytes(s[1..]);
      assert (s[0] + 0x100 * high) % 0x100 == s[0] && (s[0] + 0x100 * high) / 0x100 == high;
    }
  }

  /** A load of n bytes fits in 8n bits. */
  lemma {:induction false} LoadFits(s: seq<Byte>)
    ensures FromBytes(s) < Pow2(8 * |s|)
  {
    if s != [] {
      LoadFits(s[1..]);
      var n := 8 * (|s| - 1);
      assert Pow2(n + 8) == 2 * Pow2(n + 7) == 4 * Pow2(n + 6) == 8 * Pow2(n + 5);
      assert Pow2(n + 5) == 2 * Pow2(n + 4) == 4 * Pow2(n + 3) == 8 * Pow2(n + 2);
      assert Pow2(n + 2) == 2 * Pow2(n + 1) == 4 * Pow2(n);
    }
  }

  function Shl(x: nat, bits: nat): nat {
    if bits == 0 then x else 2 * Shl(x, bits - 1)
  }

  /** XOR splits at a bit boundary. */
  lemma {:induction false} XorSplits(bits: nat, a: nat, b: nat, c: nat, d: nat)
    requires a < Pow2(bits) && b < Pow2(bits)
    ensures Xor(a + Shl(c, bits), b + Shl(d, bits)) == Xor(a, b) + Shl(Xor(c, d), bits)
  {
    hide Xor;
    if bits == 0 {
      XorZero(0);
    } else {
      XorSplits(bits - 1, a / 2, b / 2, c, d);
      XorSplitsStep(a, b, Shl(c, bits - 1), Shl(d, bits - 1), Shl(Xor(c, d), bits - 1));
    }
  }

  lemma ShlByte(x: nat)
    ensures Shl(x, 8) == 0x100 * x
  {
    assert Shl(x, 8) == 2 * Shl(x, 7) == 4 * Shl(x, 6) == 8 * Shl(x, 5);
    assert Shl(x, 5) == 2 * Shl(x, 4) == 4 * Shl(x, 3) == 8 * Shl(x, 2);
    assert Shl(x, 2) == 2 * Shl(x, 1) == 4 * Shl(x, 0);
  }

  lemma XorSplitsStep(a: nat, b: nat, hc: nat, hd: nat, hx: nat)
    requires Xor(a / 2 + hc, b / 2 + hd) == Xor(a / 2, b / 2) + hx
    ensures Xor(a + 2 * hc, b + 2 * hd) == Xor(a, b) + 2 * hx
  {
    hide Xor;
    var x, y := a + 2 * hc, b + 2 * hd;
    EvenPart(a, hc);
    EvenPart(b, hd);
    EvenPart(a + b, hc + hd);
    assert x + y == a + b + 2 * (hc + hd);
    XorHalves(x, y);
    XorHalves(a, b);
  }

  lemma EvenPart(a: nat, h: nat)
    ensures (a + 2 * h) / 2 == a / 2 + h && (a + 2 * h) % 2 == a % 2
  {}

  function Xors(s: seq<Byte>, t: seq<Byte>): (r: seq<Byte>)
    requires |s| == |t|
    ensures |r| == |s|
  {
    seq(|s|, x requires 0 <= x < |s| => ByteXor(s[x], t[x]))
  }

  /** XOR of words is XOR of their bytes, lane by lane. */
  lemma {:induction false} WordXorIsByteXor(s: seq<Byte>, t: seq<Byte>)
    requires |s| == |t|
    ensures Xor(FromBytes(s), FromBytes(t)) == FromBytes(Xors(s, t))
  {
    if s != [] {
      WordXorIsByteXor(s[1..], t[1..]);
      assert Xors(s, t)[1..] == Xors(s[1..], t[1..]);
      assert Pow2(8) == 0x100;
      var hs, ht := FromBytes(s[1..]), FromBytes(t[1..]);
      XorSplits(8, s[0], t[0], hs, ht);
      ShlByte(hs);
      ShlByte(ht);
      ShlByte(Xor(hs, ht));
    }
  }

  // ----- XOR over a list of bytes

  function XorSum(xs: seq<Byte>): Byte {
    if xs == [] then 0 else ByteXor(XorSum(xs[..|xs| - 1]), xs[|xs| - 1])
  }

  /** Taking one byte out of a list takes exactly that byte out of the sum. */
  lemma {:induction false} XorSumRemove(xs: seq<Byte>, k: nat)
    requires k < |xs|
    ensures XorSum(xs) == ByteXor(XorSum(xs[..k] + xs[k + 1..]), xs[k])
  {
    var n := |xs| - 1;
    var rest := xs[..k] + xs[k + 1..];
    if k == n {
      assert rest == xs[..n];
    } else {
      var front := xs[..n];
      XorSumRemove(front, k);
      assert front[..k] + front[k + 1..] == rest[..n - 1];
      assert rest[n - 1] == xs[n];
      XorRegroup(XorSum(rest[..n - 1]), xs[k], xs[n]);
    }
  }

  lemma {:induction false} XorSumUpdate(xs: seq<Byte>, k: nat, v: Byte)
    requires k < |xs|
    ensures XorSum(xs[k := v]) == ByteXor(XorSum(xs), ByteXor(xs[k], v))
  {
    var ys := xs[k := v];
    assert xs[..k] + xs[k + 1..] == ys[..k] + ys[k + 1..];
    XorSumRemove(xs, k);
    XorSumRemove(ys, k);
    XorRewire(XorSum(xs[..k] + xs[k + 1..]), xs[k], v);
  }

  lemma {:induction false} XorSumZero(xs: seq<Byte>)
    requires forall k :: 0 <= k < |xs| ==> xs[k] == 0
    ensures XorSum(xs) == 0
  {
    if xs != [] { XorSumZero(xs[..|xs| - 1]); }
  }

  lemma {:induction false} XorSumAppend(xs: seq<Byte>, ys: seq<Byte>)
    ensures XorSum(xs + ys) == ByteXor(XorSum(xs), XorSum(ys))
  {
    var n := |ys| - 1;
    if ys == [] {
      assert xs + ys == xs;
      XorRegroup(XorSum(xs), 0, 0);
    } else {
      assert (xs + ys)[..|xs + ys| - 1] == xs + ys[..n];
      XorSumAppend(xs, ys[..n]);
      XorRegroup(XorSum(xs), XorSum(ys[..n]), ys[n]);
    }
  }

  lemma {:induction false} XorSumPairwise(xs: seq<Byte>, ys: seq<Byte>, zs: seq<Byte>)
    requires |xs| == |ys| == |zs|
    requires forall k :: 0 <= k < |xs| ==> zs[k] == ByteXor(xs[k], ys[k])
    ensures XorSum(zs) == ByteXor(XorSum(xs), XorSum(ys))
  {
    if xs != [] {
      var n := |xs| - 1;
      XorSumPairwise(xs[..n], ys[..n], zs[..n]);
      XorShuffle(XorSum(xs[..n]), XorSum(ys[..n]), xs[n], ys[n]);
    }
  }
}
