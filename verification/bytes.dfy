// Byte strings as numbers, in both byte orders, and 64-bit words read from
// and written to eight bytes.
module Bytes {
  import opened Words

  // Big-endian value.
  function Value(bs: seq<byte>): nat
  {
    if bs == [] then 0 else 256 * Value(bs[..|bs| - 1]) + bs[|bs| - 1]
  }

  // Little-endian value.
  function LeValue(bs: seq<byte>): nat
  {
    if bs == [] then 0 else bs[0] + 256 * LeValue(bs[1..])
  }

  // The low `len` big-endian bytes of n.
  function BeBytes(n: nat, len: nat): (bs: seq<byte>)
    ensures |bs| == len
    decreases len
  {
    if len == 0 then [] else BeBytes(n / 256, len - 1) + [n % 256]
  }

  function Reverse(bs: seq<byte>): (r: seq<byte>)
    ensures |r| == |bs|
  {
    if bs == [] then [] else Reverse(bs[1..]) + [bs[0]]
  }

  function Pow256(n: nat): (p: nat) ensures p > 0 { if n == 0 then 1 else 256 * Pow256(n - 1) }

  /* Big-endian values */

  lemma ValueSnoc(bs: seq<byte>, b: byte)
    ensures Value(bs + [b]) == 256 * Value(bs) + b
  {
    assert (bs + [b])[..|bs|] == bs;
  }

  lemma {:induction false} ValueConcat(a: seq<byte>, b: seq<byte>)
    ensures Value(a + b) == Value(a) * Pow256(|b|) + Value(b)
  {
    if b == [] {
      assert a + b == a;
    } else {
      hide Value;
      var k := |b| - 1;
      assert a + b == (a + b[..k]) + [b[k]];
      ValueSnoc(a + b[..k], b[k]);
      ValueConcat(a, b[..k]);
      ValueSnoc(b[..k], b[k]);
      assert b[..k] + [b[k]] == b;
      assert 256 * (Value(a) * Pow256(k)) == Value(a) * Pow256(|b|);
    }
  }

  lemma {:induction false} ValueBound(bs: seq<byte>)
    ensures Value(bs) < Pow256(|bs|)
  {
    if bs != [] { ValueBound(bs[..|bs| - 1]); }
  }

  // Equally long strings with the same value are the same string.
  lemma {:induction false} ValueInjective(a: seq<byte>, b: seq<byte>)
    requires |a| == |b| && Value(a) == Value(b)
    ensures a == b
  {
    if a != [] {
      var k := |a| - 1;
      ValueInjective(a[..k], b[..k]);
      assert a == a[..k] + [a[k]] && b == b[..k] + [b[k]];
    }
  }

  lemma {:induction false} ValueBeBytes(n: nat, len: nat)
    ensures Value(BeBytes(n, len)) == n % Pow256(len)
    decreases len
  {
    if len > 0 {
      ValueBeBytes(n / 256, len - 1);
      ValueSnoc(BeBytes(n / 256, len - 1), n % 256);
      ModStep(n, Pow256(len - 1));
    }
  }

  lemma ModStep(n: nat, p: nat)
    requires p > 0
    ensures n % (256 * p) == 256 * (n / 256 % p) + n % 256
  {
    var q, r := n / 256 / p, n / 256 % p;
    assert n == 256 * (q * p + r) + n % 256;
    assert n == q * (256 * p) + (256 * r + n % 256) by { assert 256 * (q * p) == q * (256 * p); }
    ModUnique(n, 256 * p, q, 256 * r + n % 256);
  }

  lemma LargeMultiple(d: int, m: int)
    requires d != 0 && m >= 0
    ensures d * m >= m || d * m <= -m
  {
    if d > 0 {
      assert d * m == (d - 1) * m + m;
      Product(d - 1, m);
    } else {
      assert d * m == -((-d - 1) * m) - m;
      Product(-d - 1, m);
    }
  }

  lemma Product(a: int, b: int) requires a >= 0 && b >= 0 ensures a * b >= 0 {}

  lemma ModSmall(n: nat, p: nat) requires n < p ensures n % p == n {}

  lemma ModUnique(n: nat, m: nat, q: nat, r: nat)
    requires m > 0 && r < m && n == q * m + r
    ensures n % m == r && n / m == q
  {
    var d := n / m - q;
    assert d * m == r - n % m by { assert d * m == (n / m) * m - q * m; }
    if d != 0 { LargeMultiple(d, m); }
  }

  lemma {:induction false} BeBytesValue(bs: seq<byte>)
    ensures BeBytes(Value(bs), |bs|) == bs
  {
    hide BeBytes, Value;
    ValueBeBytes(Value(bs), |bs|);
    ValueBound(bs);
    ModSmall(Value(bs), Pow256(|bs|));
    ValueInjective(BeBytes(Value(bs), |bs|), bs);
  }

  /* The other byte order */

  lemma ReverseCons(bs: seq<byte>)
    requires bs != []
    ensures Reverse(bs) == Reverse(bs[1..]) + [bs[0]] && LeValue(bs) == bs[0] + 256 * LeValue(bs[1..])
  {
  }

  lemma {:induction false} ValueReverse(bs: seq<byte>)
    ensures Value(Reverse(bs)) == LeValue(bs)
  {
    if bs != [] {
      hide Value, Reverse, LeValue;
      ReverseCons(bs);
      ValueReverse(bs[1..]);
      ValueSnoc(Reverse(bs[1..]), bs[0]);
    }
  }

  lemma {:induction false} NatBitByte(b: byte, n: nat, j: nat, k: nat)
    requires j <= 8 && b < Pow2(j)
    ensures NatBit(b + Pow2(j) * n, k) <==> if k < j then NatBit(b, k) else NatBit(n, k - j)
    decreases j
  {
    if j > 0 {
      assert Pow2(j) * n == 2 * (Pow2(j - 1) * n);
      if k > 0 {
        assert (b + Pow2(j) * n) / 2 == b / 2 + Pow2(j - 1) * n;
        NatBitByte(b / 2, n, j - 1, k - 1);
      }
    }
  }

  // Digit z of a little-endian number is bit z % 8 of byte z / 8.
  lemma {:induction false} LeValueBit(bs: seq<byte>, z: nat)
    requires z < 8 * |bs|
    ensures NatBit(LeValue(bs), z) <==> NatBit(bs[z / 8], z % 8)
  {
    assert Pow2(8) == 256;
    NatBitByte(bs[0], LeValue(bs[1..]), 8, z);
    if z >= 8 {
      LeValueBit(bs[1..], z - 8);
    }
  }

  /* Words as eight bytes */

  function Bits64(v: bv64): (s: seq<bool>)
    ensures |s| == 64
  {
    seq(64, z requires 0 <= z < 64 => Bit(v, z))
  }

  // The number a word holds.
  function ValueOf(v: bv64): (n: u64)
    ensures Word(n) == v
  {
    hide Word, Bit;
    var s := Bits64(v);
    NatOfBitsBound(s);
    Pow2Of63();
    WordOfBits(s, v);
    NatOfBits(s)
  }

  lemma ValueOfWord(n: u64) ensures ValueOf(Word(n)) == n
  {
    hide Word;
    WordOrder(ValueOf(Word(n)), n);
  }

  // u64::from_be_bytes and u64::from_le_bytes
  function FromBe(bs: seq<byte>): bv64 requires |bs| == 8 { Word(Value(bs)) }
  function FromLe(bs: seq<byte>): bv64 requires |bs| == 8 { Word(LeValue(bs)) }

  // u64::to_be_bytes and u64::to_le_bytes
  function ToBe(v: bv64): (bs: seq<byte>) ensures |bs| == 8 { BeBytes(ValueOf(v), 8) }
  function ToLe(v: bv64): (bs: seq<byte>) ensures |bs| == 8 { Reverse(ToBe(v)) }

  lemma {:induction false} ReverseAt(bs: seq<byte>, k: nat)
    requires k < |bs|
    ensures Reverse(bs)[k] == bs[|bs| - 1 - k]
  {
    if k < |bs| - 1 { ReverseAt(bs[1..], k); }
  }

  lemma ReverseTwice(bs: seq<byte>) ensures Reverse(Reverse(bs)) == bs
  {
    forall k | 0 <= k < |bs| ensures Reverse(Reverse(bs))[k] == bs[k]
    {
      ReverseAt(Reverse(bs), k); ReverseAt(bs, |bs| - 1 - k);
    }
  }

  lemma Pow256Of8() ensures Pow256(8) == TWO64
  {
    assert Pow256(2) == 0x1_0000;
    assert Pow256(4) == 0x1_0000_0000;
    assert Pow256(6) == 0x1_0000_0000_0000;
  }

  // Reading eight bytes and writing the word back is the identity, both ways.
  lemma BeRoundTrip(bs: seq<byte>, v: bv64)
    requires |bs| == 8
    ensures ToBe(FromBe(bs)) == bs
    ensures FromBe(ToBe(v)) == v
  {
    hide Word, ValueOf, Value, BeBytes, Pow256;
    Pow256Of8();
    ValueBound(bs);
    ValueOfWord(Value(bs));
    BeBytesValue(bs);
    ValueBeBytes(ValueOf(v), 8);
  }

  lemma LeRoundTrip(bs: seq<byte>, v: bv64)
    requires |bs| == 8
    ensures ToLe(FromLe(bs)) == bs
    ensures FromLe(ToLe(v)) == v
  {
    hide Word, ValueOf;
    ValueReverse(bs);
    BeRoundTrip(Reverse(bs), v);
    ReverseTwice(bs);
    ReverseTwice(ToBe(v));
    ValueReverse(ToLe(v));
  }

  /* bswap64 */

  function Or(x: bv64, y: bv64): bv64 { x | y }

  function Shl(w: bv64, k: nat): bv64
    decreases k
  {
    if k == 0 then w else Twice(Shl(w, k - 1))
  }

  lemma PushOr(x: bv64, y: bv64, low: bool) ensures Push(Or(x, y), low) == Or(Twice(x), Push(y, low))
  {
    hide Twice, WithLow, Or;
    TwiceOr(x, y); LowOr(Twice(x), Twice(y));
  }

  lemma TwiceOr(x: bv64, y: bv64) ensures Twice(Or(x, y)) == Or(Twice(x), Twice(y)) {}
  lemma LowOr(x: bv64, y: bv64) ensures WithLow(Or(x, y)) == Or(x, WithLow(y)) {}

  lemma OrZero(x: bv64) ensures Or(x, Word(0)) == x {}

  lemma {:induction false} WordJoin(n: nat, b: nat, k: nat)
    requires b < Pow2(k)
    ensures Word(Pow2(k) * n + b) == Or(Shl(Word(n), k), Word(b))
    decreases k
  {
    hide Push, Twice, Word, Or;
    if k == 0 {
      OrZero(Word(n));
    } else {
      var m := Pow2(k - 1) * n + b / 2;
      assert Pow2(k) * n == 2 * (Pow2(k - 1) * n);
      assert (Pow2(k) * n + b) / 2 == m && (Pow2(k) * n + b) % 2 == b % 2;
      WordPush(Pow2(k) * n + b);
      WordJoin(n, b / 2, k - 1);
      PushOr(Shl(Word(n), k - 1), Word(b / 2), b % 2 == 1);
      WordPush(b);
    }
  }

  function Lift(w: bv64): bv64 { w << 8 }

  lemma Twice8(w: bv64)
    ensures Twice(Twice(Twice(Twice(Twice(Twice(Twice(Twice(w)))))))) == Lift(w) {}

  lemma Shl8(w: bv64) ensures Shl(w, 8) == Lift(w)
  {
    hide Twice, Lift;
    Twice8(w);
    assert Shl(w, 2) == Twice(Twice(w));
    assert Shl(w, 4) == Twice(Twice(Shl(w, 2)));
    assert Shl(w, 6) == Twice(Twice(Shl(w, 4)));
    assert Shl(w, 8) == Twice(Twice(Shl(w, 6)));
  }

  function LowOnes(k: nat): bv64
    requires k <= 8
  {
    if k == 0 then 0 else if k == 1 then 1 else if k == 2 then 3 else if k == 3 then 7 else if k == 4 then 0xf
    else if k == 5 then 0x1f else if k == 6 then 0x3f else if k == 7 then 0x7f else 0xff
  }

  predicate Fits(w: bv64, k: nat) requires k <= 8 { w & LowOnes(k) == w }

  predicate IsByte(w: bv64) { w & 0xff == w }

  lemma PushFits(w: bv64, low: bool, k: nat)
    requires k < 8 && Fits(w, k)
    ensures Fits(Push(w, low), k + 1) {}

  lemma {:induction false} WordFits(b: nat, k: nat)
    requires k <= 8 && b < Pow2(k)
    ensures Fits(Word(b), k)
    decreases k
  {
    if k > 0 {
      hide Word, Push, Fits;
      WordPush(b); WordFits(b / 2, k - 1); PushFits(Word(b / 2), b % 2 == 1, k - 1);
    }
  }

  lemma FitsIsByte(w: bv64) requires Fits(w, 8) ensures IsByte(w) {}

  lemma WordIsByte(b: byte) ensures IsByte(Word(b))
  {
    hide Word, IsByte, Fits;
    Pow2Of8(); WordFits(b, 8); FitsIsByte(Word(b));
  }

  function Snoc(w: bv64, b: bv64): bv64 { Or(Lift(w), b) }

  function Join8(a: bv64, b: bv64, c: bv64, d: bv64, e: bv64, f: bv64, g: bv64, h: bv64): bv64
  {
    Snoc(Snoc(Snoc(Snoc(Snoc(Snoc(Snoc(a, b), c), d), e), f), g), h)
  }

  lemma Pow2Of8() ensures Pow2(8) == 256 {}

  lemma WordSnoc(n: nat, b: byte) ensures Word(256 * n + b) == Snoc(Word(n), Word(b))
  {
    hide Word, Or, Pow2, Shl, Lift;
    Pow2Of8();
    assert Pow2(8) * n == 256 * n;
    WordJoin(n, b, 8);
    Shl8(Word(n));
  }

  lemma FromBeJoin(bs: seq<byte>)
    requires |bs| == 8
    ensures FromBe(bs) == Join8(Word(bs[0]), Word(bs[1]), Word(bs[2]), Word(bs[3]),
                                Word(bs[4]), Word(bs[5]), Word(bs[6]), Word(bs[7]))
  {
    hide Word, Snoc, Value;
    PrefixValue(bs, 8); PrefixValue(bs, 7); PrefixValue(bs, 6); PrefixValue(bs, 5);
    PrefixValue(bs, 4); PrefixValue(bs, 3); PrefixValue(bs, 2); PrefixValue(bs, 1);
    assert bs[..8] == bs;
  }

  lemma PrefixValue(bs: seq<byte>, k: nat)
    requires 1 <= k <= |bs|
    ensures Word(Value(bs[..k])) == if k == 1 then Word(bs[0]) else Snoc(Word(Value(bs[..k - 1])), Word(bs[k - 1]))
  {
    hide Word;
    assert bs[..k] == bs[..k - 1] + [bs[k - 1]];
    ValueSnoc(bs[..k - 1], bs[k - 1]);
    WordSnoc(Value(bs[..k - 1]), bs[k - 1]);
  }

  lemma FromLeReverse(bs: seq<byte>)
    requires |bs| == 8
    ensures FromLe(bs) == FromBe(Reverse(bs))
  {
    ValueReverse(bs);
  }

  // Byte swapping as the kernel writes it: three rounds of masked shifts.
  function Swap8(v: bv64): bv64 { ((v >> 8) & 0x00FF00FF00FF00FF) | ((v & 0x00FF00FF00FF00FF) << 8) }
  function Swap16(v: bv64): bv64 { ((v >> 16) & 0x0000FFFF0000FFFF) | ((v & 0x0000FFFF0000FFFF) << 16) }
  function Swap32(v: bv64): bv64 { (v >> 32) | (v << 32) }

  lemma SwapJoin(a: bv64, b: bv64, c: bv64, d: bv64, e: bv64, f: bv64, g: bv64, h: bv64)
    requires IsByte(a) && IsByte(b) && IsByte(c) && IsByte(d) && IsByte(e) && IsByte(f) && IsByte(g) && IsByte(h)
    ensures Swap32(Swap16(Swap8(Join8(a, b, c, d, e, f, g, h)))) == Join8(h, g, f, e, d, c, b, a) {}

  lemma SwapFromBe(bs: seq<byte>)
    requires |bs| == 8
    ensures Swap32(Swap16(Swap8(FromBe(bs)))) == FromLe(bs)
  {
    hide Swap8, Swap16, Swap32, Word, Join8, IsByte, Value, LeValue;
    FromLeReverse(bs);
    FromBeJoin(bs); FromBeJoin(Reverse(bs));
    WordIsByte(bs[0]); WordIsByte(bs[1]); WordIsByte(bs[2]); WordIsByte(bs[3]);
    WordIsByte(bs[4]); WordIsByte(bs[5]); WordIsByte(bs[6]); WordIsByte(bs[7]);
    SwapJoin(Word(bs[0]), Word(bs[1]), Word(bs[2]), Word(bs[3]), Word(bs[4]), Word(bs[5]), Word(bs[6]), Word(bs[7]));
    ReverseAt(bs, 0); ReverseAt(bs, 1); ReverseAt(bs, 2); ReverseAt(bs, 3);
    ReverseAt(bs, 4); ReverseAt(bs, 5); ReverseAt(bs, 6); ReverseAt(bs, 7);
  }

  // The word with the eight bytes in the opposite order.
  function Swapped(v: bv64): bv64 { FromLe(ToBe(v)) }

  lemma SwapIsSwapped(v: bv64) ensures Swap32(Swap16(Swap8(v))) == Swapped(v)
  {
    hide Swap8, Swap16, Swap32, Word, Value, LeValue, BeBytes;
    BeRoundTrip(ToBe(v), v);
    SwapFromBe(ToBe(v));
  }
}
