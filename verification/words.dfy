// 64-bit lanes, single-bit rotation, bits, and the value of a word.
//
// Lanes are `bv64`; every other unsigned integer of the programs is an `int`
// with an explicit range, and `Word` is the conversion between the two.
module Words {
  const TWO64: nat := 0x1_0000_0000_0000_0000

  type byte = b: int | 0 <= b < 256

  type u64 = n: int | 0 <= n < TWO64

  function Max(a: nat, b: nat): nat { if a < b then b else a }

  predicate Ascending(cs: seq<u64>) { forall i, j :: 0 <= i <= j < |cs| ==> cs[i] <= cs[j] }

  predicate AtMost(cs: seq<u64>, n: nat) { forall i :: 0 <= i < |cs| ==> cs[i] <= n }

  lemma AscendingMore(cs: seq<u64>, h: u64)
    requires Ascending(cs) && AtMost(cs, h)
    ensures Ascending(cs + [h]) && AtMost(cs + [h], h)
  {
  }

  // One step of a left rotation: the top bit comes back at the bottom.
  function RotateOnce(v: bv64): bv64 { (v << 1) | (v >> 63) }

  // The OpenCL built-in `rotate`: n single steps.
  function Rotate(v: bv64, n: nat): bv64
    decreases n
  {
    if n == 0 then v else RotateOnce(Rotate(v, n - 1))
  }

  predicate Meets(v: bv64, m: bv64) { v & m != 0 }

  predicate Bit(v: bv64, z: nat) { Meets(v, Rotate(1, z)) }

  function Twice(w: bv64): bv64 { w << 1 }

  function WithLow(w: bv64): bv64 { w | 1 }

  // Doubling a word: the new bit 0 is `low`, the others move up.
  function Push(w: bv64, low: bool): bv64 { if low then WithLow(Twice(w)) else Twice(w) }

  // The low 64 bits of n.
  function Word(n: nat): bv64
  {
    if n == 0 then 0 else Push(Word(n / 2), n % 2 == 1)
  }

  predicate Below(v: bv64, w: bv64) { v < w }

  predicate TopIsClear(w: bv64) { w >> 63 == 0 }

  predicate Even(w: bv64) { w & 1 == 0 }

  predicate NatBit(n: nat, z: nat)
  {
    if z == 0 then n % 2 == 1 else NatBit(n / 2, z - 1)
  }

  // The number whose k-th binary digit is s[k].
  function NatOfBits(s: seq<bool>): nat
  {
    if s == [] then 0 else (if s[0] then 1 else 0) + 2 * NatOfBits(s[1..])
  }

  function Pow2(n: nat): nat { if n == 0 then 1 else 2 * Pow2(n - 1) }

  /* Rotation */

  lemma {:induction false} RotatePlus(v: bv64, a: nat, b: nat)
    ensures Rotate(Rotate(v, a), b) == Rotate(v, a + b)
    decreases b
  {
    hide RotateOnce;
    if b > 0 { RotatePlus(v, a, b - 1); }
  }

  function By2(v: bv64): bv64 { (v << 2) | (v >> 62) }
  function By4(v: bv64): bv64 { (v << 4) | (v >> 60) }
  function By8(v: bv64): bv64 { (v << 8) | (v >> 56) }
  function By16(v: bv64): bv64 { (v << 16) | (v >> 48) }
  function By32(v: bv64): bv64 { (v << 32) | (v >> 32) }

  lemma Double1(v: bv64) ensures RotateOnce(RotateOnce(v)) == By2(v) {}
  lemma Double2(v: bv64) ensures By2(By2(v)) == By4(v) {}
  lemma Double4(v: bv64) ensures By4(By4(v)) == By8(v) {}
  lemma Double8(v: bv64) ensures By8(By8(v)) == By16(v) {}
  lemma Double16(v: bv64) ensures By16(By16(v)) == By32(v) {}
  lemma Double32(v: bv64) ensures By32(By32(v)) == v {}

  lemma Rotate2(v: bv64) ensures Rotate(v, 2) == By2(v)
  {
    hide RotateOnce, By2;
    assert Rotate(v, 1) == RotateOnce(v);
    Double1(v);
  }

  lemma Rotate8(v: bv64) ensures Rotate(v, 8) == By8(v)
  {
    hide *;
    Rotate2(v); Rotate2(By2(v)); RotatePlus(v, 2, 2); Double2(v);
    Rotate2(By4(v)); Rotate2(By2(By4(v))); RotatePlus(By4(v), 2, 2); Double2(By4(v));
    RotatePlus(v, 4, 4); Double4(v);
  }

  // A full turn is the identity.
  lemma Rotate64(v: bv64) ensures Rotate(v, 64) == v
  {
    hide *;
    var a := By8(v); var b := By16(v); var c := By8(b); var d := By32(v);
    var e := By8(d); var f := By16(d); var g := By8(f);
    Rotate8(v); Rotate8(a); RotatePlus(v, 8, 8); Double8(v);
    Rotate8(b); RotatePlus(v, 16, 8); Rotate8(c); RotatePlus(v, 24, 8); Double8(b); Double16(v);
    Rotate8(d); RotatePlus(v, 32, 8); Rotate8(e); RotatePlus(v, 40, 8); Double8(d);
    Rotate8(f); RotatePlus(v, 48, 8); Rotate8(g); RotatePlus(v, 56, 8); Double8(f); Double16(d); Double32(v);
  }

  function Xor(a: bv64, b: bv64): bv64 { a ^ b }

  lemma OnceXor(a: bv64, b: bv64) ensures RotateOnce(Xor(a, b)) == Xor(RotateOnce(a), RotateOnce(b)) {}

  lemma {:induction false} RotateXor(a: bv64, b: bv64, n: nat)
    ensures Rotate(Xor(a, b), n) == Xor(Rotate(a, n), Rotate(b, n))
    decreases n
  {
    hide RotateOnce, Xor;
    if n > 0 { RotateXor(a, b, n - 1); OnceXor(Rotate(a, n - 1), Rotate(b, n - 1)); }
  }

  /* Bits of words */

  predicate OneHot(m: bv64) { m != 0 && m & (m - 1) == 0 }

  lemma OnceOneHot(m: bv64) requires OneHot(m) ensures OneHot(RotateOnce(m)) {}

  lemma {:induction false} MaskOneHot(z: nat) ensures OneHot(Rotate(1, z))
  {
    if z > 0 {
      hide RotateOnce, OneHot;
      MaskOneHot(z - 1); OnceOneHot(Rotate(1, z - 1));
    }
  }

  lemma MeetsXor(a: bv64, b: bv64, m: bv64)
    requires OneHot(m) ensures Meets(a ^ b, m) <==> (Meets(a, m) != Meets(b, m)) {}
  lemma MeetsAnd(a: bv64, b: bv64, m: bv64)
    requires OneHot(m) ensures Meets(a & b, m) <==> (Meets(a, m) && Meets(b, m)) {}
  lemma MeetsNot(a: bv64, m: bv64)
    requires OneHot(m) ensures Meets(!a, m) <==> !Meets(a, m) {}
  lemma MeetsOnce(a: bv64, m: bv64)
    ensures Meets(RotateOnce(a), RotateOnce(m)) <==> Meets(a, m) {}

  lemma BitXor(a: bv64, b: bv64, z: nat) ensures Bit(a ^ b, z) <==> (Bit(a, z) != Bit(b, z))
  {
    hide Rotate, RotateOnce, OneHot, Meets;
    MaskOneHot(z); MeetsXor(a, b, Rotate(1, z));
  }

  lemma XorBit(a: bv64, b: bv64, z: nat) ensures Bit(Xor(a, b), z) <==> (Bit(a, z) != Bit(b, z))
  {
    hide Bit;
    BitXor(a, b, z);
  }

  lemma BitAnd(a: bv64, b: bv64, z: nat) ensures Bit(a & b, z) <==> (Bit(a, z) && Bit(b, z))
  {
    hide Rotate, RotateOnce, OneHot, Meets;
    MaskOneHot(z); MeetsAnd(a, b, Rotate(1, z));
  }

  lemma BitNot(a: bv64, z: nat) ensures Bit(!a, z) <==> !Bit(a, z)
  {
    hide Rotate, RotateOnce, OneHot, Meets;
    MaskOneHot(z); MeetsNot(a, Rotate(1, z));
  }

  lemma {:induction false} BitShifted(v: bv64, z: nat, n: nat)
    ensures Bit(Rotate(v, n), z + n) <==> Bit(v, z)
    decreases n
  {
    hide RotateOnce, Meets;
    if n > 0 {
      BitShifted(v, z, n - 1);
      MeetsOnce(Rotate(v, n - 1), Rotate(1, z + n - 1));
    }
  }

  lemma BitPeriod(v: bv64, z: nat) ensures Bit(v, z + 64) <==> Bit(v, z)
  {
    hide Rotate, RotateOnce, Meets;
    Rotate64(Rotate(1, z)); RotatePlus(1, z, 64);
  }

  // Rotation moves bit z - n (mod 64) to bit z.
  lemma BitRotate(v: bv64, n: nat, z: nat)
    requires z < 64 && n < 64
    ensures Bit(Rotate(v, n), z) <==> Bit(v, (z - n) % 64)
  {
    hide Rotate, RotateOnce, Meets, Bit;
    if n <= z {
      BitShifted(v, z - n, n);
    } else {
      BitShifted(v, z + 64 - n, n);
      BitPeriod(Rotate(v, n), z);
      assert (z - n) % 64 == z + 64 - n;
    }
  }

  /* The sixty-four masks, as literals */

  function LowMask(j: nat): bv64
    requires j < 8
  {
    if j == 0 then 1 else if j == 1 then 2 else if j == 2 then 4 else if j == 3 then 8
    else if j == 4 then 16 else if j == 5 then 32 else if j == 6 then 64 else 128
  }

  function AtByte(m: bv64, i: nat): bv64
    requires i < 8
  {
    if i == 0 then m else if i == 1 then m << 8 else if i == 2 then m << 16 else if i == 3 then m << 24
    else if i == 4 then m << 32 else if i == 5 then m << 40 else if i == 6 then m << 48 else m << 56
  }

  lemma OnceLow(j: nat) requires j < 7 ensures RotateOnce(LowMask(j)) == LowMask(j + 1) {}
  lemma By8Low(j: nat, i: nat) requires j < 8 && i < 7
    ensures By8(AtByte(LowMask(j), i)) == AtByte(LowMask(j), i + 1) {}

  lemma {:induction false} MaskLow(j: nat)
    requires j < 8
    ensures Rotate(1, j) == LowMask(j)
  {
    hide RotateOnce;
    if j > 0 { MaskLow(j - 1); OnceLow(j - 1); }
  }

  lemma {:induction false} MaskLiteral(i: nat, j: nat)
    requires i < 8 && j < 8
    ensures Rotate(1, 8 * i + j) == AtByte(LowMask(j), i)
    decreases i
  {
    hide Rotate, LowMask, By8;
    if i == 0 {
      MaskLow(j);
    } else {
      hide AtByte;
      MaskLiteral(i - 1, j);
      RotatePlus(1, 8 * (i - 1) + j, 8);
      Rotate8(Rotate(1, 8 * (i - 1) + j));
      By8Low(j, i - 1);
    }
  }

  function FromByte(v: bv64, i: nat): bv64
    requires i < 8
  {
    if i == 0 then v else if i == 1 then v >> 8 else if i == 2 then v >> 16 else if i == 3 then v >> 24
    else if i == 4 then v >> 32 else if i == 5 then v >> 40 else if i == 6 then v >> 48 else v >> 56
  }

  predicate SameBit(v: bv64, w: bv64, j: nat)
    requires j < 8
  {
    Meets(v, LowMask(j)) <==> Meets(w, LowMask(j))
  }

  predicate SameByte(v: bv64, w: bv64) { v & 0xff == w & 0xff }

  lemma MeetsShifted(v: bv64, i: nat, m: bv64)
    requires i < 8 && m & 0xff == m
    ensures Meets(v, AtByte(m, i)) <==> Meets(FromByte(v, i), m) {}

  lemma LowMaskIsByte(j: nat) requires j < 8 ensures LowMask(j) & 0xff == LowMask(j) {}

  lemma MasksToByte(v: bv64, w: bv64)
    requires forall j :: 0 <= j < 8 ==> SameBit(v, w, j)
    ensures SameByte(v, w)
  {
    assert SameBit(v, w, 0) && SameBit(v, w, 1) && SameBit(v, w, 2) && SameBit(v, w, 3);
    assert SameBit(v, w, 4) && SameBit(v, w, 5) && SameBit(v, w, 6) && SameBit(v, w, 7);
  }

  predicate SameByteAt(a: bv64, b: bv64, i: nat)
    requires i < 8
  {
    SameByte(FromByte(a, i), FromByte(b, i))
  }

  lemma BytesToWord(a: bv64, b: bv64)
    requires forall i :: 0 <= i < 8 ==> SameByteAt(a, b, i)
    ensures a == b
  {
    assert SameByteAt(a, b, 0) && SameByteAt(a, b, 1) && SameByteAt(a, b, 2) && SameByteAt(a, b, 3);
    assert SameByteAt(a, b, 4) && SameByteAt(a, b, 5) && SameByteAt(a, b, 6) && SameByteAt(a, b, 7);
  }

  // Two words with the same bits are the same word.
  lemma BitsDetermine(a: bv64, b: bv64)
    requires forall z :: 0 <= z < 64 ==> (Bit(a, z) <==> Bit(b, z))
    ensures a == b
  {
    hide Rotate, LowMask, AtByte, FromByte, Meets, SameByte;
    forall i | 0 <= i < 8 ensures SameByteAt(a, b, i)
    {
      forall j | 0 <= j < 8 ensures SameBit(FromByte(a, i), FromByte(b, i), j)
      {
        MaskLiteral(i, j);
        assert Bit(a, 8 * i + j) <==> Bit(b, 8 * i + j);
        LowMaskIsByte(j);
        MeetsShifted(a, i, LowMask(j)); MeetsShifted(b, i, LowMask(j));
      }
      MasksToByte(FromByte(a, i), FromByte(b, i));
    }
    BytesToWord(a, b);
  }

  /* Words and numbers */

  lemma PushLow(w: bv64, low: bool) ensures Meets(Push(w, low), 1) <==> low {}

  lemma PushHigh(w: bv64, low: bool, m: bv64)
    requires TopIsClear(m)
    ensures Meets(Push(w, low), RotateOnce(m)) <==> Meets(w, m) {}

  lemma MaskBelowTop(i: nat, j: nat)
    requires i < 8 && j < 8 && 8 * i + j < 63
    ensures TopIsClear(AtByte(LowMask(j), i)) {}

  // The bits of Word(n) are the low 64 binary digits of n.
  lemma {:induction false} WordBit(n: nat, z: nat)
    requires z < 64
    ensures Bit(Word(n), z) <==> NatBit(n, z)
    decreases z
  {
    hide RotateOnce, Push, Word, Meets, TopIsClear;
    WordPush(n);
    if z == 0 {
      PushLow(Word(n / 2), n % 2 == 1);
    } else {
      MaskTopClear(z - 1);
      PushHigh(Word(n / 2), n % 2 == 1, Rotate(1, z - 1));
      WordBit(n / 2, z - 1);
    }
  }

  lemma WordPush(n: nat) ensures Word(n) == Push(Word(n / 2), n % 2 == 1) {}

  lemma MaskTopClear(z: nat)
    requires z < 63
    ensures TopIsClear(Rotate(1, z))
  {
    hide Rotate, AtByte, LowMask, TopIsClear;
    MaskLiteral(z / 8, z % 8);
    MaskBelowTop(z / 8, z % 8);
  }

  lemma {:induction false} NatOfBitsBit(s: seq<bool>, z: nat)
    ensures NatBit(NatOfBits(s), z) <==> z < |s| && s[z]
    decreases z
  {
    if s == [] {
      ZeroBit(z);
    } else if z > 0 {
      NatOfBitsBit(s[1..], z - 1);
    }
  }

  lemma {:induction false} ZeroBit(z: nat) ensures !NatBit(0, z)
  {
    if z > 0 { ZeroBit(z - 1); }
  }

  lemma {:induction false} NatOfBitsBound(s: seq<bool>)
    ensures NatOfBits(s) < Pow2(|s|)
  {
    if s != [] { NatOfBitsBound(s[1..]); }
  }

  lemma {:induction false} NatBitAbove(n: nat, z: nat)
    requires n < Pow2(z)
    ensures !NatBit(n, z)
  {
    if z > 0 { NatBitAbove(n / 2, z - 1); }
  }

  lemma {:induction false} Pow2Plus(a: nat, b: nat) ensures Pow2(a + b) == Pow2(a) * Pow2(b)
  {
    if a > 0 { Pow2Plus(a - 1, b); }
  }

  lemma Pow2Of63() ensures Pow2(63) == TWO64 / 2
  {
    assert Pow2(7) == 0x80;
    hide Pow2;
    Pow2Plus(7, 7); Pow2Plus(14, 7); Pow2Plus(21, 21); Pow2Plus(42, 21);
  }

  lemma TopClear(n: nat)
    requires n < TWO64 / 2
    ensures TopIsClear(Word(n))
  {
    Pow2Of63();
    NatBitAbove(n, 63);
    WordBit(n, 63);
    MaskLiteral(7, 7);
    TopBit(Word(n));
  }

  lemma TopBit(w: bv64) ensures Meets(w, AtByte(LowMask(7), 7)) <==> !TopIsClear(w) {}

  lemma TwiceLess(v: bv64, w: bv64)
    requires TopIsClear(v) && TopIsClear(w) && Below(v, w)
    ensures Below(Twice(v), Twice(w)) {}

  lemma TwiceEven(v: bv64) ensures Even(Twice(v)) && Below(Twice(v), WithLow(Twice(v))) {}

  lemma LowRight(x: bv64, y: bv64)
    requires Even(x) && Even(y) && Below(x, y)
    ensures Below(x, WithLow(y)) {}

  lemma LowLeft(x: bv64, y: bv64)
    requires Even(x) && Even(y) && Below(x, y)
    ensures Below(WithLow(x), y) {}

  lemma LowBoth(x: bv64, y: bv64)
    requires Even(x) && Even(y) && Below(x, y)
    ensures Below(WithLow(x), WithLow(y)) {}

  lemma PushLess(v: bv64, w: bv64, low: bool, high: bool)
    requires TopIsClear(v) && TopIsClear(w)
    requires Below(v, w) || (v == w && !low && high)
    ensures Below(Push(v, low), Push(w, high))
  {
    hide Twice, WithLow, TopIsClear, Even, Below;
    TwiceEven(v); TwiceEven(w);
    if Below(v, w) {
      TwiceLess(v, w);
      if low && high { LowBoth(Twice(v), Twice(w)); }
      else if low { LowLeft(Twice(v), Twice(w)); }
      else if high { LowRight(Twice(v), Twice(w)); }
    }
  }

  // Words compare as the numbers they hold.
  lemma {:induction false} WordLess(a: nat, b: nat)
    requires a < b < TWO64
    ensures Below(Word(a), Word(b))
    decreases b
  {
    hide Push, Word, TopIsClear, Below;
    WordPush(a); WordPush(b);
    TopClear(a / 2); TopClear(b / 2);
    if a / 2 < b / 2 { WordLess(a / 2, b / 2); }
    PushLess(Word(a / 2), Word(b / 2), a % 2 == 1, b % 2 == 1);
  }

  lemma BelowStrict(v: bv64, w: bv64) ensures Below(v, w) ==> v != w && !Below(w, v) {}

  lemma WordOrder(a: nat, b: nat)
    requires a < TWO64 && b < TWO64
    ensures Below(Word(a), Word(b)) <==> a < b
    ensures Word(a) == Word(b) <==> a == b
  {
    hide Word, Below;
    BelowStrict(Word(a), Word(b)); BelowStrict(Word(b), Word(a));
    if a < b { WordLess(a, b); } else if b < a { WordLess(b, a); } else { BelowStrict(Word(a), Word(a)); }
  }

  // A word is the number its bits spell.
  lemma WordOfBits(s: seq<bool>, v: bv64)
    requires |s| == 64
    requires forall z :: 0 <= z < 64 ==> (s[z] <==> Bit(v, z))
    ensures Word(NatOfBits(s)) == v
  {
    hide Bit, Word;
    forall z | 0 <= z < 64 ensures Bit(Word(NatOfBits(s)), z) <==> Bit(v, z)
    {
      WordBit(NatOfBits(s), z);
      NatOfBitsBit(s, z);
    }
    BitsDetermine(Word(NatOfBits(s)), v);
  }
}
