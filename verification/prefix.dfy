// random_prefix24: the xorshift generator behind the prefixes of retargeted
// jobs.
module Prefix {
  import opened Words
  import opened Bytes
  import opened Hex
  import opened Mining

  function Up13(x: bv64): bv64 { x << 13 }
  function Down7(x: bv64): bv64 { x >> 7 }
  function Up17(x: bv64): bv64 { x << 17 }

  // x ^ (x << 13), x ^ (x >> 7) and x ^ (x << 17)
  function L13(x: bv64): bv64 { Xor(x, Up13(x)) }
  function R7(x: bv64): bv64 { Xor(x, Down7(x)) }
  function L17(x: bv64): bv64 { Xor(x, Up17(x)) }

  function XorShift(x: bv64): bv64 { L17(R7(L13(x))) }

  const SALT: bv64 := 0x9E37_79B9_7F4A_7C15

  function Seeded(seed: bv64): bv64 { seed ^ SALT }

  // The generator after n rounds.
  function Generator(seed: bv64, n: nat): bv64
    decreases n
  {
    if n == 0 then Seeded(seed) else XorShift(Generator(seed, n - 1))
  }

  // The first n chunks of eight bytes.
  function PrefixChunks(seed: bv64, n: nat): (bs: seq<byte>)
    ensures |bs| == 8 * n
    decreases n
  {
    if n == 0 then [] else PrefixChunks(seed, n - 1) + ToLe(Generator(seed, n))
  }

  function PrefixBytes(seed: bv64): (bs: seq<byte>)
    ensures |bs| == 24
  {
    PrefixChunks(seed, 3)
  }

  // chunk.copy_from_slice for the eight bytes from `at` on.
  method CopyChunk(bytes: array<byte>, at: nat, le: seq<byte>)
    requires at + 8 <= bytes.Length && |le| == 8
    modifies bytes
    ensures bytes[..at + 8] == old(bytes[..at]) + le
    ensures bytes[at + 8..] == old(bytes[at + 8..])
  {
    for i := 0 to 8
      invariant bytes[..at + i] == old(bytes[..at]) + le[..i]
      invariant bytes[at + 8..] == old(bytes[at + 8..])
    {
      bytes[at + i] := le[i];
      assert bytes[..at + i + 1] == bytes[..at + i] + [le[i]];
    }
  }

  method RandomPrefix24(seed: bv64) returns (s: string)
    ensures s == ToHex(PrefixBytes(seed))
  {
    hide L13, R7, L17, Seeded, ToLe;
    var state := Seeded(seed);
    var bytes := new byte[24](_ => 0);
    var k := 0;
    while k < 3
      invariant 0 <= k <= 3
      invariant state == Generator(seed, k)
      invariant bytes[..8 * k] == PrefixChunks(seed, k)
    {
      state := L13(state);
      state := R7(state);
      state := L17(state);
      CopyChunk(bytes, 8 * k, ToLe(state));
      k := k + 1;
    }
    assert bytes[..] == bytes[..24];
    s := "0x";
    s := s + Encode(bytes[..]);
  }

  /* The generator on one clock reading, and where its words go */

  lemma FirstWord() ensures XorShift(Seeded(0)) == 0xdc1b_77ae_0bf3_4dad {}
  lemma SecondWord() ensures XorShift(0xdc1b_77ae_0bf3_4dad) == 0x64f0_eeb9_026e_6076 {}
  lemma ThirdWord() ensures XorShift(0x64f0_eeb9_026e_6076) == 0x7b07_ce91_e590_6136 {}

  lemma ZeroSeed()
    ensures Generator(0, 1) == 0xdc1b_77ae_0bf3_4dad
    ensures Generator(0, 2) == 0x64f0_eeb9_026e_6076
    ensures Generator(0, 3) == 0x7b07_ce91_e590_6136
  {
    hide XorShift, Seeded;
    FirstWord(); SecondWord(); ThirdWord();
    assert Generator(0, 0) == Seeded(0);
  }

  function Eight(bs: seq<byte>, k: nat): (e: seq<byte>)
    requires |bs| == 24 && k < 3
    ensures |e| == 8
  {
    bs[8 * k..8 * k + 8]
  }

  // The k-th eight bytes of the prefix, read as a little-endian word, are the
  // generator after k + 1 rounds.
  lemma PrefixWords(seed: bv64, k: nat)
    requires k < 3
    ensures FromLe(Eight(PrefixBytes(seed), k)) == Generator(seed, k + 1)
  {
    hide Generator, ToLe, FromLe, PrefixBytes;
    PrefixSlice(seed, k);
    LeRoundTrip(ToLe(Generator(seed, k + 1)), Generator(seed, k + 1));
  }

  lemma ThreeEights(bs: seq<byte>, a: seq<byte>, b: seq<byte>, c: seq<byte>)
    requires |a| == |b| == |c| == 8 && bs == (a + b) + c
    ensures Eight(bs, 0) == a && Eight(bs, 1) == b && Eight(bs, 2) == c
  {
  }

  lemma PrefixSlice(seed: bv64, k: nat)
    requires k < 3
    ensures Eight(PrefixBytes(seed), k) == ToLe(Generator(seed, k + 1))
  {
    hide Generator, ToLe, Eight;
    var a, b, c := ToLe(Generator(seed, 1)), ToLe(Generator(seed, 2)), ToLe(Generator(seed, 3));
    assert PrefixChunks(seed, 0) == [];
    assert PrefixChunks(seed, 1) == [] + a == a;
    assert PrefixChunks(seed, 2) == a + b;
    assert PrefixChunks(seed, 3) == (a + b) + c;
    ThreeEights(PrefixBytes(seed), a, b, c);
  }

  /* Each step is injective */

  function Up26(x: bv64): bv64 { x << 26 }
  function L26(x: bv64): bv64 { Xor(x, Up26(x)) }
  function Up52(x: bv64): bv64 { x << 52 }
  function L52(x: bv64): bv64 { Xor(x, Up52(x)) }
  function Down14(x: bv64): bv64 { x >> 14 }
  function R14(x: bv64): bv64 { Xor(x, Down14(x)) }
  function Down28(x: bv64): bv64 { x >> 28 }
  function R28(x: bv64): bv64 { Xor(x, Down28(x)) }
  function Down56(x: bv64): bv64 { x >> 56 }
  function R56(x: bv64): bv64 { Xor(x, Down56(x)) }
  function Up34(x: bv64): bv64 { x << 34 }
  function L34(x: bv64): bv64 { Xor(x, Up34(x)) }

  lemma Telescope(a: bv64, b: bv64, c: bv64) ensures Xor(Xor(a, b), Xor(b, c)) == Xor(a, c)
  {
    hide Bit, Xor;
    forall z | 0 <= z < 64 ensures Bit(Xor(Xor(a, b), Xor(b, c)), z) <==> Bit(Xor(a, c), z)
    {
      XorBit(Xor(a, b), Xor(b, c), z); XorBit(a, b, z); XorBit(b, c, z); XorBit(a, c, z);
    }
    BitsDetermine(Xor(Xor(a, b), Xor(b, c)), Xor(a, c));
  }

  lemma Up13Linear(a: bv64, b: bv64) ensures Up13(Xor(a, b)) == Xor(Up13(a), Up13(b)) {}
  lemma Up13Twice(x: bv64) ensures Up13(Up13(x)) == Up26(x) {}
  lemma Twice13(x: bv64) ensures L13(L13(x)) == L26(x)
  {
    hide Up13, Up26, Xor;
    Up13Linear(x, Up13(x)); Up13Twice(x); Telescope(x, Up13(x), Up26(x));
  }

  lemma Up26Linear(a: bv64, b: bv64) ensures Up26(Xor(a, b)) == Xor(Up26(a), Up26(b)) {}
  lemma Up26Twice(x: bv64) ensures Up26(Up26(x)) == Up52(x) {}
  lemma Twice26(x: bv64) ensures L26(L26(x)) == L52(x)
  {
    hide Up26, Up52, Xor;
    Up26Linear(x, Up26(x)); Up26Twice(x); Telescope(x, Up26(x), Up52(x));
  }

  lemma Down7Linear(a: bv64, b: bv64) ensures Down7(Xor(a, b)) == Xor(Down7(a), Down7(b)) {}
  lemma Down7Twice(x: bv64) ensures Down7(Down7(x)) == Down14(x) {}
  lemma Twice7(x: bv64) ensures R7(R7(x)) == R14(x)
  {
    hide Down7, Down14, Xor;
    Down7Linear(x, Down7(x)); Down7Twice(x); Telescope(x, Down7(x), Down14(x));
  }

  lemma Down14Linear(a: bv64, b: bv64) ensures Down14(Xor(a, b)) == Xor(Down14(a), Down14(b)) {}
  lemma Down14Twice(x: bv64) ensures Down14(Down14(x)) == Down28(x) {}
  lemma Twice14(x: bv64) ensures R14(R14(x)) == R28(x)
  {
    hide Down14, Down28, Xor;
    Down14Linear(x, Down14(x)); Down14Twice(x); Telescope(x, Down14(x), Down28(x));
  }

  lemma Down28Linear(a: bv64, b: bv64) ensures Down28(Xor(a, b)) == Xor(Down28(a), Down28(b)) {}
  lemma Down28Twice(x: bv64) ensures Down28(Down28(x)) == Down56(x) {}
  lemma Twice28(x: bv64) ensures R28(R28(x)) == R56(x)
  {
    hide Down28, Down56, Xor;
    Down28Linear(x, Down28(x)); Down28Twice(x); Telescope(x, Down28(x), Down56(x));
  }

  lemma Up17Linear(a: bv64, b: bv64) ensures Up17(Xor(a, b)) == Xor(Up17(a), Up17(b)) {}
  lemma Up17Twice(x: bv64) ensures Up17(Up17(x)) == Up34(x) {}
  lemma Twice17(x: bv64) ensures L17(L17(x)) == L34(x)
  {
    hide Up17, Up34, Xor;
    Up17Linear(x, Up17(x)); Up17Twice(x); Telescope(x, Up17(x), Up34(x));
  }

  lemma Twice52(x: bv64) ensures L52(L52(x)) == x {}
  lemma Twice56(x: bv64) ensures R56(R56(x)) == x {}
  lemma Twice34(x: bv64) ensures L34(L34(x)) == x {}
  lemma SeededTwice(x: bv64) ensures Seeded(Seeded(x)) == x {}

  // Shifting by k twice shifts by 2k, so enough repetitions are the identity.
  lemma XorShiftInjective(x: bv64, y: bv64)
    requires XorShift(x) == XorShift(y)
    ensures x == y
  {
    hide L13, R7, L17, L26, L52, R14, R28, R56, L34;
    var x13, y13 := L13(x), L13(y);
    var x7, y7 := R7(x13), R7(y13);
    Twice17(x7); Twice17(y7); Twice34(x7); Twice34(y7);
    assert x7 == y7;
    Twice7(x13); Twice7(y13); Twice14(x13); Twice14(y13); Twice28(x13); Twice28(y13); Twice56(x13); Twice56(y13);
    assert x13 == y13;
    Twice13(x); Twice13(y); Twice26(x); Twice26(y); Twice52(x); Twice52(y);
  }

  lemma ZeroFixed() ensures XorShift(0) == 0 {}

  // The state stays non-zero exactly when it starts non-zero, that is, unless
  // the clock reads the salt.
  lemma {:induction false} GeneratorNonZero(seed: bv64, n: nat)
    ensures Generator(seed, n) == 0 <==> seed == SALT
    decreases n
  {
    if n == 0 {
      SeededTwice(seed);
      assert Seeded(0) == SALT && Seeded(SALT) == 0;
    } else {
      hide XorShift;
      GeneratorNonZero(seed, n - 1);
      ZeroFixed();
      if Generator(seed, n) == 0 { XorShiftInjective(Generator(seed, n - 1), 0); }
    }
  }

  // Every chunk of the prefix determines the seed.
  lemma {:induction false} GeneratorInjective(s: bv64, t: bv64, n: nat)
    requires Generator(s, n) == Generator(t, n)
    ensures s == t
    decreases n
  {
    hide XorShift, Seeded;
    if n == 0 {
      SeededTwice(s); SeededTwice(t);
    } else {
      XorShiftInjective(Generator(s, n - 1), Generator(t, n - 1));
      GeneratorInjective(s, t, n - 1);
    }
  }

  lemma PrefixInjective(s: bv64, t: bv64)
    requires PrefixBytes(s) == PrefixBytes(t)
    ensures s == t
  {
    hide Generator, ToLe, FromLe;
    var le := ToLe(Generator(s, 1));
    assert PrefixChunks(s, 1) == le && PrefixChunks(t, 1) == ToLe(Generator(t, 1));
    assert PrefixChunks(s, 3)[..8] == PrefixChunks(s, 1) && PrefixChunks(t, 3)[..8] == PrefixChunks(t, 1);
    LeRoundTrip(le, Generator(s, 1)); LeRoundTrip(le, Generator(t, 1));
    GeneratorInjective(s, t, 1);
  }

  // The printed prefix parses back, and jobs prefixed at different clock
  // readings search disjoint nonces, whatever the counters.
  lemma PrefixesSeparateJobs(s: bv64, t: bv64, c: u64, d: u64)
    ensures ParsePrefix24(ToHex(PrefixBytes(s))) == Parsed(PrefixBytes(s))
    ensures s != t ==> NonceBytes(PrefixBytes(s), c) != NonceBytes(PrefixBytes(t), d)
  {
    hide PrefixBytes;
    ParsePrinted24(PrefixBytes(s));
    if s != t && NonceBytes(PrefixBytes(s), c) == NonceBytes(PrefixBytes(t), d) {
      NonceInjective(PrefixBytes(s), PrefixBytes(t), c, d);
      PrefixInjective(s, t);
    }
  }
}
