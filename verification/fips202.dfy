// Keccak-f[1600] and the Keccak-256 sponge as FIPS 202 defines them, on bit
// strings: the state array of section 3.1, the step mappings of section 3.2,
// the sponge of section 4 and the padding of section 5.1. Keccak-256 is the
// sponge with rate 1088 and 256 output bits on the bare message, without the
// suffix SHA-3 appends.
module Fips202 {
  import opened Words

  type Bits = seq<bool>

  function Zeros(n: nat): (s: Bits) ensures |s| == n { seq(n, _ => false) }

  type State = s: Bits | |s| == 1600 witness Zeros(1600)

  // A[x, y, z] of section 3.1.2
  predicate At(s: State, x: nat, y: nat, z: nat)
    requires x < 5 && y < 5 && z < 64
  {
    s[64 * (5 * y + x) + z]
  }

  lemma IndexParts(x: nat, y: nat, z: nat)
    requires x < 5 && y < 5 && z < 64
    ensures var i := 64 * (5 * y + x) + z; i < 1600 && i / 64 == 5 * y + x && i / 64 % 5 == x && i / 320 == y && i % 64 == z
  {
  }

  lemma SameState(s: State, t: State)
    requires forall x, y, z :: 0 <= x < 5 && 0 <= y < 5 && 0 <= z < 64 ==> (At(s, x, y, z) <==> At(t, x, y, z))
    ensures s == t
  {
    forall i | 0 <= i < 1600 ensures s[i] == t[i]
    {
      assert At(s, i / 64 % 5, i / 320, i % 64) <==> At(t, i / 64 % 5, i / 320, i % 64);
      assert i == 64 * (5 * (i / 320) + i / 64 % 5) + i % 64;
    }
  }

  /* Section 3.2.1: theta */

  predicate ColumnParity(s: State, x: nat, z: nat)
    requires x < 5 && z < 64
  {
    At(s, x, 0, z) != (At(s, x, 1, z) != (At(s, x, 2, z) != (At(s, x, 3, z) != At(s, x, 4, z))))
  }

  predicate ThetaBit(s: State, x: nat, y: nat, z: nat)
    requires x < 5 && y < 5 && z < 64
  {
    At(s, x, y, z) != (ColumnParity(s, (x + 4) % 5, z) != ColumnParity(s, (x + 1) % 5, (z + 63) % 64))
  }

  function Theta(s: State): State
  {
    seq(1600, i requires 0 <= i < 1600 => ThetaBit(s, i / 64 % 5, i / 320, i % 64))
  }

  lemma ThetaAt(s: State, x: nat, y: nat, z: nat)
    requires x < 5 && y < 5 && z < 64
    ensures At(Theta(s), x, y, z) <==> ThetaBit(s, x, y, z)
  {
    hide ThetaBit;
    IndexParts(x, y, z);
  }

  /* Section 3.2.2: rho */

  // The lane on which step t of the walk of algorithm 2 stands.
  function RhoPosition(t: nat): (p: (nat, nat))
    ensures p.0 < 5 && p.1 < 5
  {
    if t == 0 then (1, 0)
    else
      var (x, y) := RhoPosition(t - 1);
      (y, (2 * x + 3 * y) % 5)
  }

  // Lane (x, y) is rotated by (t + 1)(t + 2)/2 at the step t < 24 that stands
  // on it; no step stands on lane (0, 0), which stays.
  function RhoOffsetFrom(x: nat, y: nat, t: nat): nat
    requires t <= 24
    decreases 24 - t
  {
    if t == 24 then 0
    else if RhoPosition(t) == (x, y) then (t + 1) * (t + 2) / 2 % 64
    else RhoOffsetFrom(x, y, t + 1)
  }

  function RhoOffset(x: nat, y: nat): nat { RhoOffsetFrom(x, y, 0) }

  predicate RhoBit(s: State, x: nat, y: nat, z: nat)
    requires x < 5 && y < 5 && z < 64
  {
    At(s, x, y, (z - RhoOffset(x, y)) % 64)
  }

  function Rho(s: State): State
  {
    seq(1600, i requires 0 <= i < 1600 => RhoBit(s, i / 64 % 5, i / 320, i % 64))
  }

  lemma RhoAt(s: State, x: nat, y: nat, z: nat)
    requires x < 5 && y < 5 && z < 64
    ensures At(Rho(s), x, y, z) <==> RhoBit(s, x, y, z)
  {
    hide RhoBit;
    IndexParts(x, y, z);
  }

  /* Section 3.2.3: pi */

  function Pi(s: State): State
  {
    seq(1600, i requires 0 <= i < 1600 =>
      var x, y := i / 64 % 5, i / 320;
      At(s, (x + 3 * y) % 5, x, i % 64))
  }

  lemma PiAt(s: State, x: nat, y: nat, z: nat)
    requires x < 5 && y < 5 && z < 64
    ensures At(Pi(s), x, y, z) <==> At(s, (x + 3 * y) % 5, x, z)
  {
    IndexParts(x, y, z);
  }

  /* Section 3.2.4: chi */

  predicate ChiBit(s: State, x: nat, y: nat, z: nat)
    requires x < 5 && y < 5 && z < 64
  {
    At(s, x, y, z) != (!At(s, (x + 1) % 5, y, z) && At(s, (x + 2) % 5, y, z))
  }

  function Chi(s: State): State
  {
    seq(1600, i requires 0 <= i < 1600 => ChiBit(s, i / 64 % 5, i / 320, i % 64))
  }

  lemma ChiAt(s: State, x: nat, y: nat, z: nat)
    requires x < 5 && y < 5 && z < 64
    ensures At(Chi(s), x, y, z) <==> ChiBit(s, x, y, z)
  {
    hide ChiBit;
    IndexParts(x, y, z);
  }

  /* Section 3.2.5: iota */

  // One pass of the loop of algorithm 5 on its 8-bit register.
  function LfsrStep(r: Bits): (r': Bits)
    requires |r| == 8
    ensures |r'| == 8
  {
    var r := [false] + r;
    var r := r[0 := r[0] != r[8]];
    var r := r[4 := r[4] != r[8]];
    var r := r[5 := r[5] != r[8]];
    var r := r[6 := r[6] != r[8]];
    r[..8]
  }

  function Lfsr(t: nat): (r: Bits)
    ensures |r| == 8
  {
    if t == 0 then [true, false, false, false, false, false, false, false] else LfsrStep(Lfsr(t - 1))
  }

  predicate Rc(t: nat) { t % 255 == 0 || Lfsr(t % 255)[0] }

  // Bit z of the round constant of round ir: rc(j + 7 ir) where z = 2^j - 1.
  predicate RoundConstantBit(ir: nat, z: nat)
  {
    (z == 0 && Rc(7 * ir)) || (z == 1 && Rc(7 * ir + 1)) || (z == 3 && Rc(7 * ir + 2)) ||
    (z == 7 && Rc(7 * ir + 3)) || (z == 15 && Rc(7 * ir + 4)) || (z == 31 && Rc(7 * ir + 5)) ||
    (z == 63 && Rc(7 * ir + 6))
  }

  function Iota(s: State, ir: nat): State
  {
    seq(1600, i requires 0 <= i < 1600 => if i < 64 then s[i] != RoundConstantBit(ir, i) else s[i])
  }

  /* Section 3.3: the permutation */

  function Rnd(s: State, ir: nat): State { Iota(Chi(Pi(Rho(Theta(s)))), ir) }

  // The first n rounds.
  function Rounds(s: State, n: nat): State
  {
    if n == 0 then s else Rnd(Rounds(s, n - 1), n - 1)
  }

  function KeccakF(s: State): State { Rounds(s, 24) }

  /* Section 4 and 5.1: the sponge with pad10*1, rate 1088, capacity 512 */

  const RATE: nat := 1088

  function Pad(x: nat, m: nat): Bits
    requires x > 0
  {
    [true] + Zeros((-(m as int) - 2) % x) + [true]
  }

  function XorBits(a: State, b: Bits): State
    requires |b| <= 1600
  {
    seq(1600, i requires 0 <= i < 1600 => if i < |b| then a[i] != b[i] else a[i])
  }

  // Absorb the padded message block by block.
  function Absorb(s: State, p: Bits): State
    decreases |p|
  {
    if |p| < RATE then s else Absorb(KeccakF(XorBits(s, p[..RATE])), p[RATE..])
  }

  const ZERO: State := Zeros(1600)

  function Sponge256(n: Bits): (z: Bits)
    ensures |z| == 256
  {
    Absorb(ZERO, n + Pad(RATE, |n|))[..256]
  }

  /* Appendix B.1: bytes and bit strings */

  function BytesToBits(m: seq<byte>): (s: Bits)
    ensures |s| == 8 * |m|
  {
    seq(8 * |m|, i requires 0 <= i < 8 * |m| => NatBit(m[i / 8], i % 8))
  }

  function ByteOfBits(s: Bits): byte
    requires |s| == 8
  {
    NatOfBitsBound(s);
    assert Pow2(8) == 256;
    NatOfBits(s)
  }

  function BitsToBytes(s: Bits): (m: seq<byte>)
    requires |s| % 8 == 0
    ensures |m| == |s| / 8
  {
    seq(|s| / 8, k requires 0 <= k < |s| / 8 => ByteOfBits(s[8 * k..8 * k + 8]))
  }

  function Keccak256(m: seq<byte>): (h: seq<byte>)
    ensures |h| == 32
  {
    BitsToBytes(Sponge256(BytesToBits(m)))
  }
}
