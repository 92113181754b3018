// Keccak-f[1600] on twenty-five 64-bit lanes, with the three tables of the
// kernel, and its agreement with the bit-level permutation.
module Lanes {
  import opened Words
  import opened Fips202

  type LaneArray = a: seq<bv64> | |a| == 25 witness [0,0,0,0,0, 0,0,0,0,0, 0,0,0,0,0, 0,0,0,0,0, 0,0,0,0,0]

  const KECCAK_RC: seq<bv64> := [
    0x0000000000000001, 0x0000000000008082, 0x800000000000808a,
    0x8000000080008000, 0x000000000000808b, 0x0000000080000001,
    0x8000000080008081, 0x8000000000008009, 0x000000000000008a,
    0x0000000000000088, 0x0000000080008009, 0x000000008000000a,
    0x000000008000808b, 0x800000000000008b, 0x8000000000008089,
    0x8000000000008003, 0x8000000000008002, 0x8000000000000080,
    0x000000000000800a, 0x800000008000000a, 0x8000000080008081,
    0x8000000000008080, 0x0000000080000001, 0x8000000080008008
  ]

  const KECCAK_RO: seq<nat> := [
     0,  1, 62, 28, 27,
    36, 44,  6, 55, 20,
     3, 10, 43, 25, 39,
    41, 45, 15, 21,  8,
    18,  2, 61, 56, 14
  ]

  const KECCAK_PI: seq<nat> := [
     0, 10, 20,  5, 15,
    16,  1, 11, 21,  6,
     7, 17,  2, 12, 22,
    23,  8, 18,  3, 13,
    14, 24,  9, 19,  4
  ]

  function RhoBy(i: nat): nat requires i < 25 { KECCAK_RO[i] }

  function PiTo(i: nat): nat requires i < 25 { KECCAK_PI[i] }

  // Lane (x, y) is word x + 5y, least significant bit first.
  function Abs(a: LaneArray): State
  {
    seq(1600, i requires 0 <= i < 1600 => Bit(a[i / 64], i % 64))
  }

  lemma LaneParts(x: nat, y: nat)
    requires x < 5 && y < 5
    ensures var k := x + 5 * y; k < 25 && k % 5 == x && k / 5 == y
  {
  }

  lemma LaneNeighbours(x: nat, y: nat)
    requires x < 5 && y < 5
    ensures var k := x + 5 * y; (k + 1) % 5 == (x + 1) % 5 && (k + 2) % 5 == (x + 2) % 5
  {
  }

  lemma AbsAt(a: LaneArray, x: nat, y: nat, z: nat)
    requires x < 5 && y < 5 && z < 64
    ensures At(Abs(a), x, y, z) <==> Bit(a[x + 5 * y], z)
  {
    hide Bit;
    IndexParts(x, y, z);
  }

  /* The five steps on lanes */

  function Parity(a: LaneArray, x: nat): bv64
    requires x < 5
  {
    Xor(Xor(Xor(Xor(a[x], a[x + 5]), a[x + 10]), a[x + 15]), a[x + 20])
  }

  function ThetaEffect(a: LaneArray, x: nat): bv64
    requires x < 5
  {
    Xor(Parity(a, (x + 4) % 5), Rotate(Parity(a, (x + 1) % 5), 1))
  }

  function ThetaLanes(a: LaneArray): LaneArray
  {
    seq(25, i requires 0 <= i < 25 => Xor(a[i], ThetaEffect(a, i % 5)))
  }

  function RhoLanes(a: LaneArray): LaneArray
  {
    seq(25, i requires 0 <= i < 25 => Rotate(a[i], RhoBy(i)))
  }

  // Lane (x, y) of the result comes from lane (x + 3y mod 5, x).
  function PiSource(i: nat): (k: nat)
    requires i < 25
    ensures k < 25
  {
    (i % 5 + 3 * (i / 5)) % 5 + 5 * (i % 5)
  }

  function PiLanes(a: LaneArray): LaneArray
  {
    seq(25, i requires 0 <= i < 25 => a[PiSource(i)])
  }

  function AndNot(b1: bv64, b2: bv64): bv64 { !b1 & b2 }

  function ChiRow(b0: bv64, b1: bv64, b2: bv64): bv64 { Xor(b0, AndNot(b1, b2)) }

  // The lane d places to the right in the row of lane i.
  function InRow(i: nat, d: nat): (k: nat)
    requires i < 25
    ensures k < 25
  {
    (i + d) % 5 + i / 5 * 5
  }

  function ChiLanes(a: LaneArray): LaneArray
  {
    seq(25, i requires 0 <= i < 25 =>
      ChiRow(a[i], a[InRow(i, 1)], a[InRow(i, 2)]))
  }

  function IotaLanes(a: LaneArray, round: nat): LaneArray
    requires round < 24
  {
    a[0 := Xor(a[0], KECCAK_RC[round])]
  }

  function RoundLanes(a: LaneArray, round: nat): LaneArray
    requires round < 24
  {
    IotaLanes(ChiLanes(PiLanes(RhoLanes(ThetaLanes(a)))), round)
  }

  function RoundsLanes(a: LaneArray, n: nat): LaneArray
    requires n <= 24
  {
    if n == 0 then a else RoundLanes(RoundsLanes(a, n - 1), n - 1)
  }

  function KeccakLanes(a: LaneArray): LaneArray { RoundsLanes(a, 24) }

  /* Theta */

  lemma ParityBit(a: LaneArray, x: nat, z: nat)
    requires x < 5 && z < 64
    ensures Bit(Parity(a, x), z) <==> ColumnParity(Abs(a), x, z)
  {
    hide Bit, Abs, At, Xor;
    AbsAt(a, x, 0, z); AbsAt(a, x, 1, z); AbsAt(a, x, 2, z); AbsAt(a, x, 3, z); AbsAt(a, x, 4, z);
    XorBit(a[x], a[x + 5], z);
    XorBit(Xor(a[x], a[x + 5]), a[x + 10], z);
    XorBit(Xor(Xor(a[x], a[x + 5]), a[x + 10]), a[x + 15], z);
    XorBit(Xor(Xor(Xor(a[x], a[x + 5]), a[x + 10]), a[x + 15]), a[x + 20], z);
  }

  lemma ThetaEffectBit(a: LaneArray, x: nat, z: nat)
    requires x < 5 && z < 64
    ensures Bit(ThetaEffect(a, x), z) <==>
            (ColumnParity(Abs(a), (x + 4) % 5, z) != ColumnParity(Abs(a), (x + 1) % 5, (z + 63) % 64))
  {
    hide Bit, Abs, Xor, Parity, ColumnParity, Rotate;
    XorBit(Parity(a, (x + 4) % 5), Rotate(Parity(a, (x + 1) % 5), 1), z);
    BitRotate(Parity(a, (x + 1) % 5), 1, z);
    ParityBit(a, (x + 4) % 5, z);
    ParityBit(a, (x + 1) % 5, (z + 63) % 64);
    assert (z - 1) % 64 == (z + 63) % 64;
  }

  lemma ThetaLaneBit(a: LaneArray, x: nat, y: nat, z: nat)
    requires x < 5 && y < 5 && z < 64
    ensures At(Abs(ThetaLanes(a)), x, y, z) <==> ThetaBit(Abs(a), x, y, z)
  {
    hide Bit, Abs, At, Xor, ThetaEffect, ColumnParity;
    LaneParts(x, y);
    AbsAt(ThetaLanes(a), x, y, z);
    XorBit(a[x + 5 * y], ThetaEffect(a, x), z);
    ThetaEffectBit(a, x, z);
    AbsAt(a, x, y, z);
  }

  lemma ThetaAgrees(a: LaneArray) ensures Abs(ThetaLanes(a)) == Theta(Abs(a))
  {
    forall x, y, z | 0 <= x < 5 && 0 <= y < 5 && 0 <= z < 64
      ensures At(Abs(ThetaLanes(a)), x, y, z) <==> At(Theta(Abs(a)), x, y, z)
    {
      hide Abs, ThetaBit, ThetaLanes, Theta;
      ThetaLaneBit(a, x, y, z);
      ThetaAt(Abs(a), x, y, z);
    }
    SameState(Abs(ThetaLanes(a)), Theta(Abs(a)));
  }

  /* Rho and pi */

  // The lanes in the order the walk of section 3.2.2 visits them, and the
  // step at which each is visited (lane 0 never is).
  function Walk(t: nat): nat requires t < 24 { [1, 10, 7, 11, 17, 18, 3, 5, 16, 8, 21, 24, 4, 15, 23, 19, 13, 12, 2, 20, 14, 22, 9, 6][t] }

  function Visit(i: nat): nat requires i < 25 { [24, 0, 18, 6, 12, 7, 23, 2, 9, 22, 1, 3, 17, 16, 20, 13, 8, 4, 5, 15, 19, 10, 21, 14, 11][i] }

  lemma WalkStep(t: nat)
    requires t < 23
    ensures Walk(t) < 25 && Walk(t + 1) == Walk(t) / 5 + 5 * ((2 * (Walk(t) % 5) + 3 * (Walk(t) / 5)) % 5)
  {
  }

  lemma WalkVisit(t: nat) requires t < 24 ensures Walk(t) < 25 && Visit(Walk(t)) == t {}

  lemma WalkNext(x: nat, y: nat, t: nat)
    requires x < 5 && y < 5 && t < 23 && x + 5 * y == Walk(t)
    ensures y + 5 * ((2 * x + 3 * y) % 5) == Walk(t + 1)
  {
    hide Walk;
    WalkStep(t); LaneParts(x, y);
  }

  lemma {:induction false} WalkPosition(t: nat)
    requires t < 24
    ensures RhoPosition(t).0 + 5 * RhoPosition(t).1 == Walk(t)
  {
    if t == 0 {
      assert Walk(0) == 1;
    } else {
      hide Walk;
      var (x, y) := RhoPosition(t - 1);
      WalkPosition(t - 1); WalkNext(x, y, t - 1);
    }
  }

  lemma StandsOn(x: nat, y: nat, t: nat)
    requires x < 5 && y < 5 && t < 24
    ensures RhoPosition(t) == (x, y) <==> Walk(t) == x + 5 * y
  {
    var (px, py) := RhoPosition(t);
    hide RhoPosition, Walk;
    WalkPosition(t); LaneParts(x, y); LaneParts(px, py);
  }

  function Triangle(t: nat): nat { if t == 24 then 0 else (t + 1) * (t + 2) / 2 % 64 }

  lemma {:induction false} OffsetFound(x: nat, y: nat, t: nat, visit: nat)
    requires x < 5 && y < 5 && t <= visit <= 24 && (visit < 24 ==> Walk(visit) == x + 5 * y)
    requires forall u :: t <= u < visit ==> Walk(u) != x + 5 * y
    ensures RhoOffsetFrom(x, y, t) == Triangle(visit)
    decreases 24 - t
  {
    if t < 24 {
      hide RhoPosition, Walk;
      StandsOn(x, y, t);
      if t < visit { OffsetFound(x, y, t + 1, visit); }
    }
  }

  lemma VisitWalk(i: nat)
    requires i < 25
    ensures Visit(i) <= 24 && (Visit(i) == 24 <==> i == 0) && (Visit(i) < 24 ==> Walk(Visit(i)) == i)
  {
  }

  function TriangleAt(t: nat): nat
    requires t <= 24
  {
    [1, 3, 6, 10, 15, 21, 28, 36, 45, 55, 2, 14, 27, 41, 56, 8, 25, 43, 62, 18, 39, 61, 20, 44, 0][t]
  }

  predicate TriangleEntry(t: nat) requires t <= 24 { TriangleAt(t) == Triangle(t) }

  lemma TriangleRow0() ensures TriangleEntry(0) && TriangleEntry(1) && TriangleEntry(2) && TriangleEntry(3) && TriangleEntry(4) {}
  lemma TriangleRow1() ensures TriangleEntry(5) && TriangleEntry(6) && TriangleEntry(7) && TriangleEntry(8) && TriangleEntry(9) {}
  lemma TriangleRow2() ensures TriangleEntry(10) && TriangleEntry(11) && TriangleEntry(12) && TriangleEntry(13) && TriangleEntry(14) {}
  lemma TriangleRow3() ensures TriangleEntry(15) && TriangleEntry(16) && TriangleEntry(17) && TriangleEntry(18) && TriangleEntry(19) {}
  lemma TriangleRow4() ensures TriangleEntry(20) && TriangleEntry(21) && TriangleEntry(22) && TriangleEntry(23) && TriangleEntry(24) {}

  lemma OffsetEntry(i: nat)
    requires i < 25
    ensures RhoBy(i) == Triangle(Visit(i))
  {
    VisitWalk(i);
    assert RhoBy(i) == TriangleAt(Visit(i)) by { OffsetLookup(i); }
    hide TriangleEntry, Visit, RhoBy;
    TriangleRow0(); TriangleRow1(); TriangleRow2(); TriangleRow3(); TriangleRow4();
    assert TriangleEntry(Visit(i));
    UseTriangle(Visit(i));
  }

  lemma UseTriangle(t: nat) requires t <= 24 && TriangleEntry(t) ensures TriangleAt(t) == Triangle(t) {}

  lemma OffsetLookup(i: nat) requires i < 25 && Visit(i) <= 24 ensures RhoBy(i) == TriangleAt(Visit(i)) {}

  // The rotation table is the walk of section 3.2.2.
  lemma RhoTable(i: nat)
    requires i < 25
    ensures RhoBy(i) == RhoOffset(i % 5, i / 5)
  {
    hide Walk, Visit, RhoBy;
    OffsetEntry(i);
    VisitWalk(i);
    forall u | 0 <= u < Visit(i) ensures Walk(u) != i { WalkVisit(u); }
    OffsetFound(i % 5, i / 5, 0, Visit(i));
  }

  lemma RhoRange(i: nat) requires i < 25 ensures RhoBy(i) < 64 {}

  lemma RhoLaneBit(a: LaneArray, x: nat, y: nat, z: nat)
    requires x < 5 && y < 5 && z < 64
    ensures At(Abs(RhoLanes(a)), x, y, z) <==> RhoBit(Abs(a), x, y, z)
  {
    hide Bit, Rotate, Abs, At, RhoOffset, RhoBy;
    var k := x + 5 * y;
    RhoTable(k); RhoRange(k);
    AbsAt(RhoLanes(a), x, y, z);
    BitRotate(a[k], RhoBy(k), z);
    AbsAt(a, x, y, (z - RhoBy(k)) % 64);
  }

  lemma RhoAgrees(a: LaneArray) ensures Abs(RhoLanes(a)) == Rho(Abs(a))
  {
    forall x, y, z | 0 <= x < 5 && 0 <= y < 5 && 0 <= z < 64
      ensures At(Abs(RhoLanes(a)), x, y, z) <==> At(Rho(Abs(a)), x, y, z)
    {
      hide Abs, RhoBit, RhoLanes, Rho;
      RhoLaneBit(a, x, y, z);
      RhoAt(Abs(a), x, y, z);
    }
    SameState(Abs(RhoLanes(a)), Rho(Abs(a)));
  }

  // The placement table sends lane (x, y) to lane (y, 2x + 3y mod 5), the
  // inverse of the source map of section 3.2.3.
  predicate PiEntry(i: nat) requires i < 25
  {
    PiTo(i) < 25 && PiSource(PiTo(i)) == i && PiTo(PiSource(i)) == i
  }

  function SourceAt(i: nat): nat requires i < 25 { [0, 6, 12, 18, 24, 3, 9, 10, 16, 22, 1, 7, 13, 19, 20, 4, 5, 11, 17, 23, 2, 8, 14, 15, 21][i] }

  predicate SourceEntry(i: nat) requires i < 25 { SourceAt(i) == PiSource(i) }

  lemma SourceRow0() ensures SourceEntry(0) && SourceEntry(1) && SourceEntry(2) {}
  lemma SourceRow5() ensures SourceEntry(3) && SourceEntry(4) {}
  lemma SourceRow1() ensures SourceEntry(5) && SourceEntry(6) && SourceEntry(7) && SourceEntry(8) && SourceEntry(9) {}
  lemma SourceRow2() ensures SourceEntry(10) && SourceEntry(11) && SourceEntry(12) && SourceEntry(13) && SourceEntry(14) {}
  lemma SourceRow3() ensures SourceEntry(15) && SourceEntry(16) && SourceEntry(17) && SourceEntry(18) && SourceEntry(19) {}
  lemma SourceRow4() ensures SourceEntry(20) && SourceEntry(21) && SourceEntry(22) && SourceEntry(23) && SourceEntry(24) {}

  lemma SourceOfTarget(i: nat) requires i < 25 ensures PiTo(i) < 25 && SourceAt(PiTo(i)) == i {}

  lemma TargetOfSource(i: nat) requires i < 25 ensures SourceAt(i) < 25 && PiTo(SourceAt(i)) == i {}

  lemma SourceIs(i: nat) requires i < 25 ensures SourceAt(i) == PiSource(i)
  {
    assert SourceEntry(i) by {
      hide SourceEntry;
      SourceRow0(); SourceRow1(); SourceRow2(); SourceRow3(); SourceRow4(); SourceRow5();
    }
  }

  lemma PiTable(i: nat) requires i < 25 ensures PiEntry(i)
  {
    hide PiSource, SourceAt, PiTo;
    SourceOfTarget(i); TargetOfSource(i);
    SourceIs(i); SourceIs(PiTo(i));
  }

  lemma PiLaneBit(a: LaneArray, x: nat, y: nat, z: nat)
    requires x < 5 && y < 5 && z < 64
    ensures At(Abs(PiLanes(a)), x, y, z) <==> At(Abs(a), (x + 3 * y) % 5, x, z)
  {
    hide Abs, Bit, At;
    LaneParts(x, y);
    AbsAt(PiLanes(a), x, y, z);
    AbsAt(a, (x + 3 * y) % 5, x, z);
  }

  lemma PiAgrees(a: LaneArray) ensures Abs(PiLanes(a)) == Pi(Abs(a))
  {
    forall x, y, z | 0 <= x < 5 && 0 <= y < 5 && 0 <= z < 64
      ensures At(Abs(PiLanes(a)), x, y, z) <==> At(Pi(Abs(a)), x, y, z)
    {
      hide Abs, PiLanes, Pi;
      PiLaneBit(a, x, y, z);
      PiAt(Abs(a), x, y, z);
    }
    SameState(Abs(PiLanes(a)), Pi(Abs(a)));
  }

  /* Chi */

  lemma AndNotBit(b1: bv64, b2: bv64, z: nat) ensures Bit(AndNot(b1, b2), z) <==> !Bit(b1, z) && Bit(b2, z)
  {
    hide Bit;
    BitAnd(!b1, b2, z);
    BitNot(b1, z);
  }

  lemma ChiRowBit(b0: bv64, b1: bv64, b2: bv64, z: nat)
    ensures Bit(ChiRow(b0, b1, b2), z) <==> (Bit(b0, z) != (!Bit(b1, z) && Bit(b2, z)))
  {
    hide Bit, Xor, AndNot;
    XorBit(b0, AndNot(b1, b2), z);
    AndNotBit(b1, b2, z);
  }

  lemma InRowAt(x: nat, y: nat)
    requires x < 5 && y < 5
    ensures InRow(x + 5 * y, 1) == (x + 1) % 5 + 5 * y && InRow(x + 5 * y, 2) == (x + 2) % 5 + 5 * y
  {
    LaneParts(x, y); LaneNeighbours(x, y);
  }

  lemma ChiLaneAt(a: LaneArray, x: nat, y: nat)
    requires x < 5 && y < 5
    ensures ChiLanes(a)[x + 5 * y] == ChiRow(a[x + 5 * y], a[(x + 1) % 5 + 5 * y], a[(x + 2) % 5 + 5 * y])
  {
    hide ChiRow, InRow;
    InRowAt(x, y);
  }

  // Chi at lane i, once its two right neighbours are known.
  lemma ChiValue(b: LaneArray, i: nat, j: nat, k: nat)
    requires i < 25 && j == InRow(i, 1) && k == InRow(i, 2)
    ensures ChiLanes(b)[i] == ChiRow(b[i], b[j], b[k])
  {
    hide ChiRow, InRow;
  }

  lemma RowIndices(y: nat)
    requires y < 25 && y % 5 == 0
    ensures InRow(y, 1) == y + 1 && InRow(y, 2) == y + 2
    ensures InRow(y + 1, 1) == y + 2 && InRow(y + 1, 2) == y + 3
    ensures InRow(y + 2, 1) == y + 3 && InRow(y + 2, 2) == y + 4
    ensures InRow(y + 3, 1) == y + 4 && InRow(y + 3, 2) == y
    ensures InRow(y + 4, 1) == y && InRow(y + 4, 2) == y + 1
  {
    var r := y / 5;
    InRowAt(0, r); InRowAt(1, r); InRowAt(2, r); InRowAt(3, r); InRowAt(4, r);
  }

  lemma ChiLaneBit(a: LaneArray, x: nat, y: nat, z: nat)
    requires x < 5 && y < 5 && z < 64
    ensures At(Abs(ChiLanes(a)), x, y, z) <==> ChiBit(Abs(a), x, y, z)
  {
    hide Bit, Abs, At, ChiRow, ChiLanes;
    var k := x + 5 * y;
    ChiLaneAt(a, x, y);
    AbsAt(ChiLanes(a), x, y, z);
    ChiRowBit(a[k], a[(x + 1) % 5 + 5 * y], a[(x + 2) % 5 + 5 * y], z);
    AbsAt(a, x, y, z);
    AbsAt(a, (x + 1) % 5, y, z);
    AbsAt(a, (x + 2) % 5, y, z);
  }

  lemma ChiAgrees(a: LaneArray) ensures Abs(ChiLanes(a)) == Chi(Abs(a))
  {
    forall x, y, z | 0 <= x < 5 && 0 <= y < 5 && 0 <= z < 64
      ensures At(Abs(ChiLanes(a)), x, y, z) <==> At(Chi(Abs(a)), x, y, z)
    {
      hide Abs, ChiBit, ChiLanes, Chi;
      ChiLaneBit(a, x, y, z);
      ChiAt(Abs(a), x, y, z);
    }
    SameState(Abs(ChiLanes(a)), Chi(Abs(a)));
  }

  /* Iota */

  // The register of algorithm 5 as a byte, bit k holding R[k].
  function NextByte(b: bv8): bv8 { (b << 1) ^ (if b & 0x80 != 0 then 0x71 else 0) }

  function LfsrByte(t: nat): bv8 { if t == 0 then 1 else NextByte(LfsrByte(t - 1)) }

  function Unpack(b: bv8): Bits
  {
    [b & 1 != 0, b & 2 != 0, b & 4 != 0, b & 8 != 0, b & 0x10 != 0, b & 0x20 != 0, b & 0x40 != 0, b & 0x80 != 0]
  }

  lemma StepBits(r: Bits)
    requires |r| == 8
    ensures LfsrStep(r) == [r[7], r[0], r[1], r[2], r[3] != r[7], r[4] != r[7], r[5] != r[7], r[6]]
  {
  }

  lemma StepByte(b: bv8)
    ensures LfsrStep(Unpack(b)) == Unpack(NextByte(b))
  {
    hide LfsrStep;
    StepBits(Unpack(b));
  }

  lemma {:induction false} LfsrIsByte(t: nat) ensures Lfsr(t) == Unpack(LfsrByte(t))
  {
    if t > 0 {
      hide LfsrStep, NextByte, Unpack;
      LfsrIsByte(t - 1); StepByte(LfsrByte(t - 1));
    }
  }

  // The register at the start of each round, seven steps apart.
  function Checkpoint(r: nat): bv8
    requires r <= 24
  {
    [0x1, 0x80, 0xd8, 0x1a, 0xdf, 0x9, 0x35, 0x4f, 0xca, 0x70, 0x41, 0xec, 0xd5, 0xcd, 0x63, 0xab, 0xaa, 0x2a, 0xf2, 0xe8, 0x37, 0x3e, 0xb, 0x44, 0x8e][r]
  }

  function Next7(b: bv8): bv8 { NextByte(NextByte(NextByte(NextByte(NextByte(NextByte(NextByte(b))))))) }

  lemma CheckpointStep(r: nat) requires r < 24 ensures Next7(Checkpoint(r)) == Checkpoint(r + 1) {}

  lemma SevenSteps(t: nat) ensures LfsrByte(t + 7) == Next7(LfsrByte(t))
  {
    hide NextByte;
    assert LfsrByte(t + 2) == NextByte(NextByte(LfsrByte(t)));
    assert LfsrByte(t + 4) == NextByte(NextByte(LfsrByte(t + 2)));
    assert LfsrByte(t + 6) == NextByte(NextByte(LfsrByte(t + 4)));
  }

  lemma {:induction false} CheckpointAt(r: nat)
    requires r <= 24
    ensures LfsrByte(7 * r) == Checkpoint(r)
  {
    if r > 0 {
      hide Next7;
      CheckpointAt(r - 1); CheckpointStep(r - 1); SevenSteps(7 * (r - 1));
    }
  }

  function Assemble(b0: bool, b1: bool, b2: bool, b3: bool, b4: bool, b5: bool, b6: bool): bv64
  {
    (if b0 then 1 else 0) | (if b1 then 2 else 0) | (if b2 then 8 else 0) | (if b3 then 0x80 else 0) |
    (if b4 then 0x8000 else 0) | (if b5 then 0x80000000 else 0) | (if b6 then 0x8000000000000000 else 0)
  }

  predicate Placed(b0: bool, b1: bool, b2: bool, b3: bool, b4: bool, b5: bool, b6: bool, z: nat)
  {
    (z == 0 && b0) || (z == 1 && b1) || (z == 3 && b2) || (z == 7 && b3) ||
    (z == 15 && b4) || (z == 31 && b5) || (z == 63 && b6)
  }

  lemma AssembleMeets(b0: bool, b1: bool, b2: bool, b3: bool, b4: bool, b5: bool, b6: bool, i: nat, j: nat)
    requires i < 8 && j < 8
    ensures Meets(Assemble(b0, b1, b2, b3, b4, b5, b6), AtByte(LowMask(j), i)) <==> Placed(b0, b1, b2, b3, b4, b5, b6, 8 * i + j)
  {
  }

  predicate Low(b: bv8) { b & 1 != 0 }

  // The seven bits algorithm 5 produces from register c on.
  function FromRegister(c: bv8): bv64
  {
    var c1 := NextByte(c); var c2 := NextByte(c1); var c3 := NextByte(c2);
    var c4 := NextByte(c3); var c5 := NextByte(c4); var c6 := NextByte(c5);
    Assemble(Low(c), Low(c1), Low(c2), Low(c3), Low(c4), Low(c5), Low(c6))
  }

  predicate ConstantEntry(r: nat) requires r < 24 { KECCAK_RC[r] == FromRegister(Checkpoint(r)) }

  lemma RegisterWords0()
    ensures FromRegister(0x1) == 0x1
    ensures FromRegister(0x80) == 0x8082
    ensures FromRegister(0xd8) == 0x800000000000808a
    ensures FromRegister(0x1a) == 0x8000000080008000
  {
  }

  lemma RegisterWords1()
    ensures FromRegister(0xdf) == 0x808b
    ensures FromRegister(0x9) == 0x80000001
    ensures FromRegister(0x35) == 0x8000000080008081
    ensures FromRegister(0x4f) == 0x8000000000008009
  {
  }

  lemma RegisterWords2()
    ensures FromRegister(0xca) == 0x8a
    ensures FromRegister(0x70) == 0x88
    ensures FromRegister(0x41) == 0x80008009
    ensures FromRegister(0xec) == 0x8000000a
  {
  }

  lemma RegisterWords3()
    ensures FromRegister(0xd5) == 0x8000808b
    ensures FromRegister(0xcd) == 0x800000000000008b
    ensures FromRegister(0x63) == 0x8000000000008089
    ensures FromRegister(0xab) == 0x8000000000008003
  {
  }

  lemma RegisterWords4()
    ensures FromRegister(0xaa) == 0x8000000000008002
    ensures FromRegister(0x2a) == 0x8000000000000080
    ensures FromRegister(0xf2) == 0x800a
    ensures FromRegister(0xe8) == 0x800000008000000a
  {
  }

  lemma RegisterWords5()
    ensures FromRegister(0x37) == 0x8000000080008081
    ensures FromRegister(0x3e) == 0x8000000000008080
    ensures FromRegister(0xb) == 0x80000001
    ensures FromRegister(0x44) == 0x8000000080008008
  {
  }

  lemma ConstantEntries(r: nat) requires r < 24 ensures ConstantEntry(r)
  {
    hide FromRegister;
    RegisterWords0(); RegisterWords1(); RegisterWords2(); RegisterWords3(); RegisterWords4(); RegisterWords5();
  }

  lemma ConstantWord(r: nat)
    requires r < 24
    ensures KECCAK_RC[r] == Assemble(Rc(7 * r), Rc(7 * r + 1), Rc(7 * r + 2), Rc(7 * r + 3),
                                     Rc(7 * r + 4), Rc(7 * r + 5), Rc(7 * r + 6))
  {
    hide NextByte, Assemble, Checkpoint, Rc, Low;
    ConstantEntries(r);
    CheckpointAt(r);
    var t := 7 * r;
    RcLow(t); RcLow(t + 1); RcLow(t + 2); RcLow(t + 3); RcLow(t + 4); RcLow(t + 5); RcLow(t + 6);
  }

  lemma AssembleBit(b0: bool, b1: bool, b2: bool, b3: bool, b4: bool, b5: bool, b6: bool, z: nat)
    requires z < 64
    ensures Bit(Assemble(b0, b1, b2, b3, b4, b5, b6), z) <==> Placed(b0, b1, b2, b3, b4, b5, b6, z)
  {
    hide Rotate, Assemble, AtByte, LowMask, Meets, Placed;
    MaskLiteral(z / 8, z % 8);
    AssembleMeets(b0, b1, b2, b3, b4, b5, b6, z / 8, z % 8);
  }

  // The constant table is the shift register of section 3.2.5.
  lemma ConstantTable(r: nat, z: nat)
    requires r < 24 && z < 64
    ensures Bit(KECCAK_RC[r], z) <==> RoundConstantBit(r, z)
  {
    hide Bit, Assemble, Rc;
    ConstantWord(r);
    AssembleBit(Rc(7 * r), Rc(7 * r + 1), Rc(7 * r + 2), Rc(7 * r + 3), Rc(7 * r + 4), Rc(7 * r + 5), Rc(7 * r + 6), z);
  }

  lemma RcLow(t: nat)
    requires t < 255
    ensures Rc(t) <==> Low(LfsrByte(t))
  {
    hide LfsrStep, NextByte;
    LfsrIsByte(t);
  }

  lemma IotaAgrees(a: LaneArray, r: nat)
    requires r < 24
    ensures Abs(IotaLanes(a, r)) == Iota(Abs(a), r)
  {
    hide Bit, Xor, RoundConstantBit;
    forall i | 0 <= i < 1600 ensures Abs(IotaLanes(a, r))[i] == Iota(Abs(a), r)[i]
    {
      if i < 64 {
        XorBit(a[0], KECCAK_RC[r], i);
        ConstantTable(r, i);
      }
    }
  }

  /* The rounds */

  lemma RoundAgrees(a: LaneArray, r: nat)
    requires r < 24
    ensures Abs(RoundLanes(a, r)) == Rnd(Abs(a), r)
  {
    hide Abs, Theta, Rho, Pi, Chi, Iota, ThetaLanes, RhoLanes, PiLanes, ChiLanes, IotaLanes;
    var t := ThetaLanes(a);
    ThetaAgrees(a); RhoAgrees(t); PiAgrees(RhoLanes(t)); ChiAgrees(PiLanes(RhoLanes(t)));
    IotaAgrees(ChiLanes(PiLanes(RhoLanes(t))), r);
  }

  lemma {:induction false} RoundsAgree(a: LaneArray, n: nat)
    requires n <= 24
    ensures Abs(RoundsLanes(a, n)) == Rounds(Abs(a), n)
  {
    hide Abs, Rnd, RoundLanes;
    if n > 0 { RoundsAgree(a, n - 1); RoundAgrees(RoundsLanes(a, n - 1), n - 1); }
  }
}
