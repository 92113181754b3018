// Keccak-f[1600] on lanes is a bijection: an explicit inverse of every step.
module Inverse {
  import opened Words
  import opened Lanes

  /* The column map of theta */

  type Columns = p: seq<bv64> | |p| == 5 witness [0, 0, 0, 0, 0]

  function Col(x: nat, k: int): (c: nat)
    ensures c < 5
  {
    (x + k) % 5
  }

  lemma ColAdd(x: nat, j: int, k: int) ensures Col(Col(x, j), k) == Col(x, j + k) {}

  lemma ColZero(x: nat) requires x < 5 ensures Col(x, 0) == x {}

  function Xor3(a: bv64, b: bv64, c: bv64): bv64 { Xor(Xor(a, b), c) }

  // 1 + s^n + s^-n r^n, where s shifts columns and r rotates lanes.
  function Spread(p: Columns, n: nat): Columns
  {
    seq(5, x requires 0 <= x < 5 => Xor3(p[x], p[Col(x, -(n as int))], Rotate(p[Col(x, n)], n)))
  }

  lemma Xor3Bit(a: bv64, b: bv64, c: bv64, z: nat)
    ensures Bit(Xor3(a, b, c), z) <==> ((Bit(a, z) != Bit(b, z)) != Bit(c, z))
  {
    hide Bit, Xor;
    XorBit(Xor(a, b), c, z); XorBit(a, b, z);
  }

  lemma CancelBit(a: bv64, b: bv64, c: bv64, d: bv64, e: bv64, g: bv64, z: nat)
    ensures Bit(Xor3(Xor3(a, b, c), Xor3(b, d, e), Xor3(c, e, g)), z) <==> Bit(Xor3(a, d, g), z)
  {
    hide Bit, Xor3;
    Xor3Bit(Xor3(a, b, c), Xor3(b, d, e), Xor3(c, e, g), z);
    Xor3Bit(a, b, c, z); Xor3Bit(b, d, e, z); Xor3Bit(c, e, g, z); Xor3Bit(a, d, g, z);
  }

  lemma Cancel(a: bv64, b: bv64, c: bv64, d: bv64, e: bv64, g: bv64)
    ensures Xor3(Xor3(a, b, c), Xor3(b, d, e), Xor3(c, e, g)) == Xor3(a, d, g)
  {
    hide Bit, Xor3;
    var l, r := Xor3(Xor3(a, b, c), Xor3(b, d, e), Xor3(c, e, g)), Xor3(a, d, g);
    forall z | 0 <= z < 64 ensures Bit(l, z) <==> Bit(r, z) { CancelBit(a, b, c, d, e, g, z); }
    BitsDetermine(l, r);
  }

  lemma RotateXor3(a: bv64, b: bv64, c: bv64, n: nat)
    ensures Rotate(Xor3(a, b, c), n) == Xor3(Rotate(a, n), Rotate(b, n), Rotate(c, n))
  {
    hide Rotate, Xor;
    RotateXor(Xor(a, b), c, n); RotateXor(a, b, n);
  }

  lemma SpreadAt(p: Columns, n: nat, x: nat)
    requires x < 5
    ensures Spread(p, n)[x] == Xor3(p[x], p[Col(x, -(n as int))], Rotate(p[Col(x, n)], n))
  {
    hide Xor3, Col, Rotate;
  }

  lemma SpreadTwiceAt(p: Columns, n: nat, x: nat)
    requires x < 5
    ensures Spread(Spread(p, n), n)[x] == Spread(p, 2 * n)[x]
  {
    hide Rotate, Xor3, Col, Spread;
    var m: int := -(n as int);
    ColAdd(x, m, m); ColAdd(x, m, n); ColAdd(x, n, m); ColAdd(x, n, n); ColZero(x);
    var q := Spread(p, n);
    SpreadAt(q, n, x); SpreadAt(p, 2 * n, x);
    SpreadAt(p, n, x); SpreadAt(p, n, Col(x, m)); SpreadAt(p, n, Col(x, n));
    var l, r, ll, rr := p[Col(x, m)], p[Col(x, n)], p[Col(x, m + m)], p[Col(x, n + n)];
    RotateXor3(r, p[x], Rotate(rr, n), n);
    RotatePlus(rr, n, n);
    Cancel(p[x], l, Rotate(r, n), ll, Rotate(p[x], n), Rotate(rr, 2 * n));
  }

  // Squaring the column map doubles its exponent.
  lemma SpreadTwice(p: Columns, n: nat) ensures Spread(Spread(p, n), n) == Spread(p, 2 * n)
  {
    hide Spread;
    forall x | 0 <= x < 5 ensures Spread(Spread(p, n), n)[x] == Spread(p, 2 * n)[x] { SpreadTwiceAt(p, n, x); }
  }

  lemma Spread64At(p: Columns, x: nat)
    requires x < 5
    ensures Spread(p, 64)[x] == Xor3(p[x], p[Col(x, 1)], p[Col(x, 4)])
    ensures Spread(p, 128)[x] == Xor3(p[x], p[Col(x, 2)], p[Col(x, 3)])
  {
    hide Rotate, Xor3;
    Rotate64(p[Col(x, 64)]);
    RotatePlus(p[Col(x, 128)], 64, 64); Rotate64(p[Col(x, 128)]);
  }

  lemma Cancel192(a: bv64, b: bv64, c: bv64, d: bv64, e: bv64)
    ensures Xor3(Xor3(a, c, d), Xor3(b, d, e), Xor3(e, b, c)) == a
  {
    hide Bit, Xor3;
    var l := Xor3(Xor3(a, c, d), Xor3(b, d, e), Xor3(e, b, c));
    forall z | 0 <= z < 64 ensures Bit(l, z) <==> Bit(a, z)
    {
      Xor3Bit(Xor3(a, c, d), Xor3(b, d, e), Xor3(e, b, c), z);
      Xor3Bit(a, c, d, z); Xor3Bit(b, d, e, z); Xor3Bit(e, b, c, z);
    }
    BitsDetermine(l, a);
  }

  lemma Spread192At(p: Columns, x: nat)
    requires x < 5
    ensures Spread(Spread(p, 128), 64)[x] == p[x]
  {
    hide Xor3, Spread, Col;
    ColAdd(x, 1, 2); ColAdd(x, 1, 3); ColAdd(x, 4, 2); ColAdd(x, 4, 3); ColWrap(x);
    Spread64At(Spread(p, 128), x);
    Spread64At(p, x); Spread64At(p, Col(x, 1)); Spread64At(p, Col(x, 4));
    Cancel192(p[x], p[Col(x, 1)], p[Col(x, 2)], p[Col(x, 3)], p[Col(x, 4)]);
  }

  lemma ColWrap(x: nat) ensures Col(x, 6) == Col(x, 1) && Col(x, 7) == Col(x, 2) {}

  // The 192nd power of the column map is the identity.
  lemma Spread192(p: Columns) ensures Spread(Spread(p, 128), 64) == p
  {
    hide Spread;
    forall x | 0 <= x < 5 ensures Spread(Spread(p, 128), 64)[x] == p[x] { Spread192At(p, x); }
  }

  /* As iterates of theta's column map, which is Spread by 1 */

  function Iterate(p: Columns, k: nat): Columns
  {
    if k == 0 then p else Spread(Iterate(p, k - 1), 1)
  }

  lemma {:induction false} IteratePlus(p: Columns, a: nat, b: nat)
    ensures Iterate(p, a + b) == Iterate(Iterate(p, a), b)
    decreases b
  {
    hide Spread;
    if b > 0 { IteratePlus(p, a, b - 1); }
  }

  // The 2^j-th iterate has the shape of the first, with distances times 2^j.
  lemma {:induction false} IteratePower(p: Columns, j: nat)
    ensures Iterate(p, Pow2(j)) == Spread(p, Pow2(j))
    decreases j
  {
    hide Spread;
    if j == 0 {
      assert Iterate(p, 0) == p;
    } else {
      hide Iterate;
      var n := Pow2(j - 1);
      IteratePower(p, j - 1);
      IteratePower(Spread(p, n), j - 1);
      IteratePlus(p, n, n);
      SpreadTwice(p, n);
    }
  }

  // 192 applications are the identity.
  lemma Iterate192(p: Columns)
    ensures Iterate(p, 192) == p
  {
    assert Pow2(6) == 64 && Pow2(7) == 128;
    hide Spread, Iterate, Pow2;
    IteratePlus(p, 128, 64);
    IteratePower(p, 7); IteratePower(Spread(p, 128), 6);
    Spread192(p);
  }

  lemma SpreadInjective(u: Columns, v: Columns)
    requires Spread(u, 1) == Spread(v, 1)
    ensures u == v
  {
    hide Spread;
    SpreadTwice(u, 1); SpreadTwice(u, 2); SpreadTwice(u, 4); SpreadTwice(u, 8); SpreadTwice(u, 16); SpreadTwice(u, 32); SpreadTwice(u, 64);
    SpreadTwice(v, 1); SpreadTwice(v, 2); SpreadTwice(v, 4); SpreadTwice(v, 8); SpreadTwice(v, 16); SpreadTwice(v, 32); SpreadTwice(v, 64);
    Spread192(u); Spread192(v);
  }

  // The 191st power.
  function Unspread(q: Columns): Columns
  {
    Spread(Spread(Spread(Spread(Spread(Spread(Spread(q, 128), 32), 16), 8), 4), 2), 1)
  }

  lemma UnspreadRight(q: Columns) ensures Spread(Unspread(q), 1) == q
  {
    hide Spread;
    var q32 := Spread(Spread(q, 128), 32);
    var q16 := Spread(q32, 16); var q8 := Spread(q16, 8); var q4 := Spread(q8, 4); var q2 := Spread(q4, 2);
    SpreadTwice(q2, 1); SpreadTwice(q4, 2); SpreadTwice(q8, 4); SpreadTwice(q16, 8); SpreadTwice(q32, 16);
    SpreadTwice(Spread(q, 128), 32);
    Spread192(q);
  }

  lemma UnspreadLeft(p: Columns) ensures Unspread(Spread(p, 1)) == p
  {
    hide Spread, Unspread;
    UnspreadRight(Spread(p, 1));
    SpreadInjective(Unspread(Spread(p, 1)), p);
  }

  /* Theta */

  function Parities(a: LaneArray): Columns { seq(5, x requires 0 <= x < 5 => Parity(a, x)) }

  function Effect(p: Columns, x: nat): bv64
    requires x < 5
  {
    Xor(p[(x + 4) % 5], Rotate(p[(x + 1) % 5], 1))
  }

  function AddEffect(a: LaneArray, p: Columns): LaneArray
  {
    seq(25, i requires 0 <= i < 25 => Xor(a[i], Effect(p, i % 5)))
  }

  function InvTheta(b: LaneArray): LaneArray { AddEffect(b, Unspread(Parities(b))) }

  lemma ThetaIsAddEffect(a: LaneArray) ensures ThetaLanes(a) == AddEffect(a, Parities(a))
  {
    hide Xor, Rotate, Parity;
  }

  function Sum5(a: bv64, b: bv64, c: bv64, d: bv64, e: bv64): bv64 { Xor(Xor(Xor(Xor(a, b), c), d), e) }

  lemma Sum5Bit(a: bv64, b: bv64, c: bv64, d: bv64, e: bv64, z: nat)
    ensures Bit(Sum5(a, b, c, d, e), z) <==> ((((Bit(a, z) != Bit(b, z)) != Bit(c, z)) != Bit(d, z)) != Bit(e, z))
  {
    hide Bit, Xor;
    XorBit(a, b, z); XorBit(Xor(a, b), c, z); XorBit(Xor(Xor(a, b), c), d, z); XorBit(Xor(Xor(Xor(a, b), c), d), e, z);
  }

  lemma Fold5Bit(a: bv64, b: bv64, c: bv64, d: bv64, e: bv64, w: bv64, z: nat)
    ensures Bit(Sum5(Xor(a, w), Xor(b, w), Xor(c, w), Xor(d, w), Xor(e, w)), z) <==> Bit(Xor(Sum5(a, b, c, d, e), w), z)
  {
    hide Bit, Xor, Sum5;
    Sum5Bit(Xor(a, w), Xor(b, w), Xor(c, w), Xor(d, w), Xor(e, w), z); Sum5Bit(a, b, c, d, e, z);
    XorBit(a, w, z); XorBit(b, w, z); XorBit(c, w, z); XorBit(d, w, z); XorBit(e, w, z);
    XorBit(Sum5(a, b, c, d, e), w, z);
  }

  lemma Fold5(a: bv64, b: bv64, c: bv64, d: bv64, e: bv64, w: bv64)
    ensures Sum5(Xor(a, w), Xor(b, w), Xor(c, w), Xor(d, w), Xor(e, w)) == Xor(Sum5(a, b, c, d, e), w)
  {
    hide Bit, Xor, Sum5;
    var l, r := Sum5(Xor(a, w), Xor(b, w), Xor(c, w), Xor(d, w), Xor(e, w)), Xor(Sum5(a, b, c, d, e), w);
    forall z | 0 <= z < 64 ensures Bit(l, z) <==> Bit(r, z) { Fold5Bit(a, b, c, d, e, w, z); }
    BitsDetermine(l, r);
  }

  // Adding one word to each lane of a column adds it once to the parity.
  lemma ParityEffect(a: LaneArray, p: Columns, x: nat)
    requires x < 5
    ensures Parities(AddEffect(a, p))[x] == Xor(Parities(a)[x], Effect(p, x))
  {
    hide Xor, Effect;
    Fold5(a[x], a[x + 5], a[x + 10], a[x + 15], a[x + 20], Effect(p, x));
  }

  lemma XorTwice(a: bv64, w: bv64) ensures Xor(Xor(a, w), w) == a {}

  lemma XorAssoc(a: bv64, b: bv64, c: bv64)
    ensures Xor(Xor(a, b), c) == Xor(a, Xor(b, c))
  {
    hide Bit, Xor;
    forall z | 0 <= z < 64 ensures Bit(Xor(Xor(a, b), c), z) <==> Bit(Xor(a, Xor(b, c)), z)
    {
      XorBit(Xor(a, b), c, z); XorBit(a, b, z); XorBit(a, Xor(b, c), z); XorBit(b, c, z);
    }
    BitsDetermine(Xor(Xor(a, b), c), Xor(a, Xor(b, c)));
  }

  lemma SpreadIsEffect(p: Columns, x: nat)
    requires x < 5
    ensures Spread(p, 1)[x] == Xor(p[x], Effect(p, x))
  {
    hide Xor, Rotate;
    XorAssoc(p[x], p[(x + 4) % 5], Rotate(p[(x + 1) % 5], 1));
    assert Col(x, -1) == (x + 4) % 5;
  }

  lemma EffectTwice(a: LaneArray, p: Columns) ensures AddEffect(AddEffect(a, p), p) == a
  {
    hide Xor, Effect;
    forall i | 0 <= i < 25 ensures AddEffect(AddEffect(a, p), p)[i] == a[i] { XorTwice(a[i], Effect(p, i % 5)); }
  }

  lemma ThetaInverse(a: LaneArray)
    ensures InvTheta(ThetaLanes(a)) == a
    ensures ThetaLanes(InvTheta(a)) == a
  {
    hide Xor, Effect, Spread, Unspread, AddEffect, Parities, ThetaLanes;
    // first direction
    var p := Parities(a);
    ThetaIsAddEffect(a);
    forall x | 0 <= x < 5 ensures Parities(ThetaLanes(a))[x] == Spread(p, 1)[x]
    {
      ParityEffect(a, p, x); SpreadIsEffect(p, x);
    }
    assert Parities(ThetaLanes(a)) == Spread(p, 1);
    UnspreadLeft(p);
    EffectTwice(a, p);
    // second direction
    var q := Unspread(Parities(a));
    var b := AddEffect(a, q);
    UnspreadRight(Parities(a));
    forall x | 0 <= x < 5 ensures Parities(b)[x] == q[x]
    {
      ParityEffect(a, q, x); SpreadIsEffect(q, x); XorTwice(q[x], Effect(q, x));
    }
    assert Parities(b) == q;
    ThetaIsAddEffect(b);
    EffectTwice(a, q);
  }

  /* Rho, pi and iota */

  function InvRho(a: LaneArray): LaneArray
  {
    seq(25, i requires 0 <= i < 25 => RhoRange(i); Rotate(a[i], 64 - RhoBy(i)))
  }

  lemma RotateBack(v: bv64, n: nat)
    requires n <= 64
    ensures Rotate(Rotate(v, n), 64 - n) == v && Rotate(Rotate(v, 64 - n), n) == v
  {
    hide Rotate;
    RotatePlus(v, n, 64 - n); RotatePlus(v, 64 - n, n); Rotate64(v);
  }

  lemma RhoInverse(a: LaneArray)
    ensures InvRho(RhoLanes(a)) == a
    ensures RhoLanes(InvRho(a)) == a
  {
    hide Rotate, RhoBy;
    forall i | 0 <= i < 25 ensures InvRho(RhoLanes(a))[i] == a[i] && RhoLanes(InvRho(a))[i] == a[i]
    {
      RhoRange(i); RotateBack(a[i], RhoBy(i));
    }
  }

  function InvPi(a: LaneArray): LaneArray
  {
    seq(25, i requires 0 <= i < 25 => PiTable(i); a[PiTo(i)])
  }

  lemma PiInverse(a: LaneArray)
    ensures InvPi(PiLanes(a)) == a
    ensures PiLanes(InvPi(a)) == a
  {
    hide PiSource, PiTo;
    forall i | 0 <= i < 25 ensures InvPi(PiLanes(a))[i] == a[i] && PiLanes(InvPi(a))[i] == a[i] { PiTable(i); }
  }

  lemma IotaInverse(a: LaneArray, r: nat)
    requires r < 24
    ensures IotaLanes(IotaLanes(a, r), r) == a
  {
    hide Xor;
    XorTwice(a[0], KECCAK_RC[r]);
  }

  /* Chi */

  function ChiRowInv(b0: bv64, b1: bv64, b2: bv64, b3: bv64, b4: bv64): bv64
  {
    Xor(b0, AndNot(b1, Xor(b2, AndNot(b3, b4))))
  }

  predicate ChiInvBits(b0: bool, b1: bool, b2: bool, b3: bool, b4: bool) { b0 != (!b1 && (b2 != (!b3 && b4))) }

  lemma ChiRowInvBit(a: bv64, b: bv64, c: bv64, d: bv64, e: bv64, z: nat)
    ensures Bit(ChiRowInv(a, b, c, d, e), z) <==> ChiInvBits(Bit(a, z), Bit(b, z), Bit(c, z), Bit(d, z), Bit(e, z))
  {
    hide Bit, Xor, AndNot;
    AndNotBit(d, e, z); XorBit(c, AndNot(d, e), z);
    AndNotBit(b, Xor(c, AndNot(d, e)), z); XorBit(a, AndNot(b, Xor(c, AndNot(d, e))), z);
  }

  lemma RowLeft(a: bv64, b: bv64, c: bv64, d: bv64, e: bv64)
    ensures ChiRowInv(ChiRow(a, b, c), ChiRow(b, c, d), ChiRow(c, d, e), ChiRow(d, e, a), ChiRow(e, a, b)) == a
  {
    hide Bit, ChiRow, ChiRowInv;
    var l := ChiRowInv(ChiRow(a, b, c), ChiRow(b, c, d), ChiRow(c, d, e), ChiRow(d, e, a), ChiRow(e, a, b));
    forall z | 0 <= z < 64 ensures Bit(l, z) <==> Bit(a, z)
    {
      ChiRowInvBit(ChiRow(a, b, c), ChiRow(b, c, d), ChiRow(c, d, e), ChiRow(d, e, a), ChiRow(e, a, b), z);
      ChiRowBit(a, b, c, z); ChiRowBit(b, c, d, z); ChiRowBit(c, d, e, z); ChiRowBit(d, e, a, z); ChiRowBit(e, a, b, z);
    }
    BitsDetermine(l, a);
  }

  lemma RowRight(a: bv64, b: bv64, c: bv64, d: bv64, e: bv64)
    ensures ChiRow(ChiRowInv(a, b, c, d, e), ChiRowInv(b, c, d, e, a), ChiRowInv(c, d, e, a, b)) == a
  {
    hide Bit, ChiRow, ChiRowInv;
    var u, v, w := ChiRowInv(a, b, c, d, e), ChiRowInv(b, c, d, e, a), ChiRowInv(c, d, e, a, b);
    forall z | 0 <= z < 64 ensures Bit(ChiRow(u, v, w), z) <==> Bit(a, z)
    {
      ChiRowBit(u, v, w, z);
      ChiRowInvBit(a, b, c, d, e, z); ChiRowInvBit(b, c, d, e, a, z); ChiRowInvBit(c, d, e, a, b, z);
    }
    BitsDetermine(ChiRow(u, v, w), a);
  }

  function InvChi(b: LaneArray): LaneArray
  {
    seq(25, i requires 0 <= i < 25 =>
      ChiRowInv(b[i], b[InRow(i, 1)], b[InRow(i, 2)], b[InRow(i, 3)], b[InRow(i, 4)]))
  }

  lemma InRowAdd(i: nat, j: nat, k: nat)
    requires i < 25
    ensures InRow(InRow(i, j), k) == InRow(i, j + k)
  {
    var c, y := (i + j) % 5, i / 5;
    LaneParts(c, y);
    assert (c + 5 * y + k) % 5 == (i + j + k) % 5;
  }

  lemma InRowWrap(i: nat)
    requires i < 25
    ensures InRow(i, 0) == i && InRow(i, 5) == i && InRow(i, 6) == InRow(i, 1)
  {
  }

  lemma InvChiLeft(a: LaneArray, i: nat)
    requires i < 25
    ensures InvChi(ChiLanes(a))[i] == a[i]
  {
    hide ChiRow, ChiRowInv, InRow;
    InRowAdd(i, 1, 1); InRowAdd(i, 1, 2); InRowAdd(i, 2, 1); InRowAdd(i, 2, 2);
    InRowAdd(i, 3, 1); InRowAdd(i, 3, 2); InRowAdd(i, 4, 1); InRowAdd(i, 4, 2); InRowWrap(i);
    RowLeft(a[i], a[InRow(i, 1)], a[InRow(i, 2)], a[InRow(i, 3)], a[InRow(i, 4)]);
  }

  lemma InvChiRight(a: LaneArray, i: nat)
    requires i < 25
    ensures ChiLanes(InvChi(a))[i] == a[i]
  {
    hide ChiRow, ChiRowInv, InRow;
    InRowAdd(i, 1, 1); InRowAdd(i, 1, 2); InRowAdd(i, 1, 3); InRowAdd(i, 1, 4);
    InRowAdd(i, 2, 1); InRowAdd(i, 2, 2); InRowAdd(i, 2, 3); InRowAdd(i, 2, 4); InRowWrap(i);
    RowRight(a[i], a[InRow(i, 1)], a[InRow(i, 2)], a[InRow(i, 3)], a[InRow(i, 4)]);
  }

  lemma ChiInverse(a: LaneArray)
    ensures InvChi(ChiLanes(a)) == a
    ensures ChiLanes(InvChi(a)) == a
  {
    hide ChiLanes, InvChi;
    forall i | 0 <= i < 25 ensures InvChi(ChiLanes(a))[i] == a[i] && ChiLanes(InvChi(a))[i] == a[i]
    {
      InvChiLeft(a, i); InvChiRight(a, i);
    }
  }

  /* The permutation */

  function InvRound(b: LaneArray, r: nat): LaneArray
    requires r < 24
  {
    InvTheta(InvRho(InvPi(InvChi(IotaLanes(b, r)))))
  }

  lemma RoundInverse(a: LaneArray, r: nat)
    requires r < 24
    ensures InvRound(RoundLanes(a, r), r) == a
    ensures RoundLanes(InvRound(a, r), r) == a
  {
    hide ThetaLanes, RhoLanes, PiLanes, ChiLanes, IotaLanes, InvTheta, InvRho, InvPi, InvChi;
    var t := ThetaLanes(a); var u := RhoLanes(t); var v := PiLanes(u); var w := ChiLanes(v);
    ThetaInverse(a); RhoInverse(t); PiInverse(u); ChiInverse(v); IotaInverse(w, r);
    var w' := IotaLanes(a, r); var v' := InvChi(w'); var u' := InvPi(v'); var t' := InvRho(u');
    IotaInverse(a, r); ChiInverse(w'); PiInverse(v'); RhoInverse(u'); ThetaInverse(t');
  }

  // The inverse of the first n rounds.
  function InvRounds(b: LaneArray, n: nat): LaneArray
    requires n <= 24
    decreases n
  {
    if n == 0 then b else InvRounds(InvRound(b, n - 1), n - 1)
  }

  function InvKeccakLanes(b: LaneArray): LaneArray { InvRounds(b, 24) }

  lemma {:induction false} RoundsInverse(a: LaneArray, n: nat)
    requires n <= 24
    ensures InvRounds(RoundsLanes(a, n), n) == a
    ensures RoundsLanes(InvRounds(a, n), n) == a
    decreases n
  {
    hide InvRound, RoundLanes;
    if n > 0 {
      RoundInverse(RoundsLanes(a, n - 1), n - 1);
      RoundsInverse(a, n - 1);
      RoundsInverse(InvRound(a, n - 1), n - 1);
      RoundInverse(a, n - 1);
    }
  }

  // Keccak-f[1600] has a two-sided inverse.
  lemma KeccakBijective(a: LaneArray)
    ensures InvKeccakLanes(KeccakLanes(a)) == a
    ensures KeccakLanes(InvKeccakLanes(a)) == a
  {
    hide RoundsLanes, InvRounds;
    RoundsInverse(a, 24);
  }
}
