// The kernel's in-place permutation on an array of twenty-five lanes.
module Kernel {
  import opened Words
  import Bytes
  import opened Fips202
  import opened Lanes

  // The column parities C.
  method ColumnParities(a: array<bv64>) returns (c: array<bv64>)
    requires a.Length == 25
    ensures fresh(c) && c.Length == 5
    ensures forall k :: 0 <= k < 5 ==> c[k] == Parity(a[..], k)
  {
    hide Xor;
    c := new bv64[5];
    for x := 0 to 5
      invariant a[..] == old(a[..])
      invariant forall k :: 0 <= k < x ==> c[k] == Parity(a[..], k)
    {
      c[x] := Xor(Xor(Xor(Xor(a[x], a[x + 5]), a[x + 10]), a[x + 15]), a[x + 20]);
    }
  }

  // The mixture D of neighbouring columns, added to every lane in place.
  method ThetaStep(a: array<bv64>)
    requires a.Length == 25
    modifies a
    ensures a[..] == ThetaLanes(old(a[..]))
  {
    hide Xor, Rotate, Parity;
    var c := ColumnParities(a);
    var d := new bv64[5];
    for x := 0 to 5
      invariant a[..] == old(a[..])
      invariant forall k :: 0 <= k < 5 ==> c[k] == Parity(a[..], k)
      invariant forall k :: 0 <= k < x ==> d[k] == ThetaEffect(a[..], k)
    {
      d[x] := Xor(c[(x + 4) % 5], Rotate(c[(x + 1) % 5], 1));
    }
    AddMixture(a, d);
  }

  method AddMixture(a: array<bv64>, d: array<bv64>)
    requires a.Length == 25 && d.Length == 5 && a != d
    requires forall k :: 0 <= k < 5 ==> d[k] == ThetaEffect(a[..], k)
    modifies a
    ensures a[..] == ThetaLanes(old(a[..]))
  {
    hide Xor, ThetaEffect;
    ghost var before := a[..];
    for i := 0 to 25
      invariant forall k :: 0 <= k < 5 ==> d[k] == ThetaEffect(before, k)
      invariant forall k :: 0 <= k < i ==> a[k] == ThetaLanes(before)[k]
      invariant forall k :: i <= k < 25 ==> a[k] == before[k]
    {
      a[i] := Xor(a[i], d[i % 5]);
    }
  }

  // Rotate every lane and scatter it to its place in B.
  method RhoPiStep(a: array<bv64>) returns (b: array<bv64>)
    requires a.Length == 25
    ensures fresh(b) && b.Length == 25 && b[..] == PiLanes(RhoLanes(a[..]))
  {
    hide Rotate, PiSource, PiTo, RhoBy;
    b := new bv64[25];
    forall k | 0 <= k < 25 ensures PiEntry(k) { PiTable(k); }
    for i := 0 to 25
      invariant a[..] == old(a[..])
      invariant forall k :: 0 <= k < i ==> PiTo(k) < 25 && b[PiTo(k)] == Rotate(a[k], RhoBy(k))
    {
      assert PiEntry(i);
      b[PiTo(i)] := Rotate(a[i], RhoBy(i));
      forall k | 0 <= k < i ensures PiTo(k) != PiTo(i) { assert PiEntry(k); }
    }
    forall j | 0 <= j < 25 ensures b[j] == PiLanes(RhoLanes(a[..]))[j] { assert PiEntry(j); }
  }

  // Chi on one row, from B back into A.
  method ChiRowStep(a: array<bv64>, b: array<bv64>, y: nat)
    requires a.Length == 25 && b.Length == 25 && a != b && y < 25 && y % 5 == 0
    modifies a
    ensures a[y] == ChiLanes(b[..])[y] && a[y + 1] == ChiLanes(b[..])[y + 1] && a[y + 2] == ChiLanes(b[..])[y + 2]
    ensures a[y + 3] == ChiLanes(b[..])[y + 3] && a[y + 4] == ChiLanes(b[..])[y + 4]
    ensures forall k :: 0 <= k < y ==> a[k] == old(a[k])
  {
    hide ChiRow, ChiLanes;
    var b0 := b[y + 0];
    var b1 := b[y + 1];
    var b2 := b[y + 2];
    var b3 := b[y + 3];
    var b4 := b[y + 4];
    a[y + 0] := ChiRow(b0, b1, b2);
    a[y + 1] := ChiRow(b1, b2, b3);
    a[y + 2] := ChiRow(b2, b3, b4);
    a[y + 3] := ChiRow(b3, b4, b0);
    a[y + 4] := ChiRow(b4, b0, b1);
    ChiRowValues(b[..], y);
  }

  lemma ChiRowValues(s: LaneArray, y: nat)
    requires y < 25 && y % 5 == 0
    ensures ChiLanes(s)[y] == ChiRow(s[y], s[y + 1], s[y + 2])
    ensures ChiLanes(s)[y + 1] == ChiRow(s[y + 1], s[y + 2], s[y + 3])
    ensures ChiLanes(s)[y + 2] == ChiRow(s[y + 2], s[y + 3], s[y + 4])
    ensures ChiLanes(s)[y + 3] == ChiRow(s[y + 3], s[y + 4], s[y])
    ensures ChiLanes(s)[y + 4] == ChiRow(s[y + 4], s[y], s[y + 1])
  {
    hide ChiRow, InRow, ChiLanes;
    RowIndices(y);
    ChiValue(s, y, y + 1, y + 2); ChiValue(s, y + 1, y + 2, y + 3); ChiValue(s, y + 2, y + 3, y + 4);
    ChiValue(s, y + 3, y + 4, y); ChiValue(s, y + 4, y, y + 1);
  }

  method ChiStep(a: array<bv64>, b: array<bv64>)
    requires a.Length == 25 && b.Length == 25 && a != b
    modifies a
    ensures a[..] == ChiLanes(b[..])
  {
    hide ChiLanes;
    var y := 0;
    while y < 25
      invariant 0 <= y <= 25 && y % 5 == 0
      invariant b[..] == old(b[..])
      invariant forall k :: 0 <= k < y ==> a[k] == ChiLanes(b[..])[k]
    {
      ChiRowStep(a, b, y);
      y := y + 5;
    }
  }

  // keccak_f1600: the array afterwards is Keccak-f[1600] of FIPS 202 of the
  // array before, read lane by lane.
  method KeccakF1600(a: array<bv64>)
    requires a.Length == 25
    modifies a
    ensures a[..] == KeccakLanes(old(a[..]))
    ensures Abs(a[..]) == KeccakF(Abs(old(a[..])))
  {
    hide ThetaLanes, RhoLanes, PiLanes, ChiLanes, Abs, Xor;
    for round := 0 to 24
      invariant a[..] == RoundsLanes(old(a[..]), round)
    {
      ThetaStep(a);
      var b := RhoPiStep(a);
      ChiStep(a, b);
      a[0] := Xor(a[0], KECCAK_RC[round]);
    }
    RoundsAgree(old(a[..]), 24);
  }

  // bswap64: the same eight bytes in the opposite order.
  method Bswap64(v: bv64) returns (r: bv64)
    ensures r == Bytes.Swapped(v)
  {
    r := Bytes.Swap8(v);
    r := Bytes.Swap16(r);
    r := Bytes.Swap32(r);
    Bytes.SwapIsSwapped(v);
  }
}
