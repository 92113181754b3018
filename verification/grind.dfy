// One work item of the kernel against byte-level Keccak-256, and the host's
// word packing.
module Grind {
  import opened Words
  import opened Bytes
  import opened Fips202
  import opened Lanes
  import opened Inverse
  import opened Kernel
  import opened Mining

  // Eight bytes of a longer string.
  function Chunk(bs: seq<byte>, i: nat): (c: seq<byte>)
    requires 8 * i + 8 <= |bs|
    ensures |c| == 8
  {
    bs[8 * i..8 * i + 8]
  }

  // The lanes the kernel loads: eight message lanes, then the two ends of
  // the padding.
  function MessageLanes(m: seq<byte>): LaneArray
    requires |m| == 64
  {
    seq(25, i requires 0 <= i < 25 =>
      if i < 8 then FromLe(Chunk(m, i)) else if i == 8 then 1 else if i == 16 then 0x8000000000000000 else 0)
  }

  /* The one-block sponge */

  // The 512-bit message followed by pad10*1 fills exactly one block.
  function PaddedBlock(n: Bits): (p: Bits)
    requires |n| == 512
    ensures |p| == RATE
  {
    n + Pad(RATE, 512)
  }

  lemma PadAt(i: nat)
    requires i < 576
    ensures |Pad(RATE, 512)| == 576 && (Pad(RATE, 512)[i] <==> i == 0 || i == 575)
  {
    assert (-512 - 2) % 1088 == 574;
  }

  lemma OneBlock(n: Bits)
    requires |n| == 512
    ensures Sponge256(n) == KeccakF(XorBits(ZERO, PaddedBlock(n)))[..256]
  {
    hide KeccakF, Pad, XorBits;
    var p := PaddedBlock(n);
    assert p[..RATE] == p && p[RATE..] == [];
    AbsorbOne(ZERO, p);
  }

  lemma AbsorbOne(s: State, p: Bits)
    requires |p| == RATE
    ensures Absorb(s, p) == KeccakF(XorBits(s, p))
  {
    hide KeccakF, XorBits;
    assert p[..RATE] == p && p[RATE..] == [];
    var t := KeccakF(XorBits(s, p));
    assert Absorb(t, []) == t;
  }

  lemma LaneOneBit(z: nat)
    requires z < 64
    ensures Bit(1, z) <==> z == 0
    ensures Bit(0x8000000000000000, z) <==> z == 63
    ensures !Bit(0, z)
  {
    Assembled();
    hide Bit, Assemble;
    AssembleBit(true, false, false, false, false, false, false, z);
    AssembleBit(false, false, false, false, false, false, true, z);
    AssembleBit(false, false, false, false, false, false, false, z);
  }

  lemma Assembled()
    ensures Assemble(true, false, false, false, false, false, false) == 1
    ensures Assemble(false, false, false, false, false, false, true) == 0x8000000000000000
    ensures Assemble(false, false, false, false, false, false, false) == 0
  {
  }

  lemma MessageLaneBit(m: seq<byte>, i: nat, z: nat)
    requires |m| == 64 && i < 8 && z < 64
    ensures Bit(MessageLanes(m)[i], z) <==> BytesToBits(m)[64 * i + z]
  {
    hide Bit, Word, LeValue;
    WordBit(LeValue(Chunk(m, i)), z);
    LeValueBit(Chunk(m, i), z);
    assert (64 * i + z) / 8 == 8 * i + z / 8 && (64 * i + z) % 8 == z % 8;
  }

  // Lane loading and the two padding words give the padded block.
  lemma MessageBlock(m: seq<byte>)
    requires |m| == 64
    ensures Lanes.Abs(MessageLanes(m)) == XorBits(ZERO, PaddedBlock(BytesToBits(m)))
  {
    forall k | 0 <= k < 1600 ensures Lanes.Abs(MessageLanes(m))[k] == XorBits(ZERO, PaddedBlock(BytesToBits(m)))[k]
    {
      hide Bit, FromLe, NatBit, Pad;
      var i, z := k / 64, k % 64;
      LaneOneBit(z);
      if k < 512 {
        MessageLaneBit(m, i, z);
      } else if k < RATE {
        PadAt(k - 512);
      }
    }
  }

  /* The digest */

  lemma {:induction false} SliceBit(s: Bits, k: nat, j: nat)
    requires 8 * k + 8 <= |s| && j < 8
    ensures NatBit(ByteOfBits(s[8 * k..8 * k + 8]), j) <==> s[8 * k + j]
  {
    NatOfBitsBit(s[8 * k..8 * k + 8], j);
  }

  // Lane k of the final state spells bytes 8k to 8k + 7 of the digest.
  lemma DigestLane(out: LaneArray, h: seq<byte>, k: nat)
    requires k < 4
    requires h == BitsToBytes(Lanes.Abs(out)[..256])
    ensures FromLe(Quarter(h, k)) == out[k]
  {
    hide Bit, NatBit, LeValue, Word, ByteOfBits;
    var s := Lanes.Abs(out)[..256];
    var q := Quarter(h, k);
    forall z | 0 <= z < 64 ensures Bit(FromLe(q), z) <==> Bit(out[k], z)
    {
      WordBit(LeValue(q), z);
      LeValueBit(q, z);
      SliceBit(s, 8 * k + z / 8, z % 8);
      assert 8 * (8 * k + z / 8) + z % 8 == 64 * k + z;
    }
    BitsDetermine(FromLe(q), out[k]);
  }

  // Keccak-256 of 64 bytes is the kernel's permutation of the kernel's lanes.
  lemma KernelDigest(m: seq<byte>, k: nat)
    requires |m| == 64 && k < 4
    ensures FromLe(Quarter(Keccak256(m), k)) == KeccakLanes(MessageLanes(m))[k]
  {
    hide Lanes.Abs, Rounds, RoundsLanes, FromLe, Absorb, MessageLanes, PaddedBlock, Quarter, XorBits, BitsToBytes, BytesToBits;
    OneBlock(BytesToBits(m));
    MessageBlock(m);
    RoundsAgree(MessageLanes(m), 24);
    DigestLane(KeccakLanes(MessageLanes(m)), Keccak256(m), k);
  }

  lemma SwappedLe(bs: seq<byte>)
    requires |bs| == 8
    ensures Swapped(FromLe(bs)) == FromBe(bs) && Swapped(FromBe(bs)) == FromLe(bs)
  {
    hide FromLe, FromBe, ToBe;
    LeRoundTrip(bs, 0); BeRoundTrip(bs, 0);
    ReverseTwice(ToBe(FromLe(bs)));
    FromLeReverse(Reverse(bs)); ReverseTwice(bs);
  }

  /* The host packs, the work item hashes */

  // The loops of run_gpu that fill challenge_le and nonce_hi_le.
  method PackLe(bytes: seq<byte>) returns (words: array<bv64>)
    requires |bytes| % 8 == 0
    ensures fresh(words) && words.Length == |bytes| / 8
    ensures forall i :: 0 <= i < words.Length ==> words[i] == FromLe(Chunk(bytes, i))
  {
    hide FromLe;
    words := new bv64[|bytes| / 8];
    for i := 0 to words.Length
      invariant forall k :: 0 <= k < i ==> words[k] == FromLe(Chunk(bytes, k))
    {
      words[i] := FromLe(bytes[8 * i..8 * i + 8]);
    }
  }

  // The loop that fills target_be.
  method PackBe(bytes: seq<byte>) returns (words: array<bv64>)
    requires |bytes| % 8 == 0
    ensures fresh(words) && words.Length == |bytes| / 8
    ensures forall i :: 0 <= i < words.Length ==> words[i] == FromBe(Chunk(bytes, i))
  {
    hide FromBe;
    words := new bv64[|bytes| / 8];
    for i := 0 to words.Length
      invariant forall k :: 0 <= k < i ==> words[k] == FromBe(Chunk(bytes, k))
    {
      words[i] := FromBe(bytes[8 * i..8 * i + 8]);
    }
  }

  // The device buffers hold the job as run_gpu packs it.
  predicate Packed(job: Job, challenge: seq<bv64>, nonceHi: seq<bv64>, target: seq<bv64>)
  {
    job.Valid() && |challenge| == 4 && |nonceHi| == 3 && |target| == 4 &&
    (forall i :: 0 <= i < 4 ==> challenge[i] == FromLe(Chunk(job.challenge, i))) &&
    (forall i :: 0 <= i < 3 ==> nonceHi[i] == FromLe(Chunk(job.prefix, i))) &&
    (forall i :: 0 <= i < 4 ==> target[i] == FromBe(Chunk(job.target, i)))
  }

  function Message(job: Job, counter: u64): (m: seq<byte>)
    requires job.Valid()
    ensures |m| == 64
  {
    job.challenge + NonceBytes(job.prefix, counter)
  }

  lemma FromBeIs(bs: seq<byte>) requires |bs| == 8 ensures FromBe(bs) == Word(Value(bs))
  {
    hide Word, Value;
  }

  // bswap64 of the counter is its big-endian bytes read as a little-endian lane.
  lemma CounterWord(counter: u64)
    ensures Swapped(Word(counter)) == FromLe(BeBytes(counter, 8))
  {
    hide Word, Swapped, BeBytes, Value, FromLe, FromBe, Pow256;
    ValueBeBytes(counter, 8); Pow256Of8();
    FromBeIs(BeBytes(counter, 8));
    SwappedLe(BeBytes(counter, 8));
  }

  lemma QuarterIsChunk(bs: seq<byte>, k: nat)
    requires |bs| == 32 && k < 4
    ensures Quarter(bs, k) == Chunk(bs, k)
  {
  }

  // What the lanes hold once loaded, lane by lane.
  predicate Loaded(challenge: seq<bv64>, nonceHi: seq<bv64>, nonceLo: u64, a: LaneArray)
    requires |challenge| == 4 && |nonceHi| == 3
  {
    a[0] == challenge[0] && a[1] == challenge[1] && a[2] == challenge[2] && a[3] == challenge[3] &&
    a[4] == nonceHi[0] && a[5] == nonceHi[1] && a[6] == nonceHi[2] && a[7] == Swapped(Word(nonceLo)) &&
    a[8] == 1 && a[16] == 0x8000000000000000 && (forall i :: 8 < i < 25 && i != 16 ==> a[i] == 0)
  }

  lemma LoadedLane(job: Job, counter: u64, challenge: seq<bv64>, nonceHi: seq<bv64>, target: seq<bv64>, a: LaneArray, i: nat)
    requires Packed(job, challenge, nonceHi, target) && Loaded(challenge, nonceHi, counter, a) && i < 8
    ensures a[i] == FromLe(Chunk(Message(job, counter), i))
  {
    hide FromLe, FromBe, Swapped, Word, BeBytes;
    var m := Message(job, counter);
    if i < 4 {
      assert Chunk(m, i) == Chunk(job.challenge, i);
    } else if i < 7 {
      assert Chunk(m, i) == Chunk(job.prefix, i - 4);
    } else {
      assert Chunk(m, 7) == BeBytes(counter, 8);
      CounterWord(counter);
    }
  }

  lemma LoadedLanes(job: Job, counter: u64, challenge: seq<bv64>, nonceHi: seq<bv64>, target: seq<bv64>, a: LaneArray)
    requires Packed(job, challenge, nonceHi, target) && Loaded(challenge, nonceHi, counter, a)
    ensures a == MessageLanes(Message(job, counter))
  {
    hide FromLe, Message, Swapped, Word;
    forall i | 0 <= i < 8 ensures a[i] == FromLe(Chunk(Message(job, counter), i))
    {
      LoadedLane(job, counter, challenge, nonceHi, target, a, i);
    }
  }

  method ClearLanes() returns (a: array<bv64>)
    ensures fresh(a) && a.Length == 25 && forall k :: 0 <= k < 25 ==> a[k] == 0
  {
    a := new bv64[25];
    for i := 0 to 25
      invariant forall k :: 0 <= k < i ==> a[k] == 0
    {
      a[i] := 0;
    }
  }

  // Loading the array A of the kernel.
  method LoadLanes(challenge: seq<bv64>, nonceHi: seq<bv64>, nonceLo: u64) returns (a: array<bv64>)
    requires |challenge| == 4 && |nonceHi| == 3
    ensures fresh(a) && a.Length == 25 && Loaded(challenge, nonceHi, nonceLo, a[..])
  {
    hide Swapped, Word, Xor;
    a := ClearLanes();
    a[0] := challenge[0];
    a[1] := challenge[1];
    a[2] := challenge[2];
    a[3] := challenge[3];
    a[4] := nonceHi[0];
    a[5] := nonceHi[1];
    a[6] := nonceHi[2];
    a[7] := Bswap64(Word(nonceLo));
    a[8] := Xor(a[8], 1);
    a[16] := Xor(a[16], 0x8000000000000000);
    XorZero(1); XorZero(0x8000000000000000);
  }

  // A work item without the flag protocol: the nonce it tries, the four words
  // it would store, and whether it claims a hit.
  method GrindItem(ghost job: Job, challenge: seq<bv64>, nonceHi: seq<bv64>, target: seq<bv64>, counterBase: u64, gid: nat)
    returns (nonceLo: u64, r0: bv64, r1: bv64, r2: bv64, r3: bv64, lt: bool)
    requires Packed(job, challenge, nonceHi, target)
    ensures nonceLo == (counterBase + gid) % TWO64
    ensures lt <==> Hit(job, nonceLo)
    ensures var h := Digest(job, nonceLo);
            r0 == BeWord(h, 0) && r1 == BeWord(h, 1) && r2 == BeWord(h, 2) && r3 == BeWord(h, 3)
  {
    hide FromLe, FromBe, Swapped, Word, Value, Keccak256, Below, RoundsLanes, MessageLanes, Loaded;
    nonceLo := (counterBase + gid) % TWO64;
    var a := LoadLanes(challenge, nonceHi, nonceLo);
    LoadedLanes(job, nonceLo, challenge, nonceHi, target, a[..]);

    KeccakF1600(a);

    r0 := Bswap64(a[0]);
    r1 := Bswap64(a[1]);
    r2 := Bswap64(a[2]);
    r3 := Bswap64(a[3]);
    ghost var h := Digest(job, nonceLo);
    forall k | 0 <= k < 4 ensures Swapped(a[k]) == BeWord(h, k) && target[k] == BeWord(job.target, k)
    {
      KernelDigest(Message(job, nonceLo), k);
      SwappedLe(Quarter(h, k));
      QuarterIsChunk(job.target, k);
    }

    if r0 != target[0] { lt := Below(r0, target[0]); }
    else if r1 != target[1] { lt := Below(r1, target[1]); }
    else if r2 != target[2] { lt := Below(r2, target[2]); }
    else { lt := Below(r3, target[3]); }
    WordsBelowIsValue(h, job.target);
  }

  lemma XorZero(w: bv64) ensures Xor(0, w) == w {}

  /* No two counters meet in the permutation */

  function FinalState(job: Job, counter: u64): LaneArray
    requires job.Valid()
  {
    KeccakLanes(MessageLanes(Message(job, counter)))
  }

  lemma MessageLanesInjective(m: seq<byte>, n: seq<byte>, i: nat)
    requires |m| == 64 && |n| == 64 && MessageLanes(m) == MessageLanes(n) && i < 8
    ensures Chunk(m, i) == Chunk(n, i)
  {
    hide FromLe, ToLe;
    LeRoundTrip(Chunk(m, i), 0); LeRoundTrip(Chunk(n, i), 0);
    assert FromLe(Chunk(m, i)) == MessageLanes(m)[i] && FromLe(Chunk(n, i)) == MessageLanes(n)[i];
  }

  // Distinct 64-byte messages always reach distinct final states.
  lemma MessagesDiffer(m: seq<byte>, n: seq<byte>)
    requires |m| == 64 && |n| == 64 && KeccakLanes(MessageLanes(m)) == KeccakLanes(MessageLanes(n))
    ensures m == n
  {
    hide MessageLanes, KeccakLanes, InvKeccakLanes;
    KeccakBijective(MessageLanes(m)); KeccakBijective(MessageLanes(n));
    forall k | 0 <= k < 64 ensures m[k] == n[k]
    {
      MessageLanesInjective(m, n, k / 8);
      assert m[k] == Chunk(m, k / 8)[k % 8] && n[k] == Chunk(n, k / 8)[k % 8];
    }
  }

  // So do distinct challenges and distinct nonces, of whatever jobs: the final
  // states agree exactly when challenge, prefix and counter all do.
  lemma FinalStatesDiffer(a: Job, b: Job, c: u64, d: u64)
    requires a.Valid() && b.Valid()
    ensures FinalState(a, c) == FinalState(b, d) <==> a.challenge == b.challenge && a.prefix == b.prefix && c == d
  {
    hide MessageLanes, KeccakLanes, NonceBytes;
    if FinalState(a, c) == FinalState(b, d) {
      var m, n := Message(a, c), Message(b, d);
      MessagesDiffer(m, n);
      assert m[..32] == a.challenge && n[..32] == b.challenge;
      assert m[32..] == NonceBytes(a.prefix, c) && n[32..] == NonceBytes(b.prefix, d);
      NonceInjective(a.prefix, b.prefix, c, d);
    }
  }
}
