// A mining job, its nonces and its solutions, and the "below target" tests.
module Mining {
  import opened Words
  import opened Bytes
  import opened Hex
  import Fips202

  datatype Job = Job(challenge: seq<byte>, target: seq<byte>, prefix: seq<byte>)
  {
    predicate Valid() { |challenge| == 32 && |target| == 32 && |prefix| == 24 }
  }

  // NonceBuilder::build: the prefix, then the counter in big-endian order.
  function NonceBytes(prefix: seq<byte>, counter: u64): (n: seq<byte>)
    ensures |n| == |prefix| + 8
  {
    prefix + BeBytes(counter, 8)
  }

  method BuildNonce(prefix: seq<byte>, counter: u64) returns (out: array<byte>)
    requires |prefix| == 24
    ensures fresh(out) && out[..] == NonceBytes(prefix, counter)
  {
    out := new byte[32](_ => 0);
    for i := 0 to 24
      invariant out[..i] == prefix[..i]
    {
      out[i] := prefix[i];
    }
    var tail := BeBytes(counter, 8);
    for i := 0 to 8
      invariant out[..24] == prefix && out[24..24 + i] == tail[..i]
    {
      out[24 + i] := tail[i];
    }
    assert out[..] == out[..24] + out[24..32];
  }

  // keccak256_64 of the job's challenge and the nonce with this counter.
  function Digest(job: Job, counter: u64): (h: seq<byte>)
    ensures |h| == 32
  {
    Fips202.Keccak256(job.challenge + NonceBytes(job.prefix, counter))
  }

  predicate Hit(job: Job, counter: u64) { Value(Digest(job, counter)) < Value(job.target) }

  // A nonce and digest that solve the job.
  predicate Solves(job: Job, nonce: seq<byte>, digest: seq<byte>)
  {
    digest == Fips202.Keccak256(job.challenge + nonce) && Value(digest) < Value(job.target)
  }

  /* Nonces */

  // The nonce is the prefix times 2^64 plus the counter.
  lemma NonceValue(prefix: seq<byte>, counter: u64)
    ensures Value(NonceBytes(prefix, counter)) == Value(prefix) * TWO64 + counter
  {
    hide Value, BeBytes;
    ValueConcat(prefix, BeBytes(counter, 8));
    ValueBeBytes(counter, 8);
    Pow256Of8();
  }

  // Different prefixes or different counters never share a nonce.
  lemma NonceInjective(p: seq<byte>, q: seq<byte>, c: u64, d: u64)
    requires |p| == |q|
    ensures NonceBytes(p, c) == NonceBytes(q, d) <==> p == q && c == d
  {
    if NonceBytes(p, c) == NonceBytes(q, d) {
      assert NonceBytes(p, c)[..|p|] == p && NonceBytes(q, d)[..|q|] == q;
      NonceValue(p, c); NonceValue(q, d);
    }
  }

  // The Go side decodes a printed nonce to prefix * 2^64 + counter.
  lemma NonceCrosses(prefix: seq<byte>, counter: u64)
    requires |prefix| == 24
    ensures var r := GoNonce(ToHex(NonceBytes(prefix, counter)));
            r.Some? && r.value == NonceBytes(prefix, counter) && Value(r.value) == Value(prefix) * TWO64 + counter
  {
    GoReadsPrinted(NonceBytes(prefix, counter));
    NonceValue(prefix, counter);
  }

  /* Three comparisons */

  // is_below_target_be: the byte loop decides less-than of the values.
  method IsBelowTargetBe(result: seq<byte>, target: seq<byte>) returns (below: bool)
    requires |result| == 32 && |target| == 32
    ensures below <==> Value(result) < Value(target)
  {
    for i := 0 to 32
      invariant result[..i] == target[..i]
    {
      if result[i] != target[i] {
        FirstDifference(result, target, i);
        return result[i] < target[i];
      }
    }
    assert result[..32] == result && target[..32] == target;
    return false;
  }

  // Build the nonce of a counter, hash it and compare, as both search loops do.
  method TryCounter(job: Job, counter: u64) returns (below: bool, nonce: seq<byte>, r: seq<byte>)
    requires job.Valid()
    ensures nonce == NonceBytes(job.prefix, counter) && r == Digest(job, counter) && (below <==> Hit(job, counter))
  {
    hide Fips202.Keccak256, Value, NonceBytes;
    var out := BuildNonce(job.prefix, counter);
    nonce := out[..];
    r := Fips202.Keccak256(job.challenge + nonce);
    below := IsBelowTargetBe(r, job.target);
  }

  lemma SplitValue(a: seq<byte>, i: nat)
    requires i < |a|
    ensures Value(a) == (256 * Value(a[..i]) + a[i]) * Pow256(|a| - i - 1) + Value(a[i + 1..])
    ensures Value(a[i + 1..]) < Pow256(|a| - i - 1)
  {
    hide Value;
    assert a == (a[..i] + [a[i]]) + a[i + 1..];
    ValueSnoc(a[..i], a[i]);
    ValueConcat(a[..i] + [a[i]], a[i + 1..]);
    ValueBound(a[i + 1..]);
  }

  lemma FirstDifference(a: seq<byte>, b: seq<byte>, i: nat)
    requires |a| == |b| && i < |a| && a[..i] == b[..i] && a[i] != b[i]
    ensures Value(a) < Value(b) <==> a[i] < b[i]
  {
    hide Value;
    SplitValue(a, i); SplitValue(b, i);
    var p, n := Pow256(|a| - i - 1), 256 * Value(a[..i]);
    HigherWins(n + a[i], n + b[i], Value(a[i + 1..]), Value(b[i + 1..]), p);
  }

  lemma HigherWins(x: int, y: int, r: int, s: int, p: int)
    requires x != y && 0 <= r < p && 0 <= s < p
    ensures x * p + r < y * p + s <==> x < y
  {
    assert (y - x) * p == y * p - x * p;
    LargeMultiple(y - x, p);
    if x < y { Product(y - x, p); } else { Product(x - y, p); assert (x - y) * p == -((y - x) * p); }
  }

  // The kernel's test: four words, most significant first.
  predicate WordsBelow(r0: bv64, r1: bv64, r2: bv64, r3: bv64, t0: bv64, t1: bv64, t2: bv64, t3: bv64)
  {
    if r0 != t0 then Below(r0, t0)
    else if r1 != t1 then Below(r1, t1)
    else if r2 != t2 then Below(r2, t2)
    else Below(r3, t3)
  }

  function Quarter(bs: seq<byte>, k: nat): (q: seq<byte>)
    requires |bs| == 32 && k < 4
    ensures |q| == 8
  {
    bs[8 * k..8 * k + 8]
  }

  function BeWord(bs: seq<byte>, k: nat): bv64
    requires |bs| == 32 && k < 4
  {
    FromBe(Quarter(bs, k))
  }

  lemma QuarterBound(bs: seq<byte>, k: nat)
    requires |bs| == 32 && k < 4
    ensures Value(Quarter(bs, k)) < TWO64
  {
    ValueBound(Quarter(bs, k)); Pow256Of8();
  }

  lemma QuartersValue(bs: seq<byte>)
    requires |bs| == 32
    ensures Value(bs) == ((Value(Quarter(bs, 0)) * TWO64 + Value(Quarter(bs, 1))) * TWO64 + Value(Quarter(bs, 2))) * TWO64 + Value(Quarter(bs, 3))
  {
    hide Value;
    Pow256Of8();
    assert bs == ((Quarter(bs, 0) + Quarter(bs, 1)) + Quarter(bs, 2)) + Quarter(bs, 3);
    ValueConcat(Quarter(bs, 0), Quarter(bs, 1));
    ValueConcat(Quarter(bs, 0) + Quarter(bs, 1), Quarter(bs, 2));
    ValueConcat(Quarter(bs, 0) + Quarter(bs, 1) + Quarter(bs, 2), Quarter(bs, 3));
  }

  // On the big-endian words of two digests the kernel's test is the same.
  lemma WordsBelowIsValue(a: seq<byte>, b: seq<byte>)
    requires |a| == 32 && |b| == 32
    ensures Value(a) < Value(b) <==>
            WordsBelow(BeWord(a, 0), BeWord(a, 1), BeWord(a, 2), BeWord(a, 3),
                       BeWord(b, 0), BeWord(b, 1), BeWord(b, 2), BeWord(b, 3))
  {
    hide Value, Word, Below, Quarter;
    QuartersValue(a); QuartersValue(b);
    forall k | 0 <= k < 4
      ensures Value(Quarter(a, k)) < TWO64 && Value(Quarter(b, k)) < TWO64
      ensures BeWord(a, k) == BeWord(b, k) <==> Value(Quarter(a, k)) == Value(Quarter(b, k))
      ensures Below(BeWord(a, k), BeWord(b, k)) <==> Value(Quarter(a, k)) < Value(Quarter(b, k))
    {
      QuarterBound(a, k); QuarterBound(b, k);
      WordOrder(Value(Quarter(a, k)), Value(Quarter(b, k)));
    }
  }

  // verifyLocal: a big-integer comparison against an unreduced difficulty.
  predicate GoVerify(challenge: seq<byte>, nonce: seq<byte>, difficulty: int)
  {
    (Value(Fips202.Keccak256(challenge + nonce)) as int) < difficulty
  }

  // One digest against the big integer, and against the bytes Go prints for it.
  predicate SameVerdict(h: seq<byte>, difficulty: int)
  {
    (Value(h) as int) < difficulty <==> Value(h) < Value(DifficultyBytes(Some(difficulty)))
  }

  lemma DigestOf(v: nat) returns (h: seq<byte>)
    requires v < TWO256
    ensures |h| == 32 && Value(h) == v
  {
    hide Value, BeBytes, Pow256;
    h := BeBytes(v, 32);
    ValueBeBytes(v, 32); Pow256Of32();
  }

  lemma AbsSign(v: int)
    ensures v >= 0 ==> Hex.Abs(v) == v
    ensures 0 <= v < TWO256 ==> Hex.Abs(v) % TWO256 == v
    ensures Hex.Abs(v) % TWO256 < TWO256
  {
  }

  // verifyLocal accepts exactly the nonces whose digest solves the core's job.
  predicate GoAccepts(challenge: seq<byte>, nonce: seq<byte>, difficulty: int)
  {
    GoVerify(challenge, nonce, difficulty) <==>
    Solves(Job(challenge, DifficultyBytes(Some(difficulty)), []), nonce, Fips202.Keccak256(challenge + nonce))
  }

  lemma SameVerdictAccepts(challenge: seq<byte>, nonce: seq<byte>, difficulty: int)
    requires SameVerdict(Fips202.Keccak256(challenge + nonce), difficulty)
    ensures GoAccepts(challenge, nonce, difficulty)
  {
    hide Value, DifficultyBytes, Fips202.Keccak256;
  }

  // The Go test and the core's test on the target Go prints for it agree on
  // every digest exactly when the difficulty fits 256 bits, or is a negative
  // multiple of 2^256 (both then refuse everything). Go's check of a nonce is
  // then the core's, for every challenge and nonce.
  lemma GoAgreesWithCore(difficulty: int)
    ensures (forall h: seq<byte> :: |h| == 32 ==> SameVerdict(h, difficulty)) <==>
            (0 <= difficulty < TWO256 || (difficulty < 0 && Hex.Abs(difficulty) % TWO256 == 0))
    ensures 0 <= difficulty < TWO256 || (difficulty < 0 && Hex.Abs(difficulty) % TWO256 == 0) ==>
              forall challenge, nonce :: GoAccepts(challenge, nonce, difficulty)
  {
    VerdictsAgree(difficulty);
    if 0 <= difficulty < TWO256 || (difficulty < 0 && Hex.Abs(difficulty) % TWO256 == 0) {
      hide SameVerdict, GoAccepts, Fips202.Keccak256;
      forall challenge, nonce ensures GoAccepts(challenge, nonce, difficulty)
      {
        SameVerdictAccepts(challenge, nonce, difficulty);
      }
    }
  }

  lemma VerdictsAgree(difficulty: int)
    ensures (forall h: seq<byte> :: |h| == 32 ==> SameVerdict(h, difficulty)) <==>
            (0 <= difficulty < TWO256 || (difficulty < 0 && Hex.Abs(difficulty) % TWO256 == 0))
  {
    hide Value, DifficultyBytes;
    DifficultyRoundTrip(Some(difficulty));
    var t := Value(DifficultyBytes(Some(difficulty)));
    hide Hex.Abs;
    AbsSign(difficulty);
    if difficulty >= TWO256 {
      // the largest digest passes the Go test only
      var top := DigestOf(TWO256 - 1);
      assert !SameVerdict(top, difficulty);
    } else if difficulty < 0 && t > 0 {
      // the zero digest passes the core's test only
      var zero := DigestOf(0);
      assert !SameVerdict(zero, difficulty);
    } else {
      forall h: seq<byte> | |h| == 32 ensures SameVerdict(h, difficulty) {}
    }
  }
}
