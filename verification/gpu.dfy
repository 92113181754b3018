// run_gpu: one dispatch on the device, and the host loop that launches
// dispatches until one finds a nonce or the stop flag is seen.
module Gpu {
  import opened Words
  import opened Bytes
  import opened Hex
  import opened Mining
  import opened Grind
  import opened GpuRound
  import opened WorkSize
  import Pool

  /* One dispatch */

  datatype Registers = Registers(nonceLo: u64, words: FourWords)

  // A work item's registers after hashing hold its counter and its digest.
  predicate Computed(job: Job, base: u64, i: nat, g: Registers)
  {
    g.nonceLo == Counter(base, i) &&
    forall k :: 0 <= k < 4 ==> g.words[k] == BeWord(Digest(job, Counter(base, i)), k)
  }

  predicate RegistersInv(r: Round, regs: seq<Registers>)
  {
    |regs| == |r.items| &&
    forall i :: 0 <= i < |regs| && (r.items[i].Claiming? || r.items[i].Storing?) ==> Computed(r.job, r.base, i, regs[i])
  }

  lemma RegistersStep(r: Round, i: nat, regs: seq<Registers>, g: Registers)
    requires Enabled(r, i) && RegistersInv(r, regs)
    requires r.items[i] == Hashing ==> Computed(r.job, r.base, i, g)
    requires r.items[i] != Hashing ==> g == regs[i]
    ensures RegistersInv(Apply(r, i), regs[i := g])
  {
    hide Computed, Hit;
    StepShape(r, i);
    hide Apply;
    var q := Apply(r, i);
    forall j | 0 <= j < |q.items| && (q.items[j].Claiming? || q.items[j].Storing?)
      ensures Computed(q.job, q.base, j, regs[i := g][j])
    {
    }
  }

  lemma CounterIs(base: u64, i: nat) ensures Counter(base, i) == (base + i) % TWO64 {}

  lemma ComputedWords(job: Job, base: u64, i: nat, r0: bv64, r1: bv64, r2: bv64, r3: bv64)
    requires var h := Digest(job, Counter(base, i));
             r0 == BeWord(h, 0) && r1 == BeWord(h, 1) && r2 == BeWord(h, 2) && r3 == BeWord(h, 3)
    ensures Computed(job, base, i, Registers(Counter(base, i), [r0, r1, r2, r3]))
  {
    hide Counter, Digest, BeWord;
  }

  lemma StoringBound(r: Round, i: nat)
    requires Inv(r) && i < |r.items| && r.items[i].Storing?
    ensures r.items[i].k <= 4
  {
    hide Hit, WinInv, Tried, Counter;
    assert ItemInv(r.job, r.flag, r.winners, Counter(r.base, i), i, r.items[i], r.hashed[i]);
  }

  // The buffers hold what the round says they hold.
  ghost predicate Holds(r: Round, flag: nat, nonceLow: u64, result: seq<bv64>)
  {
    (r.flag <==> flag != 0) && r.nonceLow == nonceLow && r.result == result
  }

  // One step of `grind` by item i, up to its next access to a shared buffer.
  method StepGrind(ghost r: Round, i: nat, it: Item, regs: Registers,
                   challenge: seq<bv64>, nonceHi: seq<bv64>, target: seq<bv64>, base: u64,
                   foundFlag: array<nat>, nonceLow: array<u64>, resultBe: array<bv64>)
    returns (next: Item, g: Registers)
    requires Packed(r.job, challenge, nonceHi, target) && Inv(r) && Enabled(r, i) && it == r.items[i] && base == r.base
    requires foundFlag.Length == 1 && nonceLow.Length == 1 && resultBe.Length == 4
    requires Holds(r, foundFlag[0], nonceLow[0], resultBe[..])
    requires it.Claiming? || it.Storing? ==> Computed(r.job, r.base, i, regs)
    modifies foundFlag, nonceLow, resultBe
    ensures next == StepItem(r.job, r.flag, Counter(r.base, i), it)
    ensures if it == Hashing then Computed(r.job, r.base, i, g) else g == regs
    ensures var q := Apply(r, i); Holds(q, foundFlag[0], nonceLow[0], resultBe[..])
  {
    hide Packed, Hit, Digest, BeWord, Inv, Counter;
    g := regs;
    match it
    case Entering =>
      next := if foundFlag[0] != 0 then Done else Hashing;
    case Hashing =>
      hide Computed;
      var lo, r0, r1, r2, r3, lt := GrindItem(r.job, challenge, nonceHi, target, base, i);
      CounterIs(r.base, i);
      ComputedWords(r.job, r.base, i, r0, r1, r2, r3);
      g := Registers(lo, [r0, r1, r2, r3]);
      next := if lt then Claiming else Done;
    case Claiming =>
      if foundFlag[0] == 0 {
        foundFlag[0] := 1;
        next := Storing(0);
      } else {
        next := Done;
      }
    case Storing(k) =>
      StoringBound(r, i);
      if k == 0 {
        nonceLow[0] := regs.nonceLo;
      } else {
        ghost var was := resultBe[..];
        resultBe[k - 1] := regs.words[k - 1];
        assert resultBe[..] == was[k - 1 := regs.words[k - 1]];
      }
      next := if k < 4 then Storing(k + 1) else Done;
  }

  // The device runs the kernel on n work items in an order of its own.
  method Dispatch(ghost job: Job, challenge: seq<bv64>, nonceHi: seq<bv64>, target: seq<bv64>, base: u64, n: nat,
                  foundFlag: array<nat>, nonceLow: array<u64>, resultBe: array<bv64>)
    returns (ghost r: Round)
    requires Packed(job, challenge, nonceHi, target)
    requires foundFlag.Length == 1 && nonceLow.Length == 1 && resultBe.Length == 4 && foundFlag[0] == 0
    modifies foundFlag, nonceLow, resultBe
    ensures r.job == job && r.base == base && |r.items| == n && Settled(r)
    ensures Holds(r, foundFlag[0], nonceLow[0], resultBe[..])
  {
    hide Packed, Hit, Digest, BeWord, Settled, Inv, Computed, Counter, StepItem;
    r := Launch(job, base, n, nonceLow[0], resultBe[..]);
    LaunchInv(job, base, n, nonceLow[0], resultBe[..]);
    var items := seq(n, _ => Entering);
    var regs := seq(n, _ => Registers(0, [0, 0, 0, 0]));
    hide Holds, Apply, RoundWork;
    while exists i :: 0 <= i < n && items[i] != Done
      invariant |items| == n && r.items == items && r.job == job && r.base == base && |r.hashed| == n
      invariant Inv(r) && RegistersInv(r, regs)
      invariant Holds(r, foundFlag[0], nonceLow[0], resultBe[..])
      decreases RoundWork(items)
    {
      var i :| 0 <= i < n && items[i] != Done;
      StepInv(r, i); StepWork(r, i); StepShape(r, i);
      var next, g := StepGrind(r, i, items[i], regs[i], challenge, nonceHi, target, base, foundFlag, nonceLow, resultBe);
      RegistersStep(r, i, regs, g);
      items, regs := items[i := next], regs[i := g];
      r := Apply(r, i);
    }
    DoneSettles(r);
  }

  /* The host loop */

  datatype GpuResult =
    | Solution(nonce: seq<byte>, digest: seq<byte>, hashes: u64)
    | NoSolution(hashes: u64)
    | FalsePositive   // the host's own check fails
    | EnqueueFails    // the kernel is refused for want of work items

  // The first n counters of the search are not below the target.
  ghost predicate AllRejected(job: Job, n: nat) { forall i :: 0 <= i < n ==> !Hit(job, Counter(0, i)) }

  // The nonce and digest of one of the n counters that follow the first `from`.
  ghost predicate FoundIn(job: Job, from: nat, n: nat, nonce: seq<byte>, digest: seq<byte>)
  {
    exists i :: from <= i < from + n && Hit(job, Counter(0, i)) &&
                nonce == NonceBytes(job.prefix, Counter(0, i)) && digest == Digest(job, Counter(0, i))
  }

  lemma CounterShift(from: nat, i: nat)
    ensures Counter(from % TWO64, i) == Counter(0, from + i)
  {
  }

  lemma RejectedMore(job: Job, from: nat, n: nat)
    requires AllRejected(job, from) && !HasHit(job, from % TWO64, n)
    ensures AllRejected(job, from + n)
  {
    hide Hit, Counter;
    forall i | 0 <= i < from + n ensures !Hit(job, Counter(0, i))
    {
      if i >= from { CounterShift(from, i - from); }
    }
  }

  lemma CountersMore(from: nat, n: nat)
    ensures Counters(0, from) + Counters(from % TWO64, n) == Counters(0, from + n)
  {
    forall i | 0 <= i < n ensures Counters(from % TWO64, n)[i] == Counters(0, from + n)[from + i] { CounterShift(from, i); }
  }

  lemma TriedMore(from: nat, n: nat)
    ensures multiset(Counters(0, from)) + multiset(Counters(from % TWO64, n)) == multiset(Counters(0, from + n))
  {
    hide Counters;
    CountersMore(from, n);
  }

  lemma WinnerFound(r: Round, from: nat)
    requires HoldsWinner(r) && r.base == from % TWO64
    ensures Hit(r.job, r.nonceLow)
    ensures FoundIn(r.job, from, |r.items|, NonceBytes(r.job.prefix, r.nonceLow), Digest(r.job, r.nonceLow))
  {
    hide Hit, Counter, Digest, BeWord, NonceBytes;
    var w :| 0 <= w < |r.items| && r.winners == [w] && Hit(r.job, Counter(r.base, w)) && Stored(r, Counter(r.base, w), 5);
    CounterShift(from, w);
    assert Hit(r.job, Counter(0, from + w));
  }

  lemma CounterMore(a: nat, b: nat) ensures (a % TWO64 + b) % TWO64 == (a + b) % TWO64 {}

  lemma AtMostMore(cs: seq<u64>, h: nat, k: nat) requires AtMost(cs, h) && h <= k ensures AtMost(cs, k) {}

  // What the search has done after the given number of rounds of n items.
  ghost predicate Searched(job: Job, n: nat, rounds: nat, tried: multiset<u64>)
  {
    AllRejected(job, rounds * n) && tried == multiset(Counters(0, rounds * n))
  }

  // What run_gpu returns.
  ghost predicate Answer(job: Job, n: nat, stopAt: nat, res: GpuResult, rounds: nat, tried: multiset<u64>)
  {
    match res
    case FalsePositive => false
    case EnqueueFails => n == 0 && rounds == 0 < stopAt && tried == multiset{}
    case NoSolution(h) => (n == 0 ==> stopAt == 0) && rounds == stopAt && h == Saturate(rounds * n) && Searched(job, n, rounds, tried)
    case Solution(nonce, digest, h) =>
      0 < n && 0 < rounds <= stopAt && h == Saturate(rounds * n) && |tried| <= rounds * n &&
      AllRejected(job, (rounds - 1) * n) && FoundIn(job, (rounds - 1) * n, n, nonce, digest)
  }

  lemma EmptyRoundCount(job: Job, n: nat) ensures Searched(job, n, 0, multiset{})
  {
    assert 0 * n == 0;
    assert Counters(0, 0) == [];
  }

  lemma SearchedMore(job: Job, n: nat, rounds: nat, tried: multiset<u64>, r: Round)
    requires Searched(job, n, rounds, tried) && Settled(r) && !r.flag
    requires r.job == job && r.base == (rounds * n) % TWO64 && |r.items| == n
    ensures Searched(job, n, rounds + 1, tried + r.counters)
  {
    hide Hit, Counter, Counters, AllRejected;
    Pool.RoundGrows(rounds, n);
    RejectedMore(job, rounds * n, n);
    TriedMore(rounds * n, n);
  }

  // A dispatch that raised the flag answers the search: the re-check passes.
  lemma SearchedHit(job: Job, n: nat, stopAt: nat, rounds: nat, tried: multiset<u64>, r: Round, h: u64)
    requires Searched(job, n, rounds, tried) && Settled(r) && r.flag && rounds < stopAt && n > 0
    requires r.job == job && r.base == (rounds * n) % TWO64 && |r.items| == n && h == Saturate(rounds * n + n)
    ensures Hit(job, r.nonceLow)
    ensures Answer(job, n, stopAt, Solution(NonceBytes(job.prefix, r.nonceLow), Digest(job, r.nonceLow), h), rounds + 1, tried + r.counters)
  {
    hide Hit, Counter, AllRejected, HoldsWinner, HasHit, FoundIn, NonceBytes, Digest;
    Pool.RoundGrows(rounds, n);
    WinnerFound(r, rounds * n);
    assert |Counters(0, rounds * n)| == rounds * n;
  }

  lemma StoppedAnswer(job: Job, n: nat, stopAt: nat, h: u64, tried: multiset<u64>)
    requires Searched(job, n, stopAt, tried) && h == Saturate(stopAt * n) && (n == 0 ==> stopAt == 0)
    ensures Answer(job, n, stopAt, NoSolution(h), stopAt, tried)
  {
    hide Searched;
  }

  lemma RefusedAnswer(job: Job, stopAt: nat)
    requires stopAt > 0
    ensures Answer(job, 0, stopAt, EnqueueFails, 0, multiset{})
  {
  }

  // The word arrays the host fills before the loop.
  method PackJob(job: Job) returns (challenge: seq<bv64>, nonceHi: seq<bv64>, target: seq<bv64>)
    requires job.Valid()
    ensures Packed(job, challenge, nonceHi, target)
  {
    hide FromLe, FromBe;
    var c := PackLe(job.challenge);
    var p := PackLe(job.prefix);
    var t := PackBe(job.target);
    challenge, nonceHi, target := c[..], p[..], t[..];
  }

  lemma NothingCounted(n: nat) ensures Saturate(0 * n) == 0 && (0 * n) % TWO64 == 0 {}

  lemma NothingSent() ensures Ascending([]) && AtMost([], 0) {}

  // The reports of k rounds without a hit: one for each round that is due, with
  // the count at its end.
  function Reports(n: nat, due: nat -> bool, k: nat): seq<u64>
  {
    if k == 0 then [] else Reports(n, due, k - 1) + (if due(k - 1) then [Saturate(k * n)] else [])
  }

  lemma ReportsMore(n: nat, due: nat -> bool, k: nat)
    ensures Reports(n, due, k + 1) == if due(k) then Reports(n, due, k) + [Saturate((k + 1) * n)] else Reports(n, due, k)
  {
    hide Saturate;
    assert Reports(n, due, k) + [] == Reports(n, due, k);
  }

  lemma NoReports(n: nat, due: nat -> bool) ensures Reports(n, due, 0) == [] {}

  // run_gpu past its set-up. The stop flag reads true from round `stopAt` on,
  // `due(k)` says whether 500 ms have passed by the end of round k, and `sent`
  // is the counts put on the progress channel. With no solution the search
  // hashed exactly the first counters, each once, and rejected them all; a
  // solution is the nonce and digest of a counter of the last round. A global
  // size of zero is not a valid one to enqueue (OpenCL 1.2, section 5.8).
  method RunGpu(job: Job, batch: u64, limit: Option<nat>, stopAt: nat, due: nat -> bool)
    returns (res: GpuResult, sent: seq<u64>, ghost rounds: nat, ghost tried: multiset<u64>)
    requires job.Valid()
    ensures Answer(job, GlobalSize(batch, LocalSize(limit)), stopAt, res, rounds, tried)
    ensures Ascending(sent) && AtMost(sent, Saturate(rounds * GlobalSize(batch, LocalSize(limit))))
    ensures sent == Reports(GlobalSize(batch, LocalSize(limit)), due, if res.Solution? then rounds - 1 else rounds)
  {
    hide Packed, Settled, Searched, Answer, Hit, GlobalSize, Reports, Saturate, Ascending, AtMost, Digest, NonceBytes;
    var challenge, nonceHi, target := PackJob(job);
    var foundFlag, nonceLow, resultBe := new nat[1], new u64[1], new bv64[4];

    var n := GlobalSize(batch, LocalSize(limit));
    var counter: u64, total: u64 := 0, 0;
    sent, rounds, tried := [], 0, multiset{};
    var k := 0;
    EmptyRoundCount(job, n);
    NothingSent();
    NoReports(n, due);
    NothingCounted(n);
    while true
      invariant k == rounds <= stopAt && (n == 0 ==> rounds == 0 && tried == multiset{})
      invariant Searched(job, n, rounds, tried)
      invariant counter == (rounds * n) % TWO64 && total == Saturate(rounds * n)
      invariant Ascending(sent) && AtMost(sent, total) && sent == Reports(n, due, rounds)
      decreases stopAt - k
    {
      if k >= stopAt { break; }
      if n == 0 {
        res := EnqueueFails;
        RefusedAnswer(job, stopAt);
        return;
      }
      foundFlag[0] := 0;
      ghost var r := Dispatch(job, challenge, nonceHi, target, counter, n, foundFlag, nonceLow, resultBe);
      SaturateMore(rounds * n, n); CounterMore(rounds * n, n); Pool.RoundGrows(rounds, n);
      AtMostMore(sent, total, Saturate(rounds * n + n));
      total := Saturate(total + n);
      if foundFlag[0] != 0 {
        SearchedHit(job, n, stopAt, rounds, tried, r, total);
        var below, nonce, verify := TryCounter(job, nonceLow[0]);
        res := if below then Solution(nonce, verify, total) else FalsePositive;
        rounds, tried := rounds + 1, tried + r.counters;
        return;
      }
      SearchedMore(job, n, rounds, tried, r);
      ReportsMore(n, due, rounds);
      rounds, tried := rounds + 1, tried + r.counters;
      counter := (counter + n) % TWO64;
      if due(k) {
        AscendingMore(sent, total);
        sent := sent + [total];
      }
      k := k + 1;
    }
    res := NoSolution(total);
    StoppedAnswer(job, n, stopAt, total, tried);
  }
}
