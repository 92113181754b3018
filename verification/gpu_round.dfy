// One dispatch of the kernel: any number of work items racing on one found
// flag, one nonce word and four result words. Every access to those buffers is
// one step, and the steps of different items interleave in any order.
module GpuRound {
  import opened Words
  import opened Mining

  // Where a work item stands in `grind`.
  datatype Item =
    | Entering         // about to read the flag
    | Hashing          // saw it clear, about to hash and compare
    | Claiming         // hashed a hit, about to compare-and-exchange the flag
    | Storing(k: nat)  // won the flag: word 0 is the nonce, 1 to 4 the digest
    | Done

  type FourWords = s: seq<bv64> | |s| == 4 witness [0, 0, 0, 0]

  // `winners`, `hashed` and `counters` are history: the items whose exchange
  // returned 0, which items evaluated the hash, and every counter hashed.
  datatype Round = Round(
    job: Job, base: u64,
    flag: bool, nonceLow: u64, result: FourWords,
    items: seq<Item>, winners: seq<nat>, hashed: seq<bool>, counters: multiset<u64>)

  // counter_base + gid, wrapping
  function Counter(base: u64, i: nat): u64 { (base + i) % TWO64 }

  // The flag is cleared; the other buffers keep whatever they held.
  function Launch(job: Job, base: u64, n: nat, nonceLow: u64, result: FourWords): Round
  {
    Round(job, base, false, nonceLow, result, seq(n, _ => Entering), [], seq(n, _ => false), multiset{})
  }

  predicate Enabled(r: Round, i: nat) { |r.hashed| == |r.items| && i < |r.items| && r.items[i] != Done }

  function StepItem(job: Job, flag: bool, c: u64, it: Item): Item
  {
    match it
    case Entering => if flag then Done else Hashing
    case Hashing => if Hit(job, c) then Claiming else Done
    case Claiming => if flag then Done else Storing(0)
    case Storing(k) => if k < 4 then Storing(k + 1) else Done
    case Done => Done
  }

  function Apply(r: Round, i: nat): Round
    requires Enabled(r, i)
  {
    var c := Counter(r.base, i);
    var q := r.(items := r.items[i := StepItem(r.job, r.flag, c, r.items[i])]);
    match r.items[i]
    case Hashing => q.(hashed := r.hashed[i := true], counters := r.counters + multiset{c})
    case Claiming => if r.flag then q else q.(flag := true, winners := r.winners + [i])
    case Storing(k) =>
      if k == 0 then q.(nonceLow := c)
      else if k <= 4 then q.(result := r.result[k - 1 := BeWord(Digest(r.job, c), k - 1)])
      else q
    case _ => q
  }

  predicate Schedule(r: Round, order: seq<nat>)
    decreases |order|
  {
    order == [] || (Enabled(r, order[0]) && Schedule(Apply(r, order[0]), order[1..]))
  }

  function After(r: Round, order: seq<nat>): Round
    requires Schedule(r, order)
    decreases |order|
  {
    if order == [] then r else After(Apply(r, order[0]), order[1..])
  }

  predicate AllDone(r: Round) { forall i :: 0 <= i < |r.items| ==> r.items[i] == Done }

  /* The invariant */

  predicate ItemInv(job: Job, flag: bool, winners: seq<nat>, c: u64, i: nat, it: Item, hashed: bool)
  {
    && (it.Entering? || it.Hashing? ==> !hashed)
    && (it.Claiming? || it.Storing? ==> hashed && Hit(job, c))
    && (it.Storing? ==> winners == [i] && it.k <= 4)
    && (it.Done? && !hashed ==> flag)
    && (hashed && Hit(job, c) && !it.Claiming? ==> flag)
  }

  // How many of its five words the winner has stored.
  function StoredWords(it: Item): nat { if it.Storing? then it.k else 5 }

  predicate Stored(r: Round, c: u64, k: nat)
  {
    && (k >= 1 ==> r.nonceLow == c)
    && (forall m :: 0 <= m < 4 && m + 1 < k ==> r.result[m] == BeWord(Digest(r.job, c), m))
  }

  predicate WinInv(r: Round)
    requires |r.hashed| == |r.items|
  {
    && |r.winners| <= 1 && (r.flag <==> r.winners != [])
    && (r.winners != [] ==>
          var w := r.winners[0];
          w < |r.items| && r.hashed[w] && Hit(r.job, Counter(r.base, w)) && (r.items[w].Storing? || r.items[w].Done?) &&
          Stored(r, Counter(r.base, w), StoredWords(r.items[w])))
  }

  // The counters of the items that hashed.
  function Tried(base: u64, hashed: seq<bool>): multiset<u64>
  {
    if hashed == [] then multiset{}
    else
      var k := |hashed| - 1;
      Tried(base, hashed[..k]) + (if hashed[k] then multiset{Counter(base, k)} else multiset{})
  }

  predicate ItemsInv(r: Round)
    requires |r.hashed| == |r.items|
  {
    forall i :: 0 <= i < |r.items| ==> ItemInv(r.job, r.flag, r.winners, Counter(r.base, i), i, r.items[i], r.hashed[i])
  }

  predicate Inv(r: Round)
  {
    |r.hashed| == |r.items| && ItemsInv(r) && WinInv(r) && r.counters == Tried(r.base, r.hashed)
  }

  lemma {:induction false} NothingTried(base: u64, hashed: seq<bool>)
    requires forall i :: 0 <= i < |hashed| ==> !hashed[i]
    ensures Tried(base, hashed) == multiset{}
  {
    if hashed != [] { NothingTried(base, hashed[..|hashed| - 1]); }
  }

  lemma LaunchInv(job: Job, base: u64, n: nat, nonceLow: u64, result: FourWords)
    ensures Inv(Launch(job, base, n, nonceLow, result))
  {
    hide Hit, Digest;
    NothingTried(base, seq(n, _ => false));
  }

  lemma Regroup(a: multiset<u64>, b: multiset<u64>, c: multiset<u64>) ensures (a + c) + b == (a + b) + c {}

  lemma {:induction false} TriedUpdate(base: u64, hashed: seq<bool>, i: nat)
    requires i < |hashed| && !hashed[i]
    ensures Tried(base, hashed[i := true]) == Tried(base, hashed) + multiset{Counter(base, i)}
  {
    hide Counter;
    var k := |hashed| - 1;
    var last := if hashed[k] then multiset{Counter(base, k)} else multiset{};
    if i == k {
      assert hashed[i := true][..k] == hashed[..k];
      assert Tried(base, hashed) == Tried(base, hashed[..k]);
    } else {
      var s := hashed[i := true];
      assert s[..k] == hashed[..k][i := true] && s[k] == hashed[k];
      assert Tried(base, s) == Tried(base, s[..k]) + last;
      hide Tried;
      TriedUpdate(base, hashed[..k], i);
      Regroup(Tried(base, hashed[..k]), last, multiset{Counter(base, i)});
    }
  }

  lemma StepItems(r: Round, i: nat)
    requires Inv(r) && Enabled(r, i)
    ensures ItemsInv(Apply(r, i))
  {
    hide Hit, Digest, Tried, Counter, Stored, BeWord;
    var q := Apply(r, i);
    forall j | 0 <= j < |q.items| ensures ItemInv(q.job, q.flag, q.winners, Counter(q.base, j), j, q.items[j], q.hashed[j])
    {
      assert ItemInv(r.job, r.flag, r.winners, Counter(r.base, j), j, r.items[j], r.hashed[j]);
      assert ItemInv(r.job, r.flag, r.winners, Counter(r.base, i), i, r.items[i], r.hashed[i]);
    }
  }

  lemma StepWin(r: Round, i: nat)
    requires Inv(r) && Enabled(r, i)
    ensures WinInv(Apply(r, i))
  {
    hide Hit, Digest, Tried, Counter, BeWord;
    assert ItemInv(r.job, r.flag, r.winners, Counter(r.base, i), i, r.items[i], r.hashed[i]);
  }

  // Every step keeps the invariant.
  lemma StepInv(r: Round, i: nat)
    requires Inv(r) && Enabled(r, i)
    ensures Inv(Apply(r, i))
  {
    StepItems(r, i); StepWin(r, i);
    assert ItemInv(r.job, r.flag, r.winners, Counter(r.base, i), i, r.items[i], r.hashed[i]);
    hide Hit, Digest, Tried, Counter, BeWord, ItemsInv, WinInv;
    if r.items[i] == Hashing { TriedUpdate(r.base, r.hashed, i); }
  }

  lemma StepShape(r: Round, i: nat)
    requires Enabled(r, i)
    ensures var q := Apply(r, i);
            q.job == r.job && q.base == r.base && |q.items| == |r.items| && |q.hashed| == |r.hashed| &&
            q.items == r.items[i := StepItem(r.job, r.flag, Counter(r.base, i), r.items[i])]
  {
    hide StepItem, Counter, BeWord, Digest;
  }

  /* A dispatch ends */

  function ItemWork(it: Item): nat
  {
    match it
    case Entering => 8
    case Hashing => 7
    case Claiming => 6
    case Storing(k) => if k <= 4 then 5 - k else 1
    case Done => 0
  }

  function RoundWork(items: seq<Item>): nat
  {
    if items == [] then 0 else RoundWork(items[..|items| - 1]) + ItemWork(items[|items| - 1])
  }

  lemma {:induction false} RoundWorkUpdate(items: seq<Item>, i: nat, it: Item)
    requires i < |items|
    ensures RoundWork(items[i := it]) == RoundWork(items) - ItemWork(items[i]) + ItemWork(it)
  {
    var k := |items| - 1;
    if i == k {
      assert items[i := it][..k] == items[..k];
    } else {
      assert items[i := it][..k] == items[..k][i := it];
      RoundWorkUpdate(items[..k], i, it);
    }
  }

  lemma StepWork(r: Round, i: nat)
    requires Enabled(r, i)
    ensures RoundWork(Apply(r, i).items) < RoundWork(r.items)
  {
    StepShape(r, i);
    var it := StepItem(r.job, r.flag, Counter(r.base, i), r.items[i]);
    hide Apply, Counter, Hit;
    assert ItemWork(it) < ItemWork(r.items[i]);
    RoundWorkUpdate(r.items, i, it);
  }

  lemma {:induction false} LaunchWork(n: nat)
    ensures RoundWork(seq(n, _ => Entering)) == 8 * n
  {
    if n > 0 {
      var s := seq(n, _ => Entering);
      assert s[..n - 1] == seq(n - 1, _ => Entering);
      LaunchWork(n - 1);
    }
  }

  lemma {:induction false} ScheduleBound(r: Round, order: seq<nat>)
    requires Schedule(r, order)
    ensures |order| <= RoundWork(r.items)
    decreases |order|
  {
    hide Apply, Enabled, RoundWork;
    if order != [] {
      StepWork(r, order[0]);
      ScheduleBound(Apply(r, order[0]), order[1..]);
    }
  }

  /* What every dispatch leaves in the buffers */

  function Counters(base: nat, n: nat): (cs: seq<u64>)
    ensures |cs| == n
  {
    seq(n, i requires 0 <= i < n => (base + i) % TWO64)
  }

  lemma {:induction false} TriedAll(base: u64, hashed: seq<bool>)
    requires forall i :: 0 <= i < |hashed| ==> hashed[i]
    ensures Tried(base, hashed) == multiset(Counters(base, |hashed|))
  {
    if hashed != [] {
      var k := |hashed| - 1;
      TriedAll(base, hashed[..k]);
      assert Counters(base, k + 1) == Counters(base, k) + [Counter(base, k)];
    }
  }

  lemma {:induction false} TriedSize(base: u64, hashed: seq<bool>)
    ensures |Tried(base, hashed)| <= |hashed|
  {
    hide Counter;
    if hashed != [] { TriedSize(base, hashed[..|hashed| - 1]); }
  }

  // Some counter of the round is below the target.
  predicate HasHit(job: Job, base: u64, n: nat) { exists i :: 0 <= i < n && Hit(job, Counter(base, i)) }

  // The words in the buffers belong to one item, whose counter is a hit.
  ghost predicate HoldsWinner(r: Round)
  {
    exists w :: 0 <= w < |r.items| && r.winners == [w] && Hit(r.job, Counter(r.base, w)) && Stored(r, Counter(r.base, w), 5)
  }

  // What the host finds in the buffers once `finish` returns.
  ghost predicate Settled(r: Round)
  {
    && (r.flag <==> HasHit(r.job, r.base, |r.items|))
    && (r.flag ==> HoldsWinner(r))
    && (!r.flag ==> r.counters == multiset(Counters(r.base, |r.items|)))
    && |r.counters| <= |r.items|
  }

  lemma DoneSettles(r: Round)
    requires Inv(r) && AllDone(r)
    ensures Settled(r)
  {
    hide Hit, Digest, Tried, Counter, Stored, BeWord;
    TriedSize(r.base, r.hashed);
    if r.flag {
      var w := r.winners[0];
      assert r.winners == [w];
    } else {
      forall i | 0 <= i < |r.items| ensures r.hashed[i] && !Hit(r.job, Counter(r.base, i))
      {
        assert ItemInv(r.job, r.flag, r.winners, Counter(r.base, i), i, r.items[i], r.hashed[i]);
      }
      TriedAll(r.base, r.hashed);
    }
  }

  lemma {:induction false} ScheduleInv(r: Round, order: seq<nat>)
    requires Inv(r) && Schedule(r, order)
    ensures var q := After(r, order); Inv(q) && q.job == r.job && q.base == r.base && |q.items| == |r.items|
    decreases |order|
  {
    hide Inv, Apply, Enabled;
    if order != [] {
      StepInv(r, order[0]);
      StepShape(r, order[0]);
      ScheduleInv(Apply(r, order[0]), order[1..]);
    }
  }

  // An item that has not read the flag when it goes up never hashes.
  lemma {:induction false} LateItemsSkip(r: Round, order: seq<nat>, i: nat)
    requires Inv(r) && Schedule(r, order) && i < |r.items| && r.flag && !r.hashed[i]
    requires r.items[i] == Entering || r.items[i] == Done
    ensures var q := After(r, order); |q.hashed| == |r.hashed| && !q.hashed[i]
    decreases |order|
  {
    hide Inv, Apply, Enabled;
    if order != [] {
      StepInv(r, order[0]);
      StepSkips(r, order[0], i);
      LateItemsSkip(Apply(r, order[0]), order[1..], i);
    } else {
      SameLength(r);
    }
  }

  lemma SameLength(r: Round) requires Inv(r) ensures |r.hashed| == |r.items| {}

  lemma StepSkips(r: Round, j: nat, i: nat)
    requires Inv(r) && Enabled(r, j) && i < |r.items| && r.flag && !r.hashed[i] && (r.items[i] == Entering || r.items[i] == Done)
    ensures var q := Apply(r, j);
            |q.items| == |r.items| && |q.hashed| == |r.hashed| && q.flag && !q.hashed[i] && (q.items[i] == Entering || q.items[i] == Done)
  {
    hide Inv, Counter, Digest, BeWord;
  }

  // Under any order of work items a dispatch of n takes at most 8n steps, and
  // once all are done the flag is up exactly when some counter of the round is
  // below the target. Then one item won, and the nonce and the digest in the
  // buffers are both that item's; otherwise every counter of the round was
  // hashed exactly once.
  lemma DispatchResult(job: Job, base: u64, n: nat, nonceLow: u64, result: FourWords, order: seq<nat>)
    requires Schedule(Launch(job, base, n, nonceLow, result), order)
    ensures |order| <= 8 * n
    ensures var q := After(Launch(job, base, n, nonceLow, result), order);
            q.job == job && q.base == base && |q.items| == n && |q.winners| <= 1 && (AllDone(q) ==> Settled(q))
  {
    var r := Launch(job, base, n, nonceLow, result);
    LaunchInv(job, base, n, nonceLow, result);
    assert RoundWork(r.items) == 8 * n by { LaunchWork(n); assert r.items == seq(n, _ => Entering); }
    hide Apply, Enabled, After, Schedule, RoundWork, Settled, ItemsInv, Tried, Stored, Hit, Counter;
    ScheduleBound(r, order);
    ScheduleInv(r, order);
    var q := After(r, order);
    if AllDone(q) { DoneSettles(q); }
  }
}
