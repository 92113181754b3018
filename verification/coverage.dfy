// Which counters the CPU workers try, and how many nonces the count stands for.
module Coverage {
  import opened Words
  import opened Bytes
  import opened Mining
  import opened Pool

  // A worker's counters run from its start without gap or repeat.
  lemma TriedInOrder(job: Job, batch: nat, n: nat, acts: seq<Action>, t: nat)
    requires 0 < batch < TWO64 && Schedule(Init(job, batch, n), acts) && t < n
    ensures var p := After(Init(job, batch, n), acts);
            |p.workers| == n && forall i :: 0 <= i < |p.workers[t].tried| ==> p.workers[t].tried[i] == Start(t) + i
  {
    var init := Init(job, batch, n);
    InitInv(job, batch, n);
    ScheduleInv(init, acts);
    ScheduleShape(init, acts);
    hide After, Hit, Start, SlotInv, ExitInv, CountInv, BatchInv;
    var p := After(init, acts);
    assert WorkerInv(p.job, p.batch, t, p.workers[t]);
  }

  /* The batch that would pass 2^64 is never begun */

  // Counter c lies in a batch of worker t that ends below 2^64.
  predicate Triable(batch: nat, t: nat, c: u64)
    requires batch > 0
  {
    c >= Start(t) && Start(t) + ((c - Start(t)) / batch + 1) * batch < TWO64
  }

  predicate OnlyTriable(batch: nat, t: nat, w: Worker)
    requires batch > 0
  {
    forall i :: 0 <= i < |w.tried| ==> Triable(batch, t, w.tried[i])
  }

  lemma BatchNumber(x: nat, round: nat, batch: nat)
    requires batch > 0 && round * batch <= x < round * batch + batch
    ensures x / batch == round
  {
    ModUnique(x, batch, round, x - round * batch);
  }

  lemma HashTriable(job: Job, batch: nat, t: nat, w: Worker)
    requires 0 < batch < TWO64 && WorkerInv(job, batch, t, w) && w.pc == Hashing && w.counter < w.end
    ensures Triable(batch, t, w.counter)
  {
    hide Hit, Start;
    BatchNumber(w.counter - Start(t), w.round, batch);
    RoundGrows(w.round, batch);
  }

  lemma WorkerTriable(job: Job, batch: nat, stop: bool, found: bool, t: nat, w: Worker)
    requires 0 < batch < TWO64 && WorkerInv(job, batch, t, w) && OnlyTriable(batch, t, w)
    ensures OnlyTriable(batch, t, StepWorker(job, batch, stop, found, w))
  {
    if w.pc == Hashing && w.counter < w.end { HashTriable(job, batch, t, w); }
    hide Hit, Start, Triable, WorkerInv;
  }

  lemma StepTriable(p: Pool, a: Action, t: nat)
    requires Inv(p) && Enabled(p, a) && t < |p.workers| && OnlyTriable(p.batch, t, p.workers[t])
    ensures var q := Apply(p, a); q.batch == p.batch && |q.workers| == |p.workers| && OnlyTriable(p.batch, t, q.workers[t])
  {
    assert WorkerInv(p.job, p.batch, t, p.workers[t]);
    if a.Work? {
      ApplyWork(p, a.t);
      hide Apply, OnlyTriable, WorkerInv, SlotInv, ExitInv, CountInv, StepWorker;
      WorkerTriable(p.job, p.batch, p.stop, p.found, t, p.workers[t]);
    }
  }

  lemma {:induction false} ScheduleTriable(p: Pool, acts: seq<Action>, t: nat)
    requires Inv(p) && Schedule(p, acts) && t < |p.workers| && OnlyTriable(p.batch, t, p.workers[t])
    ensures var q := After(p, acts); |q.workers| == |p.workers| && OnlyTriable(p.batch, t, q.workers[t])
    decreases |acts|
  {
    hide Inv, Apply, Enabled, OnlyTriable;
    if acts != [] {
      StepInv(p, acts[0]);
      StepTriable(p, acts[0], t);
      ScheduleTriable(Apply(p, acts[0]), acts[1..], t);
    }
  }

  /* A worker running alone reaches every triable counter before its first hit */

  predicate Searching(w: Worker) { w.pc in {CheckFound, CheckStop, Hashing, Flushing} }

  // How far the worker is from its next hash.
  function Rank(w: Worker): nat
  {
    match w.pc
    case Hashing => if w.counter < w.end then 1 else 5
    case Flushing => 4
    case CheckFound => 3
    case CheckStop => 2
    case _ => 0
  }

  predicate NoHitBelow(job: Job, t: nat, c: u64) { forall d: u64 :: Start(t) <= d < c ==> !Hit(job, d) }

  predicate Alone(p: Pool, t: nat, c: u64)
  {
    Inv(p) && t < |p.workers| && !p.stop && !p.found && Searching(p.workers[t]) && Triable(p.batch, t, c) && NoHitBelow(p.job, t, c)
  }

  // A round that begins at or before a triable counter ends below 2^64.
  lemma RoundFits(x: nat, start: nat, round: nat, batch: nat)
    requires batch > 0 && round * batch <= x && start + (x / batch + 1) * batch < TWO64
    ensures start + round * batch + batch < TWO64
  {
    var k := x / batch;
    assert x == batch * k + x % batch;
    assert batch * k == k * batch;
    RoundGrows(k, batch);
    if round > k { RoundsMonotone(k + 1, round, batch); } else { RoundsMonotone(round, k, batch); }
  }

  lemma RoundsMonotone(a: nat, b: nat, batch: nat)
    requires a <= b
    ensures a * batch <= b * batch
  {
    Product(b - a, batch); assert (b - a) * batch == b * batch - a * batch;
  }

  lemma SoloStep(job: Job, batch: nat, t: nat, w: Worker, c: u64)
    requires 0 < batch < TWO64 && WorkerInv(job, batch, t, w) && Searching(w) && w.counter <= c
    requires Triable(batch, t, c) && NoHitBelow(job, t, c)
    ensures var v := StepWorker(job, batch, false, false, w);
            if w.pc == Hashing && w.counter < w.end && w.counter == c then c in v.tried
            else Searching(v) && (v.counter > w.counter || (v.counter == w.counter && Rank(v) < Rank(w)))
  {
    hide Hit, Start, Triable;
    var v := StepWorker(job, batch, false, false, w);
    if w.pc == Hashing && w.counter < w.end {
      assert w.counter + 1 < TWO64;
      if w.counter == c {
        assert v.tried[|v.tried| - 1] == c;
      } else {
        assert !Hit(job, w.counter);
      }
    } else if w.pc == CheckStop {
      TriableRound(batch, t, w.round, c);
    }
  }

  lemma TriableRound(batch: nat, t: nat, round: nat, c: u64)
    requires batch > 0 && Triable(batch, t, c) && Start(t) + round * batch <= c
    ensures Start(t) + round * batch + batch < TWO64
  {
    hide Start;
    RoundFits(c - Start(t), Start(t), round, batch);
  }

  lemma AloneStep(p: Pool, t: nat, c: u64)
    requires Alone(p, t, c) && p.workers[t].counter <= c
    ensures Enabled(p, Work(t))
    ensures var q := Apply(p, Work(t)); var w := p.workers[t]; var v := q.workers[t];
            |q.workers| == |p.workers| &&
            if w.pc == Hashing && w.counter < w.end && w.counter == c then c in v.tried
            else Alone(q, t, c) && (v.counter > w.counter || (v.counter == w.counter && Rank(v) < Rank(w)))
  {
    StepInv(p, Work(t));
    ApplyWork(p, t);
    assert WorkerInv(p.job, p.batch, t, p.workers[t]);
    assert Apply(p, Work(t)).found == false by { hide StepWorker, Inv; }
    hide Inv, Hit, Start, Triable, NoHitBelow, StepWorker, Apply, Rank, WorkerInv;
    SoloStep(p.job, p.batch, t, p.workers[t], c);
  }

  lemma AlreadyTried(p: Pool, t: nat, c: u64)
    requires Alone(p, t, c) && c < p.workers[t].counter
    ensures c in p.workers[t].tried
  {
    hide Hit, Start, SlotInv, ExitInv, CountInv, BatchInv, NoHitBelow;
    var w := p.workers[t];
    assert WorkerInv(p.job, p.batch, t, w);
    assert c >= Start(t) && !HoldsHit(w);
    assert w.tried[c - Start(t)] == c;
  }

  lemma {:induction false} SoloReaches(p: Pool, t: nat, c: u64) returns (acts: seq<Action>)
    requires t < |p.workers| && Alone(p, t, c)
    ensures Schedule(p, acts) && var q := After(p, acts); t < |q.workers| && c in q.workers[t].tried
    decreases TWO64 - p.workers[t].counter, Rank(p.workers[t])
  {
    hide Alone, Apply, Inv, Rank;
    if c < p.workers[t].counter {
      AlreadyTried(p, t, c);
      acts := [];
    } else {
      AloneStep(p, t, c);
      var q := Apply(p, Work(t));
      if c in q.workers[t].tried {
        acts := [Work(t)];
        assert After(q, acts[1..]) == q;
      } else {
        var rest := SoloReaches(q, t, c);
        acts := [Work(t)] + rest;
        assert acts[1..] == rest;
      }
    }
  }

  // Up to its first hit, a worker can come to try a counter exactly when the
  // batch of that counter ends below 2^64.
  lemma TriableExactly(job: Job, batch: nat, n: nat, t: nat, c: u64)
    requires 0 < batch < TWO64 && t < n
    requires forall d: u64 :: Start(t) <= d < c ==> !Hit(job, d)
    ensures Triable(batch, t, c) <==>
            exists acts :: Schedule(Init(job, batch, n), acts) && TriesCounter(After(Init(job, batch, n), acts), t, c)
  {
    var init := Init(job, batch, n);
    InitInv(job, batch, n);
    hide Hit, Schedule, After, Inv;
    if Triable(batch, t, c) {
      var acts := SoloReaches(init, t, c);
      assert Schedule(init, acts) && TriesCounter(After(init, acts), t, c);
    }
    forall acts | Schedule(init, acts) && TriesCounter(After(init, acts), t, c) ensures Triable(batch, t, c)
    {
      ScheduleTriable(init, acts, t);
    }
  }

  predicate TriesCounter(p: Pool, t: nat, c: u64) { t < |p.workers| && c in p.workers[t].tried }
}
