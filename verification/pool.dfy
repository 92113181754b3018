// The CPU workers of run_cpu: any number of threads racing on one found flag,
// one result slot and one hash counter. Every shared access is one step, and
// the steps of different workers interleave in any order.
module Pool {
  import opened Words
  import opened Bytes
  import opened Hex
  import opened Mining

  // Where a worker stands in its loop.
  datatype WorkerPc =
    | CheckFound   // about to load `found`
    | CheckStop    // about to load the stop flag
    | Hashing      // at the test of the inner loop
    | Swapping     // hashed a hit, about to swap `found`
    | Storing      // won the swap, about to fill the slot
    | Leaving      // about to add its local count and return
    | Flushing     // batch done, about to add its local count
    | Returned

  // `round`, `base` and `tried` are history: how many batches are done, where
  // the current one began, and every counter hashed so far, in order.
  datatype Worker = Worker(pc: WorkerPc, counter: u64, end: u64, local: nat, round: nat, base: u64, tried: seq<u64>)

  datatype Solution = Solution(nonce: seq<byte>, digest: seq<byte>)

  // `winners` is history: the workers whose swap returned false.
  datatype Pool = Pool(
    job: Job, batch: nat,
    stop: bool, found: bool, slot: Option<Solution>, total: u64,
    workers: seq<Worker>, winners: seq<nat>)

  datatype Action = Work(t: nat) | RaiseStop

  // thread_idx.wrapping_mul(2^48)
  function Start(t: nat): u64 { t * 0x1_0000_0000_0000 % TWO64 }

  function InitWorker(t: nat): Worker { Worker(CheckFound, Start(t), 0, 0, 0, Start(t), []) }

  // run_cpu with n threads; the batch is the already clamped one.
  function Init(job: Job, batch: nat, n: nat): Pool
  {
    Pool(job, batch, false, false, None, 0, seq(n, t requires 0 <= t < n => InitWorker(t)), [])
  }

  predicate Enabled(p: Pool, a: Action)
  {
    a.Work? ==> a.t < |p.workers| && p.workers[a.t].pc != Returned
  }

  // One pass of the inner loop test and body.
  function HashStep(job: Job, w: Worker): Worker
  {
    if w.counter < w.end then
      var v := w.(local := w.local + 1, tried := w.tried + [w.counter]);
      if Hit(job, w.counter) then v.(pc := Swapping) else v.(counter := (w.counter + 1) % TWO64)
    else
      w.(pc := Flushing)
  }

  // What a step does to the worker that takes it.
  function StepWorker(job: Job, batch: nat, stop: bool, found: bool, w: Worker): Worker
  {
    match w.pc
    case CheckFound => w.(pc := if found then Returned else CheckStop)
    case CheckStop =>
      if stop then w.(pc := Returned)
      else w.(pc := Hashing, end := (w.counter + batch) % TWO64, local := 0, base := w.counter)
    case Hashing => HashStep(job, w)
    case Swapping => w.(pc := if found then Leaving else Storing)
    case Storing => w.(pc := Leaving)
    case Leaving => w.(pc := Returned, local := 0)
    case Flushing => w.(pc := CheckFound, local := 0, round := if w.counter == w.base then w.round else w.round + 1)
    case Returned => w
  }

  // What a step adds to the shared total.
  function Flushed(w: Worker): nat { if w.pc == Leaving || w.pc == Flushing then w.local else 0 }

  function Apply(p: Pool, a: Action): Pool
    requires Enabled(p, a)
  {
    match a
    case RaiseStop => p.(stop := true)
    case Work(t) =>
      var w := p.workers[t];
      var q := p.(workers := p.workers[t := StepWorker(p.job, p.batch, p.stop, p.found, w)],
                  total := (p.total + Flushed(w)) % TWO64);
      if w.pc == Swapping && !p.found then
        q.(found := true, winners := p.winners + [t])
      else if w.pc == Storing then
        q.(slot := Some(Solution(NonceBytes(p.job.prefix, w.counter), Digest(p.job, w.counter))))
      else
        q
  }

  // The actions are enabled one after the other, from p on.
  predicate Schedule(p: Pool, acts: seq<Action>)
    decreases |acts|
  {
    acts == [] || (Enabled(p, acts[0]) && Schedule(Apply(p, acts[0]), acts[1..]))
  }

  function After(p: Pool, acts: seq<Action>): Pool
    requires Schedule(p, acts)
    decreases |acts|
  {
    if acts == [] then p else After(Apply(p, acts[0]), acts[1..])
  }

  predicate Reaches(p: Pool, q: Pool, acts: seq<Action>) { Schedule(p, acts) && After(p, acts) == q }

  lemma {:induction false} Then(p: Pool, acts: seq<Action>, a: Action)
    requires Schedule(p, acts) && Enabled(After(p, acts), a)
    ensures Reaches(p, Apply(After(p, acts), a), acts + [a])
    decreases |acts|
  {
    hide Enabled, Apply;
    if acts == [] {
      assert acts + [a] == [a] && [a][1..] == [];
      assert Schedule(Apply(p, a), []) && After(Apply(p, a), []) == Apply(p, a);
    } else {
      Then(Apply(p, acts[0]), acts[1..], a);
      assert (acts + [a])[1..] == acts[1..] + [a];
    }
  }

  /* The invariant */

  predicate HoldsHit(w: Worker) { w.pc == Swapping || w.pc == Storing || w.pc == Leaving }

  // What worker number t has tried, and where it stands.
  predicate WorkerInv(job: Job, batch: nat, t: nat, w: Worker)
  {
    && (forall i :: 0 <= i < |w.tried| ==> w.tried[i] == Start(t) + i)
    && (HoldsHit(w) ==> |w.tried| > 0 && w.counter == Start(t) + |w.tried| - 1 && Hit(job, w.counter))
    && (!HoldsHit(w) && w.pc != Returned ==> w.counter == Start(t) + |w.tried|)
    && (forall i :: 0 <= i < |w.tried| - 1 ==> !Hit(job, w.tried[i]))
    && (|w.tried| > 0 && Hit(job, w.tried[|w.tried| - 1]) ==> HoldsHit(w) || w.pc == Returned)
    && (w.pc in {CheckFound, CheckStop, Returned} ==> w.local == 0)
    && BatchInv(batch, t, w)
  }

  // Where the worker is within its batches.
  predicate BatchInv(batch: nat, t: nat, w: Worker)
  {
    && (w.pc == CheckFound || w.pc == CheckStop ==> w.counter == Start(t) + w.round * batch)
    && (w.pc in {Hashing, Flushing, Swapping, Storing, Leaving} ==>
          w.base == Start(t) + w.round * batch && w.base <= w.counter && w.end == (w.base + batch) % TWO64)
    && (w.pc in {Hashing, Flushing} ==> w.counter == w.base || w.counter <= w.end)
    && (w.pc == Flushing ==> w.counter >= w.end)
    && (w.pc in {Swapping, Storing, Leaving} ==> w.counter < w.end)
  }

  predicate SlotInv(p: Pool)
  {
    && |p.winners| <= 1 && (p.found <==> p.winners != [])
    && (p.winners != [] ==>
          var t := p.winners[0];
          t < |p.workers| &&
          var w := p.workers[t];
          && w.pc in {Storing, Leaving, Returned}
          && |w.tried| > 0 && Hit(p.job, w.tried[|w.tried| - 1])
          && (w.pc == Storing <==> p.slot.None?)
          && (p.slot.Some? ==>
                p.slot.value == Solution(NonceBytes(p.job.prefix, w.tried[|w.tried| - 1]), Digest(p.job, w.tried[|w.tried| - 1]))))
    && (p.winners == [] ==> p.slot.None?)
    && (forall t :: 0 <= t < |p.workers| && p.workers[t].pc == Storing ==> p.winners == [t])
  }

  // Nobody leaves without a reason, and every hit raises the flag.
  predicate ExitInv(p: Pool)
  {
    forall t :: 0 <= t < |p.workers| ==> ExitOk(p.stop, p.found, p.job, p.workers[t])
  }

  predicate ExitOk(stop: bool, found: bool, job: Job, w: Worker)
  {
    && (w.pc == Returned ==> found || stop)
    && (w.pc != Swapping && |w.tried| > 0 && Hit(job, w.tried[|w.tried| - 1]) ==> found)
  }

  // The number of hash evaluations, and of those not yet added to the total.
  function Evaluations(ws: seq<Worker>): nat
  {
    if ws == [] then 0 else |ws[0].tried| + Evaluations(ws[1..])
  }

  function Unflushed(ws: seq<Worker>): nat
  {
    if ws == [] then 0 else ws[0].local + Unflushed(ws[1..])
  }

  // Hashes made and already counted.
  function Settled(ws: seq<Worker>): int { Evaluations(ws) - Unflushed(ws) }

  predicate CountInv(p: Pool) { 0 <= Settled(p.workers) && p.total == Settled(p.workers) % TWO64 }

  predicate Inv(p: Pool)
  {
    && 0 < p.batch < TWO64
    && (forall t :: 0 <= t < |p.workers| ==> WorkerInv(p.job, p.batch, t, p.workers[t]))
    && SlotInv(p) && ExitInv(p) && CountInv(p)
  }

  /* It holds at first and is kept by every step */

  lemma InitInv(job: Job, batch: nat, n: nat)
    requires 0 < batch < TWO64
    ensures Inv(Init(job, batch, n))
  {
    hide Hit;
    var p := Init(job, batch, n);
    InitCounts(p.workers);
  }

  lemma {:induction false} InitCounts(ws: seq<Worker>)
    requires forall t :: 0 <= t < |ws| ==> ws[t].tried == [] && ws[t].local == 0
    ensures Evaluations(ws) == 0 && Unflushed(ws) == 0
  {
    if ws != [] { InitCounts(ws[1..]); }
  }

  lemma {:induction false} CountsUpdate(ws: seq<Worker>, t: nat, w: Worker)
    requires t < |ws|
    ensures Evaluations(ws[t := w]) == Evaluations(ws) - |ws[t].tried| + |w.tried|
    ensures Unflushed(ws[t := w]) == Unflushed(ws) - ws[t].local + w.local
  {
    if t == 0 {
      assert ws[0 := w][1..] == ws[1..];
    } else {
      assert ws[t := w][1..] == ws[1..][t - 1 := w];
      CountsUpdate(ws[1..], t - 1, w);
    }
  }

  lemma RoundGrows(round: nat, batch: nat) ensures (round + 1) * batch == round * batch + batch {}

  lemma HashKeepsWorker(job: Job, batch: nat, t: nat, w: Worker)
    requires 0 < batch < TWO64 && WorkerInv(job, batch, t, w) && w.pc == Hashing
    ensures WorkerInv(job, batch, t, HashStep(job, w))
  {
    hide Hit, Start;
    if w.counter < w.end {
      assert w.counter + 1 < TWO64;
    }
  }

  lemma WorkKeepsWorker(job: Job, batch: nat, stop: bool, found: bool, t: nat, w: Worker)
    requires 0 < batch < TWO64 && WorkerInv(job, batch, t, w)
    ensures WorkerInv(job, batch, t, StepWorker(job, batch, stop, found, w))
  {
    hide Hit, Start, HashStep;
    if w.pc == Hashing {
      HashKeepsWorker(job, batch, t, w);
    } else if w.pc == Flushing {
      RoundGrows(w.round, batch);
    }
  }

  lemma WorkKeepsSlot(p: Pool, t: nat)
    requires Inv(p) && Enabled(p, Work(t))
    ensures SlotInv(Apply(p, Work(t)))
  {
    hide Hit, Start, Digest, NonceBytes, CountInv, ExitInv, BatchInv;
    assert WorkerInv(p.job, p.batch, t, p.workers[t]);
  }

  lemma WorkKeepsExit(p: Pool, t: nat)
    requires Inv(p) && Enabled(p, Work(t))
    ensures ExitInv(Apply(p, Work(t)))
  {
    hide Hit, Start, Digest, NonceBytes, CountInv, BatchInv;
    var q := Apply(p, Work(t));
    assert WorkerInv(p.job, p.batch, t, p.workers[t]);
    forall u | 0 <= u < |q.workers| ensures ExitOk(q.stop, q.found, q.job, q.workers[u])
    {
      assert ExitOk(p.stop, p.found, p.job, p.workers[u]);
    }
  }

  // A step moves hashes from the local count to the total or makes one more.
  lemma StepCounts(job: Job, batch: nat, stop: bool, found: bool, t: nat, w: Worker)
    requires WorkerInv(job, batch, t, w)
    ensures var v := StepWorker(job, batch, stop, found, w);
            |v.tried| - v.local == |w.tried| - w.local + Flushed(w) && |w.tried| <= |v.tried|
  {
    hide Hit, Start, BatchInv;
  }

  lemma SettledUpdate(ws: seq<Worker>, t: nat, w: Worker)
    requires t < |ws|
    ensures Settled(ws[t := w]) == Settled(ws) + (|w.tried| - w.local) - (|ws[t].tried| - ws[t].local)
  {
    hide Evaluations, Unflushed;
    CountsUpdate(ws, t, w);
  }

  lemma ApplyWork(p: Pool, t: nat)
    requires Enabled(p, Work(t))
    ensures var w := p.workers[t]; var q := Apply(p, Work(t));
            q.workers == p.workers[t := StepWorker(p.job, p.batch, p.stop, p.found, w)] &&
            q.total == (p.total + Flushed(w)) % TWO64 && q.job == p.job && q.batch == p.batch && q.stop == p.stop
  {
    hide StepWorker, Flushed, Digest, NonceBytes;
  }

  lemma WorkKeepsCount(p: Pool, t: nat)
    requires Enabled(p, Work(t)) && CountInv(p) && WorkerInv(p.job, p.batch, t, p.workers[t])
    ensures CountInv(Apply(p, Work(t)))
  {
    hide Hit, Start, WorkerInv, StepWorker, Settled, Apply, Flushed;
    var w := p.workers[t];
    ApplyWork(p, t);
    StepCounts(p.job, p.batch, p.stop, p.found, t, w);
    SettledUpdate(p.workers, t, StepWorker(p.job, p.batch, p.stop, p.found, w));
    AddWraps(Settled(p.workers), Flushed(w));
  }

  lemma AddWraps(a: nat, b: nat) ensures (a % TWO64 + b) % TWO64 == (a + b) % TWO64 {}

  lemma WorkInv(p: Pool, t: nat)
    requires Inv(p) && Enabled(p, Work(t))
    ensures Inv(Apply(p, Work(t)))
  {
    ApplyWork(p, t);
    WorkKeepsSlot(p, t); WorkKeepsExit(p, t);
    var q := Apply(p, Work(t));
    hide Apply, WorkerInv, SlotInv, ExitInv, CountInv, StepWorker, Flushed;
    WorkKeepsCount(p, t);
    forall u | 0 <= u < |q.workers| ensures WorkerInv(q.job, q.batch, u, q.workers[u])
    {
      if u == t { WorkKeepsWorker(p.job, p.batch, p.stop, p.found, t, p.workers[t]); }
    }
  }

  lemma StopInv(p: Pool)
    requires Inv(p)
    ensures Inv(Apply(p, RaiseStop))
  {
    hide Hit, Start, WorkerInv, Digest, NonceBytes, Settled;
    var q := Apply(p, RaiseStop);
    assert SlotInv(q);
    hide SlotInv;
    forall t | 0 <= t < |q.workers| ensures WorkerInv(q.job, q.batch, t, q.workers[t]) && ExitOk(q.stop, q.found, q.job, q.workers[t])
    {
      assert WorkerInv(p.job, p.batch, t, p.workers[t]) && ExitOk(p.stop, p.found, p.job, p.workers[t]);
    }
  }

  // Every step keeps the invariant.
  lemma StepInv(p: Pool, a: Action)
    requires Inv(p) && Enabled(p, a)
    ensures Inv(Apply(p, a))
  {
    match a
    case RaiseStop =>
      hide Inv, Apply;
      StopInv(p);
    case Work(t) =>
      hide Inv, Apply;
      WorkInv(p, t);
  }

  lemma {:induction false} ScheduleInv(p: Pool, acts: seq<Action>)
    requires Inv(p) && Schedule(p, acts)
    ensures Inv(After(p, acts))
    decreases |acts|
  {
    hide Inv, Apply, Enabled;
    if acts != [] {
      StepInv(p, acts[0]);
      ScheduleInv(Apply(p, acts[0]), acts[1..]);
    }
  }

  /* What every run of the workers guarantees */

  predicate AllReturned(p: Pool) { forall t :: 0 <= t < |p.workers| ==> p.workers[t].pc == Returned }

  lemma {:induction false} NothingPending(ws: seq<Worker>)
    requires forall t :: 0 <= t < |ws| ==> ws[t].local == 0
    ensures Unflushed(ws) == 0
  {
    if ws != [] { NothingPending(ws[1..]); }
  }

  // Once all have returned every hash made is in the total.
  lemma NothingUnflushed(p: Pool)
    requires Inv(p) && AllReturned(p)
    ensures Unflushed(p.workers) == 0
  {
    hide SlotInv, ExitInv, CountInv, BatchInv, Hit, Start;
    forall t | 0 <= t < |p.workers| ensures p.workers[t].local == 0
    {
      assert WorkerInv(p.job, p.batch, t, p.workers[t]);
    }
    NothingPending(p.workers);
  }

  lemma ReturnedTotal(p: Pool)
    requires Inv(p) && AllReturned(p)
    ensures p.total == Evaluations(p.workers) % TWO64
  {
    hide WorkerInv, SlotInv, ExitInv, Evaluations, Unflushed, AllReturned, CountInv;
    NothingUnflushed(p);
    CountIs(p);
  }

  lemma CountIs(p: Pool)
    requires CountInv(p)
    ensures p.total == (Evaluations(p.workers) - Unflushed(p.workers)) % TWO64
  {
    hide Evaluations, Unflushed;
  }

  // At every moment of every run of the workers the shared total and the
  // unflushed local counts together are the hashes made, modulo 2^64.
  lemma Conservation(job: Job, batch: nat, n: nat, acts: seq<Action>)
    requires 0 < batch < TWO64 && Schedule(Init(job, batch, n), acts)
    ensures var p := After(Init(job, batch, n), acts);
            (p.total + Unflushed(p.workers)) % TWO64 == Evaluations(p.workers) % TWO64
  {
    hide Inv, After, Schedule, Evaluations, Unflushed, Init;
    InitInv(job, batch, n);
    ScheduleInv(Init(job, batch, n), acts);
    InvConserves(After(Init(job, batch, n), acts));
  }

  lemma InvConserves(p: Pool)
    requires Inv(p)
    ensures (p.total + Unflushed(p.workers)) % TWO64 == Evaluations(p.workers) % TWO64
  {
    hide WorkerInv, SlotInv, ExitInv, CountInv, Evaluations, Unflushed;
    CountIs(p);
    WrapsBack(Evaluations(p.workers), Unflushed(p.workers));
  }

  lemma WrapsBack(a: int, b: int) ensures ((a - b) % TWO64 + b) % TWO64 == a % TWO64 {}

  lemma StepKeepsSlot(p: Pool, a: Action)
    requires Inv(p) && Enabled(p, a) && p.slot.Some?
    ensures Apply(p, a).slot == p.slot
  {
    hide Hit, Start, Digest, NonceBytes, CountInv, ExitInv, BatchInv, WorkerInv, StepWorker;
  }

  // The slot is written at most once.
  lemma {:induction false} SlotIsFinal(p: Pool, acts: seq<Action>)
    requires Inv(p) && Schedule(p, acts) && p.slot.Some?
    ensures After(p, acts).slot == p.slot
    decreases |acts|
  {
    hide Inv, Apply, Enabled;
    if acts != [] {
      StepInv(p, acts[0]); StepKeepsSlot(p, acts[0]);
      SlotIsFinal(Apply(p, acts[0]), acts[1..]);
    }
  }

  // At most one worker ever wins the flag; what the slot holds solves the job
  // and is that worker's last nonce; and once all have returned the slot is
  // filled exactly when the flag is up.
  lemma WinnerIsUnique(job: Job, batch: nat, n: nat, acts: seq<Action>)
    requires 0 < batch < TWO64 && Schedule(Init(job, batch, n), acts)
    ensures var p := After(Init(job, batch, n), acts);
            && |p.winners| <= 1
            && (p.slot.Some? ==>
                  p.found && Solves(job, p.slot.value.nonce, p.slot.value.digest) &&
                  p.winners != [] && p.winners[0] < |p.workers| &&
                  var tried := p.workers[p.winners[0]].tried;
                  tried != [] && p.slot.value.nonce == NonceBytes(job.prefix, tried[|tried| - 1]))
            && (AllReturned(p) ==> (p.slot.Some? <==> p.found))
  {
    var init := Init(job, batch, n);
    InitInv(job, batch, n);
    ScheduleInv(init, acts);
    ScheduleShape(init, acts);
    hide After, Inv, NonceBytes, Value;
    SlotSolves(After(init, acts));
  }

  lemma SlotSolves(p: Pool)
    requires Inv(p)
    ensures |p.winners| <= 1
    ensures p.slot.Some? ==>
              p.found && Solves(p.job, p.slot.value.nonce, p.slot.value.digest) &&
              p.winners != [] && p.winners[0] < |p.workers| &&
              var tried := p.workers[p.winners[0]].tried;
              tried != [] && p.slot.value.nonce == NonceBytes(p.job.prefix, tried[|tried| - 1])
    ensures AllReturned(p) ==> (p.slot.Some? <==> p.found)
  {
    hide WorkerInv, ExitInv, CountInv, Value, NonceBytes;
  }

  // Without a solution the run was stopped, and no nonce hashed by any worker
  // is below the target.
  lemma NoSolutionMeansStopped(job: Job, batch: nat, n: nat, acts: seq<Action>)
    requires 0 < batch < TWO64 && n > 0 && Schedule(Init(job, batch, n), acts)
    ensures var p := After(Init(job, batch, n), acts);
            |p.workers| == n &&
            (AllReturned(p) && p.slot.None? ==>
              p.stop && forall t, i :: 0 <= t < n && 0 <= i < |p.workers[t].tried| ==> !Hit(job, p.workers[t].tried[i]))
  {
    var init := Init(job, batch, n);
    InitInv(job, batch, n);
    ScheduleInv(init, acts);
    ScheduleShape(init, acts);
    hide Inv, After;
    NoSolution(After(init, acts));
  }

  lemma NoSolution(p: Pool)
    requires Inv(p) && |p.workers| > 0
    ensures AllReturned(p) && p.slot.None? ==>
              p.stop && forall t, i :: 0 <= t < |p.workers| && 0 <= i < |p.workers[t].tried| ==> !Hit(p.job, p.workers[t].tried[i])
  {
    hide Hit, CountInv, BatchInv, Start;
    if AllReturned(p) && p.slot.None? {
      SlotSolves(p);
      assert ExitOk(p.stop, p.found, p.job, p.workers[0]);
      forall t, i | 0 <= t < |p.workers| && 0 <= i < |p.workers[t].tried| ensures !Hit(p.job, p.workers[t].tried[i])
      {
        assert WorkerInv(p.job, p.batch, t, p.workers[t]) && ExitOk(p.stop, p.found, p.job, p.workers[t]);
      }
    }
  }

  // A schedule never changes the job, the batch or the number of workers.
  lemma {:induction false} ScheduleShape(p: Pool, acts: seq<Action>)
    requires Schedule(p, acts)
    ensures var q := After(p, acts); q.job == p.job && q.batch == p.batch && |q.workers| == |p.workers|
    decreases |acts|
  {
    if acts != [] {
      if acts[0].Work? { ApplyWork(p, acts[0].t); }
      ScheduleShape(Apply(p, acts[0]), acts[1..]);
    }
  }
}
