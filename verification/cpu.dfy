// run_cpu on its own fields: the shared flag, counter and slot, and each
// worker's locals, updated in place one shared access at a time.
module Cpu {
  import opened Words
  import opened Bytes
  import opened Hex
  import opened Mining
  import Pool

  class CpuRun {
    const job: Job
    const batch: nat
    var stop: bool
    var found: bool
    var slot: Option<Pool.Solution>
    var total: u64
    var workers: seq<Pool.Worker>
    ghost var winners: seq<nat>

    ghost function View(): Pool.Pool
      reads this
    {
      Pool.Pool(job, batch, stop, found, slot, total, workers, winners)
    }

    constructor (job: Job, batchPerThread: nat, threads: nat)
      ensures View() == Pool.Init(job, Max(batchPerThread, 0x1000), Max(threads, 1))
    {
      this.job, batch := job, Max(batchPerThread, 0x1000);
      stop, found, slot, total := false, false, None, 0;
      workers := seq(Max(threads, 1), t requires 0 <= t < Max(threads, 1) => Pool.InitWorker(t));
      winners := [];
    }

    // found.swap(true)
    method Swap(t: nat) returns (was: bool)
      modifies this`found, this`winners
      ensures was == old(found) && found && winners == if was then old(winners) else old(winners) + [t]
    {
      was := found;
      found := true;
      if !was { winners := winners + [t]; }
    }

    // total_hashes.fetch_add(n)
    method FetchAdd(n: nat)
      modifies this`total
      ensures total == (old(total) + n) % TWO64
    {
      total := (total + n) % TWO64;
    }

    // Worker t runs up to and including its next access to shared state, or
    // hashes one nonce.
    method Step(t: nat)
      requires job.Valid() && Pool.Enabled(View(), Pool.Work(t))
      modifies this
      ensures View() == Pool.Apply(old(View()), Pool.Work(t))
    {
      hide Digest, NonceBytes;
      var w := workers[t];
      assert Pool.Flushed(w) == 0 ==> (total + Pool.Flushed(w)) % TWO64 == total;
      match w.pc {
        case CheckFound =>
          w := w.(pc := if found then Pool.Returned else Pool.CheckStop);
        case CheckStop =>
          if stop {
            w := w.(pc := Pool.Returned);
          } else {
            w := w.(pc := Pool.Hashing, end := (w.counter + batch) % TWO64, local := 0, base := w.counter);
          }
        case Hashing =>
          if w.counter < w.end {
            var below, nonce, r := TryCounter(job, w.counter);
            w := w.(local := w.local + 1, tried := w.tried + [w.counter]);
            w := if below then w.(pc := Pool.Swapping) else w.(counter := (w.counter + 1) % TWO64);
          } else {
            w := w.(pc := Pool.Flushing);
          }
        case Swapping =>
          var was := Swap(t);
          w := w.(pc := if was then Pool.Leaving else Pool.Storing);
        case Storing =>
          slot := Some(Pool.Solution(NonceBytes(job.prefix, w.counter), Digest(job, w.counter)));
          w := w.(pc := Pool.Leaving);
        case Leaving =>
          FetchAdd(w.local);
          w := w.(pc := Pool.Returned, local := 0);
        case Flushing =>
          FetchAdd(w.local);
          w := w.(pc := Pool.CheckFound, local := 0, round := if w.counter == w.base then w.round else w.round + 1);
      }
      workers := workers[t := w];
    }

    // The workers take steps in any order until all have returned or the budget
    // of steps is spent; `stops(k)` says that step k is somebody outside
    // raising the flag.
    method Race(budget: nat, stops: nat -> bool) returns (ghost acts: seq<Pool.Action>)
      requires job.Valid()
      modifies this
      ensures Pool.Reaches(old(View()), View(), acts)
      ensures |acts| <= budget && (|acts| < budget ==> Pool.AllReturned(View()))
      ensures RaisedBy(acts, stops)
    {
      acts := [];
      ghost var p := View();
      for k := 0 to budget
        invariant |acts| == k && Pool.Reaches(p, View(), acts) && RaisedBy(acts, stops)
      {
        if forall t :: 0 <= t < |workers| ==> workers[t].pc == Pool.Returned {
          return;
        } else if stops(k) {
          Pool.Then(p, acts, Pool.RaiseStop);
          stop := true;
          acts := acts + [Pool.RaiseStop];
        } else {
          var t :| 0 <= t < |workers| && workers[t].pc != Pool.Returned;
          Pool.Then(p, acts, Pool.Work(t));
          Step(t);
          acts := acts + [Pool.Work(t)];
        }
      }
    }
  }

  // The flag is raised in exactly these steps.
  ghost predicate RaisedBy(acts: seq<Pool.Action>, stops: nat -> bool)
  {
    forall k :: 0 <= k < |acts| ==> (acts[k] == Pool.RaiseStop <==> stops(k))
  }

  // A flag that nobody raised is down.
  lemma {:induction false} NobodyStopped(p: Pool.Pool, acts: seq<Pool.Action>)
    requires Pool.Schedule(p, acts) && !p.stop && forall k :: 0 <= k < |acts| ==> acts[k] != Pool.RaiseStop
    ensures !Pool.After(p, acts).stop
    decreases |acts|
  {
    if acts != [] {
      Pool.ApplyWork(p, acts[0].t);
      hide Pool.Apply, Pool.Enabled, Pool.StepWorker, Pool.Flushed;
      NobodyStopped(Pool.Apply(p, acts[0]), acts[1..]);
    }
  }

  // What run_cpu returns once every worker has.
  ghost predicate Result(job: Job, p: Pool.Pool, found: Option<Pool.Solution>, hashes: u64)
  {
    && hashes == Pool.Evaluations(p.workers) % TWO64
    && match found
       case Some(s) => Solves(job, s.nonce, s.digest) && p.found && |p.winners| == 1
       case None =>
         p.stop && forall t, i :: 0 <= t < |p.workers| && 0 <= i < |p.workers[t].tried| ==> !Hit(job, p.workers[t].tried[i])
  }

  // run_cpu, with the budget standing for how many steps the workers are
  // watched: what it returns is what some schedule of the workers leaves in
  // which only the outside raises the flag. It gives up only when the whole
  // budget is spent, and a joined run that nobody stopped has a solution.
  method RunCpu(job: Job, batchPerThread: u64, threads: nat, budget: nat, stops: nat -> bool)
    returns (joined: bool, found: Option<Pool.Solution>, hashes: u64, ghost acts: seq<Pool.Action>, ghost p: Pool.Pool)
    requires job.Valid()
    ensures Pool.Reaches(Pool.Init(job, Max(batchPerThread, 0x1000), Max(threads, 1)), p, acts)
    ensures RaisedBy(acts, stops)
    ensures joined <==> Pool.AllReturned(p)
    ensures !joined ==> |acts| == budget
    ensures found == p.slot && hashes == p.total
    ensures joined ==> Result(job, p, found, hashes)
    ensures joined && (forall k :: 0 <= k < |acts| ==> !stops(k)) ==> found.Some?
  {
    var run := new CpuRun(job, batchPerThread, threads);
    ghost var init := run.View();
    acts := run.Race(budget, stops);
    p := run.View();
    joined := forall t :: 0 <= t < |run.workers| ==> run.workers[t].pc == Pool.Returned;
    found, hashes := run.slot, run.total;
    if joined { Returned(init, p, acts); }
    if forall k :: 0 <= k < |acts| ==> !stops(k) { NobodyStopped(init, acts); }
  }

  lemma Returned(init: Pool.Pool, p: Pool.Pool, acts: seq<Pool.Action>)
    requires init == Pool.Init(init.job, init.batch, |init.workers|) && 0 < init.batch < TWO64 && |init.workers| > 0
    requires Pool.Reaches(init, p, acts) && Pool.AllReturned(p)
    ensures Result(init.job, p, p.slot, p.total)
  {
    Pool.InitInv(init.job, init.batch, |init.workers|);
    Pool.ScheduleInv(init, acts);
    Pool.ScheduleShape(init, acts);
    assert p.total == Pool.Settled(p.workers) % TWO64;
    hide Pool.Inv, Pool.Schedule, Pool.After, Value, NonceBytes, Pool.Evaluations;
    Pool.SlotSolves(p);
    Pool.NoSolution(p);
    Pool.NothingUnflushed(p);
  }
}
