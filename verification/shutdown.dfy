// How a run ends: once its stop flag is up every step that is not a receive
// timeout brings it closer to its end, and it is never stuck; and once a
// worker has won it can end without being stopped.
module Shutdown {
  import opened Words
  import opened Hex
  import opened Mining
  import Pool
  import GpuRound
  import opened RunThread
  import RunEvents

  /* A measure of the work left */

  // `more` is what a worker about to read the stop flag may go on to do.
  function WorkerWork(more: nat, w: Pool.Worker): nat
  {
    match w.pc
    case Returned => 0
    case CheckStop => 1 + more
    case Leaving => 1
    case CheckFound => 2
    case Storing => 2
    case Flushing => 3
    case Swapping => 3
    case Hashing => 4 + if w.counter < w.end then w.end - w.counter else 0
  }

  function PoolWork(more: nat, ws: seq<Pool.Worker>): nat
  {
    if ws == [] then 0 else WorkerWork(more, ws[0]) + PoolWork(more, ws[1..])
  }

  function More(p: Pool.Pool): nat { if p.stop then 0 else p.batch + 4 }

  // With the stop flag down the reporter leaves once the run thread tells it.
  function ReporterWork(stop: bool, p: Reporter): nat
  {
    match p
    case Gone => 0
    case CheckStop => if stop then 1 else 12
    case CheckDone => 2
    case Sleeping => 3
    case Send(_) => 10
    case Load => 11
  }

  function ForwarderWork(f: Forwarder): nat
  {
    match f
    case Exited => 0
    case Receiving => 1
    case TimedOut => 1
    case Emitting(_) => 2
  }

  function RunnerWork(p: Runner): nat
  {
    match p
    case Mining => 20
    case SetDone => 19
    case JoinReporter => 18
    case LoadHashes => 17
    case SendLast(_) => 16
    case TakeSlot(_) => 8
    case DropTx => 7
    case RaiseFlag => 6
    case JoinForwarder => 5
    case Announce => 4
    case Finished => 0
    case Grinding => 17
    case Dispatching => 23
    case Reporting(_) => 22
  }

  function WorkLeft(r: Run): nat
  {
    PoolWork(More(r.pool), r.pool.workers) + ReporterWork(r.pool.stop, r.reporter) + 4 * |r.queue| + ForwarderWork(r.forwarder) + RunnerWork(r.runner)
  }

  // The forwarder's receive timing out and going back to wait, and raising a
  // flag that is already up.
  predicate Stutters(r: Run, a: Action)
  {
    a == Timeout || a == RaiseStop || (a == ForwarderStep && r.forwarder.TimedOut? && !r.forwarderStop)
  }

  predicate Stopping(r: Run) { Inv(r) && r.pool.stop }

  /* Steps */

  lemma {:induction false} PoolWorkUpdate(more: nat, ws: seq<Pool.Worker>, t: nat, w: Pool.Worker)
    requires t < |ws|
    ensures PoolWork(more, ws[t := w]) == PoolWork(more, ws) - WorkerWork(more, ws[t]) + WorkerWork(more, w)
  {
    if t == 0 {
      assert ws[0 := w][1..] == ws[1..];
    } else {
      assert ws[t := w][1..] == ws[1..][t - 1 := w];
      PoolWorkUpdate(more, ws[1..], t - 1, w);
    }
  }

  lemma WorkerProgress(job: Job, batch: nat, stop: bool, found: bool, w: Pool.Worker)
    requires w.pc != Pool.Returned && (stop || found) && batch < TWO64
    ensures var more := if stop then 0 else batch + 4;
            WorkerWork(more, Pool.StepWorker(job, batch, stop, found, w)) < WorkerWork(more, w)
  {
    hide Hit;
    if w.pc == Pool.Hashing && w.counter < w.end { assert w.counter + 1 < TWO64; }
  }

  lemma WorkerStepProgress(r: Run, t: nat)
    requires (r.pool.stop || r.pool.found) && r.pool.batch < TWO64 && Enabled(r, WorkerStep(t))
    ensures WorkLeft(Apply(r, WorkerStep(t))) < WorkLeft(r)
  {
    Pool.ApplyWork(r.pool, t);
    var w := r.pool.workers[t];
    hide WorkerWork, Pool.StepWorker, Pool.Apply;
    WorkerProgress(r.pool.job, r.pool.batch, r.pool.stop, r.pool.found, w);
    PoolWorkUpdate(More(r.pool), r.pool.workers, t, Pool.StepWorker(r.pool.job, r.pool.batch, r.pool.stop, r.pool.found, w));
  }

  lemma ReporterProgress(r: Run)
    requires (r.pool.stop || r.reporterDone) && r.reporter != Gone
    ensures WorkLeft(ApplyReporter(r)) < WorkLeft(r)
  {
    hide PoolWork;
  }

  lemma RunnerProgress(r: Run)
    requires PhaseInv(r) && RunnerEnabled(r)
    ensures WorkLeft(ApplyRunner(r)) < WorkLeft(r)
  {
    hide PoolWork, Pool.AllReturned, Terminal, SlotOutcome;
  }

  lemma ForwarderProgress(r: Run)
    requires Enabled(r, ForwarderStep)
    ensures var q := ApplyForwarder(r);
            if Stutters(r, ForwarderStep) then WorkLeft(q) == WorkLeft(r) else WorkLeft(q) < WorkLeft(r)
  {
    hide PoolWork;
  }

  lemma ReceiveProgress(r: Run)
    requires Enabled(r, Receive)
    ensures WorkLeft(ApplyReceive(r)) < WorkLeft(r)
  {
    hide PoolWork;
  }

  lemma QuietWork(r: Run)
    ensures r.forwarder == Receiving ==> WorkLeft(r.(forwarder := TimedOut)) == WorkLeft(r)
    ensures r.pool.stop ==> WorkLeft(r.(pool := Pool.Apply(r.pool, Pool.RaiseStop))) == WorkLeft(r)
  {
    hide PoolWork;
  }

  // With the flag up every step but a stutter leaves strictly less to do.
  lemma StepProgress(r: Run, a: Action)
    requires Stopping(r) && Enabled(r, a)
    ensures Stutters(r, a) ==> WorkLeft(Apply(r, a)) == WorkLeft(r)
    ensures !Stutters(r, a) ==> WorkLeft(Apply(r, a)) < WorkLeft(r)
  {
    hide Stopping, Inv, PhaseInv, ApplyReporter, ApplyRunner, ApplyForwarder, ApplyReceive, WorkLeft, Hit, Digest, NonceBytes, Pool.Apply;
    StoppingFacts(r);
    match a
    case WorkerStep(t) => WorkerStepProgress(r, t);
    case ReporterStep => ReporterProgress(r);
    case Receive => ReceiveProgress(r);
    case ForwarderStep => ForwarderProgress(r);
    case RunnerStep => RunnerProgress(r);
    case Timeout => QuietWork(r);
    case RaiseStop => QuietWork(r);
    case _ => GpuProgress(r, a);
  }

  lemma StoppingFacts(r: Run)
    requires Stopping(r)
    ensures PhaseInv(r) && r.pool.stop && r.pool.batch < TWO64
  {
    hide PhaseInv, ChannelInv, EventInv, OutcomeInv;
  }

  lemma GpuProgress(r: Run, a: Action)
    requires r.pool.stop && Enabled(r, a)
    requires a.GpuDispatch? || a.GpuContinue? || a.GpuReport? || a.GpuHit? || a.GpuSeesStop? || a.GpuFails?
    ensures WorkLeft(Apply(r, a)) < WorkLeft(r)
  {
    hide PoolWork, Hit, Digest, NonceBytes;
  }

  lemma StepStopping(r: Run, a: Action)
    requires Stopping(r) && Enabled(r, a)
    ensures Stopping(Apply(r, a))
  {
    hide Inv, Apply, Enabled;
    StepInv(r, a);
  }

  function Moves(r: Run, acts: seq<Action>): nat
    requires Schedule(r, acts)
    decreases |acts|
  {
    if acts == [] then 0
    else (if Stutters(r, acts[0]) then 0 else 1) + Moves(Apply(r, acts[0]), acts[1..])
  }

  // However the threads are scheduled, only boundedly many steps are not stutters.
  lemma {:induction false} BoundedMoves(r: Run, acts: seq<Action>)
    requires Stopping(r) && Schedule(r, acts)
    ensures Moves(r, acts) <= WorkLeft(r)
    decreases |acts|
  {
    if acts != [] {
      StepProgress(r, acts[0]);
      StepStopping(r, acts[0]);
      hide Stopping, Apply, Enabled, WorkLeft, Stutters;
      BoundedMoves(Apply(r, acts[0]), acts[1..]);
    }
  }

  /* No deadlock */

  // A step that is not a stutter can be taken.
  ghost predicate CanMove(r: Run) { exists a :: Enabled(r, a) && !Stutters(r, a) }

  // A full channel always drains: the forwarder is still there.
  lemma ForwarderCanMove(r: Run)
    requires PhaseInv(r) && r.queue != [] && r.forwarder != Exited && !r.forwarder.TimedOut?
    ensures CanMove(r)
  {
    if r.forwarder.Emitting? {
      assert Enabled(r, ForwarderStep) && !Stutters(r, ForwarderStep);
    } else {
      assert Enabled(r, Receive) && !Stutters(r, Receive);
    }
  }

  // A dispatch comes back with a hit or without one.
  lemma DispatchCanMove(r: Run)
    requires r.runner == Dispatching
    ensures CanMove(r)
  {
    hide Hit, GpuRound.Counter;
    if RoundHits(r) {
      var i :| 0 <= i < r.host.size && Hit(r.pool.job, GpuRound.Counter(r.host.counter, i));
      assert Enabled(r, GpuHit(i)) && !Stutters(r, GpuHit(i));
    } else {
      assert Enabled(r, GpuContinue) && !Stutters(r, GpuContinue);
    }
  }

  lemma RunnerCanMove(r: Run)
    requires PhaseInv(r) && (r.pool.stop || r.cpu) && r.runner != Finished && Pool.AllReturned(r.pool) && r.reporter == Gone && !r.forwarder.TimedOut?
    ensures CanMove(r)
  {
    hide Pool.AllReturned;
    if RunnerEnabled(r) {
      assert Enabled(r, RunnerStep) && !Stutters(r, RunnerStep);
    } else if r.runner == Grinding {
      assert Enabled(r, GpuSeesStop) && !Stutters(r, GpuSeesStop);
    } else if r.runner == Dispatching {
      DispatchCanMove(r);
    } else if r.queue != [] {
      ForwarderCanMove(r);
    } else {
      assert r.runner == JoinForwarder && r.forwarder != Exited;
      if r.forwarder.Emitting? {
        assert Enabled(r, ForwarderStep) && !Stutters(r, ForwarderStep);
      } else {
        assert Enabled(r, ForwarderStep) && !Stutters(r, ForwarderStep);
      }
    }
  }

  // Short of the end, unless the forwarder has just timed out, some thread
  // has a real step to take.
  lemma SomethingMoves(r: Run)
    requires PhaseInv(r) && r.pool.stop && r.runner != Finished && !r.forwarder.TimedOut?
    ensures CanMove(r)
  {
    if !Pool.AllReturned(r.pool) {
      var t :| 0 <= t < |r.pool.workers| && r.pool.workers[t].pc != Pool.Returned;
      assert Enabled(r, WorkerStep(t)) && !Stutters(r, WorkerStep(t));
    } else if r.reporter == Gone {
      RunnerCanMove(r);
    } else {
      hide Pool.AllReturned;
      if r.reporter.Send? && !HasRoom(r) {
        ForwarderCanMove(r);
      } else {
        assert Enabled(r, ReporterStep) && !Stutters(r, ReporterStep);
      }
    }
  }

  function Late(r: Run): nat { if r.forwarder.TimedOut? then 1 else 0 }

  lemma Prepend(r: Run, a: Action, rest: seq<Action>)
    requires Enabled(r, a) && Schedule(Apply(r, a), rest)
    ensures Schedule(r, [a] + rest) && After(r, [a] + rest) == After(Apply(r, a), rest)
  {
    assert ([a] + rest)[1..] == rest;
  }

  lemma TimedOutStep(r: Run)
    requires r.forwarder.TimedOut?
    ensures Enabled(r, ForwarderStep) && Late(Apply(r, ForwarderStep)) == 0
  {
  }

  // stop_and_wait finishes: from every state with the flag up the run can be
  // driven to its end, and the bound on moves says nothing else can happen.
  lemma {:induction false} CanFinish(r: Run) returns (acts: seq<Action>)
    requires Stopping(r)
    ensures Schedule(r, acts) && After(r, acts).runner == Finished && |acts| <= 2 * WorkLeft(r) + Late(r)
    ensures RaiseStop !in acts
    decreases WorkLeft(r), Late(r)
  {
    if r.runner == Finished {
      acts := [];
    } else {
      var a := ForwarderStep;
      if r.forwarder.TimedOut? {
        TimedOutStep(r);
      } else {
        assert PhaseInv(r);
        SomethingMoves(r);
        a :| Enabled(r, a) && !Stutters(r, a);
      }
      StepProgress(r, a);
      StepStopping(r, a);
      hide Stopping, Apply, Enabled, WorkLeft;
      var rest := CanFinish(Apply(r, a));
      Prepend(r, a, rest);
      acts := [a] + rest;
    }
  }

  /* A run that has found its nonce ends by itself */

  predicate Won(r: Run) { Inv(r) && r.cpu && r.pool.found && !r.pool.stop }

  // A move that brings a won run closer to its end.
  ghost predicate Advances(r: Run, a: Action)
  {
    Enabled(r, a) && a != RaiseStop && WorkLeft(Apply(r, a)) < WorkLeft(r)
  }

  // With the search over and the channel full, the forwarder takes.
  lemma ForwarderAdvances(r: Run)
    requires PhaseInv(r) && r.queue != [] && r.forwarder != Exited && !r.forwarder.TimedOut?
    ensures exists a :: Advances(r, a)
  {
    if r.forwarder.Emitting? {
      ForwarderProgress(r);
      assert Advances(r, ForwarderStep) by { hide WorkLeft, ApplyForwarder; }
    } else {
      ReceiveProgress(r);
      assert Advances(r, Receive) by { hide WorkLeft, ApplyReceive; }
    }
  }

  lemma RunnerAdvances(r: Run)
    requires PhaseInv(r) && RunnerEnabled(r)
    ensures exists a :: Advances(r, a)
  {
    hide WorkLeft, ApplyRunner, PhaseInv;
    RunnerProgress(r);
    assert Advances(r, RunnerStep);
  }

  lemma ReporterAdvances(r: Run)
    requires PhaseInv(r) && r.cpu && r.reporterDone && r.reporter != Gone && !r.forwarder.TimedOut?
    ensures exists a :: Advances(r, a)
  {
    if r.reporter.Send? && !HasRoom(r) {
      ForwarderAdvances(r);
    } else {
      hide WorkLeft, ApplyReporter, PhaseInv;
      ReporterProgress(r);
      assert Advances(r, ReporterStep);
    }
  }

  // The run thread waiting for the forwarder.
  lemma JoinAdvances(r: Run)
    requires PhaseInv(r) && r.cpu && r.reporter == Gone && r.runner != Finished && !RunnerEnabled(r) && Pool.AllReturned(r.pool) && !r.forwarder.TimedOut?
    ensures exists a :: Advances(r, a)
  {
    hide Pool.AllReturned;
    if r.queue != [] {
      ForwarderAdvances(r);
    } else {
      assert r.runner == JoinForwarder && r.forwarder != Exited;
      assert Enabled(r, ForwarderStep) && !Stutters(r, ForwarderStep);
      hide WorkLeft, ApplyForwarder;
      ForwarderProgress(r);
      assert Advances(r, ForwarderStep);
    }
  }

  lemma WonAdvances(r: Run)
    requires Won(r) && r.runner != Finished && !r.forwarder.TimedOut?
    ensures exists a :: Advances(r, a)
  {
    assert PhaseInv(r) && r.pool.batch < TWO64;
    hide WorkLeft, Apply, RunnerEnabled, Inv;
    if !Pool.AllReturned(r.pool) {
      var t :| 0 <= t < |r.pool.workers| && r.pool.workers[t].pc != Pool.Returned;
      WorkerStepProgress(r, t);
      assert Advances(r, WorkerStep(t));
    } else if RunnerEnabled(r) {
      RunnerAdvances(r);
    } else {
      NotEnabled(r);
      if r.reporter != Gone { ReporterAdvances(r); } else { JoinAdvances(r); }
    }
  }

  // A run thread that cannot move past the search has told the reporter.
  lemma NotEnabled(r: Run)
    requires PhaseInv(r) && r.cpu && Pool.AllReturned(r.pool) && !RunnerEnabled(r) && r.runner != Finished
    ensures r.reporter != Gone ==> r.reporterDone
  {
    hide Pool.AllReturned;
  }

  lemma StepWon(r: Run, a: Action)
    requires Won(r) && Enabled(r, a) && a != RaiseStop
    ensures Won(Apply(r, a))
  {
    StepInv(r, a);
    FoundStays(r, a);
    StopStaysDown(r, a);
    hide Inv, Apply, Enabled;
  }

  lemma StopStaysDown(r: Run, a: Action)
    requires Enabled(r, a) && a != RaiseStop && !r.pool.stop
    ensures !Apply(r, a).pool.stop
  {
    if a.WorkerStep? {
      hide Pool.StepWorker, Pool.AllReturned, Digest, NonceBytes;
    } else {
      hide Apply, Enabled;
      OtherPool(r, a);
    }
  }

  // The forwarder leaves its timeout; otherwise some move advances.
  lemma WonMove(r: Run) returns (a: Action)
    requires Won(r) && r.runner != Finished
    ensures Enabled(r, a) && a != RaiseStop && Won(Apply(r, a))
    ensures var q := Apply(r, a);
            WorkLeft(q) < WorkLeft(r) || (WorkLeft(q) == WorkLeft(r) && Late(q) < Late(r))
  {
    if r.forwarder.TimedOut? {
      a := ForwarderStep;
      TimedOutStep(r); ForwarderProgress(r);
    } else {
      hide Won, Apply, Enabled, WorkLeft;
      WonAdvances(r);
      a :| Advances(r, a);
    }
    hide Won, Apply, Enabled, WorkLeft, Inv;
    StepWon(r, a);
  }

  // Nobody need stop it: from every state in which a worker has won, the run
  // can reach its end, and its last event is then a Found.
  lemma {:induction false} WonReturns(r: Run) returns (acts: seq<Action>)
    requires Won(r)
    ensures Schedule(r, acts) && RaiseStop !in acts && |acts| <= 2 * WorkLeft(r) + Late(r)
    ensures After(r, acts).runner == Finished && EndsFound(After(r, acts))
    decreases WorkLeft(r), Late(r)
  {
    hide Won, Apply, Enabled, WorkLeft, EndsFound;
    if r.runner == Finished {
      acts := [];
      WonEnds(r);
    } else {
      var a := WonMove(r);
      LateAtMost(r); LateAtMost(Apply(r, a));
      var rest := WonReturns(Apply(r, a));
      Prepend(r, a, rest);
      acts := [a] + rest;
    }
  }

  predicate EndsFound(r: Run) { r.emitted != [] && r.emitted[|r.emitted| - 1].FoundEvent? }

  lemma WonEnds(r: Run)
    requires Won(r) && r.runner == Finished
    ensures EndsFound(r)
  {
    hide Inv;
    RunEvents.FoundExactly(r);
  }

  lemma LateAtMost(r: Run) ensures Late(r) <= 1 {}

  /* At most one more batch */

  // The workers are told to leave: the stop flag is up or one of them has won.
  predicate Leaving(r: Run) { Inv(r) && (r.pool.stop || r.pool.found) }

  // Hashes a worker may still make then. One that has read the found flag
  // before it went up, and not yet the stop flag, begins a whole batch.
  function HashesLeft(batch: nat, stop: bool, w: Pool.Worker): nat
  {
    if w.pc == Pool.Hashing && w.counter < w.end then w.end - w.counter
    else if w.pc == Pool.CheckStop && !stop then batch
    else 0
  }

  lemma HashesLeftBound(job: Job, batch: nat, t: nat, stop: bool, w: Pool.Worker)
    requires 0 < batch < TWO64 && Pool.WorkerInv(job, batch, t, w)
    ensures HashesLeft(batch, stop, w) <= batch
  {
    hide Hit, Pool.Start;
  }

  lemma HashesLeftStep(job: Job, batch: nat, stop: bool, found: bool, w: Pool.Worker)
    requires (stop || found) && batch < TWO64
    ensures var v := Pool.StepWorker(job, batch, stop, found, w);
            |v.tried| + HashesLeft(batch, stop, v) <= |w.tried| + HashesLeft(batch, stop, w)
  {
    hide Hit;
    if w.pc == Pool.Hashing && w.counter < w.end { assert w.counter + 1 < TWO64; }
  }

  // Hashes made by worker t, and those it may still make.
  function Reach(r: Run, t: nat): nat
    requires t < |r.pool.workers|
  {
    |r.pool.workers[t].tried| + HashesLeft(r.pool.batch, r.pool.stop, r.pool.workers[t])
  }

  lemma WorkerReach(r: Run, u: nat, t: nat)
    requires Leaving(r) && Enabled(r, WorkerStep(u)) && t < |r.pool.workers|
    ensures var q := Apply(r, WorkerStep(u)); t < |q.pool.workers| && Reach(q, t) <= Reach(r, t)
  {
    hide Pool.StepWorker, Pool.Apply, HashesLeft, Inv;
    BatchBound(r);
    Pool.ApplyWork(r.pool, u);
    HashesLeftStep(r.pool.job, r.pool.batch, r.pool.stop, r.pool.found, r.pool.workers[u]);
  }

  lemma BatchBound(r: Run) requires Inv(r) ensures r.pool.batch < TWO64
  {
    hide PhaseInv, ChannelInv, EventInv, OutcomeInv;
  }

  lemma QuietReach(r: Run, a: Action, t: nat)
    requires Enabled(r, a) && !a.WorkerStep? && t < |r.pool.workers|
    ensures var q := Apply(r, a); t < |q.pool.workers| && Reach(q, t) <= Reach(r, t)
  {
    if a.RaiseStop? {
      hide Pool.AllReturned;
    } else {
      hide Apply, Enabled;
      OtherPool(r, a);
    }
  }

  lemma FoundStays(r: Run, a: Action)
    requires Enabled(r, a) && r.pool.found
    ensures Apply(r, a).pool.found
  {
    if a.WorkerStep? || a.RaiseStop? {
      hide Pool.StepWorker, Pool.AllReturned, Digest, NonceBytes;
    } else {
      hide Apply, Enabled;
      OtherPool(r, a);
    }
  }

  lemma StepLeaving(r: Run, a: Action)
    requires Leaving(r) && Enabled(r, a)
    ensures Leaving(Apply(r, a)) && Apply(r, a).pool.batch == r.pool.batch
  {
    BatchKept(r, a);
    hide Inv, Apply, Enabled;
    StepInv(r, a);
    if r.pool.found { FoundStays(r, a); }
  }

  lemma BatchKept(r: Run, a: Action)
    requires Enabled(r, a)
    ensures Apply(r, a).pool.batch == r.pool.batch
  {
    if a.WorkerStep? || a.RaiseStop? {
      hide Pool.StepWorker, Pool.AllReturned, Digest, NonceBytes;
    } else {
      hide Apply, Enabled;
      OtherPool(r, a);
    }
  }

  lemma {:induction false} ReachAfter(r: Run, acts: seq<Action>, t: nat)
    requires Leaving(r) && Schedule(r, acts) && t < |r.pool.workers|
    ensures var q := After(r, acts); t < |q.pool.workers| && Reach(q, t) <= Reach(r, t)
    decreases |acts|
  {
    hide Leaving, Apply, Enabled, Reach;
    if acts != [] {
      StepLeaving(r, acts[0]);
      if acts[0].WorkerStep? { WorkerReach(r, acts[0].t, t); } else { QuietReach(r, acts[0], t); }
      ReachAfter(Apply(r, acts[0]), acts[1..], t);
    }
  }

  // Once the flag is up or a worker has won, no worker hashes more than one
  // further batch.
  lemma OneMoreBatch(r: Run, acts: seq<Action>, t: nat)
    requires Leaving(r) && Schedule(r, acts) && t < |r.pool.workers|
    ensures var q := After(r, acts);
            t < |q.pool.workers| && |q.pool.workers[t].tried| <= |r.pool.workers[t].tried| + r.pool.batch
  {
    ReachAfter(r, acts, t);
    assert Pool.WorkerInv(r.pool.job, r.pool.batch, t, r.pool.workers[t]);
    hide Leaving, After, Schedule, HashesLeft, Pool.WorkerInv;
    HashesLeftBound(r.pool.job, r.pool.batch, t, r.pool.stop, r.pool.workers[t]);
  }
}
