// What happens to progress at the end of a run: when some of it is lost, and
// when some of it comes after the error of a run that failed.
module Losses {
  import opened Words
  import opened Hex
  import opened Mining
  import Pool
  import GpuRound
  import opened WorkSize
  import opened RunThread
  import RunEvents

  /* What is lost is decided when the run thread raises the forwarder's flag */

  predicate Raised(r: Run) { r.runner in {JoinForwarder, Announce, Finished} }

  predicate Leaving(f: Forwarder) { f.TimedOut? || f.Exited? }

  // The forwarder is on its way out past these messages.
  predicate Doomed(r: Run, lost: seq<Message>) { Raised(r) && Leaving(r.forwarder) && r.queue == lost }

  // The forwarder will not leave before the progress on the channel is taken.
  predicate Draining(r: Run) { Raised(r) && (Leaving(r.forwarder) ==> Counts(r.queue) == []) }

  lemma RaisedFacts(r: Run)
    requires Inv(r) && Raised(r)
    ensures r.forwarderStop && r.reporter == Gone && SendersGone(r)
    ensures r.cpu ==> Pool.AllReturned(r.pool)
    ensures !r.cpu ==> r.pool.workers == []
  {
    hide Pool.Inv, ChannelInv, EventInv, OutcomeInv, Pool.AllReturned;
  }

  lemma NoWorkerMoves(r: Run, t: nat)
    requires Inv(r) && Raised(r)
    ensures !Enabled(r, WorkerStep(t))
  {
    RaisedFacts(r);
  }

  lemma DoomedStep(r: Run, a: Action, lost: seq<Message>)
    requires Inv(r) && Doomed(r, lost) && Enabled(r, a)
    ensures Doomed(Apply(r, a), lost)
  {
    hide Inv, Pool.AllReturned, Pool.Apply, Hit, Digest, NonceBytes, RoundHits, Terminal, SlotOutcome;
    RaisedFacts(r);
    if a.WorkerStep? { NoWorkerMoves(r, a.t); }
  }

  lemma DrainingStep(r: Run, a: Action)
    requires Inv(r) && Draining(r) && Enabled(r, a)
    ensures Draining(Apply(r, a))
  {
    hide Inv, Pool.AllReturned, Pool.Apply, Hit, Digest, NonceBytes, RoundHits, Terminal, SlotOutcome;
    RaisedFacts(r);
    if a.WorkerStep? { NoWorkerMoves(r, a.t); }
  }

  lemma {:induction false} DoomedAfter(r: Run, acts: seq<Action>, lost: seq<Message>)
    requires Inv(r) && Doomed(r, lost) && Schedule(r, acts)
    ensures Inv(After(r, acts)) && Doomed(After(r, acts), lost)
    decreases |acts|
  {
    hide Inv, Doomed, Apply, Enabled;
    if acts != [] {
      StepInv(r, acts[0]); DoomedStep(r, acts[0], lost);
      DoomedAfter(Apply(r, acts[0]), acts[1..], lost);
    }
  }

  lemma {:induction false} DrainingAfter(r: Run, acts: seq<Action>)
    requires Inv(r) && Draining(r) && Schedule(r, acts)
    ensures Inv(After(r, acts)) && Draining(After(r, acts))
    decreases |acts|
  {
    hide Inv, Draining, Apply, Enabled;
    if acts != [] {
      StepInv(r, acts[0]); DrainingStep(r, acts[0]);
      DrainingAfter(Apply(r, acts[0]), acts[1..]);
    }
  }

  lemma RaiseStep(r: Run)
    requires Inv(r) && r.runner == RaiseFlag
    ensures Enabled(r, RunnerStep)
    ensures if r.forwarder.TimedOut? then Doomed(Apply(r, RunnerStep), r.queue) else Draining(Apply(r, RunnerStep))
  {
    hide Pool.Inv, ChannelInv, EventInv, OutcomeInv, Pool.AllReturned;
  }

  // A finished run has reported what the forwarder took from the channel.
  lemma FinishedReported(q: Run)
    requires Inv(q) && q.runner == Finished
    ensures q.forwarder == Exited && Counts(q.sent) == Reported(q.emitted) + Counts(q.queue)
  {
    hide Pool.Inv, OutcomeInv, Pool.AllReturned, Counts, Reported, Errors, Terminals;
    RunEvents.CountsConcat(q.received, q.queue);
    assert Reported(q.emitted) + [] == Reported(q.emitted);
  }

  // Whatever happens afterwards, the state in which the run thread raises the
  // forwarder's flag decides what a run loses: the progress then on the
  // channel if the forwarder's receive has timed out and it has yet to look at
  // the flag, and nothing otherwise.
  lemma LostExactly(r: Run, acts: seq<Action>)
    requires Inv(r) && r.runner == RaiseFlag
    requires Schedule(Apply(r, RunnerStep), acts) && After(Apply(r, RunnerStep), acts).runner == Finished
    ensures var q := After(Apply(r, RunnerStep), acts);
            && Counts(q.sent) == Reported(q.emitted) + (if r.forwarder.TimedOut? then Counts(r.queue) else [])
            && (Reported(q.emitted) != Counts(q.sent) <==> r.forwarder.TimedOut? && Counts(r.queue) != [])
  {
    hide Inv, After, Schedule, Counts, Reported, Apply;
    RaiseStep(r);
    StepInv(r, RunnerStep);
    var d := Apply(r, RunnerStep);
    if r.forwarder.TimedOut? { DoomedAfter(d, acts, r.queue); } else { DrainingAfter(d, acts); }
    FinishedReported(After(d, acts));
  }

  /* Progress after an error */

  // The events after those before the failure: the error, then progress.
  predicate ProgressFollows(r: Run, q: Run)
  {
    |q.emitted| > |r.emitted| + 1 && q.emitted[..|r.emitted| + 1] == r.emitted + [ErrorEvent] &&
    q.emitted[|r.emitted| + 1].ProgressEvent?
  }

  // A failed run with no progress left to deliver.
  predicate Spent(q: Run, es: seq<Event>)
  {
    q.outcome.Failed? && q.emitted == es && !q.forwarder.Emitting? && Counts(q.queue) == []
  }

  lemma CountsHead(ms: seq<Message>)
    requires ms != []
    ensures Counts(ms) == (if ms[0].Progress? then [ms[0].hashes] else []) + Counts(ms[1..])
  {
    hide Counts;
    assert ms == [ms[0]] + ms[1..];
    RunEvents.CountsConcat([ms[0]], ms[1..]);
    assert [] + [ms[0]] == [ms[0]];
    CountsSnoc([], ms[0]);
    NoCounts();
  }

  lemma NoCounts() ensures Counts([]) == [] {}

  lemma FailedFacts(q: Run)
    requires Inv(q) && q.outcome.Failed?
    ensures !q.cpu && q.reporter == Gone && q.pool.workers == [] && q.runner in {DropTx, RaiseFlag, JoinForwarder, Announce, Finished}
  {
    hide Pool.Inv, ChannelInv, EventInv, Pool.AllReturned;
  }

  lemma SpentStep(q: Run, a: Action, es: seq<Event>)
    requires Inv(q) && Spent(q, es) && Enabled(q, a)
    ensures Spent(Apply(q, a), es)
  {
    hide Inv, Counts, Pool.AllReturned, Pool.Apply, Hit, Digest, NonceBytes, RoundHits, SlotOutcome;
    FailedFacts(q);
    if a.Receive? { CountsHead(q.queue); }
    assert q.emitted + [] == q.emitted;
  }

  lemma {:induction false} SpentAfter(q: Run, acts: seq<Action>, es: seq<Event>)
    requires Inv(q) && Spent(q, es) && Schedule(q, acts)
    ensures Spent(After(q, acts), es)
    decreases |acts|
  {
    hide Inv, Spent, Apply, Enabled;
    if acts != [] {
      StepInv(q, acts[0]); SpentStep(q, acts[0], es);
      SpentAfter(Apply(q, acts[0]), acts[1..], es);
    }
  }

  // A forwarder with progress before it.
  predicate Pending(q: Run)
  {
    q.outcome.Failed? && q.runner == DropTx && !q.forwarderStop && !q.forwarder.Exited? && (q.forwarder.Emitting? || Counts(q.queue) != [])
  }

  function Lag(f: Forwarder): nat { if f.TimedOut? then 1 else 0 }

  lemma PendingMove(q: Run) returns (a: Action)
    requires Pending(q) && !q.forwarder.Emitting?
    ensures Enabled(q, a) && Pending(Apply(q, a)) && Apply(q, a).emitted == q.emitted
    ensures var d := Apply(q, a);
            |d.queue| < |q.queue| || (|d.queue| == |q.queue| && Lag(d.forwarder) < Lag(q.forwarder))
  {
    hide Counts;
    NoCounts();
    if q.forwarder.TimedOut? {
      a := ForwarderStep;
    } else {
      CountsHead(q.queue);
      a := Receive;
    }
  }

  lemma {:induction false} Deliver(q: Run) returns (acts: seq<Action>, h: u64)
    requires Pending(q)
    ensures Schedule(q, acts) && After(q, acts).emitted == q.emitted + [ProgressEvent(h)]
    decreases |q.queue|, Lag(q.forwarder)
  {
    if q.forwarder.Emitting? {
      acts, h := [ForwarderStep], q.forwarder.hashes;
      assert After(Apply(q, ForwarderStep), []) == Apply(q, ForwarderStep);
    } else {
      var a := PendingMove(q);
      hide Pending, Apply, Enabled;
      var rest;
      rest, h := Deliver(Apply(q, a));
      acts := [a] + rest;
      assert acts[1..] == rest;
    }
  }

  lemma FailStep(r: Run)
    requires Inv(r) && Enabled(r, GpuFails)
    ensures var d := Apply(r, GpuFails);
            d.emitted == r.emitted + [ErrorEvent] &&
            if r.forwarder.Emitting? || Counts(r.queue) != [] then Pending(d) else Spent(d, r.emitted + [ErrorEvent])
  {
    hide Pool.Inv, EventInv, ChannelInv, OutcomeInv, Pool.AllReturned, Counts;
  }

  lemma SpentFollowsNot(r: Run, q: Run)
    requires Spent(q, r.emitted + [ErrorEvent])
    ensures !ProgressFollows(r, q)
  {
  }

  lemma DeliveredFollows(r: Run, q: Run, h: u64)
    requires q.emitted == (r.emitted + [ErrorEvent]) + [ProgressEvent(h)]
    ensures ProgressFollows(r, q)
  {
  }

  // Progress can follow the error of a run exactly when, as it fails, some is
  // in the forwarder's hands or on the channel.
  lemma ErrorThenProgressExactly(r: Run)
    requires Inv(r) && Enabled(r, GpuFails)
    ensures (r.forwarder.Emitting? || Counts(r.queue) != []) <==>
            exists acts, q :: RunEvents.Reaches(Apply(r, GpuFails), q, acts) && ProgressFollows(r, q)
  {
    var d := Apply(r, GpuFails);
    StepInv(r, GpuFails);
    FailStep(r);
    hide Inv, Apply, Enabled, Schedule, After, Pending, Spent, ProgressFollows, Counts;
    if r.forwarder.Emitting? || Counts(r.queue) != [] {
      var acts, h := Deliver(d);
      DeliveredFollows(r, After(d, acts), h);
      assert RunEvents.Reaches(d, After(d, acts), acts);
    } else {
      forall acts, q | RunEvents.Reaches(d, q, acts) ensures !ProgressFollows(r, q)
      {
        SpentAfter(d, acts, r.emitted + [ErrorEvent]);
        SpentFollowsNot(r, q);
      }
    }
  }

  // After one dispatch without a hit, reported but not yet forwarded.
  function OneReported(job: Job, batch: nat, size: nat): Run
  {
    var m := Progress(Saturate(size));
    InitGpu(job, batch, size).(host := Advanced(Host(size, 0, 0, 0)), queue := [m], sent := [m])
  }

  lemma ReachReported(job: Job, batch: nat, size: nat) returns (acts: seq<Action>)
    requires size > 0 && !GpuRound.HasHit(job, 0, size)
    ensures RunEvents.Reaches(InitGpu(job, batch, size), OneReported(job, batch, size), acts)
  {
    assert !Pool.Init(job, batch, 0).stop && Pool.Init(job, batch, 0).job == job;
    hide Pool.Init, GpuRound.HasHit, Saturate;
    var r := InitGpu(job, batch, size);
    acts := [];
    RunEvents.Then(r, acts, GpuDispatch); acts := acts + [GpuDispatch];
    hide Schedule, After;
    RunEvents.Then(r, acts, GpuReport); acts := acts + [GpuReport];
    RunEvents.Then(r, acts, RunnerStep); acts := acts + [RunnerStep];
  }

  lemma FailReported(job: Job, batch: nat, size: nat) returns (acts: seq<Action>)
    ensures Schedule(OneReported(job, batch, size), acts)
    ensures After(OneReported(job, batch, size), acts).emitted == [ErrorEvent, ProgressEvent(Saturate(size))]
  {
    hide Pool.Init, Saturate;
    var r := OneReported(job, batch, size);
    acts := [];
    RunEvents.Then(r, acts, GpuFails); acts := acts + [GpuFails];
    hide Schedule, After;
    RunEvents.Then(r, acts, Receive); acts := acts + [Receive];
    RunEvents.Then(r, acts, ForwarderStep); acts := acts + [ForwarderStep];
  }

  // One dispatch without a hit is reported, and the run fails before the
  // forwarder has taken the report.
  lemma ErrorThenProgress(job: Job, batch: nat, size: nat) returns (acts: seq<Action>)
    requires size > 0 && !GpuRound.HasHit(job, 0, size)
    ensures Schedule(InitGpu(job, batch, size), acts)
    ensures After(InitGpu(job, batch, size), acts).emitted == [ErrorEvent, ProgressEvent(Saturate(size))]
  {
    var first := ReachReported(job, batch, size);
    var rest := FailReported(job, batch, size);
    hide Schedule, After, InitGpu, OneReported, Saturate;
    RunEvents.Chain(InitGpu(job, batch, size), first, rest);
    acts := first + rest;
  }
}
