// The event stream of one run: its grammar, what a Found event proves, and
// the order of the reported counts.
module RunEvents {
  import opened Words
  import opened Bytes
  import opened Hex
  import opened Mining
  import Pool
  import GpuRound
  import opened WorkSize
  import opened RunThread

  function ProgressEvents(cs: seq<u64>): seq<Event>
  {
    seq(|cs|, i requires 0 <= i < |cs| => ProgressEvent(cs[i]))
  }

  lemma {:induction false} OnlyProgress(es: seq<Event>)
    requires Errors(es) == 0 && Terminals(es) == 0
    ensures es == ProgressEvents(Reported(es))
  {
    if es != [] {
      var k := |es| - 1;
      OnlyProgress(es[..k]);
      assert es == es[..k] + [es[k]];
    }
  }

  lemma {:induction false} CountsConcat(a: seq<Message>, b: seq<Message>)
    ensures Counts(a + b) == Counts(a) + Counts(b)
  {
    if b == [] {
      assert a + b == a;
    } else {
      var k := |b| - 1;
      assert (a + b)[..|a| + k] == a + b[..k];
      CountsConcat(a, b[..k]);
    }
  }

  lemma CountsPrefix(r: Run)
    requires ChannelInv(r)
    ensures Counts(r.received) <= Counts(r.sent)
    ensures Counts(r.received) == Counts(r.sent) <==> Counts(r.queue) == []
  {
    CountsConcat(r.received, r.queue);
  }

  // What a run has emitted: a first part of the progress counts put on the
  // channel, closed by the terminal event once the run is over. A failed GPU
  // run instead has one error, before, between or after its progress.
  predicate WellFormed(r: Run)
  {
    && Reported(r.emitted) <= Counts(r.sent)
    && (!r.outcome.Failed? ==>
          r.emitted == ProgressEvents(Reported(r.emitted)) + (if r.runner == Finished then Terminal(r.outcome) else []))
    && (r.runner == Finished && !r.outcome.Failed? ==> |Terminal(r.outcome)| == 1)
    && (r.outcome.Failed? ==> !r.cpu && ErrorAmong(r.emitted))
  }

  // Progress with one error somewhere.
  predicate ErrorAmong(es: seq<Event>)
  {
    exists k :: 0 <= k < |es| && ErrorAt(es, k)
  }

  predicate ErrorAt(es: seq<Event>, k: nat)
    requires k < |es|
  {
    es[k] == ErrorEvent && forall j :: 0 <= j < |es| && j != k ==> es[j].ProgressEvent?
  }

  lemma {:induction false} AllProgress(es: seq<Event>)
    requires Errors(es) == 0 && Terminals(es) == 0
    ensures forall j :: 0 <= j < |es| ==> es[j].ProgressEvent?
  {
    if es != [] { AllProgress(es[..|es| - 1]); }
  }

  lemma {:induction false} OneError(es: seq<Event>)
    requires Errors(es) == 1 && Terminals(es) == 0
    ensures ErrorAmong(es)
  {
    var n := |es| - 1;
    if es[n].ErrorEvent? {
      AllProgress(es[..n]);
      assert ErrorAt(es, n);
    } else {
      OneError(es[..n]);
      var k :| 0 <= k < n && ErrorAt(es[..n], k);
      assert ErrorAt(es, k);
    }
  }

  lemma UnfinishedProgress(r: Run)
    requires EventInv(r) && !r.outcome.Failed? && r.runner != Finished
    ensures r.emitted == ProgressEvents(Reported(r.emitted)) + []
  {
    hide Reported, Errors, Terminals, Counts, ToHex;
    OnlyProgress(r.emitted);
  }

  lemma FinishedProgress(r: Run)
    requires EventInv(r) && PhaseInv(r) && !r.outcome.Failed? && r.runner == Finished
    ensures r.emitted == ProgressEvents(Reported(r.emitted)) + Terminal(r.outcome) && |Terminal(r.outcome)| == 1
  {
    hide Counts, Pool.AllReturned, ToHex;
    var es := r.emitted;
    var k := |es| - 1;
    assert es == es[..k] + [es[k]];
    OnlyProgress(es[..k]);
  }

  lemma FailedProgress(r: Run)
    requires EventInv(r) && OutcomeInv(r) && PhaseInv(r) && r.outcome.Failed?
    ensures !r.cpu && ErrorAmong(r.emitted)
  {
    hide Reported, Errors, Terminals, Counts, ErrorAmong, Solves, Pool.AllReturned;
    OneError(r.emitted);
  }

  lemma InvWellFormed(r: Run)
    requires Inv(r)
    ensures WellFormed(r)
    ensures r.runner == Finished ==> (Reported(r.emitted) == Counts(r.sent) <==> Counts(r.queue) == [])
  {
    CountsPrefix(r);
    if r.outcome.Failed? { FailedProgress(r); }
    else if r.runner == Finished { FinishedProgress(r); }
    else { UnfinishedProgress(r); }
    hide Pool.Inv, Counts, Reported, Errors, Terminals, Pool.AllReturned, ErrorAmong, Terminal, OutcomeInv, ChannelInv;
  }

  // Every run, at every moment: progress counts in the order they were sent,
  // then exactly one Found or Stopped and nothing more; a run that fails (only
  // a GPU run can) emits one Error among its progress and neither of the two.
  lemma EventGrammar(r: Run, acts: seq<Action>)
    requires Inv(r) && Schedule(r, acts)
    ensures var q := After(r, acts);
            WellFormed(q) && (q.runner == Finished ==> (Reported(q.emitted) == Counts(q.sent) <==> Counts(q.queue) == []))
  {
    hide Inv, WellFormed, After;
    ScheduleInv(r, acts);
    InvWellFormed(After(r, acts));
  }

  // A CPU run that is over ends with Found exactly when a worker won the flag,
  // and with Stopped exactly when none did.
  lemma FoundExactly(r: Run)
    requires Inv(r) && r.cpu && r.runner == Finished
    ensures r.emitted != [] && var last := r.emitted[|r.emitted| - 1];
            (last.FoundEvent? <==> r.pool.found) && (last.StoppedEvent? <==> !r.pool.found)
  {
    Pool.SlotSolves(r.pool);
    hide Pool.Inv, Counts, Reported, Errors, Terminals, Pool.AllReturned, ToHex, ChannelInv, Solves;
  }

  // Once a run is finished it never emits again.
  lemma {:induction false} FinishedIsSilent(r: Run, acts: seq<Action>)
    requires Inv(r) && r.runner == Finished && Schedule(r, acts)
    ensures After(r, acts).runner == Finished && After(r, acts).emitted == r.emitted
    decreases |acts|
  {
    if acts != [] {
      StepInv(r, acts[0]);
      FinishedStep(r, acts[0]);
      hide Inv, Apply, Enabled;
      FinishedIsSilent(Apply(r, acts[0]), acts[1..]);
    }
  }

  lemma FinishedStep(r: Run, a: Action)
    requires Inv(r) && r.runner == Finished && Enabled(r, a)
    ensures Apply(r, a).runner == Finished && Apply(r, a).emitted == r.emitted
  {
    hide Pool.Inv, Pool.Apply, EventInv, ChannelInv, OutcomeInv, Pool.AllReturned, Hit, Digest, NonceBytes;
  }

  // The strings of a Found event are the printed form of a nonce and digest
  // that solve the job, and parse back to them.
  predicate Verifies(job: Job, e: Event)
  {
    e.FoundEvent? ==>
      var n, d := ParseHex32(e.nonce), ParseHex32(e.result);
      n.Parsed? && d.Parsed? && Solves(job, n.bytes, d.bytes) && e.nonce == ToHex(n.bytes) && e.result == ToHex(d.bytes)
  }

  lemma FoundVerifies(r: Run)
    requires Inv(r) && r.pool.job.Valid()
    ensures forall e :: e in r.emitted ==> Verifies(r.pool.job, e)
  {
    InvWellFormed(r);
    hide Pool.Inv, Value, ParseHex32, PhaseInv, ChannelInv, EventInv, Counts, Reported, Errors, Terminals;
    if r.outcome.Solved? {
      ParsePrinted32(r.outcome.nonce);
      ParsePrinted32(r.outcome.digest);
    }
    if r.outcome.Failed? { ErrorNoTerminal(r.emitted); }
  }

  lemma ErrorNoTerminal(es: seq<Event>)
    requires ErrorAmong(es)
    ensures forall e :: e in es ==> !e.FoundEvent? && !e.StoppedEvent?
  {
  }

  /* Reported counts never go down */

  // While the number of hashes stays below 2^64 the shared total is exact.
  predicate Exact(r: Run) { Pool.Evaluations(r.pool.workers) < TWO64 }

  // The running count: the shared total on the CPU, the host's on the GPU.
  function Total(r: Run): u64 { if r.cpu then r.pool.total else r.host.total }

  predicate OrderInv(r: Run)
  {
    && Ascending(Counts(r.sent)) && AtMost(Counts(r.sent), Total(r))
    && (r.reporter.Send? ==> AtMost(Counts(r.sent), r.reporter.hashes) && r.reporter.hashes <= Total(r))
    && (r.runner.Reporting? || r.runner.SendLast? || r.runner.TakeSlot? ==> r.runner.hashes == Total(r))
    && (r.outcome.Solved? || r.outcome.Exhausted? ==> r.outcome.hashes == Total(r))
  }

  lemma ExactTotal(p: Pool.Pool)
    requires Pool.CountInv(p) && Pool.Evaluations(p.workers) < TWO64
    ensures p.total == Pool.Settled(p.workers)
  {
    hide Pool.Evaluations, Pool.Unflushed;
  }

  lemma TotalGrows(p: Pool.Pool, t: nat)
    requires Pool.Inv(p) && Pool.Enabled(p, Pool.Work(t))
    ensures var q := Pool.Apply(p, Pool.Work(t));
            Pool.Evaluations(p.workers) <= Pool.Evaluations(q.workers) &&
            (Pool.Evaluations(q.workers) < TWO64 ==> p.total <= q.total)
  {
    Pool.StepInv(p, Pool.Work(t));
    Pool.ApplyWork(p, t);
    var q := Pool.Apply(p, Pool.Work(t));
    assert Pool.CountInv(p) && Pool.CountInv(q) && Pool.WorkerInv(p.job, p.batch, t, p.workers[t]);
    hide Pool.StepWorker, Pool.Inv, Pool.Apply, Pool.Evaluations, Pool.Settled, Pool.WorkerInv, Pool.CountInv;
    Pool.StepCounts(p.job, p.batch, p.stop, p.found, t, p.workers[t]);
    var v := Pool.StepWorker(p.job, p.batch, p.stop, p.found, p.workers[t]);
    Pool.CountsUpdate(p.workers, t, v);
    Pool.SettledUpdate(p.workers, t, v);
    if Pool.Evaluations(q.workers) < TWO64 { ExactTotal(p); ExactTotal(q); }
  }

  lemma WorkerOrder(r: Run, t: nat)
    requires Inv(r) && r.cpu && Enabled(r, WorkerStep(t)) && (Exact(r) ==> OrderInv(r)) && Exact(Apply(r, WorkerStep(t)))
    ensures OrderInv(Apply(r, WorkerStep(t)))
  {
    TotalGrows(r.pool, t);
    assert !Pool.AllReturned(r.pool);
    assert r.runner.Mining? && r.outcome.Undecided? by { hide Pool.Inv, Pool.AllReturned; }
    hide Pool.Apply, Inv, Counts, Pool.Evaluations;
  }

  lemma ReporterOrder(r: Run)
    requires OrderInv(r) && r.cpu
    ensures OrderInv(ApplyReporter(r))
  {
    hide Counts;
    if r.reporter.Send? {
      CountsSnoc(r.sent, Progress(r.reporter.hashes));
      AscendingMore(Counts(r.sent), r.reporter.hashes);
    }
  }

  lemma RunnerOrder(r: Run)
    requires OrderInv(r) && PhaseInv(r) && RunnerEnabled(r)
    ensures OrderInv(ApplyRunner(r))
  {
    hide Counts, ToHex, Pool.AllReturned;
    if r.runner.SendLast? {
      CountsSnoc(r.sent, Last(r.runner.hashes));
      assert Counts(r.sent) + [] == Counts(r.sent);
    } else if r.runner.Reporting? {
      CountsSnoc(r.sent, Progress(r.runner.hashes));
      AscendingMore(Counts(r.sent), r.runner.hashes);
    }
  }

  lemma GpuOrder(r: Run, a: Action)
    requires OrderInv(r) && PhaseInv(r) && Enabled(r, a)
    requires a.GpuDispatch? || a.GpuContinue? || a.GpuReport? || a.GpuHit? || a.GpuSeesStop? || a.GpuFails?
    ensures OrderInv(Apply(r, a))
  {
    hide Counts, Pool.AllReturned, Hit, Digest, NonceBytes, RoundHits, GpuRound.Counter;
    SaturateMore(r.host.total, r.host.size);
  }

  lemma QuietOrder(r: Run, a: Action)
    requires OrderInv(r) && Enabled(r, a) && (a.Receive? || a.Timeout? || a.ForwarderStep? || a.RaiseStop?)
    ensures OrderInv(Apply(r, a))
  {
    hide Counts, Pool.AllReturned;
  }

  // A step of the pool's own threads is a step of a CPU run.
  lemma CpuSteps(r: Run, a: Action)
    requires Inv(r) && Enabled(r, a) && (a.WorkerStep? || a.ReporterStep?)
    ensures r.cpu
  {
    hide Pool.Inv, EventInv, ChannelInv, OutcomeInv, Pool.AllReturned;
  }

  lemma StepOrder(r: Run, a: Action)
    requires Inv(r) && Enabled(r, a) && (Exact(r) ==> OrderInv(r)) && Exact(Apply(r, a))
    ensures OrderInv(Apply(r, a))
  {
    if a.WorkerStep? {
      hide Inv, Apply, OrderInv, Exact, Enabled;
      CpuSteps(r, a);
      WorkerOrder(r, a.t);
    } else {
      ExactBefore(r, a);
      assert PhaseInv(r);
      hide Inv, OrderInv, PhaseInv, Exact, Pool.Apply, ApplyForwarder, ApplyReceive, ApplyReporter, ApplyRunner, RunnerEnabled, Hit, RoundHits, Digest, NonceBytes;
      match a
      case ReporterStep => CpuSteps(r, a); ReporterOrder(r);
      case RunnerStep => RunnerOrder(r);
      case Receive => hide Apply; QuietOrder(r, a);
      case Timeout => hide Apply; QuietOrder(r, a);
      case ForwarderStep => hide Apply; QuietOrder(r, a);
      case RaiseStop => hide Apply; QuietOrder(r, a);
      case _ => hide Apply; GpuOrder(r, a);
    }
  }

  lemma ExactBefore(r: Run, a: Action)
    requires Enabled(r, a) && !a.WorkerStep? && Exact(Apply(r, a))
    ensures Exact(r)
  {
    hide Pool.Evaluations;
    if a.RaiseStop? {
      hide Pool.AllReturned;
    } else {
      hide Apply, Enabled;
      OtherPool(r, a);
    }
  }

  lemma {:induction false} ScheduleOrder(r: Run, acts: seq<Action>)
    requires Inv(r) && Schedule(r, acts) && (Exact(r) ==> OrderInv(r)) && Exact(After(r, acts))
    ensures OrderInv(After(r, acts)) && Inv(After(r, acts))
    decreases |acts|
  {
    if acts != [] {
      StepInv(r, acts[0]);
      hide Inv, Apply, Enabled, OrderInv, Exact;
      var q := Apply(r, acts[0]);
      if Exact(q) { StepOrder(r, acts[0]); }
      ScheduleOrder(q, acts[1..]);
    }
  }

  // The counts in the events, the last one's included, never go down.
  predicate EventsAscend(es: seq<Event>)
  {
    forall i, j :: 0 <= i <= j < |es| && es[i] != ErrorEvent && es[j] != ErrorEvent ==> es[i].hashes <= es[j].hashes
  }

  // The last event is a Found or Stopped with this count.
  predicate EndsWith(es: seq<Event>, h: nat)
  {
    es != [] && var last := es[|es| - 1]; (last.FoundEvent? || last.StoppedEvent?) && last.hashes == h
  }

  // Events that carry only counts out of cs, or none.
  predicate CountsFrom(es: seq<Event>, cs: seq<u64>)
  {
    forall i :: 0 <= i < |es| ==> es[i].ErrorEvent? || (es[i].ProgressEvent? && es[i].hashes in cs)
  }

  lemma AscendStep(es: seq<Event>, cs: seq<u64>, h: u64)
    requires EventsAscend(es) && CountsFrom(es, cs) && Ascending(cs + [h])
    ensures EventsAscend(es + [ProgressEvent(h)]) && CountsFrom(es + [ProgressEvent(h)], cs + [h])
    ensures Ascending(cs)
  {
    var ds := cs + [h];
    assert forall j :: 0 <= j < |cs| ==> ds[j] == cs[j];
    assert ds[|cs|] == h;
    forall i | 0 <= i < |es| && es[i] != ErrorEvent ensures es[i].hashes <= h
    {
      var j :| 0 <= j < |cs| && cs[j] == es[i].hashes;
      assert ds[j] <= ds[|cs|];
    }
  }

  lemma AscendingPrefix(cs: seq<u64>, h: u64) requires Ascending(cs + [h]) ensures Ascending(cs)
  {
    assert forall j :: 0 <= j < |cs| ==> (cs + [h])[j] == cs[j];
  }

  lemma {:induction false} ReportedAscend(es: seq<Event>)
    requires Terminals(es) == 0 && Ascending(Reported(es))
    ensures EventsAscend(es) && CountsFrom(es, Reported(es))
  {
    if es != [] {
      var k := |es| - 1;
      assert es == es[..k] + [es[k]];
      EventsSnoc(es[..k], es[k]);
      hide Reported, Terminals, Errors, Ascending;
      if es[k].ProgressEvent? {
        AscendingPrefix(Reported(es[..k]), es[k].hashes);
        ReportedAscend(es[..k]);
        AscendStep(es[..k], Reported(es[..k]), es[k].hashes);
      } else {
        assert Reported(es[..k]) + [] == Reported(es[..k]);
        ReportedAscend(es[..k]);
      }
    }
  }

  lemma TerminalAscends(es: seq<Event>, h: u64)
    requires Terminals(es) == 0 && Ascending(Reported(es)) && AtMost(Reported(es), h)
    ensures forall e: Event :: e != ErrorEvent && e.hashes == h ==> EventsAscend(es + [e])
  {
    ReportedAscend(es);
    hide Reported, Terminals;
    assert CountsFrom(es, Reported(es));
    forall e: Event | e != ErrorEvent && e.hashes == h ensures EventsAscend(es + [e])
    {
      forall i | 0 <= i < |es| && es[i] != ErrorEvent ensures es[i].hashes <= h
      {
        assert es[i].hashes in Reported(es);
      }
    }
  }

  lemma TerminalHashes(o: Outcome)
    requires o.Solved? || o.Exhausted?
    ensures |Terminal(o)| == 1 && EndsWith(Terminal(o), o.hashes)
  {
    hide ToHex;
  }

  lemma FinishedEvents(q: Run)
    requires EventInv(q) && q.runner == Finished && (q.outcome.Solved? || q.outcome.Exhausted?)
    requires Ascending(Reported(q.emitted)) && AtMost(Reported(q.emitted), q.outcome.hashes)
    ensures EventsAscend(q.emitted) && EndsWith(q.emitted, q.outcome.hashes)
  {
    hide Ascending, AtMost, Counts, Reported, Errors, Terminals, Terminal, EventsAscend;
    TerminalHashes(q.outcome);
    var k := |q.emitted| - 1;
    var es, last := q.emitted[..k], q.emitted[k];
    EventsSnoc(es, last);
    assert q.emitted == es + [last];
    assert Terminal(q.outcome)[0] == last;
    assert Reported(q.emitted) == Reported(es) + [] == Reported(es);
    TerminalAscends(es, q.outcome.hashes);
  }

  // The events themselves.
  lemma FinalEvents(q: Run)
    requires Inv(q) && OrderInv(q)
    ensures EventsAscend(q.emitted)
    ensures q.runner == Finished && !q.outcome.Failed? ==> EndsWith(q.emitted, Total(q))
  {
    FinalOrder(q);
    assert EventInv(q) && ((q.outcome.Solved? || q.outcome.Exhausted?) ==> q.outcome.hashes == Total(q));
    hide Inv, OrderInv, EventInv, Ascending, AtMost, Counts, Reported, Terminals, EventsAscend, EndsWith, Total;
    if q.runner == Finished && !q.outcome.Failed? {
      FinishedEvents(q);
    } else {
      NoTerminalYet(q);
      ReportedAscend(q.emitted);
    }
  }

  lemma NoTerminalYet(q: Run)
    requires EventInv(q) && (q.runner != Finished || q.outcome.Failed?)
    ensures Terminals(q.emitted) == 0
  {
    hide Counts, Reported, Errors, Terminals;
  }

  // In a CPU run of fewer than 2^64 hashes the counts of its events never
  // decrease, and the Found or Stopped that ends it carries the number of
  // hashes made.
  lemma CountsAscend(job: Job, batch: nat, n: nat, acts: seq<Action>)
    requires 0 < batch < TWO64 && n > 0 && Schedule(InitCpu(job, batch, n), acts)
    requires Exact(After(InitCpu(job, batch, n), acts))
    ensures var q := After(InitCpu(job, batch, n), acts);
            Ascending(Reported(q.emitted)) &&
            (q.runner == Finished ==>
               (q.outcome.Solved? || q.outcome.Exhausted?) && AtMost(Reported(q.emitted), q.outcome.hashes) &&
               q.outcome.hashes == Pool.Evaluations(q.pool.workers)) &&
            EventsAscend(q.emitted) && (q.runner == Finished ==> EndsWith(q.emitted, Pool.Evaluations(q.pool.workers)))
  {
    var r := InitCpu(job, batch, n);
    InitInv(job, batch, n);
    assert OrderInv(r) by { hide Pool.Init; }
    hide InitCpu, After, Inv, OrderInv, EventsAscend, EndsWith, Pool.Evaluations, Reported;
    ScheduleOrder(r, acts);
    FinalOrder(After(r, acts));
    ScheduleInv(r, acts);
    FinalCount(After(r, acts));
    FinalEvents(After(r, acts));
  }

  lemma FinalCount(q: Run)
    requires Inv(q) && OrderInv(q) && Exact(q)
    ensures q.cpu && q.runner == Finished ==>
              (q.outcome.Solved? || q.outcome.Exhausted?) && q.outcome.hashes == Pool.Evaluations(q.pool.workers) &&
              Total(q) == Pool.Evaluations(q.pool.workers)
  {
    if q.cpu && q.runner == Finished {
      assert Pool.CountInv(q.pool) && Pool.AllReturned(q.pool) && Pool.Inv(q.pool);
      hide Pool.Inv, ChannelInv, EventInv, Pool.Evaluations, Counts, Pool.CountInv, Pool.AllReturned;
      Pool.NothingUnflushed(q.pool);
      ExactTotal(q.pool);
    }
  }

  lemma FinalOrder(q: Run)
    requires Inv(q) && OrderInv(q)
    ensures Ascending(Reported(q.emitted))
    ensures q.runner == Finished && !q.outcome.Failed? ==>
              (q.outcome.Solved? || q.outcome.Exhausted?) && AtMost(Reported(q.emitted), q.outcome.hashes)
    ensures q.outcome.Failed? ==> !q.cpu
  {
    InvWellFormed(q);
    hide Pool.Inv, Reported, Counts, EventInv, ChannelInv, Pool.AllReturned;
    var cs, ds := Reported(q.emitted), Counts(q.sent);
    assert forall i :: 0 <= i < |cs| ==> cs[i] == ds[i];
  }

  // The host's variables against the dispatches done.
  predicate HostInv(r: Run)
  {
    r.host.total == Saturate(r.host.rounds * r.host.size) &&
    (Looping(r.runner) ==> r.host.counter == (r.host.rounds * r.host.size) % TWO64)
  }

  // Inside the loop of run_gpu.
  predicate Looping(p: Runner) { p.Grinding? || p.Dispatching? || p.Reporting? }

  lemma PutHost(r: Run) ensures forall m :: Put(r, m).host == r.host {}

  lemma RunnerHost(r: Run) ensures ApplyRunner(r).host == r.host
  {
    hide Terminal, SlotOutcome, Put;
    PutHost(r);
  }

  lemma RunnerLoops(r: Run) ensures Looping(ApplyRunner(r).runner) ==> Looping(r.runner)
  {
    hide Terminal, SlotOutcome, Put;
  }

  lemma ReporterHost(r: Run) ensures ApplyReporter(r).host == r.host && ApplyReporter(r).runner == r.runner {}
  lemma ForwarderHost(r: Run) ensures ApplyForwarder(r).host == r.host && ApplyForwarder(r).runner == r.runner {}

  // Only the end of a dispatch touches them.
  lemma StepTouchesHost(r: Run, a: Action)
    requires Enabled(r, a)
    ensures var h := Apply(r, a).host;
            h == r.host || h == Advanced(r.host) || (h == Counted(r.host) && Apply(r, a).runner == DropTx)
    ensures Looping(Apply(r, a).runner) ==> Looping(r.runner)
  {
    hide ApplyRunner, ApplyReporter, ApplyForwarder, Hit, Digest, NonceBytes, RoundHits, Pool.Apply, Pool.AllReturned, Advanced, Counted;
    RunnerHost(r); RunnerLoops(r); ReporterHost(r); ForwarderHost(r);
  }

  lemma RoundsMore(rounds: nat, size: nat)
    ensures (rounds + 1) * size == rounds * size + size
  {
  }

  lemma HostAdvances(h: Host)
    requires h.total == Saturate(h.rounds * h.size)
    ensures Counted(h).total == Saturate(Counted(h).rounds * h.size)
    ensures h.counter == (h.rounds * h.size) % TWO64 ==> Advanced(h).counter == (Advanced(h).rounds * h.size) % TWO64
  {
    RoundsMore(h.rounds, h.size);
    SaturateMore(h.rounds * h.size, h.size);
    WrapMore(h.rounds * h.size, h.size);
  }

  lemma WrapMore(a: nat, b: nat) ensures (a % TWO64 + b) % TWO64 == (a + b) % TWO64 {}

  lemma StepHost(r: Run, a: Action)
    requires Enabled(r, a) && HostInv(r)
    ensures HostInv(Apply(r, a)) && Apply(r, a).host.size == r.host.size
  {
    StepTouchesHost(r, a);
    hide Apply, Enabled, Saturate;
    HostAdvances(r.host);
  }

  lemma {:induction false} ScheduleHost(r: Run, acts: seq<Action>)
    requires Schedule(r, acts) && HostInv(r)
    ensures HostInv(After(r, acts)) && After(r, acts).host.size == r.host.size
    decreases |acts|
  {
    hide HostInv, Apply, Enabled;
    if acts != [] {
      StepHost(r, acts[0]);
      ScheduleHost(Apply(r, acts[0]), acts[1..]);
    }
  }

  // The dispatches that came back.
  function RoundsIn(acts: seq<Action>): nat
  {
    if acts == [] then 0
    else (if acts[0].GpuContinue? || acts[0].GpuReport? || acts[0].GpuHit? then 1 else 0) + RoundsIn(acts[1..])
  }

  lemma StepRounds(r: Run, a: Action)
    requires Enabled(r, a)
    ensures Apply(r, a).host.rounds == r.host.rounds + (if a.GpuContinue? || a.GpuReport? || a.GpuHit? then 1 else 0)
  {
    hide ApplyRunner, ApplyReporter, ApplyForwarder, Hit, Digest, NonceBytes, RoundHits, Pool.Apply, Pool.AllReturned;
    RunnerHost(r); ReporterHost(r); ForwarderHost(r);
  }

  lemma {:induction false} ScheduleRounds(r: Run, acts: seq<Action>)
    requires Schedule(r, acts)
    ensures After(r, acts).host.rounds == r.host.rounds + RoundsIn(acts)
    decreases |acts|
  {
    hide Apply, Enabled;
    if acts != [] {
      StepRounds(r, acts[0]);
      ScheduleRounds(Apply(r, acts[0]), acts[1..]);
    }
  }

  // In a GPU run the counts of its events never decrease, and the Found or
  // Stopped that ends it carries the number of work items of the dispatches
  // that came back, saturated.
  lemma GpuCountsAscend(job: Job, batch: nat, size: nat, acts: seq<Action>)
    requires 0 < batch < TWO64 && Schedule(InitGpu(job, batch, size), acts)
    ensures var q := After(InitGpu(job, batch, size), acts);
            Ascending(Reported(q.emitted)) && q.host.size == size &&
            (q.runner == Finished && !q.outcome.Failed? ==>
               (q.outcome.Solved? || q.outcome.Exhausted?) && AtMost(Reported(q.emitted), q.outcome.hashes) &&
               q.outcome.hashes == Saturate(q.host.rounds * size)) &&
            EventsAscend(q.emitted) &&
            (q.runner == Finished && !q.outcome.Failed? ==> EndsWith(q.emitted, Saturate(RoundsIn(acts) * size)))
  {
    var r := InitGpu(job, batch, size);
    InitGpuInv(job, batch, size);
    assert OrderInv(r) && HostInv(r) by { hide Pool.Init; assert 0 * size == 0; }
    assert r.host.rounds == 0 && !r.cpu;
    hide InitGpu, After, Inv, OrderInv, HostInv, EventsAscend, EndsWith, Reported, Saturate;
    ScheduleInv(r, acts);
    ScheduleHost(r, acts);
    ScheduleRounds(r, acts);
    NoWorkers(After(r, acts));
    ScheduleOrder(r, acts);
    FinalOrder(After(r, acts));
    FinalHost(After(r, acts));
    FinalEvents(After(r, acts));
  }

  lemma NoWorkers(q: Run)
    requires Inv(q) && !q.cpu
    ensures Exact(q)
  {
    hide Pool.Inv, PhaseInv, ChannelInv, EventInv, OutcomeInv;
    assert q.pool.workers == [];
  }

  lemma FinalHost(q: Run)
    requires OrderInv(q) && HostInv(q)
    ensures !q.cpu ==> Total(q) == Saturate(q.host.rounds * q.host.size)
    ensures !q.cpu && (q.outcome.Solved? || q.outcome.Exhausted?) ==> q.outcome.hashes == Saturate(q.host.rounds * q.host.size)
  {
    hide Saturate;
  }

  /* The last progress can be lost */

  predicate Reaches(r: Run, q: Run, acts: seq<Action>) { Schedule(r, acts) && After(r, acts) == q }

  lemma {:induction false} Then(r: Run, acts: seq<Action>, a: Action)
    requires Schedule(r, acts) && Enabled(After(r, acts), a)
    ensures Reaches(r, Apply(After(r, acts), a), acts + [a])
    decreases |acts|
  {
    if acts == [] {
      assert acts + [a] == [a] && [a][1..] == [];
      assert Schedule(Apply(r, a), []) && After(Apply(r, a), []) == Apply(r, a);
    } else {
      hide Enabled, Apply;
      Then(Apply(r, acts[0]), acts[1..], a);
      assert (acts + [a])[1..] == acts[1..] + [a];
    }
  }

  // A progress message is on the channel while the forwarder, whose receive
  // has timed out on the empty channel, has yet to look at its own flag.
  function Caught(job: Job, batch: nat): Run
  {
    InitCpu(job, batch, 1).(queue := [Progress(0)], sent := [Progress(0)], forwarder := TimedOut)
  }

  lemma ReachCaught(job: Job, batch: nat) returns (acts: seq<Action>)
    ensures Reaches(InitCpu(job, batch, 1), Caught(job, batch), acts)
  {
    hide Pool.Init;
    assert Pool.Init(job, batch, 1).total == 0 && !Pool.Init(job, batch, 1).stop by { PoolInitShape(job, batch); }
    var r := InitCpu(job, batch, 1);
    acts := [];
    Then(r, acts, Timeout); acts := acts + [Timeout];
    hide Schedule, After;
    Then(r, acts, ReporterStep); acts := acts + [ReporterStep];
    Then(r, acts, ReporterStep); acts := acts + [ReporterStep];
    Then(r, acts, ReporterStep); acts := acts + [ReporterStep];
    Then(r, acts, ReporterStep); acts := acts + [ReporterStep];
    Then(r, acts, ReporterStep); acts := acts + [ReporterStep];
  }

  lemma PoolInitShape(job: Job, batch: nat)
    ensures var p := Pool.Init(job, batch, 1); p.total == 0 && !p.stop && !p.found && p.slot == None && p.winners == [] && p.job == job && p.batch == batch && p.workers == [Pool.InitWorker(0)]
  {
  }

  // The pool once stopped before it hashed anything.
  function StoppedPool(job: Job, batch: nat): Pool.Pool
  {
    Pool.Pool(job, batch, true, false, None, 0, [Pool.InitWorker(0).(pc := Pool.Returned)], [])
  }

  lemma StopPool(job: Job, batch: nat)
    ensures var q := Pool.Apply(Pool.Init(job, batch, 1), Pool.RaiseStop);
            Pool.Enabled(q, Pool.Work(0)) && var s := Pool.Apply(q, Pool.Work(0));
            Pool.Enabled(s, Pool.Work(0)) && Pool.Apply(s, Pool.Work(0)) == StoppedPool(job, batch)
    ensures Pool.AllReturned(StoppedPool(job, batch))
  {
    PoolInitShape(job, batch);
    hide Pool.Init, Pool.InitWorker;
    var w := Pool.InitWorker(0);
    assert w.pc == Pool.CheckFound && w.local == 0 by { InitWorkerPc(); }
    var q := Pool.Apply(Pool.Init(job, batch, 1), Pool.RaiseStop);
    var s := Pool.Apply(q, Pool.Work(0));
    assert s.workers == [w.(pc := Pool.CheckStop)];
    var u := Pool.Apply(s, Pool.Work(0));
    assert u.workers == [w.(pc := Pool.Returned)];
  }

  lemma InitWorkerPc() ensures Pool.InitWorker(0).pc == Pool.CheckFound && Pool.InitWorker(0).local == 0 {}

  // The stop is noticed: the worker has returned and the run thread is about
  // to tell the reporter.
  function Noticed(job: Job, batch: nat): Run
  {
    Caught(job, batch).(pool := StoppedPool(job, batch), runner := SetDone)
  }

  lemma NoticeCaught(job: Job, batch: nat) returns (acts: seq<Action>)
    ensures Reaches(Caught(job, batch), Noticed(job, batch), acts)
  {
    StopPool(job, batch);
    hide Pool.Init, Pool.Apply, Pool.Enabled, Pool.AllReturned, Pool.InitWorker;
    var r := Caught(job, batch);
    acts := [];
    Then(r, acts, RaiseStop); acts := acts + [RaiseStop];
    hide Schedule, After;
    Then(r, acts, WorkerStep(0)); acts := acts + [WorkerStep(0)];
    Then(r, acts, WorkerStep(0)); acts := acts + [WorkerStep(0)];
    Then(r, acts, RunnerStep); acts := acts + [RunnerStep];
  }

  // Let the reporter leave and the run thread raise the forwarder's flag: the
  // forwarder leaves with the message unread.
  lemma LoseNoticed(job: Job, batch: nat) returns (acts: seq<Action>)
    ensures Schedule(Noticed(job, batch), acts)
    ensures var q := After(Noticed(job, batch), acts);
            q.runner == Finished && q.emitted == [StoppedEvent(0)] && q.sent == [Progress(0), Last(0)]
  {
    hide Pool.Init, Pool.Apply, Pool.Enabled, Pool.AllReturned, Pool.InitWorker;
    var r := Noticed(job, batch);
    acts := [];
    Then(r, acts, RunnerStep); acts := acts + [RunnerStep];
    hide Schedule, After;
    Then(r, acts, ReporterStep); acts := acts + [ReporterStep];
    Then(r, acts, ReporterStep); acts := acts + [ReporterStep];
    Then(r, acts, RunnerStep); acts := acts + [RunnerStep];
    Then(r, acts, RunnerStep); acts := acts + [RunnerStep];
    Then(r, acts, RunnerStep); acts := acts + [RunnerStep];
    Then(r, acts, RunnerStep); acts := acts + [RunnerStep];
    Then(r, acts, RunnerStep); acts := acts + [RunnerStep];
    Then(r, acts, RunnerStep); acts := acts + [RunnerStep];
    Then(r, acts, ForwarderStep); acts := acts + [ForwarderStep];
    Then(r, acts, RunnerStep); acts := acts + [RunnerStep];
    Then(r, acts, RunnerStep); acts := acts + [RunnerStep];
  }

  lemma LoseCaught(job: Job, batch: nat) returns (acts: seq<Action>)
    ensures Schedule(Caught(job, batch), acts)
    ensures var q := After(Caught(job, batch), acts);
            q.runner == Finished && q.emitted == [StoppedEvent(0)] && q.sent == [Progress(0), Last(0)]
  {
    var first := NoticeCaught(job, batch);
    var rest := LoseNoticed(job, batch);
    hide Schedule, After, Caught, Noticed;
    Chain(Caught(job, batch), first, rest);
    acts := first + rest;
  }

  lemma {:induction false} Chain(r: Run, first: seq<Action>, rest: seq<Action>)
    requires Schedule(r, first) && Schedule(After(r, first), rest)
    ensures Reaches(r, After(After(r, first), rest), first + rest)
    decreases |first|
  {
    hide Enabled, Apply;
    if first == [] {
      assert first + rest == rest;
    } else {
      Chain(Apply(r, first[0]), first[1..], rest);
      assert (first + rest)[1..] == first[1..] + rest;
    }
  }

  // So a finished run need not have reported all the progress it sent.
  lemma ProgressCanBeLost(job: Job, batch: nat) returns (acts: seq<Action>)
    ensures Schedule(InitCpu(job, batch, 1), acts)
    ensures var q := After(InitCpu(job, batch, 1), acts);
            q.runner == Finished && Reported(q.emitted) == [] && Counts(q.sent) == [0]
  {
    var first := ReachCaught(job, batch);
    var rest := LoseCaught(job, batch);
    hide Schedule, After, InitCpu, Caught;
    Chain(InitCpu(job, batch, 1), first, rest);
    acts := first + rest;
    LostCounts();
  }

  lemma LostCounts()
    ensures Reported([StoppedEvent(0)]) == [] && Counts([Progress(0), Last(0)]) == [0]
  {
    CountsSnoc([], Progress(0)); CountsSnoc([Progress(0)], Last(0));
    EventsSnoc([], StoppedEvent(0));
    assert [] + [Progress(0)] == [Progress(0)] && [Progress(0)] + [Last(0)] == [Progress(0), Last(0)];
    assert [] + [StoppedEvent(0)] == [StoppedEvent(0)];
    assert Counts([]) + [0] == [0];
  }
}
