// One mining run: the run thread, its forwarder, the progress reporter, the
// bounded channel between them, and the CPU workers or the GPU dispatch loop.
// Every step is one shared access; the steps of all threads interleave freely.
module RunThread {
  import opened Words
  import Bytes
  import opened Hex
  import opened Mining
  import Pool
  import GpuRound
  import opened WorkSize

  datatype Message = Progress(hashes: u64) | Last(hashes: u64)

  datatype Event =
    | ProgressEvent(hashes: u64)
    | FoundEvent(nonce: string, result: string, hashes: u64)
    | StoppedEvent(hashes: u64)
    | ErrorEvent

  datatype Outcome =
    | Undecided
    | Solved(nonce: seq<byte>, digest: seq<byte>, hashes: u64)
    | Exhausted(hashes: u64)
    | Failed

  // The progress thread of run_cpu.
  datatype Reporter = Sleeping | CheckDone | CheckStop | Load | Send(hashes: u64) | Gone

  // The thread that turns progress messages into events.
  datatype Forwarder = Receiving | TimedOut | Emitting(hashes: u64) | Exited

  // The run thread. Mining is inside run_cpu; Grinding (about to load the stop
  // flag), Dispatching (from the launch of a kernel to the end of its round)
  // and Reporting are inside run_gpu.
  datatype Runner =
    | Mining | Grinding | Dispatching | Reporting(hashes: u64)
    | SetDone | JoinReporter | LoadHashes | SendLast(hashes: u64) | TakeSlot(hashes: u64)
    | DropTx | RaiseFlag | JoinForwarder | Announce | Finished

  // The variables of run_gpu's loop; `rounds` is history, the dispatches done.
  datatype Host = Host(size: nat, counter: u64, total: u64, rounds: nat)

  // `sent`, `received` and `emitted` are history: everything put on the
  // channel, taken from it, and sent as an event.
  datatype Run = Run(
    pool: Pool.Pool, cpu: bool, host: Host,
    reporter: Reporter, reporterDone: bool,
    queue: seq<Message>, forwarder: Forwarder, forwarderStop: bool,
    runner: Runner, outcome: Outcome,
    sent: seq<Message>, received: seq<Message>, emitted: seq<Event>)

  datatype Action =
    | WorkerStep(t: nat) | ReporterStep
    | Receive | Timeout | ForwarderStep
    | RunnerStep
    | GpuDispatch | GpuContinue | GpuReport | GpuHit(gid: nat) | GpuSeesStop | GpuFails
    | RaiseStop

  const CAPACITY: nat := 64

  function InitCpu(job: Job, batch: nat, n: nat): Run
  {
    Run(Pool.Init(job, batch, n), true, Host(0, 0, 0, 0), Sleeping, false, [], Receiving, false, Mining, Undecided, [], [], [])
  }

  // `size` is the global work size.
  function InitGpu(job: Job, batch: nat, size: nat): Run
  {
    Run(Pool.Init(job, batch, 0), false, Host(size, 0, 0, 0), Gone, false, [], Receiving, false, Grinding, Undecided, [], [], [])
  }

  predicate SendersGone(r: Run) { r.runner in {RaiseFlag, JoinForwarder, Announce, Finished} && r.reporter == Gone }

  predicate HasRoom(r: Run) { |r.queue| < CAPACITY }

  predicate RunnerEnabled(r: Run)
  {
    match r.runner
    case Mining => Pool.AllReturned(r.pool)
    case Grinding => false
    case Dispatching => false
    case Reporting(_) => HasRoom(r)
    case JoinReporter => r.reporter == Gone
    case SendLast(_) => HasRoom(r)
    case JoinForwarder => r.forwarder == Exited
    case Finished => false
    case _ => true
  }

  // Some counter of the dispatch under way is below the target.
  predicate RoundHits(r: Run) { GpuRound.HasHit(r.pool.job, r.host.counter, r.host.size) }

  // The host's variables once a dispatch is over, before the flag is read and
  // after the counter has moved on.
  function Counted(h: Host): Host { h.(total := Saturate(h.total + h.size), rounds := h.rounds + 1) }

  function Advanced(h: Host): Host { Counted(h).(counter := (h.counter + h.size) % TWO64) }

  predicate Enabled(r: Run, a: Action)
  {
    match a
    case WorkerStep(t) => Pool.Enabled(r.pool, Pool.Work(t))
    case ReporterStep => r.reporter != Gone && (r.reporter.Send? ==> HasRoom(r))
    case Receive => r.forwarder == Receiving && r.queue != []
    case Timeout => r.forwarder == Receiving && r.queue == [] && !SendersGone(r)
    case ForwarderStep => r.forwarder.TimedOut? || r.forwarder.Emitting? || (r.forwarder == Receiving && r.queue == [] && SendersGone(r))
    case RunnerStep => RunnerEnabled(r)
    case GpuDispatch => r.runner == Grinding && !r.pool.stop && r.host.size > 0
    case GpuContinue => r.runner == Dispatching && !RoundHits(r)
    case GpuReport => r.runner == Dispatching && !RoundHits(r)
    case GpuHit(i) => r.runner == Dispatching && i < r.host.size && Hit(r.pool.job, GpuRound.Counter(r.host.counter, i))
    case GpuSeesStop => r.runner == Grinding && r.pool.stop
    case GpuFails => r.runner == Grinding || r.runner == Dispatching
    case RaiseStop => true
  }

  function Put(r: Run, m: Message): Run { r.(queue := r.queue + [m], sent := r.sent + [m]) }

  function ApplyReporter(r: Run): Run
  {
    match r.reporter
    case Sleeping => r.(reporter := CheckDone)
    case CheckDone => r.(reporter := if r.reporterDone then Gone else CheckStop)
    case CheckStop => r.(reporter := if r.pool.stop then Gone else Load)
    case Load => r.(reporter := Send(r.pool.total))
    case Send(h) => Put(r, Progress(h)).(reporter := Sleeping)
    case Gone => r
  }

  function ApplyReceive(r: Run): Run
    requires r.queue != []
  {
    var m := r.queue[0];
    r.(queue := r.queue[1..], received := r.received + [m],
       forwarder := if m.Progress? then Emitting(m.hashes) else Receiving)
  }

  function ApplyForwarder(r: Run): Run
  {
    match r.forwarder
    case TimedOut => r.(forwarder := if r.forwarderStop then Exited else Receiving)
    case Emitting(h) => r.(forwarder := Receiving, emitted := r.emitted + [ProgressEvent(h)])
    case Receiving => r.(forwarder := Exited)
    case Exited => r
  }

  // The last event of a run, if it has one.
  function Terminal(o: Outcome): seq<Event>
  {
    match o
    case Solved(nonce, digest, h) => [FoundEvent(ToHex(nonce), ToHex(digest), h)]
    case Exhausted(h) => [StoppedEvent(h)]
    case _ => []
  }

  function SlotOutcome(slot: Option<Pool.Solution>, h: u64): Outcome
  {
    match slot
    case Some(s) => Solved(s.nonce, s.digest, h)
    case None => Exhausted(h)
  }

  // Taking the slot leaves it in place: nothing reads it again.
  function ApplyRunner(r: Run): Run
  {
    match r.runner
    case Mining => r.(runner := SetDone)
    case Grinding => r
    case Dispatching => r
    case Reporting(h) => Put(r, Progress(h)).(runner := Grinding)
    case SetDone => r.(reporterDone := true, runner := JoinReporter)
    case JoinReporter => r.(runner := LoadHashes)
    case LoadHashes => r.(runner := SendLast(r.pool.total))
    case SendLast(h) =>
      if r.cpu then Put(r, Last(h)).(runner := TakeSlot(h))
      else Put(r, Last(h)).(runner := DropTx, outcome := Exhausted(h))
    case TakeSlot(h) => r.(runner := DropTx, outcome := SlotOutcome(r.pool.slot, h))
    case DropTx => r.(runner := RaiseFlag)
    case RaiseFlag => r.(runner := JoinForwarder, forwarderStop := true)
    case JoinForwarder => r.(runner := Announce)
    case Announce => r.(runner := Finished, emitted := r.emitted + Terminal(r.outcome))
    case Finished => r
  }

  function Apply(r: Run, a: Action): Run
    requires Enabled(r, a)
  {
    match a
    case WorkerStep(t) => r.(pool := Pool.Apply(r.pool, Pool.Work(t)))
    case ReporterStep => ApplyReporter(r)
    case Receive => ApplyReceive(r)
    case Timeout => r.(forwarder := TimedOut)
    case ForwarderStep => ApplyForwarder(r)
    case RunnerStep => ApplyRunner(r)
    case GpuDispatch => r.(runner := Dispatching)
    case GpuContinue => r.(runner := Grinding, host := Advanced(r.host))
    case GpuReport => r.(runner := Reporting(Advanced(r.host).total), host := Advanced(r.host))
    case GpuHit(i) =>
      var c, h := GpuRound.Counter(r.host.counter, i), Counted(r.host);
      r.(runner := DropTx, host := h, outcome := Solved(NonceBytes(r.pool.job.prefix, c), Digest(r.pool.job, c), h.total))
    case GpuSeesStop => r.(runner := SendLast(r.host.total))
    case GpuFails => r.(runner := DropTx, outcome := Failed, emitted := r.emitted + [ErrorEvent])
    case RaiseStop => r.(pool := Pool.Apply(r.pool, Pool.RaiseStop))
  }

  predicate Schedule(r: Run, acts: seq<Action>)
    decreases |acts|
  {
    acts == [] || (Enabled(r, acts[0]) && Schedule(Apply(r, acts[0]), acts[1..]))
  }

  function After(r: Run, acts: seq<Action>): Run
    requires Schedule(r, acts)
    decreases |acts|
  {
    if acts == [] then r else After(Apply(r, acts[0]), acts[1..])
  }

  /* The invariant */

  // The progress counts in a stretch of messages, and in a stretch of events.
  function Counts(ms: seq<Message>): seq<u64>
  {
    if ms == [] then [] else Counts(ms[..|ms| - 1]) + (if ms[|ms| - 1].Progress? then [ms[|ms| - 1].hashes] else [])
  }

  function Reported(es: seq<Event>): seq<u64>
  {
    if es == [] then [] else Reported(es[..|es| - 1]) + (if es[|es| - 1].ProgressEvent? then [es[|es| - 1].hashes] else [])
  }

  function Errors(es: seq<Event>): nat
  {
    if es == [] then 0 else Errors(es[..|es| - 1]) + (if es[|es| - 1].ErrorEvent? then 1 else 0)
  }

  function Terminals(es: seq<Event>): nat
  {
    if es == [] then 0
    else Terminals(es[..|es| - 1]) + (if es[|es| - 1].FoundEvent? || es[|es| - 1].StoppedEvent? then 1 else 0)
  }

  function InFlight(f: Forwarder): seq<u64> { if f.Emitting? then [f.hashes] else [] }

  // Who is where: the run thread passes a join only when the other is done.
  predicate PhaseInv(r: Run)
  {
    && (r.cpu ==> !r.runner.Grinding? && !r.runner.Dispatching? && !r.runner.Reporting?)
    && (!r.cpu ==> r.reporter == Gone && !r.runner.Mining? && !r.runner.SetDone? && !r.runner.JoinReporter? && !r.runner.LoadHashes? && !r.runner.TakeSlot?)
    && (r.cpu && !r.runner.Mining? ==> Pool.AllReturned(r.pool))
    && (r.cpu ==> (r.reporterDone <==> !r.runner.Mining? && !r.runner.SetDone?))
    && (r.cpu && !r.runner.Mining? && !r.runner.SetDone? && !r.runner.JoinReporter? ==> r.reporter == Gone)
    && (r.forwarderStop <==> r.runner in {JoinForwarder, Announce, Finished})
    && (r.forwarder == Exited ==> SendersGone(r))
    && (r.forwarder == Exited && !r.forwarderStop ==> r.queue == [])
    && (r.runner in {Announce, Finished} ==> r.forwarder == Exited)
    && (r.outcome.Undecided? <==> !(r.runner in {DropTx, RaiseFlag, JoinForwarder, Announce, Finished}))
  }

  predicate ChannelInv(r: Run)
  {
    |r.queue| <= CAPACITY && r.sent == r.received + r.queue
  }

  predicate EventInv(r: Run)
  {
    && Counts(r.received) == Reported(r.emitted) + InFlight(r.forwarder)
    && Errors(r.emitted) == (if r.outcome.Failed? then 1 else 0)
    && Terminals(r.emitted) == (if r.runner == Finished then |Terminal(r.outcome)| else 0)
    && (r.runner == Finished && !r.outcome.Failed? ==> r.emitted != [] && [r.emitted[|r.emitted| - 1]] == Terminal(r.outcome))
  }

  predicate OutcomeInv(r: Run)
  {
    && (r.outcome.Solved? ==> Solves(r.pool.job, r.outcome.nonce, r.outcome.digest) && |r.outcome.nonce| == |r.pool.job.prefix| + 8 && |r.outcome.digest| == 32)
    && (r.outcome.Exhausted? ==> r.pool.stop)
    && (r.cpu && (r.outcome.Solved? || r.outcome.Exhausted?) ==> r.outcome == SlotOutcome(r.pool.slot, r.outcome.hashes))
    && (!r.cpu && r.runner.SendLast? ==> r.pool.stop)
    && (r.outcome.Failed? ==> !r.cpu)
  }

  predicate Inv(r: Run)
  {
    Pool.Inv(r.pool) && (r.cpu <==> |r.pool.workers| > 0) && PhaseInv(r) && ChannelInv(r) && EventInv(r) && OutcomeInv(r)
  }

  lemma InitInv(job: Job, batch: nat, n: nat)
    requires 0 < batch < TWO64 && n > 0
    ensures Inv(InitCpu(job, batch, n))
  {
    hide Pool.Inv;
    Pool.InitInv(job, batch, n);
  }

  lemma InitGpuInv(job: Job, batch: nat, size: nat)
    requires 0 < batch < TWO64
    ensures Inv(InitGpu(job, batch, size))
  {
    hide Pool.Inv;
    Pool.InitInv(job, batch, 0);
    assert Pool.Init(job, batch, 0).workers == [];
  }

  /* Every step keeps it */

  lemma CountsSnoc(ms: seq<Message>, m: Message)
    ensures Counts(ms + [m]) == Counts(ms) + (if m.Progress? then [m.hashes] else [])
  {
    assert (ms + [m])[..|ms|] == ms;
  }

  lemma EventsSnoc(es: seq<Event>, e: Event)
    ensures Reported(es + [e]) == Reported(es) + (if e.ProgressEvent? then [e.hashes] else [])
    ensures Errors(es + [e]) == Errors(es) + (if e.ErrorEvent? then 1 else 0)
    ensures Terminals(es + [e]) == Terminals(es) + (if e.FoundEvent? || e.StoppedEvent? then 1 else 0)
  {
    assert (es + [e])[..|es|] == es;
  }

  lemma StepPhase(r: Run, a: Action)
    requires Inv(r) && Enabled(r, a)
    ensures PhaseInv(Apply(r, a))
  {
    hide Pool.Inv, Pool.Apply, EventInv, ChannelInv, OutcomeInv, Hit, Digest, NonceBytes, ApplyRunner, ApplyReporter, ApplyForwarder;
    match a
    case WorkerStep(t) => assert !Pool.AllReturned(r.pool);
    case RaiseStop => StopKeepsReturned(r.pool);
    case RunnerStep => RunnerPhase(r);
    case ReporterStep => ReporterPhase(r);
    case ForwarderStep => ForwarderPhase(r);
    case _ =>
  }

  lemma RunnerPhase(r: Run)
    requires PhaseInv(r) && RunnerEnabled(r)
    ensures PhaseInv(ApplyRunner(r))
  {
    hide Pool.AllReturned;
  }

  lemma ReporterPhase(r: Run)
    requires PhaseInv(r) && r.reporter != Gone
    ensures PhaseInv(ApplyReporter(r))
  {
    hide Pool.AllReturned;
  }

  lemma ForwarderPhase(r: Run)
    requires PhaseInv(r) && Enabled(r, ForwarderStep)
    ensures PhaseInv(ApplyForwarder(r))
  {
    hide Pool.AllReturned;
  }

  lemma StopKeepsReturned(p: Pool.Pool)
    ensures Pool.AllReturned(p) ==> Pool.AllReturned(Pool.Apply(p, Pool.RaiseStop))
  {
  }

  lemma PutChannel(r: Run, m: Message)
    requires ChannelInv(r) && HasRoom(r)
    ensures ChannelInv(Put(r, m))
  {
    assert r.received + (r.queue + [m]) == (r.received + r.queue) + [m];
  }

  lemma ReceiveChannel(r: Run)
    requires ChannelInv(r) && r.queue != []
    ensures ChannelInv(ApplyReceive(r))
  {
    assert r.queue == [r.queue[0]] + r.queue[1..];
    assert r.received + ([r.queue[0]] + r.queue[1..]) == (r.received + [r.queue[0]]) + r.queue[1..];
  }

  lemma StepChannel(r: Run, a: Action)
    requires ChannelInv(r) && Enabled(r, a)
    ensures ChannelInv(Apply(r, a))
  {
    hide Pool.Apply, Pool.AllReturned, Hit, Digest, NonceBytes, Put, ApplyReceive;
    PutShape(r);
    if a.Receive? { ReceiveChannel(r); }
    if HasRoom(r) { forall m ensures ChannelInv(Put(r, m)) { PutChannel(r, m); } }
  }

  lemma PutShape(r: Run)
    ensures forall m :: Put(r, m).queue == r.queue + [m] && Put(r, m).sent == r.sent + [m] && Put(r, m).received == r.received
  {
  }

  lemma RunnerEvent(r: Run)
    requires PhaseInv(r) && EventInv(r) && RunnerEnabled(r)
    ensures EventInv(ApplyRunner(r))
  {
    hide Pool.AllReturned, Counts, Reported, Errors, Terminals, ToHex;
    if r.runner == Announce {
      if r.outcome.Failed? {
        assert r.emitted + [] == r.emitted;
      } else {
        EventsSnoc(r.emitted, Terminal(r.outcome)[0]);
      }
    }
  }

  lemma StepEvent(r: Run, a: Action)
    requires PhaseInv(r) && EventInv(r) && Enabled(r, a)
    ensures EventInv(Apply(r, a))
  {
    hide Pool.Apply, Pool.AllReturned, Counts, Reported, Errors, Terminals, Hit, Digest, NonceBytes, ToHex, ApplyRunner;
    match a
    case Receive => CountsSnoc(r.received, r.queue[0]);
    case ForwarderStep =>
      if r.forwarder.Emitting? {
        EventsSnoc(r.emitted, ProgressEvent(r.forwarder.hashes));
      }
    case RunnerStep => RunnerEvent(r);
    case GpuFails => EventsSnoc(r.emitted, ErrorEvent);
    case _ =>
  }

  lemma RunnerOutcome(r: Run)
    requires Inv(r) && RunnerEnabled(r)
    ensures OutcomeInv(ApplyRunner(r))
  {
    if r.runner.TakeSlot? {
      TakeOutcome(r);
    } else {
      assert OutcomeInv(r) && PhaseInv(r) by { hide Pool.Inv, EventInv, ChannelInv; }
      hide Inv, Solves, Pool.AllReturned, SlotOutcome;
    }
  }

  lemma TakeOutcome(r: Run)
    requires Inv(r) && r.runner.TakeSlot?
    ensures OutcomeInv(ApplyRunner(r))
  {
    hide Pool.Inv, EventInv, ChannelInv, Solves, Pool.AllReturned, SlotOutcome;
    assert r.cpu && Pool.AllReturned(r.pool) && |r.pool.workers| > 0;
    hide PhaseInv;
    SlotGivesOutcome(r.pool, r.runner.hashes);
    SlotDecides(r.pool.slot, r.runner.hashes);
  }

  lemma SlotDecides(slot: Option<Pool.Solution>, h: u64)
    ensures var o := SlotOutcome(slot, h); (o.Solved? || o.Exhausted?) && o.hashes == h
  {
  }

  lemma WorkerOutcome(r: Run, t: nat)
    requires Inv(r) && Enabled(r, WorkerStep(t))
    ensures OutcomeInv(Apply(r, WorkerStep(t)))
  {
    WorkersMove(r, t);
    Pool.ApplyWork(r.pool, t);
    hide Pool.Inv, EventInv, ChannelInv, PhaseInv, Solves, Pool.Apply, Pool.StepWorker, SlotOutcome;
  }

  lemma GpuOutcome(r: Run, a: Action)
    requires OutcomeInv(r) && PhaseInv(r) && Enabled(r, a)
    requires a.GpuDispatch? || a.GpuContinue? || a.GpuReport? || a.GpuHit? || a.GpuSeesStop? || a.GpuFails?
    ensures OutcomeInv(Apply(r, a))
  {
    hide Bytes.Value, NonceBytes, Pool.AllReturned, GpuRound.HasHit;
  }

  lemma StepOutcome(r: Run, a: Action)
    requires Inv(r) && Enabled(r, a)
    ensures OutcomeInv(Apply(r, a))
  {
    hide Pool.Inv, ChannelInv, EventInv, Solves, SlotOutcome, ApplyReporter, ApplyForwarder, ApplyRunner, Pool.Apply;
    match a
    case WorkerStep(t) => WorkerOutcome(r, t);
    case RunnerStep => RunnerOutcome(r);
    case ReporterStep => KeepsOutcome(r);
    case Receive =>
    case Timeout =>
    case ForwarderStep => KeepsOutcome(r);
    case RaiseStop => RaiseOutcome(r);
    case _ => GpuOutcome(r, a);
  }

  lemma RaiseOutcome(r: Run)
    requires OutcomeInv(r)
    ensures OutcomeInv(Apply(r, RaiseStop))
  {
    hide Solves, SlotOutcome, Pool.AllReturned;
  }

  lemma KeepsOutcome(r: Run)
    requires OutcomeInv(r)
    ensures OutcomeInv(ApplyReporter(r)) && OutcomeInv(ApplyForwarder(r))
  {
    hide Solves, SlotOutcome, OutcomeInv;
    SameOutcome(r, ApplyReporter(r)); SameOutcome(r, ApplyForwarder(r));
  }

  lemma SameOutcome(r: Run, q: Run)
    requires OutcomeInv(r) && q.pool == r.pool && q.outcome == r.outcome && q.cpu == r.cpu && q.runner == r.runner
    ensures OutcomeInv(q)
  {
    hide Solves, SlotOutcome;
  }

  // While a worker can move, nothing is decided.
  lemma WorkersMove(r: Run, t: nat)
    requires PhaseInv(r) && Enabled(r, WorkerStep(t))
    ensures r.cpu ==> r.outcome.Undecided? && r.runner.Mining?
  {
    assert !Pool.AllReturned(r.pool);
  }

  lemma SlotGivesOutcome(p: Pool.Pool, h: u64)
    requires Pool.Inv(p) && Pool.AllReturned(p) && |p.workers| > 0
    ensures var o := SlotOutcome(p.slot, h);
            (o.Solved? ==> Solves(p.job, o.nonce, o.digest) && |o.nonce| == |p.job.prefix| + 8 && |o.digest| == 32) &&
            (o.Exhausted? ==> p.stop)
  {
    hide Pool.WorkerInv, Pool.CountInv, Bytes.Value;
    Pool.SlotSolves(p);
    Pool.NoSolution(p);
  }

  lemma ReporterPool(r: Run) ensures ApplyReporter(r).pool == r.pool {}
  lemma ForwarderPool(r: Run) ensures ApplyForwarder(r).pool == r.pool {}
  lemma RunnerPool(r: Run) ensures ApplyRunner(r).pool == r.pool {}

  lemma OtherPool(r: Run, a: Action)
    requires Enabled(r, a) && !a.WorkerStep? && !a.RaiseStop?
    ensures Apply(r, a).pool == r.pool
  {
    hide Enabled, ApplyReporter, ApplyForwarder, ApplyRunner, Hit, Digest, NonceBytes;
    ReporterPool(r); ForwarderPool(r); RunnerPool(r);
    if a.Receive? { assert r.queue != [] by { ReceiveEnabled(r); } }
  }

  lemma ReceiveEnabled(r: Run) requires Enabled(r, Receive) ensures r.queue != [] {}

  // Only workers and the stop flag touch the pool, and they keep its invariant.
  lemma StepPool(r: Run, a: Action)
    requires Pool.Inv(r.pool) && Enabled(r, a)
    ensures var q := Apply(r, a).pool;
            Pool.Inv(q) && |q.workers| == |r.pool.workers| && q.job == r.pool.job && (r.pool.stop ==> q.stop)
    ensures Apply(r, a).cpu == r.cpu
  {
    hide Pool.Inv, Pool.Apply, Pool.StepWorker, Pool.Flushed, Hit, Digest, NonceBytes;
    if a.WorkerStep? {
      Pool.StepInv(r.pool, Pool.Work(a.t)); Pool.ApplyWork(r.pool, a.t);
    } else if a.RaiseStop? {
      Pool.StepInv(r.pool, Pool.RaiseStop); PoolStopShape(r.pool);
    }
  }

  lemma StepInv(r: Run, a: Action)
    requires Inv(r) && Enabled(r, a)
    ensures Inv(Apply(r, a))
    ensures Apply(r, a).pool.job == r.pool.job && Apply(r, a).cpu == r.cpu
    ensures r.pool.stop ==> Apply(r, a).pool.stop
  {
    StepPhase(r, a); StepChannel(r, a); StepEvent(r, a); StepOutcome(r, a); StepPool(r, a);
    hide Pool.Inv, PhaseInv, ChannelInv, EventInv, OutcomeInv, Apply, Enabled;
  }

  lemma PoolStopShape(p: Pool.Pool)
    ensures var q := Pool.Apply(p, Pool.RaiseStop); q.job == p.job && q.workers == p.workers && q.stop
  {
  }

  lemma {:induction false} ScheduleInv(r: Run, acts: seq<Action>)
    requires Inv(r) && Schedule(r, acts)
    ensures Inv(After(r, acts)) && After(r, acts).pool.job == r.pool.job && After(r, acts).cpu == r.cpu
    decreases |acts|
  {
    hide Inv, Apply, Enabled;
    if acts != [] {
      StepInv(r, acts[0]);
      ScheduleInv(Apply(r, acts[0]), acts[1..]);
    }
  }
}
