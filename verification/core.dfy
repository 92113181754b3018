// The IPC core: the command loop of `main`, the runs it starts and stops, and
// the emitter that writes events out in the order they were sent.
module Core {
  import opened Words
  import opened Hex
  import opened Mining
  import Prefix
  import Pool
  import opened RunThread
  import opened WorkSize
  import RunEvents

  /* Commands */

  datatype StartArgs = StartArgs(
    challenge: string, difficulty: string, prefix: string,
    batch: u64, gpu: bool, cpuThreads: Option<nat>)

  datatype Command =
    | Start(args: StartArgs)
    | Retarget(challenge: string, difficulty: string)
    | Stop
    | Probe
    | BadLine

  // The cores the system offers, and the device's work-group limit if it can
  // be read.
  datatype Machine = Machine(cpus: nat, limit: Option<nat>)

  datatype Launched = Started(run: Run) | Refused | Panic

  // start_run: parse, then spawn the run thread. A prefix that cannot be
  // sliced at byte 48 panics in the command loop itself.
  function StartRun(args: StartArgs, machine: Machine): Launched
  {
    var challenge := ParseHex32(args.challenge);
    if !challenge.Parsed? then Refused else
    var difficulty := ParseHex32(args.difficulty);
    if !difficulty.Parsed? then Refused else
    var prefix := ParsePrefix24(args.prefix);
    if prefix.Panicked? then Panic else
    if !prefix.Parsed? then Refused else
    var job := Job(challenge.bytes, difficulty.bytes, prefix.bytes);
    var batch := Max(args.batch, 0x4000);
    if args.gpu then Started(InitGpu(job, batch, GlobalSize(batch, LocalSize(machine.limit))))
    else
      var threads := match args.cpuThreads case Some(n) => n case None => machine.cpus;
      Started(InitCpu(job, Max(batch, 0x1000), Max(threads, 1)))
  }

  // A retarget always restarts on the CPU with a fresh prefix.
  function RetargetArgs(challenge: string, difficulty: string, seed: bv64): StartArgs
  {
    StartArgs(challenge, difficulty, ToHex(Prefix.PrefixBytes(seed)), 0x10_0000, false, None)
  }

  /* State and steps */

  // An event on the unbounded channel; those of a run carry its number.
  datatype Entry = Ready | Devices | CommandError | OfRun(id: nat, event: Event)

  // What the command loop does after joining the stopped run.
  datatype Next = Launch(args: StartArgs) | Idle | Quit

  datatype MainPc =
    | Reading                        // waiting for a line
    | Joining(id: nat, next: Next)   // in stop_and_wait
    | Launching(args: StartArgs)
    | Draining                       // event_tx dropped, joining the emitter
    | Ended
    | Dead                           // the process died: a panic or a read error

  // `runs` holds every run ever started; `emitter` says whether the emitter
  // thread is still there, and `written` counts the events it has taken off
  // the channel.
  datatype Core = Core(
    machine: Machine, pc: MainPc, active: Option<nat>, runs: seq<Run>,
    log: seq<Entry>, emitter: bool, written: nat)

  datatype Action =
    | Read(cmd: Command, seed: bv64)
    | EndOfInput
    | ReadFails
    | Join
    | Spawn
    | RunStep(id: nat, a: RunThread.Action)
    | Write
    | EmitterExit
    | JoinEmitter

  function Init(machine: Machine): Core { Core(machine, Reading, None, [], [Ready], true, 0) }

  /* Sender clones of the event channel */

  // The command loop drops its own before it joins the emitter.
  predicate MainHolds(c: Core) { c.pc != Draining && c.pc != Ended && c.pc != Dead }

  // A run's thread has one until it ends, and so has its forwarder.
  predicate RunHolds(r: Run) { r.runner != Finished || r.forwarder != Exited }

  predicate Disconnected(c: Core)
  {
    !MainHolds(c) && forall i :: 0 <= i < |c.runs| ==> !RunHolds(c.runs[i])
  }

  predicate Enabled(c: Core, a: Action)
  {
    c.pc != Dead && c.pc != Ended &&
    match a
    case Read(_, _) => c.pc == Reading
    case EndOfInput => c.pc == Reading
    case ReadFails => c.pc == Reading
    case Join => c.pc.Joining? && c.pc.id < |c.runs| && c.runs[c.pc.id].runner == Finished
    case Spawn => c.pc.Launching?
    case RunStep(i, b) => i < |c.runs| && b != RaiseStop && RunThread.Enabled(c.runs[i], b)
    case Write => c.emitter && c.written < |c.log|
    case EmitterExit => c.emitter && c.written == |c.log| && Disconnected(c)
    case JoinEmitter => c.pc == Draining && !c.emitter
  }

  function After(next: Next): MainPc
  {
    match next
    case Launch(args) => Launching(args)
    case Idle => Reading
    case Quit => Draining
  }

  // `if let Some(a) = active.take() { a.stop_and_wait() }`, then `next`.
  function StopThen(c: Core, next: Next): Core
  {
    match c.active
    case None => c.(pc := After(next))
    case Some(i) =>
      if i < |c.runs| then
        c.(active := None, pc := Joining(i, next), runs := c.runs[i := RunThread.Apply(c.runs[i], RaiseStop)])
      else c
  }

  function Tagged(id: nat, es: seq<Event>): seq<Entry>
  {
    seq(|es|, k requires 0 <= k < |es| => OfRun(id, es[k]))
  }

  // The events one step of a run sends.
  function NewEvents(r: Run, a: RunThread.Action): seq<Event>
    requires RunThread.Enabled(r, a)
  {
    var es := RunThread.Apply(r, a).emitted;
    if |r.emitted| <= |es| then es[|r.emitted|..] else []
  }

  function Apply(c: Core, a: Action): Core
    requires Enabled(c, a)
  {
    match a
    case Read(cmd, seed) =>
      (match cmd
       case BadLine => c.(log := c.log + [CommandError])
       case Probe => c.(log := c.log + [Devices])
       case Stop => StopThen(c, Idle)
       case Start(args) => StopThen(c, Launch(args))
       case Retarget(ch, d) => StopThen(c, Launch(RetargetArgs(ch, d, seed))))
    case EndOfInput => StopThen(c, Quit)
    case ReadFails => c.(pc := Dead)
    case Join => c.(pc := After(c.pc.next))
    case Spawn =>
      (match StartRun(c.pc.args, c.machine)
       case Started(r) => c.(pc := Reading, active := Some(|c.runs|), runs := c.runs + [r])
       case Refused => c.(pc := Reading, log := c.log + [CommandError])
       case Panic => c.(pc := Dead))
    case RunStep(i, b) =>
      c.(runs := c.runs[i := RunThread.Apply(c.runs[i], b)], log := c.log + Tagged(i, NewEvents(c.runs[i], b)))
    case Write => c.(written := c.written + 1)
    case EmitterExit => c.(emitter := false)
    case JoinEmitter => c.(pc := Ended)
  }

  predicate Schedule(c: Core, acts: seq<Action>)
    decreases |acts|
  {
    acts == [] || (Enabled(c, acts[0]) && Schedule(Apply(c, acts[0]), acts[1..]))
  }

  function Outcome(c: Core, acts: seq<Action>): Core
    requires Schedule(c, acts)
    decreases |acts|
  {
    if acts == [] then c else Outcome(Apply(c, acts[0]), acts[1..])
  }

  /* The invariant */

  // The events of run i in the log, in order.
  function RunLog(log: seq<Entry>, i: nat): seq<Event>
  {
    if log == [] then []
    else
      var e := log[|log| - 1];
      RunLog(log[..|log| - 1], i) + (if e.OfRun? && e.id == i then [e.event] else [])
  }

  // Events of earlier runs come before events of later ones.
  predicate Ordered(log: seq<Entry>)
  {
    forall j, k :: 0 <= j <= k < |log| && log[j].OfRun? && log[k].OfRun? ==> log[j].id <= log[k].id
  }

  predicate RunsInv(runs: seq<Run>)
  {
    forall i :: 0 <= i < |runs| ==> RunThread.Inv(runs[i]) && runs[i].pool.job.Valid()
  }

  predicate Over(runs: seq<Run>, i: nat)
    requires i < |runs|
  {
    runs[i].runner == Finished
  }

  predicate AllButLastOver(runs: seq<Run>) { forall i :: 0 <= i < |runs| - 1 ==> Over(runs, i) }

  // At most one run is alive, and it is the one the command loop holds or joins.
  predicate AliveInv(c: Core)
  {
    && AllButLastOver(c.runs)
    && (c.active.Some? ==> c.active.value == |c.runs| - 1 && (c.pc == Reading || c.pc == Dead))
    && (c.pc.Joining? ==> c.pc.id == |c.runs| - 1 && c.runs[c.pc.id].pool.stop)
    && (c.active.None? && !c.pc.Joining? && |c.runs| > 0 ==> Over(c.runs, |c.runs| - 1))
  }

  // The log starts with Ready and names only runs below n.
  predicate LogShape(log: seq<Entry>, n: nat)
  {
    log != [] && log[0] == Ready && Ordered(log) && (forall k :: 0 <= k < |log| && log[k].OfRun? ==> log[k].id < n)
  }

  predicate LogMatches(log: seq<Entry>, runs: seq<Run>)
  {
    forall i :: 0 <= i < |runs| ==> RunLog(log, i) == runs[i].emitted
  }

  predicate LogInv(c: Core)
  {
    && LogShape(c.log, |c.runs|) && LogMatches(c.log, c.runs) && c.written <= |c.log|
    && (!c.emitter ==> (c.pc == Draining || c.pc == Ended) && c.written == |c.log|)
    && (c.pc == Ended ==> !c.emitter)
  }

  predicate CoreInv(c: Core) { RunsInv(c.runs) && AliveInv(c) && LogInv(c) }

  /* It is kept */

  lemma StartedInv(args: StartArgs, machine: Machine)
    ensures var s := StartRun(args, machine);
            s.Started? ==>
              RunThread.Inv(s.run) && s.run.pool.job.Valid() && s.run.emitted == [] &&
              s.run.pool.job == Job(ParseHex32(args.challenge).bytes, ParseHex32(args.difficulty).bytes, ParsePrefix24(args.prefix).bytes)
  {
    hide RunThread.Inv, TrimStart, Decode;
    var s := StartRun(args, machine);
    if s.Started? {
      var job := s.run.pool.job;
      var batch := Max(args.batch, 0x4000);
      RunThread.InitInv(job, batch, Max(match args.cpuThreads case Some(n) => n case None => machine.cpus, 1));
      RunThread.InitGpuInv(job, batch, GlobalSize(batch, LocalSize(machine.limit)));
      InitJobs(job, batch);
    }
  }

  lemma InitJobs(job: Job, batch: nat)
    ensures forall n {:trigger InitCpu(job, batch, n)} :: InitCpu(job, batch, n).pool.job == job && InitCpu(job, batch, n).emitted == []
    ensures forall n {:trigger InitGpu(job, batch, n)} :: InitGpu(job, batch, n).pool.job == job && InitGpu(job, batch, n).emitted == []
  {
  }

  // A step sends at most one event, after those already sent.
  lemma StepEmits(r: Run, a: RunThread.Action)
    requires RunThread.Enabled(r, a)
    ensures RunThread.Apply(r, a).emitted == r.emitted + NewEvents(r, a)
    ensures |NewEvents(r, a)| <= 1
  {
    hide Pool.Apply, Pool.AllReturned, Hit, Digest, NonceBytes, ToHex, SlotOutcome;
  }

  lemma {:induction false} RunLogConcat(a: seq<Entry>, b: seq<Entry>, i: nat)
    ensures RunLog(a + b, i) == RunLog(a, i) + RunLog(b, i)
  {
    if b == [] {
      assert a + b == a;
    } else {
      var k := |b| - 1;
      assert (a + b)[..|a| + k] == a + b[..k];
      RunLogConcat(a, b[..k], i);
    }
  }

  lemma {:induction false} RunLogTagged(id: nat, es: seq<Event>, i: nat)
    ensures RunLog(Tagged(id, es), i) == if i == id then es else []
  {
    if es != [] {
      var k := |es| - 1;
      assert Tagged(id, es)[..k] == Tagged(id, es[..k]);
      RunLogTagged(id, es[..k], i);
      assert es == es[..k] + [es[k]];
    }
  }

  lemma RunLogOther(log: seq<Entry>, e: Entry, i: nat)
    requires !e.OfRun?
    ensures RunLog(log + [e], i) == RunLog(log, i)
  {
    assert (log + [e])[..|log|] == log;
  }

  lemma {:induction false} RunLogAbsent(log: seq<Entry>, i: nat)
    requires forall k :: 0 <= k < |log| && log[k].OfRun? ==> log[k].id != i
    ensures RunLog(log, i) == []
  {
    if log != [] { RunLogAbsent(log[..|log| - 1], i); }
  }

  lemma StopShape(r: Run)
    ensures RunThread.Enabled(r, RaiseStop)
    ensures var q := RunThread.Apply(r, RaiseStop);
            q.runner == r.runner && q.emitted == r.emitted && q.pool.job == r.pool.job && q.cpu == r.cpu && q.pool.stop
  {
  }

  lemma StopFacts(r: Run)
    requires RunThread.Inv(r)
    ensures var q := RunThread.Apply(r, RaiseStop);
            RunThread.Inv(q) && q.runner == r.runner && q.emitted == r.emitted && q.pool.job == r.pool.job && q.cpu == r.cpu && q.pool.stop
  {
    hide RunThread.Inv, RunThread.Apply, RunThread.Enabled;
    StopShape(r);
    RunThread.StepInv(r, RaiseStop);
  }

  // Replacing run i by a later state of itself.
  lemma UpdateRuns(runs: seq<Run>, i: nat, q: Run)
    requires i < |runs| && RunsInv(runs) && AllButLastOver(runs) && RunThread.Inv(q) && q.pool.job == runs[i].pool.job
    requires Over(runs, i) ==> q.runner == Finished
    ensures RunsInv(runs[i := q]) && AllButLastOver(runs[i := q])
    ensures Over(runs, |runs| - 1) ==> Over(runs[i := q], |runs| - 1)
  {
    hide RunThread.Inv;
    var s := runs[i := q];
    forall k | 0 <= k < |s| - 1 ensures Over(s, k) { assert Over(runs, k); }
  }

  lemma MatchesUpdate(log: seq<Entry>, runs: seq<Run>, i: nat, q: Run)
    requires i < |runs| && LogMatches(log, runs) && q.emitted == runs[i].emitted
    ensures LogMatches(log, runs[i := q])
  {
    hide RunLog;
  }

  lemma StopThenInv(c: Core, next: Next)
    requires CoreInv(c) && c.pc == Reading
    ensures CoreInv(StopThen(c, next))
  {
    hide LogShape, RunThread.Inv, RunThread.Apply;
    if c.active.Some? {
      var i := c.active.value;
      assert RunThread.Inv(c.runs[i]);
      StopFacts(c.runs[i]);
      var q := RunThread.Apply(c.runs[i], RaiseStop);
      hide RunsInv, AllButLastOver, LogMatches;
      UpdateRuns(c.runs, i, q);
      MatchesUpdate(c.log, c.runs, i, q);
    } else {
      hide RunsInv, AllButLastOver, LogMatches;
    }
  }

  lemma ShapeMain(log: seq<Entry>, e: Entry, n: nat)
    requires LogShape(log, n) && !e.OfRun?
    ensures LogShape(log + [e], n)
  {
  }

  lemma MatchesMain(log: seq<Entry>, e: Entry, runs: seq<Run>)
    requires LogMatches(log, runs) && !e.OfRun?
    ensures LogMatches(log + [e], runs)
  {
    hide RunLog;
    forall i | 0 <= i < |runs| ensures RunLog(log + [e], i) == runs[i].emitted { RunLogOther(log, e, i); }
  }

  // The command loop itself sends an event.
  lemma LogMain(c: Core, e: Entry)
    requires CoreInv(c) && !e.OfRun? && (c.pc == Reading || c.pc.Launching?)
    ensures CoreInv(c.(pc := Reading, log := c.log + [e]))
  {
    hide LogShape, LogMatches, RunsInv, AllButLastOver;
    ShapeMain(c.log, e, |c.runs|); MatchesMain(c.log, e, c.runs);
  }

  lemma ShapeGrows(log: seq<Entry>, n: nat) requires LogShape(log, n) ensures LogShape(log, n + 1) && RunLog(log, n) == []
  {
    RunLogAbsent(log, n);
  }

  lemma AppendMatches(log: seq<Entry>, runs: seq<Run>, r: Run)
    requires LogMatches(log, runs) && RunLog(log, |runs|) == r.emitted
    ensures LogMatches(log, runs + [r])
  {
    hide RunLog;
    var s := runs + [r];
    forall k | 0 <= k < |s| ensures RunLog(log, k) == s[k].emitted { if k < |runs| { assert s[k] == runs[k]; } }
  }

  lemma AppendRun(runs: seq<Run>, r: Run)
    requires RunsInv(runs) && AllButLastOver(runs) && (|runs| > 0 ==> Over(runs, |runs| - 1))
    requires RunThread.Inv(r) && r.pool.job.Valid()
    ensures RunsInv(runs + [r]) && AllButLastOver(runs + [r])
  {
    hide RunThread.Inv;
    var s := runs + [r];
    forall k | 0 <= k < |runs| ensures Over(s, k) { assert Over(runs, k); }
    hide Over;
  }

  lemma StartedRunInv(c: Core, r: Run)
    requires CoreInv(c) && c.pc.Launching? && RunThread.Inv(r) && r.pool.job.Valid() && r.emitted == []
    ensures CoreInv(c.(pc := Reading, active := Some(|c.runs|), runs := c.runs + [r]))
  {
    hide RunThread.Inv, LogShape, LogMatches, RunsInv, AllButLastOver;
    ShapeGrows(c.log, |c.runs|);
    AppendMatches(c.log, c.runs, r);
    AppendRun(c.runs, r);
  }

  lemma SpawnInv(c: Core)
    requires CoreInv(c) && c.pc.Launching?
    ensures CoreInv(Apply(c, Spawn))
  {
    hide RunThread.Inv, StartRun, RunsInv, AllButLastOver, LogShape, LogMatches;
    StartedInv(c.pc.args, c.machine);
    match StartRun(c.pc.args, c.machine)
    case Started(r) =>
      hide CoreInv;
      StartedRunInv(c, r);
    case Refused =>
      hide CoreInv;
      LogMain(c, CommandError);
    case Panic =>
  }

  lemma ShapeRun(log: seq<Entry>, n: nat, es: seq<Event>)
    requires LogShape(log, n + 1) && |es| <= 1
    ensures LogShape(log + Tagged(n, es), n + 1)
  {
  }

  lemma MatchesRun(log: seq<Entry>, runs: seq<Run>, i: nat, r: Run, es: seq<Event>)
    requires i < |runs| && LogMatches(log, runs) && r.emitted == runs[i].emitted + es
    ensures LogMatches(log + Tagged(i, es), runs[i := r])
  {
    hide RunLog;
    forall j | 0 <= j < |runs| ensures RunLog(log + Tagged(i, es), j) == runs[i := r][j].emitted
    {
      RunLogConcat(log, Tagged(i, es), j); RunLogTagged(i, es, j);
    }
  }

  lemma FinishedSilent(r: Run, a: RunThread.Action)
    requires RunThread.Inv(r) && RunThread.Enabled(r, a) && r.runner == Finished
    ensures NewEvents(r, a) == [] && RunThread.Apply(r, a).runner == Finished
  {
    hide RunThread.Inv, RunThread.Apply, RunThread.Enabled;
    RunEvents.FinishedStep(r, a);
  }

  lemma RunStepLog(c: Core, i: nat, a: RunThread.Action)
    requires CoreInv(c) && Enabled(c, RunStep(i, a))
    ensures LogInv(Apply(c, RunStep(i, a)))
  {
    hide RunThread.Inv, NewEvents, RunThread.Apply, RunThread.Enabled, LogShape, LogMatches;
    var r := c.runs[i];
    assert RunThread.Inv(r);
    StepEmits(r, a);
    var es := NewEvents(r, a);
    if r.runner == Finished { FinishedSilent(r, a); }
    assert i < |c.runs| - 1 ==> Over(c.runs, i);
    hide RunsInv, AllButLastOver;
    MatchesRun(c.log, c.runs, i, RunThread.Apply(r, a), es);
    if i == |c.runs| - 1 {
      ShapeRun(c.log, i, es);
    } else {
      assert es == [];
      assert c.log + Tagged(i, []) == c.log;
    }
  }

  lemma RunStepAlive(c: Core, i: nat, a: RunThread.Action)
    requires CoreInv(c) && Enabled(c, RunStep(i, a))
    ensures AliveInv(Apply(c, RunStep(i, a))) && RunsInv(Apply(c, RunStep(i, a)).runs)
  {
    hide RunThread.Inv, LogInv, NewEvents, RunThread.Apply, RunThread.Enabled;
    var r := c.runs[i];
    assert RunThread.Inv(r);
    RunThread.StepInv(r, a);
    if r.runner == Finished { FinishedSilent(r, a); }
    hide RunsInv, AllButLastOver;
    UpdateRuns(c.runs, i, RunThread.Apply(r, a));
  }

  lemma QuietInv(c: Core, a: Action)
    requires CoreInv(c) && Enabled(c, a) && (a.ReadFails? || a.Join? || a.Write? || a.EmitterExit? || a.JoinEmitter?)
    ensures CoreInv(Apply(c, a))
  {
    hide LogShape, LogMatches, RunsInv, AllButLastOver, RunThread.Enabled, RunThread.Apply;
  }

  lemma ReadInv(c: Core, cmd: Command, seed: bv64)
    requires CoreInv(c) && c.pc == Reading
    ensures CoreInv(Apply(c, Read(cmd, seed)))
  {
    hide CoreInv, StopThen;
    match cmd
    case BadLine => LogMain(c, CommandError);
    case Probe => LogMain(c, Devices);
    case Stop => StopThenInv(c, Idle);
    case Start(args) => StopThenInv(c, Launch(args));
    case Retarget(ch, d) => StopThenInv(c, Launch(RetargetArgs(ch, d, seed)));
  }

  lemma RunStepInv(c: Core, i: nat, a: RunThread.Action)
    requires CoreInv(c) && Enabled(c, RunStep(i, a))
    ensures CoreInv(Apply(c, RunStep(i, a)))
  {
    hide Apply, Enabled, LogInv, AliveInv, RunsInv;
    RunStepLog(c, i, a); RunStepAlive(c, i, a);
  }

  lemma EndInv(c: Core)
    requires CoreInv(c) && c.pc == Reading
    ensures CoreInv(Apply(c, EndOfInput))
  {
    hide CoreInv, StopThen;
    StopThenInv(c, Quit);
  }

  lemma StepInv(c: Core, a: Action)
    requires CoreInv(c) && Enabled(c, a)
    ensures CoreInv(Apply(c, a))
  {
    hide CoreInv, Apply, RunThread.Enabled;
    match a
    case RunStep(i, b) => RunStepInv(c, i, b);
    case Spawn => SpawnInv(c);
    case Read(cmd, seed) => ReadInv(c, cmd, seed);
    case EndOfInput => EndInv(c);
    case _ => QuietInv(c, a);
  }

  lemma InitInv(machine: Machine) ensures CoreInv(Init(machine)) {}

  lemma {:induction false} ScheduleInv(c: Core, acts: seq<Action>)
    requires CoreInv(c) && Schedule(c, acts)
    ensures CoreInv(Outcome(c, acts))
    decreases |acts|
  {
    hide CoreInv, Apply, Enabled;
    if acts != [] {
      StepInv(c, acts[0]);
      ScheduleInv(Apply(c, acts[0]), acts[1..]);
    }
  }
}
