// What every session of the core guarantees, from its first line of input to
// its last: who is alive, what the log says, and that it can always end.
module Sessions {
  import opened Words
  import opened Hex
  import opened Mining
  import Prefix
  import RunThread
  import RunEvents
  import Shutdown
  import opened WorkSize
  import opened Core

  /* Order */

  // At most one run alive, Ready first, the events of one run before those of
  // the next, and each run's own events a well-formed stream.
  ghost predicate Orderly(c: Core)
  {
    && AllButLastOver(c.runs)
    && c.log != [] && c.log[0] == Ready && Ordered(c.log)
    && (forall k :: 0 <= k < |c.log| && c.log[k].OfRun? ==> c.log[k].id < |c.runs|)
    && (forall i :: 0 <= i < |c.runs| ==> RunLog(c.log, i) == c.runs[i].emitted && RunEvents.WellFormed(c.runs[i]))
  }

  lemma InvOrderly(c: Core)
    requires CoreInv(c)
    ensures Orderly(c)
  {
    hide RunThread.Inv, RunLog, RunEvents.WellFormed, AliveInv;
    assert AllButLastOver(c.runs) by { AliveOver(c); }
    forall i | 0 <= i < |c.runs| ensures RunEvents.WellFormed(c.runs[i])
    {
      RunEvents.InvWellFormed(c.runs[i]);
    }
  }

  lemma AliveOver(c: Core) requires AliveInv(c) ensures AllButLastOver(c.runs) {}

  // Every command sequence, every schedule.
  lemma SessionOrder(machine: Machine, acts: seq<Action>)
    requires Schedule(Init(machine), acts)
    ensures Orderly(Outcome(Init(machine), acts))
  {
    hide CoreInv, Outcome, Orderly, Apply, Enabled;
    InitInv(machine);
    ScheduleInv(Init(machine), acts);
    InvOrderly(Outcome(Init(machine), acts));
  }

  /* The emitter and its senders */

  // The channel's sender clones are gone exactly when the command loop has
  // dropped its own: no run and no forwarder outlives it.
  lemma DisconnectedExactly(c: Core)
    requires CoreInv(c) && c.pc != Dead
    ensures Disconnected(c) <==> c.pc == Draining || c.pc == Ended
  {
    hide RunThread.Inv, LogInv;
    if c.pc == Draining || c.pc == Ended {
      forall i | 0 <= i < |c.runs| ensures !RunHolds(c.runs[i])
      {
        assert Over(c.runs, i) && RunThread.Inv(c.runs[i]);
        ForwarderGone(c.runs[i]);
      }
    }
  }

  lemma ForwarderGone(r: RunThread.Run)
    requires RunThread.Inv(r) && r.runner == RunThread.Finished
    ensures r.forwarder == RunThread.Exited
  {
    hide RunThread.Pool.Inv, RunThread.ChannelInv, RunThread.EventInv, RunThread.OutcomeInv, RunThread.Pool.AllReturned;
  }

  // From then on nothing is sent.
  lemma DrainingIsQuiet(c: Core, a: Action)
    requires CoreInv(c) && c.pc == Draining && Enabled(c, a)
    ensures Apply(c, a).log == c.log
  {
    hide RunThread.Inv, RunThread.Enabled, RunThread.Apply, NewEvents, LogInv;
    if a.RunStep? {
      assert Over(c.runs, a.id) && RunThread.Inv(c.runs[a.id]);
      FinishedSilent(c.runs[a.id], a.a);
      assert c.log + Tagged(a.id, []) == c.log;
    }
  }

  // So the emitter cannot wait for ever: until it has gone it can write or
  // leave, and once it has gone everything sent was written.
  lemma EmitterNeverWaits(c: Core)
    requires CoreInv(c) && c.pc == Draining
    ensures c.emitter ==> (if c.written < |c.log| then Enabled(c, Write) else Enabled(c, EmitterExit))
    ensures !c.emitter ==> Enabled(c, JoinEmitter) && c.written == |c.log|
  {
    hide Disconnected, RunsInv, AliveInv, LogShape, LogMatches;
    DisconnectedExactly(c);
  }

  /* Found events */

  lemma {:induction false} RunLogHolds(log: seq<Entry>, k: nat)
    requires k < |log| && log[k].OfRun?
    ensures log[k].event in RunLog(log, log[k].id)
  {
    var n := |log| - 1;
    if k < n { RunLogHolds(log[..n], k); }
  }

  lemma LoggedFoundVerifies(c: Core, k: nat)
    requires CoreInv(c) && k < |c.log| && c.log[k].OfRun?
    ensures c.log[k].id < |c.runs| && RunEvents.Verifies(c.runs[c.log[k].id].pool.job, c.log[k].event)
  {
    hide RunThread.Inv, RunLog, RunEvents.Verifies, AliveInv;
    var id := c.log[k].id;
    RunLogHolds(c.log, k);
    RunEvents.FoundVerifies(c.runs[id]);
  }

  lemma JobKept(r: RunThread.Run, a: RunThread.Action)
    requires RunThread.Inv(r) && RunThread.Enabled(r, a)
    ensures RunThread.Apply(r, a).pool.job == r.pool.job
  {
    hide RunThread.Inv, RunThread.Apply, RunThread.Enabled;
    RunThread.StepInv(r, a);
  }

  // A run keeps its number and its job.
  lemma StepJobs(c: Core, a: Action, i: nat)
    requires CoreInv(c) && Enabled(c, a) && i < |c.runs|
    ensures i < |Apply(c, a).runs| && Apply(c, a).runs[i].pool.job == c.runs[i].pool.job
  {
    hide RunThread.Inv, RunThread.Enabled, RunThread.Apply, StartRun, NewEvents, AliveInv, LogInv, RetargetArgs;
    assert RunThread.Inv(c.runs[i]);
    if a.RunStep? && a.id == i { JobKept(c.runs[i], a.a); }
    if c.active == Some(i) { StopFacts(c.runs[i]); }
  }

  predicate Parses(args: StartArgs)
  {
    ParseHex32(args.challenge).Parsed? && ParseHex32(args.difficulty).Parsed? && ParsePrefix24(args.prefix).Parsed?
  }

  // The same on the strings themselves.
  predicate WellSpelled(args: StartArgs) { Digits32(args.challenge) && Digits32(args.difficulty) && Digits24(args.prefix) }

  function JobOf(args: StartArgs): Job
    requires Parses(args)
  {
    Job(ParseHex32(args.challenge).bytes, ParseHex32(args.difficulty).bytes, ParsePrefix24(args.prefix).bytes)
  }

  // Which starts are accepted and which panic, all others being refused; and
  // what an accepted one starts.
  lemma StartExactly(args: StartArgs, machine: Machine)
    ensures var s := StartRun(args, machine);
            && (s.Started? <==> WellSpelled(args)) && (WellSpelled(args) <==> Parses(args))
            && (s.Panic? <==> Digits32(args.challenge) && Digits32(args.difficulty) && Splits24(args.prefix))
            && (s.Started? ==>
                  s.run.cpu == !args.gpu && s.run.pool.job == JobOf(args) && s.run.pool.batch == Max(args.batch, 0x4000) &&
                  (args.gpu ==> s.run.host == RunThread.Host(GlobalSize(Max(args.batch, 0x4000), LocalSize(machine.limit)), 0, 0, 0)) &&
                  (!args.gpu ==> |s.run.pool.workers| == Max(match args.cpuThreads case Some(n) => n case None => machine.cpus, 1)) &&
                  !s.run.pool.stop && s.run.emitted == [])
  {
    hide TrimStart, Decode, Digits32, Digits24, Splits24;
    ParsesExactly(args.challenge); ParsesExactly(args.difficulty); ParsesExactly(args.prefix);
  }

  // Some prefix makes the command loop panic, whatever the other arguments, so
  // long as challenge and difficulty parse.
  lemma PrefixCanPanic(challenge: seq<byte>, difficulty: seq<byte>, batch: u64, gpu: bool, threads: Option<nat>, machine: Machine)
    requires |challenge| == 32 && |difficulty| == 32
    ensures StartRun(StartArgs(ToHex(challenge), ToHex(difficulty), SplitPrefix(), batch, gpu, threads), machine) == Panic
  {
    hide StartRun, Splits24, SplitPrefix, ParseHex32, Digits32;
    var args := StartArgs(ToHex(challenge), ToHex(difficulty), SplitPrefix(), batch, gpu, threads);
    StartExactly(args, machine);
    ParsePrinted32(challenge); ParsePrinted32(difficulty);
    ParsesExactly(args.challenge); ParsesExactly(args.difficulty);
    SplitPrefixSplits();
  }

  lemma SpawnShape(c: Core)
    requires c.pc.Launching?
    ensures var q := Apply(c, Spawn);
            match StartRun(c.pc.args, c.machine)
            case Started(r) => q == c.(pc := Reading, active := Some(|c.runs|), runs := c.runs + [r])
            case Refused => q == c.(pc := Reading, log := c.log + [CommandError])
            case Panic => q == c.(pc := Dead)
  {
    hide StartRun;
  }

  /* From a command to its run */

  function ArgsOf(cmd: Command, seed: bv64): StartArgs
    requires cmd.Start? || cmd.Retarget?
  {
    match cmd
    case Start(args) => args
    case Retarget(ch, d) => RetargetArgs(ch, d, seed)
  }

  // The command with these arguments waits for the run before, is about to
  // start, or has started as run n.
  predicate Underway(c: Core, n: nat, args: StartArgs)
  {
    if |c.runs| == n then c.pc == Launching(args) || (c.pc.Joining? && c.pc.next == Launch(args)) || c.pc == Dead
    else |c.runs| > n && Parses(args) && c.runs[n].pool.job == JobOf(args)
  }

  lemma ReadUnderway(c: Core, cmd: Command, seed: bv64)
    requires CoreInv(c) && c.pc == Reading && (cmd.Start? || cmd.Retarget?)
    ensures Underway(Apply(c, Read(cmd, seed)), |c.runs|, ArgsOf(cmd, seed))
    ensures Apply(c, Read(cmd, seed)).machine == c.machine
  {
    hide RunsInv, LogInv, RunThread.Apply, RetargetArgs, Parses, JobOf;
  }

  lemma SpawnUnderway(c: Core, n: nat, args: StartArgs)
    requires c.pc == Launching(args) && |c.runs| == n && StartRun(args, c.machine).Started?
    ensures Underway(Apply(c, Spawn), n, args)
  {
    hide StartRun, JobOf, Parses;
    StartExactly(args, c.machine);
    SpawnShape(c);
  }

  lemma QuietUnderway(c: Core, a: Action, n: nat, args: StartArgs)
    requires CoreInv(c) && Enabled(c, a) && Underway(c, n, args) && |c.runs| == n && !a.Spawn?
    ensures Underway(Apply(c, a), n, args)
  {
    hide RunsInv, LogInv, AliveInv, RunThread.Apply, RunThread.Enabled, NewEvents, Parses, JobOf;
  }

  lemma RunsKept(c: Core, a: Action)
    requires Enabled(c, a)
    ensures |Apply(c, a).runs| >= |c.runs| && Apply(c, a).machine == c.machine
  {
    hide RunThread.Apply, RunThread.Enabled, NewEvents, StartRun, RetargetArgs;
  }

  lemma StepUnderway(c: Core, a: Action, n: nat, args: StartArgs)
    requires CoreInv(c) && Enabled(c, a) && Underway(c, n, args) && StartRun(args, c.machine).Started?
    ensures Underway(Apply(c, a), n, args) && Apply(c, a).machine == c.machine
  {
    hide CoreInv, StartRun, JobOf, Parses;
    RunsKept(c, a);
    if |c.runs| == n && a == Spawn {
      assert c.pc == Launching(args);
      SpawnUnderway(c, n, args);
    } else {
      hide Enabled, Apply;
      if |c.runs| == n { QuietUnderway(c, a, n, args); } else { StepJobs(c, a, n); }
    }
  }

  lemma {:induction false} ScheduleUnderway(c: Core, acts: seq<Action>, n: nat, args: StartArgs)
    requires CoreInv(c) && Schedule(c, acts) && Underway(c, n, args) && StartRun(args, c.machine).Started?
    ensures CoreInv(Outcome(c, acts)) && Underway(Outcome(c, acts), n, args)
    decreases |acts|
  {
    hide CoreInv, Apply, Enabled, StartRun, Underway;
    if acts != [] {
      StepInv(c, acts[0]);
      StepUnderway(c, acts[0], n, args);
      ScheduleUnderway(Apply(c, acts[0]), acts[1..], n, args);
    }
  }

  // The command is read in state c, and q is where the schedule then leads.
  predicate Issued(c: Core, cmd: Command, seed: bv64, acts: seq<Action>, q: Core)
  {
    c.pc == Reading && (cmd.Start? || cmd.Retarget?) &&
    Schedule(Apply(c, Read(cmd, seed)), acts) && Outcome(Apply(c, Read(cmd, seed)), acts) == q
  }

  lemma IssuedUnderway(c: Core, cmd: Command, seed: bv64, acts: seq<Action>, q: Core)
    requires CoreInv(c) && Issued(c, cmd, seed, acts, q) && Parses(ArgsOf(cmd, seed))
    ensures CoreInv(q) && Underway(q, |c.runs|, ArgsOf(cmd, seed))
  {
    hide CoreInv, Outcome, StartRun, Parses, RetargetArgs, Schedule, Underway;
    StartExactly(ArgsOf(cmd, seed), c.machine);
    assert Enabled(c, Read(cmd, seed));
    hide Apply, Enabled;
    StepInv(c, Read(cmd, seed));
    ReadUnderway(c, cmd, seed);
    hide ArgsOf;
    ScheduleUnderway(Apply(c, Read(cmd, seed)), acts, |c.runs|, ArgsOf(cmd, seed));
  }

  // Whatever happens after a Start or Retarget that parses, every Found event
  // under the number of the run it starts carries a nonce and result that
  // solve that command's challenge and difficulty.
  lemma FoundSolvesItsCommand(c: Core, cmd: Command, seed: bv64, acts: seq<Action>, q: Core, k: nat)
    requires CoreInv(c) && Issued(c, cmd, seed, acts, q) && Parses(ArgsOf(cmd, seed))
    requires k < |q.log| && q.log[k].OfRun? && q.log[k].id == |c.runs|
    ensures RunEvents.Verifies(JobOf(ArgsOf(cmd, seed)), q.log[k].event)
  {
    hide CoreInv, Issued, RunEvents.Verifies, JobOf, Parses, ArgsOf;
    IssuedUnderway(c, cmd, seed, acts, q);
    LoggedFoundVerifies(q, k);
  }

  predicate Sends(c: Core, i: nat, a: RunThread.Action)
  {
    i < |c.runs| && RunThread.Enabled(c.runs[i], a) && NewEvents(c.runs[i], a) != []
  }

  // The run that sends an event is the latest one, not yet over, and held or
  // being joined by the command loop.
  lemma SenderIsActive(c: Core, i: nat, a: RunThread.Action)
    requires CoreInv(c) && Enabled(c, RunStep(i, a)) && Sends(c, i, a)
    ensures i == |c.runs| - 1 && c.runs[i].runner != RunThread.Finished
    ensures c.active == Some(i) || (c.pc.Joining? && c.pc.id == i)
  {
    hide RunThread.Inv, RunThread.Enabled, RunThread.Apply, NewEvents, LogInv;
    assert RunThread.Inv(c.runs[i]);
    assert i < |c.runs| - 1 ==> Over(c.runs, i);
    if c.runs[i].runner == RunThread.Finished { FinishedSilent(c.runs[i], a); }
  }

  /* Only a command stops a run */

  // An input that makes the command loop raise the active run's flag.
  predicate Interrupts(a: Action)
  {
    a == EndOfInput || (a.Read? && (a.cmd.Start? || a.cmd.Retarget? || a.cmd.Stop?))
  }

  predicate Running(c: Core, i: nat) { c.active == Some(i) && i < |c.runs| && !c.runs[i].pool.stop }

  lemma StopNotRaised(r: RunThread.Run, a: RunThread.Action)
    requires RunThread.Enabled(r, a) && a != RunThread.RaiseStop && !r.pool.stop
    ensures !RunThread.Apply(r, a).pool.stop
  {
    hide Hit, Digest, NonceBytes, RunThread.SlotOutcome, RunThread.Terminal;
    if a.WorkerStep? {
      RunThread.Pool.ApplyWork(r.pool, a.t);
      hide RunThread.Pool.Apply;
    }
  }

  lemma StepUndisturbed(c: Core, a: Action, i: nat)
    requires CoreInv(c) && Enabled(c, a) && !Interrupts(a) && Running(c, i)
    ensures Running(Apply(c, a), i)
  {
    hide RunThread.Inv, RunThread.Enabled, RunThread.Apply, NewEvents, LogInv, StartRun, RunsInv, AllButLastOver;
    if a.RunStep? && a.id == i { StopNotRaised(c.runs[i], a.a); }
  }

  // Malformed lines, probes and every step of every thread leave the active run
  // active with its flag down: only Start, Retarget, Stop or the end of input
  // stops it, and without one of them it never reports Stopped.
  lemma {:induction false} Undisturbed(c: Core, acts: seq<Action>, i: nat)
    requires CoreInv(c) && Running(c, i) && Schedule(c, acts)
    requires forall k :: 0 <= k < |acts| ==> !Interrupts(acts[k])
    ensures var q := Outcome(c, acts);
            Running(q, i) && forall e :: e in q.runs[i].emitted ==> !e.StoppedEvent?
    decreases |acts|
  {
    hide Running, CoreInv, Apply, Enabled, Interrupts;
    if acts == [] {
      RunningNotStopped(c, i);
    } else {
      StepUndisturbed(c, acts[0], i);
      StepInv(c, acts[0]);
      Undisturbed(Apply(c, acts[0]), acts[1..], i);
    }
  }

  lemma RunningNotStopped(c: Core, i: nat)
    requires CoreInv(c) && Running(c, i)
    ensures i < |c.runs| && forall e :: e in c.runs[i].emitted ==> !e.StoppedEvent?
  {
    hide LogInv, RunThread.Inv;
    assert RunThread.Inv(c.runs[i]);
    NotStopped(c.runs[i]);
  }

  lemma NotStopped(r: RunThread.Run)
    requires RunThread.Inv(r) && !r.pool.stop
    ensures forall e :: e in r.emitted ==> !e.StoppedEvent?
  {
    RunEvents.InvWellFormed(r);
    hide RunThread.PhaseInv, RunThread.ChannelInv, RunThread.EventInv, RunThread.Pool.Inv, RunThread.Reported, RunThread.Terminals, RunThread.Errors, RunThread.Counts;
    if r.outcome.Failed? { RunEvents.ErrorNoTerminal(r.emitted); }
  }

  /* Starting */

  predicate NobodyAlive(c: Core) { forall i :: 0 <= i < |c.runs| ==> Over(c.runs, i) }

  predicate OnlyAlive(c: Core, i: nat) { Running(c, i) && i == |c.runs| - 1 && AllButLastOver(c.runs) }

  // A refused start sends one error and leaves no run active and none alive; an
  // accepted one leaves exactly the new run alive and active.
  lemma SpawnLeaves(c: Core)
    requires CoreInv(c) && c.pc.Launching?
    ensures var q, s := Apply(c, Spawn), StartRun(c.pc.args, c.machine);
            && (s.Started? ==> OnlyAlive(q, |c.runs|) && q.log == c.log)
            && (s.Refused? ==> q.active.None? && NobodyAlive(q) && q.log == c.log + [CommandError])
            && (s.Panic? ==> q.pc == Dead)
  {
    hide *;
    LaunchingAlone(c);
    StartExactly(c.pc.args, c.machine);
    SpawnShape(c);
    match StartRun(c.pc.args, c.machine)
    case Started(r) => AppendedOver(c, r);
    case Refused => SameRuns(c, c.(pc := Reading, log := c.log + [CommandError]));
    case Panic =>
  }

  lemma LaunchingAlone(c: Core) requires CoreInv(c) && c.pc.Launching? ensures NobodyAlive(c) && c.active.None?
  {
    hide LogInv, RunsInv;
  }

  lemma SameRuns(c: Core, d: Core) requires NobodyAlive(c) && d.runs == c.runs ensures NobodyAlive(d) {}

  lemma AppendedOver(c: Core, r: RunThread.Run)
    requires NobodyAlive(c) && !r.pool.stop
    ensures OnlyAlive(c.(pc := Reading, active := Some(|c.runs|), runs := c.runs + [r]), |c.runs|)
  {
    var s := c.runs + [r];
    forall k | 0 <= k < |s| - 1 ensures Over(s, k) { assert Over(c.runs, k); }
  }

  // A retarget starts exactly when its challenge and difficulty parse, never
  // panics, and always starts on the CPU with one worker per available core
  // and the prefix drawn from the clock.
  lemma RetargetStarts(challenge: string, difficulty: string, seed: bv64, machine: Machine)
    ensures var s := StartRun(RetargetArgs(challenge, difficulty, seed), machine);
            && !s.Panic?
            && (s.Started? <==> Digits32(challenge) && Digits32(difficulty))
            && (s.Started? ==>
                  ParseHex32(challenge).Parsed? && ParseHex32(difficulty).Parsed? &&
                  s.run.cpu && s.run.pool.batch == 0x10_0000 && |s.run.pool.workers| == Max(machine.cpus, 1) &&
                  s.run.pool.job == Job(ParseHex32(challenge).bytes, ParseHex32(difficulty).bytes, Prefix.PrefixBytes(seed)))
  {
    hide StartRun, ParseHex32, ParsePrefix24, Digits32, Digits24, Splits24, Prefix.PrefixBytes, Encode;
    ParsePrinted24(Prefix.PrefixBytes(seed));
    StartExactly(RetargetArgs(challenge, difficulty, seed), machine);
    ParsesExactly(ToHex(Prefix.PrefixBytes(seed)));
  }

  /* The end */

  // The whole event stream of one run that is over: a single Found or Stopped,
  // at its end, or, for a GPU run that failed, a single Error and neither.
  predicate Closed(cpu: bool, es: seq<RunThread.Event>)
  {
    if RunThread.Errors(es) == 0 then
      RunThread.Terminals(es) == 1 && es != [] && (es[|es| - 1].FoundEvent? || es[|es| - 1].StoppedEvent?)
    else
      !cpu && RunThread.Errors(es) == 1 && RunThread.Terminals(es) == 0
  }

  predicate Complete(c: Core)
  {
    && c.written == |c.log| && c.log != [] && c.log[0] == Ready
    && (forall i :: 0 <= i < |c.runs| ==> c.runs[i].runner == RunThread.Finished && Closed(c.runs[i].cpu, RunLog(c.log, i)))
  }

  // When the session has ended every event sent was written, in the order
  // sent, and every run is over with its stream closed.
  lemma SessionEnd(machine: Machine, acts: seq<Action>)
    requires Schedule(Init(machine), acts) && Outcome(Init(machine), acts).pc == Ended
    ensures Complete(Outcome(Init(machine), acts))
  {
    hide CoreInv, Outcome, Apply, Enabled, Complete;
    InitInv(machine);
    ScheduleInv(Init(machine), acts);
    hide Init;
    EndedIsComplete(Outcome(Init(machine), acts));
  }

  lemma EndedIsComplete(c: Core)
    requires CoreInv(c) && c.pc == Ended
    ensures Complete(c)
  {
    hide RunThread.Inv, RunLog, Closed;
    forall i | 0 <= i < |c.runs| ensures c.runs[i].runner == RunThread.Finished && Closed(c.runs[i].cpu, RunLog(c.log, i))
    {
      assert Over(c.runs, i);
      FinishedCloses(c.runs[i]);
    }
  }

  lemma FinishedCloses(r: RunThread.Run)
    requires RunThread.Inv(r) && r.runner == RunThread.Finished
    ensures Closed(r.cpu, r.emitted)
  {
    RunEvents.InvWellFormed(r);
    hide RunThread.Pool.Inv, RunThread.ChannelInv, RunThread.Terminals, RunThread.Reported, RunThread.Counts, RunThread.Errors;
  }

  /* It can always be reached */

  predicate Reaches(c: Core, q: Core, acts: seq<Action>) { Schedule(c, acts) && Outcome(c, acts) == q }

  lemma {:induction false} Chain(c: Core, first: seq<Action>, rest: seq<Action>)
    requires Schedule(c, first) && Schedule(Outcome(c, first), rest)
    ensures Reaches(c, Outcome(Outcome(c, first), rest), first + rest)
    decreases |first|
  {
    hide Enabled, Apply;
    if first == [] {
      assert first + rest == rest;
    } else {
      Chain(Apply(c, first[0]), first[1..], rest);
      assert (first + rest)[1..] == first[1..] + rest;
    }
  }

  lemma OneStep(c: Core, a: Action)
    requires Enabled(c, a)
    ensures Reaches(c, Apply(c, a), [a])
  {
    hide Enabled, Apply;
    assert [a][1..] == [];
    assert Outcome(Apply(c, a), []) == Apply(c, a);
  }

  lemma RunStepShape(c: Core, i: nat, a: RunThread.Action)
    requires c.pc != Dead && c.pc != Ended && i < |c.runs| && RunThread.Enabled(c.runs[i], a) && a != RunThread.RaiseStop
    ensures Enabled(c, RunStep(i, a))
    ensures var q := Apply(c, RunStep(i, a));
            q.pc == c.pc && q.active == c.active && q.machine == c.machine && |q.runs| == |c.runs| && q.runs[i] == RunThread.Apply(c.runs[i], a)
  {
    hide RunThread.Enabled, RunThread.Apply, NewEvents;
  }

  // A schedule of one run is a schedule of the core.
  lemma {:induction false} Lift(c: Core, i: nat, steps: seq<RunThread.Action>) returns (acts: seq<Action>)
    requires c.pc != Dead && c.pc != Ended && i < |c.runs|
    requires RunThread.Schedule(c.runs[i], steps) && RunThread.RaiseStop !in steps
    ensures Schedule(c, acts) && |acts| == |steps|
    ensures var q := Outcome(c, acts);
            q.pc == c.pc && q.active == c.active && q.machine == c.machine && |q.runs| == |c.runs| && q.runs[i] == RunThread.After(c.runs[i], steps)
    decreases |steps|
  {
    hide Apply, Enabled, RunThread.Apply, RunThread.Enabled;
    if steps == [] {
      acts := [];
    } else {
      RunStepShape(c, i, steps[0]);
      assert steps[0] in steps && forall a :: a in steps[1..] ==> a in steps;
      var rest := Lift(Apply(c, RunStep(i, steps[0])), i, steps[1..]);
      acts := [RunStep(i, steps[0])] + rest;
      assert acts[1..] == rest;
    }
  }

  // stop_and_wait returns: the joined run can be brought to its end within a
  // number of steps fixed when its flag went up, and the command loop goes on.
  lemma JoinReturns(c: Core) returns (acts: seq<Action>)
    requires CoreInv(c) && c.pc.Joining?
    ensures Schedule(c, acts)
    ensures var q := Outcome(c, acts); q.pc == After(c.pc.next) && q.active.None? && q.machine == c.machine && |q.runs| == |c.runs|
    ensures |acts| <= 2 * Shutdown.WorkLeft(c.runs[c.pc.id]) + 2
  {
    var i := c.pc.id;
    assert Shutdown.Stopping(c.runs[i]) && c.active.None? by { hide RunThread.Inv, LogInv; }
    hide RunThread.Schedule, RunThread.After, CoreInv, Schedule, Outcome, RunThread.Enabled, RunThread.Apply, Shutdown.Stopping, Shutdown.WorkLeft;
    var steps := Shutdown.CanFinish(c.runs[i]);
    var first := Lift(c, i, steps);
    var q := Outcome(c, first);
    OneStep(q, Join);
    Chain(c, first, [Join]);
    acts := first + [Join];
  }

  function NextOf(cmd: Command, seed: bv64): Next
    requires cmd.Start? || cmd.Retarget? || cmd.Stop?
  {
    if cmd.Stop? then Idle else Launch(ArgsOf(cmd, seed))
  }

  // Reading the command and waiting for the run before, if there is one.
  lemma StopsFirst(c: Core, cmd: Command, seed: bv64) returns (acts: seq<Action>)
    requires CoreInv(c) && c.pc == Reading && (cmd.Start? || cmd.Retarget? || cmd.Stop?)
    ensures Schedule(c, [Read(cmd, seed)] + acts)
    ensures var q := Outcome(c, [Read(cmd, seed)] + acts);
            CoreInv(q) && q.pc == After(NextOf(cmd, seed)) && q.active.None? && q.machine == c.machine && |q.runs| == |c.runs|
  {
    hide CoreInv, Outcome, Schedule, RetargetArgs;
    var a := Read(cmd, seed);
    OneStep(c, a);
    StepInv(c, a);
    acts := [];
    assert [a] + [] == [a];
    var d := Apply(c, a);
    assert d.machine == c.machine && |d.runs| == |c.runs| && d.active.None? && (d.pc == After(NextOf(cmd, seed)) || (d.pc.Joining? && d.pc.next == NextOf(cmd, seed)))
    by { ActiveExists(c); hide RunThread.Apply; }
    hide Apply, Enabled, NextOf, After;
    if d.pc.Joining? {
      acts := JoinReturns(d);
      Chain(c, [a], acts);
    }
    ScheduleInv(c, [a] + acts);
  }

  // What a command that starts a run has to leave behind in the end.
  predicate Replaced(args: StartArgs, machine: Machine, n: nat, q: Core)
  {
    match StartRun(args, machine)
    case Started(r) => q.pc == Reading && OnlyAlive(q, n) && q.runs[n] == r
    case Refused => q.pc == Reading && q.active.None? && NobodyAlive(q)
    case Panic => q.pc == Dead
  }

  lemma SpawnReplaces(c: Core, args: StartArgs)
    requires CoreInv(c) && c.pc == Launching(args)
    ensures Replaced(args, c.machine, |c.runs|, Apply(c, Spawn))
  {
    hide CoreInv, StartRun, Apply, NobodyAlive, OnlyAlive;
    SpawnLeaves(c);
    SpawnShape(c);
    AloneIndex(Apply(c, Spawn), |c.runs|);
  }

  lemma AloneIndex(q: Core, n: nat) ensures OnlyAlive(q, n) ==> n < |q.runs| {}

  // Every Start, Retarget and Stop can be carried out: the run before ends, and
  // the new one, if the command asks for one that parses, is then the only one
  // alive.
  lemma StopCompletes(c: Core, seed: bv64) returns (acts: seq<Action>)
    requires CoreInv(c) && c.pc == Reading
    ensures Schedule(c, [Read(Stop, seed)] + acts)
    ensures var q := Outcome(c, [Read(Stop, seed)] + acts); q.pc == Reading && q.active.None? && NobodyAlive(q)
  {
    hide CoreInv, Outcome, Schedule, NobodyAlive;
    acts := StopsFirst(c, Stop, seed);
    IdleIsQuiet(Outcome(c, [Read(Stop, seed)] + acts));
  }

  lemma IdleIsQuiet(c: Core) requires CoreInv(c) && c.pc == Reading && c.active.None? ensures NobodyAlive(c)
  {
    hide LogInv, RunsInv;
  }

  lemma StartCompletes(c: Core, cmd: Command, seed: bv64) returns (acts: seq<Action>)
    requires CoreInv(c) && c.pc == Reading && (cmd.Start? || cmd.Retarget?)
    ensures Schedule(c, [Read(cmd, seed)] + acts)
    ensures Replaced(ArgsOf(cmd, seed), c.machine, |c.runs|, Outcome(c, [Read(cmd, seed)] + acts))
  {
    hide CoreInv, Outcome, Schedule, Replaced, ArgsOf;
    var wait := StopsFirst(c, cmd, seed);
    var first := [Read(cmd, seed)] + wait;
    var d := Outcome(c, first);
    SpawnReplaces(d, ArgsOf(cmd, seed));
    assert Enabled(d, Spawn);
    hide Apply, Enabled;
    OneStep(d, Spawn);
    Chain(c, first, [Spawn]);
    acts := wait + [Spawn];
    assert first + [Spawn] == [Read(cmd, seed)] + acts;
  }

  lemma {:induction false} DrainEnds(c: Core) returns (acts: seq<Action>)
    requires CoreInv(c) && c.pc == Draining
    ensures Schedule(c, acts) && Outcome(c, acts).pc == Ended
    decreases |c.log| - c.written, c.emitter
  {
    hide RunThread.Inv, LogShape, LogMatches, RunsInv, AliveInv, Disconnected;
    EmitterNeverWaits(c);
    if !c.emitter {
      OneStep(c, JoinEmitter);
      acts := [JoinEmitter];
    } else {
      var a := if c.written < |c.log| then Write else EmitterExit;
      StepInv(c, a);
      var rest := DrainEnds(Apply(c, a));
      acts := [a] + rest;
      assert acts[1..] == rest;
    }
  }

  // From every reachable state that waits for a line, the end of input can
  // bring the session to its end with everything written.
  lemma SessionCanEnd(c: Core) returns (acts: seq<Action>)
    requires CoreInv(c) && c.pc == Reading
    ensures Schedule(c, acts) && Outcome(c, acts).pc == Ended
    ensures Outcome(c, acts).written == |Outcome(c, acts).log|
  {
    hide CoreInv, RunThread.Apply, Outcome, Schedule;
    StepInv(c, EndOfInput);
    OneStep(c, EndOfInput);
    acts := [EndOfInput];
    var q := Apply(c, EndOfInput);
    assert q.pc == Draining || (q.pc.Joining? && q.pc.next == Quit) by { ActiveExists(c); }
    hide Apply, Enabled;
    if q.pc.Joining? {
      var wait := JoinReturns(q);
      Chain(c, acts, wait);
      acts := acts + wait;
    }
    ScheduleInv(c, acts);
    var drain := DrainEnds(Outcome(c, acts));
    Chain(c, acts, drain);
    acts := acts + drain;
    ScheduleInv(c, acts);
    EndedWritten(Outcome(c, acts));
  }

  lemma ActiveExists(c: Core) requires CoreInv(c) ensures c.active.Some? ==> c.active.value < |c.runs| {}

  lemma EndedWritten(c: Core) requires CoreInv(c) && c.pc == Ended ensures c.written == |c.log| {}
}
