// What the command loop itself puts on the event channel, read off the
// commands alone.
module Replies {
  import opened Words
  import opened Hex
  import opened Mining
  import RunThread
  import opened Core
  import opened Sessions

  // The log without the events of runs.
  function Own(log: seq<Entry>): seq<Entry>
  {
    if log == [] then []
    else Own(log[..|log| - 1]) + (if log[|log| - 1].OfRun? then [] else [log[|log| - 1]])
  }

  // A start with these strings is refused: they do not parse, and not because
  // the prefix splits a character, which panics.
  predicate RefusedText(args: StartArgs)
  {
    !WellSpelled(args) && !(Digits32(args.challenge) && Digits32(args.difficulty) && Splits24(args.prefix))
  }

  // Whether the start that a command asks for will be refused.
  function RefusedNext(a: Action, before: bool): bool
  {
    match a
    case Read(Start(args), _) => RefusedText(args)
    case Read(Retarget(challenge, difficulty), _) => !(Digits32(challenge) && Digits32(difficulty))
    case _ => before
  }

  // The answer to one action, when the last start asked for is one that will
  // be refused or not.
  function Answer(a: Action, refused: bool): seq<Entry>
  {
    match a
    case Read(Probe, _) => [Devices]
    case Read(BadLine, _) => [CommandError]
    case Spawn => if refused then [CommandError] else []
    case _ => []
  }

  // One Devices for each probe and one error for each malformed line and each
  // refused start, in the order of the schedule, and nothing else.
  function Answers(acts: seq<Action>, refused: bool): seq<Entry>
  {
    if acts == [] then [] else Answer(acts[0], refused) + Answers(acts[1..], RefusedNext(acts[0], refused))
  }

  /* The log follows */

  lemma OwnSnoc(log: seq<Entry>, e: Entry)
    ensures Own(log + [e]) == Own(log) + (if e.OfRun? then [] else [e])
  {
    assert (log + [e])[..|log|] == log;
  }

  lemma {:induction false} OwnTagged(log: seq<Entry>, id: nat, es: seq<RunThread.Event>)
    ensures Own(log + Tagged(id, es)) == Own(log)
  {
    if es == [] {
      assert log + Tagged(id, es) == log;
    } else {
      var k := |es| - 1;
      OwnTagged(log, id, es[..k]);
      OwnSnoc(log + Tagged(id, es[..k]), OfRun(id, es[k]));
      assert log + Tagged(id, es) == (log + Tagged(id, es[..k])) + [OfRun(id, es[k])];
      assert Own(log) + [] == Own(log);
    }
  }

  // `refused` is about the start the command loop is on its way to.
  predicate Knows(c: Core, refused: bool)
  {
    (c.pc.Launching? ==> refused == RefusedText(c.pc.args)) &&
    (c.pc.Joining? && c.pc.next.Launch? ==> refused == RefusedText(c.pc.next.args))
  }

  lemma RetargetRefused(challenge: string, difficulty: string, seed: bv64)
    ensures RefusedText(RetargetArgs(challenge, difficulty, seed)) <==> !(Digits32(challenge) && Digits32(difficulty))
  {
    hide StartRun, Digits32, Digits24, Splits24, RetargetArgs;
    var machine := Machine(1, None);
    RetargetStarts(challenge, difficulty, seed, machine);
    StartExactly(RetargetArgs(challenge, difficulty, seed), machine);
    RetargetStrings(challenge, difficulty, seed);
  }

  lemma RetargetStrings(challenge: string, difficulty: string, seed: bv64)
    ensures var args := RetargetArgs(challenge, difficulty, seed); args.challenge == challenge && args.difficulty == difficulty
  {
    hide ToHex;
  }

  lemma StopThenKnows(c: Core, next: Next, refused: bool)
    requires CoreInv(c) && c.pc == Reading && (next.Launch? ==> refused == RefusedText(next.args))
    ensures StopThen(c, next).log == c.log && Knows(StopThen(c, next), refused)
  {
    hide RunThread.Apply, RunsInv, LogInv, RefusedText;
    ActiveExists(c);
  }

  lemma ReadAnswer(c: Core, cmd: Command, seed: bv64, refused: bool)
    requires CoreInv(c) && c.pc == Reading && Knows(c, refused)
    ensures var a, q := Read(cmd, seed), Apply(c, Read(cmd, seed));
            Own(q.log) == Own(c.log) + Answer(a, refused) && Knows(q, RefusedNext(a, refused))
  {
    hide CoreInv, StopThen, Own, RefusedText, RetargetArgs, Digits32;
    var r := RefusedNext(Read(cmd, seed), refused);
    assert Own(c.log) + [] == Own(c.log);
    match cmd
    case BadLine => OwnSnoc(c.log, CommandError);
    case Probe => OwnSnoc(c.log, Devices);
    case Stop => StopThenKnows(c, Idle, r);
    case Start(args) => StopThenKnows(c, Launch(args), r);
    case Retarget(ch, d) => RetargetRefused(ch, d, seed); StopThenKnows(c, Launch(RetargetArgs(ch, d, seed)), r);
  }

  lemma SpawnAnswer(c: Core, refused: bool)
    requires c.pc.Launching? && Knows(c, refused)
    ensures Enabled(c, Spawn)
    ensures var q := Apply(c, Spawn); Own(q.log) == Own(c.log) + Answer(Spawn, refused) && Knows(q, refused)
  {
    hide Own, StartRun, WellSpelled, Digits32, Splits24;
    StartExactly(c.pc.args, c.machine);
    SpawnShape(c);
    OwnSnoc(c.log, CommandError);
    assert Own(c.log) + [] == Own(c.log);
  }

  lemma RunAnswer(c: Core, i: nat, b: RunThread.Action, refused: bool)
    requires Enabled(c, RunStep(i, b)) && Knows(c, refused)
    ensures var q := Apply(c, RunStep(i, b)); Own(q.log) == Own(c.log) && Knows(q, refused)
  {
    hide Own, RefusedText, RunThread.Enabled, RunThread.Apply, NewEvents, Tagged;
    OwnTagged(c.log, i, NewEvents(c.runs[i], b));
  }

  lemma OtherAnswer(c: Core, a: Action, refused: bool)
    requires Enabled(c, a) && Knows(c, refused) && (a.ReadFails? || a.Join? || a.Write? || a.EmitterExit? || a.JoinEmitter?)
    ensures var q := Apply(c, a); Own(q.log) == Own(c.log) && Knows(q, refused)
  {
    hide Own, RefusedText, Disconnected;
  }

  lemma QuietAnswer(c: Core, a: Action, refused: bool)
    requires CoreInv(c) && Enabled(c, a) && Knows(c, refused) && !a.Read? && !a.Spawn?
    ensures var q := Apply(c, a); Own(q.log) == Own(c.log) && Knows(q, refused)
  {
    hide CoreInv, Own, RefusedText, Knows, StopThen;
    match a
    case EndOfInput => StopThenKnows(c, Quit, refused);
    case RunStep(i, b) => RunAnswer(c, i, b, refused);
    case _ => OtherAnswer(c, a, refused);
  }

  lemma StepAnswer(c: Core, a: Action, refused: bool)
    requires CoreInv(c) && Enabled(c, a) && Knows(c, refused)
    ensures var q := Apply(c, a); Own(q.log) == Own(c.log) + Answer(a, refused) && Knows(q, RefusedNext(a, refused))
  {
    hide CoreInv, Apply, Own, Knows, RefusedText, RunThread.Enabled;
    match a
    case Read(cmd, seed) => ReadAnswer(c, cmd, seed, refused);
    case Spawn => SpawnAnswer(c, refused);
    case _ =>
      hide Enabled;
      QuietAnswer(c, a, refused);
      assert Own(c.log) + [] == Own(c.log);
  }

  lemma {:induction false} ScheduleAnswers(c: Core, acts: seq<Action>, refused: bool)
    requires CoreInv(c) && Schedule(c, acts) && Knows(c, refused)
    ensures Own(Outcome(c, acts).log) == Own(c.log) + Answers(acts, refused)
    decreases |acts|
  {
    hide CoreInv, Apply, Enabled, Own, Knows, Answer, RefusedNext;
    if acts == [] {
      assert Own(c.log) + [] == Own(c.log);
    } else {
      StepInv(c, acts[0]);
      StepAnswer(c, acts[0], refused);
      ScheduleAnswers(Apply(c, acts[0]), acts[1..], RefusedNext(acts[0], refused));
    }
  }

  // In every session the command loop's own events are Ready and then exactly
  // the answers its commands call for.
  lemma SessionAnswers(machine: Machine, acts: seq<Action>)
    requires Schedule(Init(machine), acts)
    ensures Own(Outcome(Init(machine), acts).log) == [Ready] + Answers(acts, false)
  {
    hide Outcome, Schedule, Answers, Own, Knows, CoreInv, Init;
    InitInv(machine);
    InitOwn(machine);
    ScheduleAnswers(Init(machine), acts, false);
  }

  lemma InitOwn(machine: Machine) ensures Own(Init(machine).log) == [Ready] && Knows(Init(machine), false) {}

  // A read error ends everything: no thread takes another step.
  lemma {:induction false} ReadFailsIsLast(c: Core, acts: seq<Action>, k: nat)
    requires Schedule(c, acts) && k < |acts| && acts[k] == ReadFails
    ensures k == |acts| - 1
    decreases |acts|
  {
    if k == 0 {
      assert Apply(c, ReadFails).pc == Dead;
      hide Apply;
    } else {
      hide Apply, Enabled;
      ReadFailsIsLast(Apply(c, acts[0]), acts[1..], k - 1);
    }
  }
}
