// The progress counts of a CPU run: when each was read, and how many can wait
// on the channel.
module ProgressCounts {
  import opened Words
  import opened Mining
  import Pool
  import opened RunThread
  import RunEvents

  /* Each count is the shared total of its own interval */

  // The states a schedule passes through, the first and the last included.
  function Trace(r: Run, acts: seq<Action>): (tr: seq<Run>)
    requires Schedule(r, acts)
    ensures |tr| == |acts| + 1 && tr[0] == r && tr[|acts|] == After(r, acts)
    decreases |acts|
  {
    [r] + (if acts == [] then [] else Trace(Apply(r, acts[0]), acts[1..]))
  }

  // At some moment the shared total was h, with these counts sent before.
  predicate ReadAt(past: seq<Run>, h: u64, before: seq<u64>)
  {
    exists k :: 0 <= k < |past| && past[k].pool.total == h && Counts(past[k].sent) == before
  }

  predicate FreshInv(past: seq<Run>, sent: seq<Message>, p: Reporter)
  {
    && (forall j :: 0 <= j < |Counts(sent)| ==> ReadAt(past, Counts(sent)[j], Counts(sent)[..j]))
    && (p.Send? ==> ReadAt(past, p.hashes, Counts(sent)))
  }

  lemma LaterReadAt(past: seq<Run>, q: Run, h: u64, before: seq<u64>)
    requires ReadAt(past, h, before)
    ensures ReadAt(past + [q], h, before)
  {
    hide Counts;
    var k :| 0 <= k < |past| && past[k].pool.total == h && Counts(past[k].sent) == before;
    assert (past + [q])[k] == past[k];
  }

  lemma LaterFresh(past: seq<Run>, q: Run, sent: seq<Message>, p: Reporter)
    requires FreshInv(past, sent, p)
    ensures FreshInv(past + [q], sent, p)
  {
    hide Counts, ReadAt;
    forall j | 0 <= j < |Counts(sent)| ensures ReadAt(past + [q], Counts(sent)[j], Counts(sent)[..j])
    {
      LaterReadAt(past, q, Counts(sent)[j], Counts(sent)[..j]);
    }
    if p.Send? { LaterReadAt(past, q, p.hashes, Counts(sent)); }
  }

  lemma LoadFresh(past: seq<Run>, r: Run)
    requires past != [] && past[|past| - 1] == r && FreshInv(past, r.sent, r.reporter)
    ensures FreshInv(past, r.sent, Send(r.pool.total))
  {
    hide Counts;
    assert ReadAt(past, r.pool.total, Counts(r.sent));
  }

  lemma SendFresh(past: seq<Run>, sent: seq<Message>, h: u64)
    requires FreshInv(past, sent, Send(h))
    ensures FreshInv(past, sent + [Progress(h)], Sleeping)
  {
    hide Counts, ReadAt;
    CountsSnoc(sent, Progress(h));
    var cs := Counts(sent);
    forall j | 0 <= j < |cs| + 1 ensures ReadAt(past, (cs + [h])[j], (cs + [h])[..j])
    {
      assert (cs + [h])[..j] == cs[..j];
      assert j == |cs| ==> cs[..j] == cs;
    }
  }

  lemma LastFresh(past: seq<Run>, sent: seq<Message>, p: Reporter, h: u64)
    requires FreshInv(past, sent, p)
    ensures FreshInv(past, sent + [Last(h)], p)
  {
    hide Counts, ReadAt;
    CountsSnoc(sent, Last(h));
    assert Counts(sent) + [] == Counts(sent);
  }

  // The other steps neither send nor move the reporter.
  lemma QuietStep(r: Run, a: Action)
    requires Enabled(r, a) && a != ReporterStep && a != RunnerStep
    ensures Apply(r, a).sent == r.sent && Apply(r, a).reporter == r.reporter
  {
    hide ApplyRunner, ApplyReporter, Hit, Digest, NonceBytes, RoundHits, Pool.Apply, Pool.AllReturned;
  }

  lemma RunnerSends(r: Run)
    requires r.cpu && PhaseInv(r)
    ensures ApplyRunner(r).reporter == r.reporter
    ensures ApplyRunner(r).sent == (if r.runner.SendLast? then r.sent + [Last(r.runner.hashes)] else r.sent)
  {
    hide Terminal, SlotOutcome, Pool.AllReturned;
  }

  lemma StepFresh(past: seq<Run>, r: Run, a: Action)
    requires Inv(r) && r.cpu && Enabled(r, a)
    requires past != [] && past[|past| - 1] == r && FreshInv(past, r.sent, r.reporter)
    ensures FreshInv(past + [Apply(r, a)], Apply(r, a).sent, Apply(r, a).reporter)
  {
    var q := Apply(r, a);
    assert PhaseInv(r) by { hide Pool.Inv, EventInv, ChannelInv, OutcomeInv, PhaseInv; }
    hide Inv, PhaseInv, FreshInv, ApplyRunner, Counts;
    if a == ReporterStep {
      match r.reporter
      case Load => LoadFresh(past, r); LaterFresh(past, q, q.sent, q.reporter);
      case Send(h) => SendFresh(past, r.sent, h); LaterFresh(past, q, q.sent, q.reporter);
      case _ => NoSendFresh(past, r.sent, r.reporter, q.reporter); LaterFresh(past, q, q.sent, q.reporter);
    } else if a == RunnerStep {
      RunnerSends(r);
      if r.runner.SendLast? { LastFresh(past, r.sent, r.reporter, r.runner.hashes); }
      LaterFresh(past, q, q.sent, q.reporter);
    } else {
      hide Apply, Enabled;
      QuietStep(r, a);
      LaterFresh(past, q, q.sent, q.reporter);
    }
  }

  lemma NoSendFresh(past: seq<Run>, sent: seq<Message>, p: Reporter, p': Reporter)
    requires FreshInv(past, sent, p) && !p'.Send?
    ensures FreshInv(past, sent, p')
  {
    hide Counts, ReadAt;
  }

  lemma {:induction false} TraceFresh(past: seq<Run>, r: Run, acts: seq<Action>)
    requires Inv(r) && r.cpu && Schedule(r, acts)
    requires past != [] && past[|past| - 1] == r && FreshInv(past, r.sent, r.reporter)
    ensures var q := After(r, acts); FreshInv(past + Trace(r, acts)[1..], q.sent, q.reporter)
    decreases |acts|
  {
    hide Inv, Apply, Enabled, FreshInv;
    if acts == [] {
      assert past + Trace(r, acts)[1..] == past;
    } else {
      var q := Apply(r, acts[0]);
      StepFresh(past, r, acts[0]);
      StepInv(r, acts[0]);
      TraceFresh(past + [q], q, acts[1..]);
      var tail := Trace(q, acts[1..]);
      assert Trace(r, acts)[1..] == tail;
      assert tail == [q] + tail[1..];
      assert past + tail == (past + [q]) + tail[1..];
    }
  }

  // In every run the j-th progress count, whether sent or already emitted, is
  // the shared total at a moment when exactly the j counts before it had been
  // sent: between the last report and its own.
  lemma ProgressIsFresh(job: Job, batch: nat, n: nat, acts: seq<Action>, j: nat)
    requires 0 < batch < TWO64 && n > 0 && Schedule(InitCpu(job, batch, n), acts)
    ensures var q := After(InitCpu(job, batch, n), acts);
            && Reported(q.emitted) <= Counts(q.sent)
            && (j < |Counts(q.sent)| ==>
                  ReadAt(Trace(InitCpu(job, batch, n), acts), Counts(q.sent)[j], Counts(q.sent)[..j]))
  {
    var r := InitCpu(job, batch, n);
    InitInv(job, batch, n);
    assert FreshInv([r], r.sent, r.reporter) && r.cpu by { hide Pool.Init; }
    hide InitCpu, Inv, FreshInv, Counts, Reported, ReadAt;
    TraceFresh([r], r, acts);
    var tr := Trace(r, acts);
    assert tr == [r] + tr[1..];
    FreshHas(tr, After(r, acts), j);
    ScheduleInv(r, acts);
    RunEvents.InvWellFormed(After(r, acts));
  }

  lemma FreshHas(past: seq<Run>, q: Run, j: nat)
    requires FreshInv(past, q.sent, q.reporter)
    ensures j < |Counts(q.sent)| ==> ReadAt(past, Counts(q.sent)[j], Counts(q.sent)[..j])
  {
    hide Counts, ReadAt;
  }

  /* The channel holds 64 */

  lemma AtMost64(r: Run, acts: seq<Action>)
    requires Inv(r) && Schedule(r, acts)
    ensures |After(r, acts).queue| <= 64
  {
    ScheduleInv(r, acts);
    hide After, Schedule, PhaseInv, EventInv, OutcomeInv, Pool.Inv;
  }

  // The reporter has sent k reports that nobody has taken.
  function Waiting(job: Job, batch: nat, k: nat): Run
  {
    InitCpu(job, batch, 1).(queue := seq(k, _ => Progress(0)), sent := seq(k, _ => Progress(0)))
  }

  // With room for it, one more report.
  lemma OneReport(job: Job, batch: nat, k: nat) returns (acts: seq<Action>)
    requires k < 64
    ensures RunEvents.Reaches(Waiting(job, batch, k), Waiting(job, batch, k + 1), acts)
  {
    acts := ToSend(job, batch, k);
    var r := Waiting(job, batch, k);
    hide Schedule, After, Pool.Init;
    RunEvents.Then(r, acts, ReporterStep); acts := acts + [ReporterStep];
    assert seq(k, _ => Progress(0)) + [Progress(0)] == seq(k + 1, _ => Progress(0));
  }

  lemma ToSend(job: Job, batch: nat, k: nat) returns (acts: seq<Action>)
    ensures RunEvents.Reaches(Waiting(job, batch, k), Waiting(job, batch, k).(reporter := Send(0)), acts)
  {
    hide Pool.Init;
    assert Pool.Init(job, batch, 1).total == 0 && !Pool.Init(job, batch, 1).stop by { RunEvents.PoolInitShape(job, batch); }
    var r := Waiting(job, batch, k);
    acts := [];
    RunEvents.Then(r, acts, ReporterStep); acts := acts + [ReporterStep];
    hide Schedule, After;
    RunEvents.Then(r, acts, ReporterStep); acts := acts + [ReporterStep];
    RunEvents.Then(r, acts, ReporterStep); acts := acts + [ReporterStep];
    RunEvents.Then(r, acts, ReporterStep); acts := acts + [ReporterStep];
  }

  lemma {:induction false} Fill(job: Job, batch: nat, k: nat) returns (acts: seq<Action>)
    requires k <= 64
    ensures RunEvents.Reaches(InitCpu(job, batch, 1), Waiting(job, batch, k), acts)
  {
    if k == 0 {
      acts := [];
      assert seq(0, _ => Progress(0)) == [];
    } else {
      var first := Fill(job, batch, k - 1);
      var rest := OneReport(job, batch, k - 1);
      hide InitCpu, Waiting, Schedule, After;
      RunEvents.Chain(InitCpu(job, batch, 1), first, rest);
      acts := first + rest;
    }
  }

  // Sixty-four reports can wait, and the sixty-fifth then blocks the reporter.
  lemma BlocksAt64(job: Job, batch: nat) returns (acts: seq<Action>)
    ensures Schedule(InitCpu(job, batch, 1), acts)
    ensures var q := After(InitCpu(job, batch, 1), acts); |q.queue| == 64 && q.reporter == Send(0) && !Enabled(q, ReporterStep)
  {
    var first := Fill(job, batch, 64);
    var rest := ToSend(job, batch, 64);
    hide InitCpu, Schedule, After;
    RunEvents.Chain(InitCpu(job, batch, 1), first, rest);
    acts := first + rest;
  }
}
