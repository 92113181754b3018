// How many different nonces the workers' count stands for, and when two
// workers try the same one.
module Distinct {
  import opened Words
  import opened Bytes
  import opened Mining
  import opened Pool

  function CountersOf(tried: seq<u64>): set<u64> { set c | c in tried }

  // All counters tried by workers t and above.
  function TriedFrom(ws: seq<Worker>, t: nat): set<u64>
    requires t <= |ws|
    decreases |ws| - t
  {
    if t == |ws| then {} else CountersOf(ws[t].tried) + TriedFrom(ws, t + 1)
  }

  function EvaluationsFrom(ws: seq<Worker>, t: nat): nat
    requires t <= |ws|
    decreases |ws| - t
  {
    if t == |ws| then 0 else |ws[t].tried| + EvaluationsFrom(ws, t + 1)
  }

  lemma {:induction false} EvaluationsAll(ws: seq<Worker>, t: nat)
    requires t <= |ws|
    ensures EvaluationsFrom(ws, t) == Evaluations(ws[t..])
    decreases |ws| - t
  {
    if t < |ws| {
      EvaluationsAll(ws, t + 1);
      assert ws[t..][1..] == ws[t + 1..];
    }
  }

  const STRIDE: nat := 0x1_0000_0000_0000

  // Worker t keeps to its own stretch of 2^48 counters.
  predicate InStretch(t: nat, w: Worker)
  {
    |w.tried| < STRIDE && forall i :: 0 <= i < |w.tried| ==> w.tried[i] == t * STRIDE + i
  }

  lemma {:induction false} RunOfCounters(tried: seq<u64>, start: nat)
    requires forall i :: 0 <= i < |tried| ==> tried[i] == start + i
    ensures |CountersOf(tried)| == |tried|
  {
    if tried == [] {
      assert CountersOf(tried) == {};
    } else {
      var k := |tried| - 1;
      RunOfCounters(tried[..k], start);
      assert CountersOf(tried) == CountersOf(tried[..k]) + {tried[k]};
    }
  }

  lemma {:induction false} DistinctFrom(ws: seq<Worker>, t: nat)
    requires t <= |ws| && forall u :: 0 <= u < |ws| ==> InStretch(u, ws[u])
    ensures |TriedFrom(ws, t)| == EvaluationsFrom(ws, t)
    ensures forall c :: c in TriedFrom(ws, t) ==> c >= t * STRIDE
    ensures EvaluationsFrom(ws, t) <= (|ws| - t) * STRIDE
    ensures t < |ws| ==> EvaluationsFrom(ws, t) < (|ws| - t) * STRIDE
    decreases |ws| - t
  {
    if t < |ws| {
      DistinctFrom(ws, t + 1);
      assert InStretch(t, ws[t]);
      RunOfCounters(ws[t].tried, t * STRIDE);
      assert CountersOf(ws[t].tried) !! TriedFrom(ws, t + 1);
    }
  }

  // No worker is past its 2^48 counters.
  predicate Within(p: Pool) { forall t :: 0 <= t < |p.workers| ==> |p.workers[t].tried| < STRIDE }

  // No counter was tried by two workers.
  predicate Disjoint(ws: seq<Worker>)
  {
    forall t, u :: 0 <= t < u < |ws| ==> CountersOf(ws[t].tried) !! CountersOf(ws[u].tried)
  }

  /* Up to 2^16 workers */

  lemma StretchStart(t: nat)
    requires t < 0x1_0000
    ensures Start(t) == t * STRIDE
  {
  }

  lemma WithinStretches(p: Pool)
    requires Inv(p) && |p.workers| <= 0x1_0000 && Within(p)
    ensures forall t :: 0 <= t < |p.workers| ==> InStretch(t, p.workers[t])
  {
    hide SlotInv, ExitInv, BatchInv, CountInv, Hit, Start;
    forall t | 0 <= t < |p.workers| ensures InStretch(t, p.workers[t])
    {
      assert WorkerInv(p.job, p.batch, t, p.workers[t]);
      StretchStart(t);
    }
  }

  lemma StretchesDisjoint(ws: seq<Worker>)
    requires forall t :: 0 <= t < |ws| ==> InStretch(t, ws[t])
    ensures Disjoint(ws)
  {
    forall t, u | 0 <= t < u < |ws| ensures CountersOf(ws[t].tried) !! CountersOf(ws[u].tried)
    {
      assert InStretch(t, ws[t]) && InStretch(u, ws[u]);
    }
  }

  /* Beyond */

  // A worker that starts at counter 0, as it was made, ready to hash, and with
  // its first hash made.
  function Ready(batch: nat): Worker { InitWorker(0).(pc := Hashing, end := batch % TWO64) }

  function First(job: Job, batch: nat): Worker { HashStep(job, Ready(batch)) }

  lemma WorkerZero()
    ensures InitWorker(0x1_0000) == InitWorker(0) == Worker(CheckFound, 0, 0, 0, 0, 0, [])
  {
  }

  lemma FirstTried(job: Job, batch: nat)
    requires 0 < batch < TWO64
    ensures First(job, batch).tried == [0]
  {
    hide Hit;
    assert [] + [0] == [0];
  }

  // Two steps take a fresh worker to its first hash.
  lemma StepsToReady(p: Pool, t: nat)
    requires t < |p.workers| && p.workers[t] == InitWorker(0) && !p.found && !p.stop
    ensures Enabled(p, Work(t)) && var q := Apply(p, Work(t));
            Enabled(q, Work(t)) && var r := Apply(q, Work(t));
            r.workers == p.workers[t := Ready(p.batch)] && !r.found && !r.stop && r.batch == p.batch && r.job == p.job
  {
    hide Start, Digest, NonceBytes, Hit;
    WorkerZero();
    var q := Apply(p, Work(t));
    assert q.workers == p.workers[t := InitWorker(0).(pc := CheckStop)];
    var r := Apply(q, Work(t));
    assert r.workers[t] == Ready(p.batch);
    assert r.workers == p.workers[t := Ready(p.batch)];
  }

  lemma StepToFirst(p: Pool, t: nat)
    requires t < |p.workers| && p.workers[t] == Ready(p.batch)
    ensures Enabled(p, Work(t))
    ensures var q := Apply(p, Work(t)); q.workers == p.workers[t := First(p.job, p.batch)] && q.batch == p.batch && q.job == p.job
  {
    hide Start, Digest, NonceBytes, Hit, HashStep;
  }

  // Workers 0 and 2^16 both hash counter 0.
  lemma SameCounter(job: Job, batch: nat, n: nat) returns (acts: seq<Action>, p: Pool)
    requires 0 < batch < TWO64 && n > 0x1_0000
    ensures Reaches(Init(job, batch, n), p, acts) && Within(p) && !Disjoint(p.workers)
  {
    hide Apply, Enabled, Hit, HashStep, InitWorker, Ready, First;
    var z := 0x1_0000;
    var init := Init(job, batch, n);
    WorkerZero();
    assert init.workers[0] == InitWorker(0) && init.workers[z] == InitWorker(0);
    acts := [];
    StepsToReady(init, 0);
    Then(init, acts, Work(0)); acts := acts + [Work(0)];
    hide Schedule, After;
    Then(init, acts, Work(0)); acts := acts + [Work(0)];
    StepsToReady(After(init, acts), z);
    Then(init, acts, Work(z)); acts := acts + [Work(z)];
    Then(init, acts, Work(z)); acts := acts + [Work(z)];
    StepToFirst(After(init, acts), 0);
    Then(init, acts, Work(0)); acts := acts + [Work(0)];
    StepToFirst(After(init, acts), z);
    Then(init, acts, Work(z)); acts := acts + [Work(z)];
    p := After(init, acts);
    FirstTried(job, batch);
    assert p.workers == init.workers[0 := Ready(batch)][z := Ready(batch)][0 := First(job, batch)][z := First(job, batch)];
    assert p.workers[0].tried == [0] && p.workers[z].tried == [0];
    NothingElseTried(init, p, z, First(job, batch));
    assert 0 in CountersOf(p.workers[0].tried) && 0 in CountersOf(p.workers[z].tried);
  }

  lemma NothingElseTried(init: Pool, p: Pool, z: nat, w: Worker)
    requires 0 < z < |init.workers| == |p.workers| && |w.tried| == 1
    requires forall t :: 0 <= t < |init.workers| ==> init.workers[t] == InitWorker(t)
    requires forall t :: 0 <= t < |p.workers| ==> p.workers[t] == (if t == 0 || t == z then w else init.workers[t])
    ensures Within(p)
  {
    hide Start;
  }

  // In every run in which no worker passes its 2^48 counters no counter is
  // tried twice: this holds exactly when there are at most 2^16 workers.
  lemma DisjointExactly(job: Job, batch: nat, n: nat)
    requires 0 < batch < TWO64
    ensures (forall acts, p :: Reaches(Init(job, batch, n), p, acts) && Within(p) ==> Disjoint(p.workers)) <==> n <= 0x1_0000
  {
    hide Schedule, After, Within, Disjoint, Inv;
    var init := Init(job, batch, n);
    if n > 0x1_0000 {
      var acts, p := SameCounter(job, batch, n);
      assert Reaches(init, p, acts) && Within(p) && !Disjoint(p.workers);
    } else {
      InitInv(job, batch, n);
      forall acts, p | Reaches(init, p, acts) && Within(p) ensures Disjoint(p.workers)
      {
        ScheduleInv(init, acts);
        ScheduleShape(init, acts);
        WithinStretches(p);
        StretchesDisjoint(p.workers);
      }
    }
  }

  /* The count that is returned */

  lemma {:induction false} InTriedFrom(ws: seq<Worker>, t: nat, u: nat)
    requires t <= u < |ws|
    ensures CountersOf(ws[u].tried) <= TriedFrom(ws, t)
    decreases u - t
  {
    if t < u { InTriedFrom(ws, t + 1, u); }
  }

  lemma {:induction false} TriedBySome(ws: seq<Worker>, t: nat, c: u64) returns (u: nat)
    requires t <= |ws| && c in TriedFrom(ws, t)
    ensures t <= u < |ws| && c in CountersOf(ws[u].tried)
    decreases |ws| - t
  {
    if c in CountersOf(ws[t].tried) { u := t; } else { u := TriedBySome(ws, t + 1, c); }
  }

  predicate DisjointFrom(ws: seq<Worker>, t: nat)
  {
    forall u, v :: t <= u < v < |ws| ==> CountersOf(ws[u].tried) !! CountersOf(ws[v].tried)
  }

  lemma UnionSize(a: set<u64>, b: set<u64>)
    ensures |a + b| <= |a| + |b| && (|a + b| == |a| + |b| <==> a !! b)
  {
    assert |a + b| == |a| + |b| - |a * b|;
    if a !! b { assert a * b == {}; }
    if |a * b| == 0 { assert a * b == {}; }
  }

  lemma HeadDisjoint(ws: seq<Worker>, t: nat)
    requires t < |ws|
    ensures DisjointFrom(ws, t) <==> CountersOf(ws[t].tried) !! TriedFrom(ws, t + 1) && DisjointFrom(ws, t + 1)
  {
    hide CountersOf;
    if CountersOf(ws[t].tried) !! TriedFrom(ws, t + 1) {
      forall v | t < v < |ws| ensures CountersOf(ws[t].tried) !! CountersOf(ws[v].tried) { InTriedFrom(ws, t + 1, v); }
    } else if DisjointFrom(ws, t) {
      var c :| c in CountersOf(ws[t].tried) && c in TriedFrom(ws, t + 1);
      var v := TriedBySome(ws, t + 1, c);
      assert false;
    }
  }

  lemma {:induction false} DistinctExactly(ws: seq<Worker>, t: nat)
    requires t <= |ws| && forall u :: 0 <= u < |ws| ==> |CountersOf(ws[u].tried)| == |ws[u].tried|
    ensures |TriedFrom(ws, t)| <= EvaluationsFrom(ws, t)
    ensures |TriedFrom(ws, t)| == EvaluationsFrom(ws, t) <==> DisjointFrom(ws, t)
    decreases |ws| - t
  {
    hide CountersOf, DisjointFrom;
    if t < |ws| {
      DistinctExactly(ws, t + 1);
      HeadDisjoint(ws, t);
      UnionSize(CountersOf(ws[t].tried), TriedFrom(ws, t + 1));
    } else {
      NoneFrom(ws);
    }
  }

  lemma NoneFrom(ws: seq<Worker>) ensures DisjointFrom(ws, |ws|) {}

  lemma OwnCounters(p: Pool)
    requires Inv(p)
    ensures forall t :: 0 <= t < |p.workers| ==> |CountersOf(p.workers[t].tried)| == |p.workers[t].tried|
  {
    hide SlotInv, ExitInv, BatchInv, CountInv, Hit, Start;
    forall t | 0 <= t < |p.workers| ensures |CountersOf(p.workers[t].tried)| == |p.workers[t].tried|
    {
      assert WorkerInv(p.job, p.batch, t, p.workers[t]);
      RunOfCounters(p.workers[t].tried, Start(t));
    }
  }

  // Whatever the number of workers: while fewer than 2^64 hashes are made, the
  // count that run_cpu returns is the number of distinct nonces tried exactly
  // when no counter was tried by two workers.
  lemma CountExactly(job: Job, batch: nat, n: nat, acts: seq<Action>)
    requires 0 < batch < TWO64 && Schedule(Init(job, batch, n), acts)
    ensures var p := After(Init(job, batch, n), acts);
            AllReturned(p) && Evaluations(p.workers) < TWO64 ==>
              (p.total == |TriedFrom(p.workers, 0)| <==> Disjoint(p.workers))
  {
    InitInv(job, batch, n);
    ScheduleInv(Init(job, batch, n), acts);
    var p := After(Init(job, batch, n), acts);
    hide Schedule, After, Init, Inv, AllReturned;
    if AllReturned(p) && Evaluations(p.workers) < TWO64 { FinalCount(p); }
  }

  lemma FinalCount(p: Pool)
    requires Inv(p) && AllReturned(p) && Evaluations(p.workers) < TWO64
    ensures p.total == |TriedFrom(p.workers, 0)| <==> Disjoint(p.workers)
  {
    hide Inv, AllReturned, CountersOf, Evaluations;
    ReturnedTotal(p);
    OwnCounters(p);
    DistinctExactly(p.workers, 0);
    EvaluationsAll(p.workers, 0);
    assert p.workers[0..] == p.workers;
  }

  // With at most 2^16 workers, none past its 2^48 counters, it is.
  lemma HashesAreDistinctNonces(job: Job, batch: nat, n: nat, acts: seq<Action>)
    requires 0 < batch < TWO64 && Schedule(Init(job, batch, n), acts)
    ensures var p := After(Init(job, batch, n), acts);
            AllReturned(p) && n <= 0x1_0000 && Within(p) ==> p.total == |TriedFrom(p.workers, 0)|
  {
    var init := Init(job, batch, n);
    InitInv(job, batch, n);
    ScheduleInv(init, acts);
    ScheduleShape(init, acts);
    hide After, Schedule, Inv, Init, Within, AllReturned;
    var p := After(init, acts);
    if AllReturned(p) && n <= 0x1_0000 && Within(p) { StretchCount(p); }
  }

  lemma StretchCount(p: Pool)
    requires Inv(p) && AllReturned(p) && |p.workers| <= 0x1_0000 && Within(p)
    ensures p.total == |TriedFrom(p.workers, 0)|
  {
    WithinStretches(p);
    hide Inv, AllReturned, Within, InStretch, Evaluations;
    StretchesDisjoint(p.workers);
    DistinctFrom(p.workers, 0);
    EvaluationsAll(p.workers, 0);
    assert p.workers[0..] == p.workers;
    FinalCount(p);
  }
}
