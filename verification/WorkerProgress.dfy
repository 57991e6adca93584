// The provision queue moves: an idle worker takes the oldest pending job, a job that is worked on can
// end, and from any idle state all pending jobs can be finished.
module WorkerProgress {
  import opened ProvisionWorker

  // A purge takes exactly the finished jobs last written before the cutoff.
  lemma PurgeExact(s: State, cutoff: nat, max: nat, id: nat)
    ensures var t := Step(s, Purge(cutoff), max);
            && (id in t.jobs <==> id in s.jobs && !((s.jobs[id].status == Done || s.jobs[id].status == Error) && s.jobs[id].updated < cutoff))
            && (id in t.jobs ==> t.jobs[id] == s.jobs[id])
            && t.ticks == s.ticks && t.writes == s.writes && t.processing == s.processing
  {
  }

  function OneTurn(t: nat): seq<Event> {
    [Tick(t), Find(t), Check(t), Start(t)]
  }

  lemma {:induction false} RunConcat(s: State, a: seq<Event>, b: seq<Event>, max: nat)
    ensures Run(s, a + b, max) == Run(Run(s, a, max), b, max)
    decreases |a|
  {
    hide Step;
    if a == [] {
      assert a + b == b;
    } else {
      assert (a + b)[0] == a[0] && (a + b)[1..] == a[1..] + b;
      RunConcat(Step(s, a[0], max), a[1..], b, max);
    }
  }

  lemma RunFour(s: State, a: Event, b: Event, c: Event, d: Event, max: nat)
    ensures Run(s, [a, b, c, d], max) == Step(Step(Step(Step(s, a, max), b, max), c, max), d, max)
  {
    hide Step, Run;
    OneStep(s, a, max);
    RunSnoc(s, [a], b, max);
    RunSnoc(s, [a, b], c, max);
    RunSnoc(s, [a, b, c], d, max);
    assert [a] + [b] == [a, b] && [a, b] + [c] == [a, b, c] && [a, b, c] + [d] == [a, b, c, d];
  }

  // The state after one job was started: only its row and the ticks differ.
  ghost predicate StartedFrom(s: State, r: State, t: nat, id: nat) {
    && IsOldest(s, PendingJobs(s), id)
    && r.processing && r.ticks == map[t := Working(id, "", "")] && r.writes == s.writes
    && r.jobs == s.jobs[id := s.jobs[id].(status := Running, log := "", updated := s.clock)]
  }

  // An idle worker with a pending job starts the oldest one.
  lemma IdleStartsOldest(s: State, t: nat, max: nat)
    requires Inv(s) && !s.processing && PendingJobs(s) != {}
    ensures exists id :: StartedFrom(s, Run(s, OneTurn(t), max), t, id)
  {
    RunFour(s, Tick(t), Find(t), Check(t), Start(t), max);
    hide Run, Stamped, WritesOk, StageOk;
    var s1 := Step(s, Tick(t), max);
    assert s.ticks == map[] && s1.ticks == map[t := Finding];
    var s2 := Step(s1, Find(t), max);
    assert PendingJobs(s1) == PendingJobs(s);
    var id := Oldest(s1);
    assert s2.ticks == map[t := Found(id)] && id in PendingJobs(s2);
    var s3 := Step(s2, Check(t), max);
    assert s3.ticks == map[t := Checked(id)];
    var s4 := Step(s3, Start(t), max);
    assert s4.ticks == map[t := Working(id, "", "")];
    assert IsOldest(s, PendingJobs(s), id);
    assert s3.jobs == s.jobs && s3.clock == s.clock && s3.writes == s.writes;
    assert s4.jobs == s.jobs[id := s.jobs[id].(status := Running, log := "", updated := s.clock)];
    assert StartedFrom(s, s4, t, id);
    assert Run(s, OneTurn(t), max) == s4;
  }

  // The job at work can end, and the worker is idle again.
  lemma WorkEnds(s: State, t: nat, ok: bool, max: nat)
    requires Inv(s) && t in s.ticks && s.ticks[t].Working? && s.ticks[t].id in s.jobs
    ensures var r := Run(s, [Finish(t, ok), Release(t)], max);
            var id := s.ticks[t].id;
            && !r.processing && r.ticks == map[] && r.jobs.Keys == s.jobs.Keys
            && r.jobs[id].status == (if ok then Done else Error)
            && forall x :: x in s.jobs && x != id ==> r.jobs[x] == s.jobs[x]
  {
    hide Stamped, WritesOk, StageOk, TrimLogForPersistence;
    OneStep(s, Finish(t, ok), max);
    RunSnoc(s, [Finish(t, ok)], Release(t), max);
    assert [Finish(t, ok)] + [Release(t)] == [Finish(t, ok), Release(t)];
    hide Run;
    var s1 := Step(s, Finish(t, ok), max);
    assert s1.ticks == map[t := Ended];
    assert Step(s1, Release(t), max).ticks == map[];
  }

  // One job taken from the queue and done.
  lemma OneJobDone(s: State, t: nat, max: nat) returns (id: nat)
    requires Inv(s) && !s.processing && PendingJobs(s) != {}
    ensures var r := Run(s, OneTurn(t) + [Finish(t, true), Release(t)], max);
            && Inv(r) && !r.processing && r.jobs.Keys == s.jobs.Keys && id in PendingJobs(s)
            && r.jobs[id].status == Done && PendingJobs(r) == PendingJobs(s) - {id}
            && forall x :: x in s.jobs && x != id ==> r.jobs[x] == s.jobs[x]
  {
    hide Run, Inv;
    IdleStartsOldest(s, t, max);
    var mid := Run(s, OneTurn(t), max);
    id :| StartedFrom(s, mid, t, id);
    RunKeepsInv(s, OneTurn(t), max);
    WorkEnds(mid, t, true, max);
    RunConcat(s, OneTurn(t), [Finish(t, true), Release(t)], max);
    RunKeepsInv(s, OneTurn(t) + [Finish(t, true), Release(t)], max);
    assert id in PendingJobs(s);
    hide OneTurn, IsOldest;
    var r := Run(s, OneTurn(t) + [Finish(t, true), Release(t)], max);
    assert r.jobs.Keys == s.jobs.Keys;
    assert forall x :: x in PendingJobs(r) <==> x in PendingJobs(s) && x != id;
  }

  // From an idle state all pending jobs can be done, and no other row changes.
  lemma {:induction false} QueueDrains(s: State, t: nat, max: nat)
    requires Inv(s) && !s.processing
    ensures exists events: seq<Event> :: Drained(s, Run(s, events, max))
    decreases |PendingJobs(s)|
  {
    hide Run, Inv, Drained;
    if PendingJobs(s) == {} {
      assert Run(s, [], max) == s by { hide *; RunNothing(s, max); }
      DrainedAlready(s);
    } else {
      var first := OneTurn(t) + [Finish(t, true), Release(t)];
      var id := OneJobDone(s, t, max);
      var r := Run(s, first, max);
      assert |PendingJobs(s) - {id}| < |PendingJobs(s)|;
      QueueDrains(r, t, max);
      var rest: seq<Event> :| Drained(r, Run(r, rest, max));
      RunConcat(s, first, rest, max);
      DrainedMore(s, r, Run(r, rest, max), id);
    }
  }

  ghost predicate Drained(s: State, r: State) {
    && !r.processing && r.jobs.Keys == s.jobs.Keys
    && forall id :: id in s.jobs && id in r.jobs ==> if s.jobs[id].status == Pending then r.jobs[id].status == Done else r.jobs[id] == s.jobs[id]
  }

  lemma RunNothing(s: State, max: nat)
    ensures Run(s, [], max) == s
  {
  }

  lemma DrainedAlready(s: State)
    requires !s.processing && PendingJobs(s) == {}
    ensures Drained(s, s)
  {
    assert forall id :: id in s.jobs && s.jobs[id].status == Pending ==> id in PendingJobs(s);
  }

  lemma DrainedMore(s: State, r: State, last: State, id: nat)
    requires Drained(r, last) && r.jobs.Keys == s.jobs.Keys && id in s.jobs && s.jobs[id].status == Pending
    requires r.jobs[id].status == Done && forall x :: x in s.jobs && x != id ==> r.jobs[x] == s.jobs[x]
    ensures Drained(s, last)
  {
  }
}
