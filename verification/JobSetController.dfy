/** The JobSet reconciler (simulator/src/jobset.rs) against that server, and controller lifetimes. */
module JobSetController {
  import opened Prelude
  import opened Json
  import opened JobSet
  import opened JobSetServer

  ghost predicate AllSucceeded(names: seq<string>, jobs: map<string, JobStatus>) {
    forall i :: 0 <= i < |names| ==> Succeeded(StatusIn(jobs, names[i]))
  }

  ghost predicate AllFinished(names: seq<string>, jobs: map<string, JobStatus>) {
    forall i :: 0 <= i < |names| ==> !Unfinished(StatusIn(jobs, names[i]))
  }

  ghost predicate SomeFailed(names: seq<string>, jobs: map<string, JobStatus>) {
    exists i :: 0 <= i < |names| && FailedOnly(StatusIn(jobs, names[i]))
  }

  datatype Counters = Counters(total: nat, succeeded: nat, failed: nat)

  /** A wrapping increment. */
  function Inc(c: nat): (r: nat) {
    (c + 1) % U32
  }

  function Count(c: Counters, s: JobStatus): (r: Counters) {
    Counters(Inc(c.total), if Succeeded(s) then Inc(c.succeeded) else c.succeeded,
             if FailedOnly(s) then Inc(c.failed) else c.failed)
  }

  function CountAll(c: Counters, ss: seq<JobStatus>): (r: Counters) {
    if ss == [] then c else Count(CountAll(c, ss[..|ss| - 1]), ss[|ss| - 1])
  }

  lemma {:induction false} CountAllSplit(c: Counters, a: seq<JobStatus>, b: seq<JobStatus>)
    ensures CountAll(c, a + b) == CountAll(CountAll(c, a), b)
  {
    if b == [] {
      assert a + b == a;
    } else {
      CountAllSplit(c, a, b[..|b| - 1]);
      assert (a + b)[..|a + b| - 1] == a + b[..|b| - 1];
    }
  }

  /** The true counts modulo 2^32. */
  function CountsOf(ss: seq<JobStatus>): (c: Counters) {
    Counters(|ss| % U32, Successes(ss) % U32, Failures(ss) % U32)
  }

  /** The wrapped counters are the true counts modulo 2^32. */
  lemma {:induction false} CountersTrack(ss: seq<JobStatus>)
    ensures CountAll(Counters(0, 0, 0), ss) == CountsOf(ss)
  {
    if ss != [] {
      var front := ss[..|ss| - 1];
      CountersTrack(front);
      WrapInc(|front|);
      WrapInc(Successes(front));
      WrapInc(Failures(front));
    }
  }

  lemma WrapInc(x: nat)
    ensures Inc(x % U32) == (x + 1) % U32
  {
  }

  /** The main loop's body: look at one child, create it when it is missing. */
  method ReconcileChild(api: Api, name: string, counters: Counters) returns (fault: bool, c: Counters)
    requires api.Valid()
    modifies api`jobs, api`script, api`created, api`calls, api`looks
    ensures api.Valid() && Careful(old(api.Now()), api.Now(), [name])
    ensures FaultFree(old(api.script)) ==> !fault
    ensures !fault ==> Looked(old(api.Now()), api.Now(), [name])
    ensures !fault ==> c == CountAll(counters, Sightings(old(api.Now()), api.Now()))
    ensures !fault && name in old(api.jobs) ==> api.calls == old(api.calls) + 1
  {
    c := counters.(total := Inc(counters.total));
    ghost var start := api.Now();
    var existing;
    fault, existing := api.GetOpt(name);
    ghost var seen := api.Now();
    assert NotAbove(StatusIn(start.jobs, name), StatusIn(seen.jobs, name));
    if fault { return; }
    match existing
    case Some(status) =>
      if status.succeeded > 0 {
        c := c.(succeeded := Inc(c.succeeded));
      } else if status.failed > 0 {
        c := c.(failed := Inc(c.failed));
      }
    case None =>
      var conflict;
      fault, conflict := api.CreateJob(name);
      CarefulTrans(start, seen, api.Now(), [], [name], [name]);
  }

  lemma LookedNothing(a: View)
    ensures Looked(a, a, []) && Sightings(a, a) == []
  {
  }

  /** One round of the inner loop, on top of what `start` has seen since. */
  method VisitChild(
    api: Api, name: string, counters: Counters, ghost base: Counters, ghost start: View, ghost visited: seq<string>)
    returns (fault: bool, c: Counters)
    requires api.Valid() && Looked(start, api.Now(), visited)
    requires counters == CountAll(base, Sightings(start, api.Now()))
    modifies api`jobs, api`script, api`created, api`calls, api`looks
    ensures api.Valid() && Careful(start, api.Now(), visited + [name])
    ensures FaultFree(start.script) ==> !fault
    ensures !fault ==> Looked(start, api.Now(), visited + [name]) && c == CountAll(base, Sightings(start, api.Now()))
    ensures !fault && name in start.jobs ==> api.calls == old(api.calls) + 1
  {
    ghost var mid := api.Now();
    fault, c := ReconcileChild(api, name, counters);
    if fault {
      CarefulTrans(start, mid, api.Now(), visited, [name], visited + [name]);
    } else {
      VisitStep(base, start, mid, api.Now(), visited, [name]);
    }
  }

  lemma CarefulWiden(a: View, b: View, names: seq<string>, all: seq<string>)
    requires Careful(a, b, names) && forall n :: n in names ==> n in all
    ensures Careful(a, b, all)
  {
  }

  /** The inner loop over one replicated job. */
  method VisitReplicas(api: Api, jobset: string, rj: ReplicatedJob, counters: Counters) returns (fault: bool, c: Counters)
    requires api.Valid()
    modifies api`jobs, api`script, api`created, api`calls, api`looks
    ensures api.Valid() && Careful(old(api.Now()), api.Now(), NamesOf(jobset, rj, rj.replicas))
    ensures FaultFree(old(api.script)) ==> !fault
    ensures !fault ==> Looked(old(api.Now()), api.Now(), NamesOf(jobset, rj, rj.replicas))
    ensures !fault ==> c == CountAll(counters, Sightings(old(api.Now()), api.Now()))
    ensures !fault && AllPresent(NamesOf(jobset, rj, rj.replicas), old(api.jobs)) ==> api.calls == old(api.calls) + rj.replicas
  {
    fault, c := false, counters;
    ghost var start := api.Now();
    ghost var all := NamesOf(jobset, rj, rj.replicas);
    NamesOfMembers(jobset, rj, rj.replicas);
    LookedNothing(start);
    for idx := 0 to rj.replicas
      invariant api.Valid() && Looked(start, api.Now(), NamesOf(jobset, rj, idx))
      invariant c == CountAll(counters, Sightings(start, api.Now()))
      invariant AllPresent(all, start.jobs) ==> api.calls == start.calls + idx
    {
      var name := JobName(jobset, rj.name, idx);
      assert all[idx] == name;
      fault, c := VisitChild(api, name, c, counters, start, NamesOf(jobset, rj, idx));
      if fault {
        NamesWithin(jobset, rj, idx + 1);
        CarefulWiden(start, api.Now(), NamesOf(jobset, rj, idx + 1), all);
        return;
      }
    }
  }

  /** Visiting more names composes with what was visited before. */
  lemma VisitStep(counters: Counters, a: View, b: View, c: View, names: seq<string>, more: seq<string>)
    requires Looked(a, b, names) && Looked(b, c, more)
    ensures Looked(a, c, names + more)
    ensures CountAll(counters, Sightings(a, c)) == CountAll(CountAll(counters, Sightings(a, b)), Sightings(b, c))
  {
    LookedTrans(a, b, c, names, more);
    CountAllSplit(counters, Sightings(a, b), Sightings(b, c));
  }

  lemma NamesWithin(jobset: string, rj: ReplicatedJob, count: nat)
    requires count <= rj.replicas
    ensures forall n :: n in NamesOf(jobset, rj, count) ==> n in NamesOf(jobset, rj, rj.replicas)
  {
    NamesOfMembers(jobset, rj, count);
    NamesOfMembers(jobset, rj, rj.replicas);
    forall n | n in NamesOf(jobset, rj, count) ensures n in NamesOf(jobset, rj, rj.replicas) {
      var i :| 0 <= i < count && NamesOf(jobset, rj, count)[i] == n;
      assert NamesOf(jobset, rj, rj.replicas)[i] == n;
    }
  }

  lemma {:induction false} ChildrenWithin(jobset: string, rjs: seq<ReplicatedJob>, r: nat)
    requires r <= |rjs|
    ensures forall n :: n in ChildNames(jobset, rjs[..r]) ==> n in ChildNames(jobset, rjs)
    decreases |rjs| - r
  {
    if r == |rjs| {
      assert rjs[..r] == rjs;
    } else {
      assert rjs[..r + 1][..r] == rjs[..r];
      ChildrenWithin(jobset, rjs, r + 1);
    }
  }

  /** One round of the outer loop, on top of what has been seen since `start`. */
  method VisitNext(
    api: Api, jobset: string, rj: ReplicatedJob, counters: Counters, ghost start: View, ghost visited: seq<string>)
    returns (fault: bool, c: Counters)
    requires api.Valid() && Looked(start, api.Now(), visited)
    requires counters == CountAll(Counters(0, 0, 0), Sightings(start, api.Now()))
    modifies api`jobs, api`script, api`created, api`calls, api`looks
    ensures api.Valid() && Careful(start, api.Now(), visited + NamesOf(jobset, rj, rj.replicas))
    ensures FaultFree(start.script) ==> !fault
    ensures !fault ==>
              && Looked(start, api.Now(), visited + NamesOf(jobset, rj, rj.replicas))
              && c == CountAll(Counters(0, 0, 0), Sightings(start, api.Now()))
    ensures !fault && AllPresent(visited + NamesOf(jobset, rj, rj.replicas), start.jobs) ==>
              api.calls == old(api.calls) + rj.replicas
  {
    ghost var mid, next := api.Now(), NamesOf(jobset, rj, rj.replicas);
    if AllPresent(visited + next, start.jobs) { PartPresent(visited, next, start.jobs, mid.jobs); }
    fault, c := VisitReplicas(api, jobset, rj, counters);
    if fault {
      CarefulTrans(start, mid, api.Now(), visited, next, visited + next);
    } else {
      VisitStep(Counters(0, 0, 0), start, mid, api.Now(), visited, next);
    }
  }

  /** The outer loop. */
  method VisitAll(api: Api, jobset: string, rjs: seq<ReplicatedJob>) returns (fault: bool, c: Counters)
    requires api.Valid()
    modifies api`jobs, api`script, api`created, api`calls, api`looks
    ensures api.Valid() && Careful(old(api.Now()), api.Now(), ChildNames(jobset, rjs))
    ensures FaultFree(old(api.script)) ==> !fault
    ensures !fault ==> Looked(old(api.Now()), api.Now(), ChildNames(jobset, rjs))
    ensures !fault ==> c == CountAll(Counters(0, 0, 0), Sightings(old(api.Now()), api.Now()))
    ensures !fault && AllPresent(ChildNames(jobset, rjs), old(api.jobs)) ==>
              api.calls == old(api.calls) + |ChildNames(jobset, rjs)|
  {
    fault, c := false, Counters(0, 0, 0);
    ghost var start := api.Now();
    LookedNothing(start);
    for r := 0 to |rjs|
      invariant api.Valid() && Looked(start, api.Now(), ChildNames(jobset, rjs[..r]))
      invariant c == CountAll(Counters(0, 0, 0), Sightings(start, api.Now()))
      invariant AllPresent(ChildNames(jobset, rjs), start.jobs) ==> api.calls == start.calls + |ChildNames(jobset, rjs[..r])|
    {
      ghost var visited := ChildNames(jobset, rjs[..r]);
      assert rjs[..r + 1][..r] == rjs[..r];
      ChildrenWithin(jobset, rjs, r + 1);
      if AllPresent(ChildNames(jobset, rjs), start.jobs) {
        WithinPresent(ChildNames(jobset, rjs), ChildNames(jobset, rjs[..r + 1]), start.jobs);
      }
      fault, c := VisitNext(api, jobset, rjs[r], c, start, visited);
      if fault {
        CarefulWiden(start, api.Now(), ChildNames(jobset, rjs[..r + 1]), ChildNames(jobset, rjs));
        return;
      }
    }
    assert rjs[..|rjs|] == rjs;
  }

  lemma WithinPresent(all: seq<string>, part: seq<string>, jobs: map<string, JobStatus>)
    requires AllPresent(all, jobs) && forall n :: n in part ==> n in all
    ensures AllPresent(part, jobs)
  {
    forall i | 0 <= i < |part| ensures part[i] in jobs {
      assert part[i] in all;
    }
  }

  lemma PartPresent(done: seq<string>, next: seq<string>, a: map<string, JobStatus>, b: map<string, JobStatus>)
    requires AllPresent(done + next, a) && a.Keys <= b.Keys
    ensures AllPresent(next, b)
  {
    forall i | 0 <= i < |next| ensures next[i] in b {
      assert (done + next)[|done| + i] == next[i];
    }
  }

  method PatchTerminal(api: Api, state: string, message: string, now: string) returns (fault: bool)
    requires api.Valid()
    modifies api`jobs, api`script, api`created, api`calls, api`data
    ensures api.Valid() && Looked(old(api.Now()), api.Now(), []) && api.calls == old(api.calls) + 1
    ensures FaultFree(old(api.script)) ==> !fault
    ensures TerminalState(api.data) == Some(state) || (fault && TerminalState(api.data) == old(TerminalState(api.data)))
    ensures !fault ==> SaysCondition(api.data, state, state, message, now)
  {
    TerminalPatchEffect(api.data, state, message, now);
    fault := api.PatchStatus(TerminalPatch(state, message, now));
  }

  method PatchRunning(api: Api, message: string, now: string) returns (fault: bool)
    requires api.Valid()
    modifies api`jobs, api`script, api`created, api`calls, api`data
    ensures api.Valid() && Looked(old(api.Now()), api.Now(), []) && api.calls == old(api.calls) + 1
    ensures FaultFree(old(api.script)) ==> !fault
    ensures TerminalState(api.data) == old(TerminalState(api.data))
    ensures !fault ==> SaysCondition(api.data, "Running", "JobsRunning", message, now)
  {
    RunningPatchEffect(api.data, message, now);
    fault := api.PatchStatus(RunningPatch(message, now));
  }

  /** What a verdict does to the stored terminal state: a terminal one sets it, any other keeps it. */
  ghost predicate Stores(v: Verdict, before: Option<string>, after: Option<string>) {
    match v
    case Completed => after == Some("Completed")
    case Failed => after == Some("Failed")
    case _ => after == before
  }

  /** The condition that a verdict leaves in the status, with the counts it is based on. */
  ghost predicate Reports(v: Verdict, c: Counters, now: string, before: Json, after: Json) {
    var count := Decimal(c.succeeded) + "/" + Decimal(c.total);
    match v
    case Completed => SaysCondition(after, "Completed", "Completed", count + " jobs succeeded", now)
    case Failed => SaysCondition(after, "Failed", "Failed", count + " jobs succeeded", now)
    case Running => SaysCondition(after, "Running", "JobsRunning", count + " jobs completed", now)
    case Idle => after == before
  }

  /** The status update after the loop. */
  method WriteStatus(api: Api, c: Counters, now: string) returns (outcome: Outcome)
    requires api.Valid()
    modifies api`jobs, api`script, api`created, api`calls, api`data
    ensures api.Valid() && Looked(old(api.Now()), api.Now(), [])
    ensures api.calls == old(api.calls) + if c.total > 0 then 1 else 0
    ensures FaultFree(old(api.script)) ==> !outcome.Error?
    ensures outcome == Error || outcome == Reached(Judge(c.total, c.succeeded, c.failed))
    ensures || Stores(Judge(c.total, c.succeeded, c.failed), old(TerminalState(api.data)), TerminalState(api.data))
            || (outcome.Error? && TerminalState(api.data) == old(TerminalState(api.data)))
    ensures outcome.Reached? ==> Reports(outcome.verdict, c, now, old(api.data), api.data)
  {
    LookedNothing(api.Now());
    var fault := false;
    var verdict: Verdict;
    if (c.succeeded + c.failed) % U32 == c.total && c.total > 0 {
      var message := Decimal(c.succeeded) + "/" + Decimal(c.total) + " jobs succeeded";
      var state;
      if c.failed > 0 {
        verdict, state := Failed, "Failed";
      } else {
        verdict, state := Completed, "Completed";
      }
      fault := PatchTerminal(api, state, message, now);
    } else if c.total > 0 {
      verdict := Running;
      fault := PatchRunning(api, Decimal(c.succeeded) + "/" + Decimal(c.total) + " jobs completed", now);
    } else {
      verdict := Idle;
    }
    outcome := if fault then Error else Reached(verdict);
  }

  /**
    * What a finished reconcile has established, `a` being the server when it began and `b` at the status write. The
    * verdict is the one the sightings deserve, each taken at its own instant; hence it is right about the end when it
    * says "Completed", and right about the beginning when all children had succeeded, or finished, by then.
    */
  ghost predicate Judged(names: seq<string>, a: View, b: View, v: Verdict) {
    && Looked(a, b, names)
    && v == CountedVerdict(Sightings(a, b))
    && (v == TrueVerdict(Sightings(a, b)) <==> Unwrapped(Sightings(a, b)))
    && (|names| < U32 ==> Unwrapped(Sightings(a, b)))
    && (Unwrapped(Sightings(a, b)) ==>
        && (v.Completed? ==> names != [] && AllSucceeded(names, b.jobs))
        && (v.Failed? ==> names != [] && AllFinished(names, b.jobs))
        && (names != [] && AllSucceeded(names, a.jobs) ==> v.Completed?)
        && (names != [] && AllFinished(names, a.jobs) ==> v.Completed? || v.Failed?))
  }

  /** Left alone, the reconcile judges the Jobs as they are, and creates the missing ones. */
  ghost predicate QuietlyJudged(names: seq<string>, a: map<string, JobStatus>, b: map<string, JobStatus>, v: Verdict) {
    && OnlyAdds(a, b, names)
    && (AllPresent(names, a) ==> b == a)
    && (|names| < U32 ==> Unwrapped(StatusesIn(names, a)))
    && (Unwrapped(StatusesIn(names, a)) ==>
        && (v.Failed? <==> names != [] && AllFinished(names, a) && SomeFailed(names, a))
        && (v.Completed? <==> names != [] && AllSucceeded(names, a))
        && (v.Idle? <==> names == []))
  }

  lemma SightingBounds(names: seq<string>, a: View, b: View, i: nat)
    requires Looked(a, b, names) && i < |names|
    ensures NotAbove(StatusIn(a.jobs, names[i]), Sightings(a, b)[i]) && NotAbove(Sightings(a, b)[i], StatusIn(b.jobs, names[i]))
  {
    assert b.looks[|a.looks| + i].name == names[i] && Between(a.jobs, b.looks[|a.looks| + i], b.jobs);
  }

  lemma CompletedMeans(names: seq<string>, a: View, b: View)
    requires Looked(a, b, names) && names != []
    ensures TrueVerdict(Sightings(a, b)).Completed? ==> AllSucceeded(names, b.jobs)
    ensures AllSucceeded(names, a.jobs) ==> TrueVerdict(Sightings(a, b)).Completed?
  {
    var ss := Sightings(a, b);
    if TrueVerdict(ss).Completed? {
      forall i | 0 <= i < |names| ensures Succeeded(StatusIn(b.jobs, names[i])) {
        SightingBounds(names, a, b, i);
        assert !Unfinished(ss[i]) && !FailedOnly(ss[i]);
      }
    }
    if AllSucceeded(names, a.jobs) {
      forall i | 0 <= i < |ss| ensures Succeeded(ss[i]) {
        assert Succeeded(StatusIn(a.jobs, names[i]));
        SightingBounds(names, a, b, i);
      }
    }
  }

  lemma FinishedMeans(names: seq<string>, a: View, b: View)
    requires Looked(a, b, names) && names != []
    ensures TrueVerdict(Sightings(a, b)).Failed? ==> AllFinished(names, b.jobs)
    ensures AllFinished(names, a.jobs) ==> !TrueVerdict(Sightings(a, b)).Running?
  {
    var ss := Sightings(a, b);
    if TrueVerdict(ss).Failed? {
      forall i | 0 <= i < |names| ensures !Unfinished(StatusIn(b.jobs, names[i])) {
        SightingBounds(names, a, b, i);
        assert !Unfinished(ss[i]);
      }
    }
    if AllFinished(names, a.jobs) {
      forall i | 0 <= i < |ss| ensures !Unfinished(ss[i]) {
        assert !Unfinished(StatusIn(a.jobs, names[i]));
        SightingBounds(names, a, b, i);
      }
    }
  }

  lemma CountedIsJudged(names: seq<string>, a: View, b: View)
    requires Looked(a, b, names)
    ensures Judged(names, a, b, CountedVerdict(Sightings(a, b)))
    ensures Undisturbed(a, b) ==> QuietlyJudged(names, a.jobs, b.jobs, CountedVerdict(Sightings(a, b)))
  {
    VerdictExact(Sightings(a, b));
    if |names| < U32 { FewAreUnwrapped(Sightings(a, b)); }
    if names != [] {
      CompletedMeans(names, a, b);
      FinishedMeans(names, a, b);
    }
    if Undisturbed(a, b) {
      QuietSightings(a, b, names);
      StatusesVerdict(names, a.jobs);
    }
  }

  /** The deserved verdict on Jobs at rest. */
  lemma StatusesVerdict(names: seq<string>, jobs: map<string, JobStatus>)
    ensures var v := TrueVerdict(StatusesIn(names, jobs));
            && (v.Failed? <==> names != [] && AllFinished(names, jobs) && SomeFailed(names, jobs))
            && (v.Completed? <==> names != [] && AllSucceeded(names, jobs))
            && (v.Idle? <==> names == [])
  {
    var ss := StatusesIn(names, jobs);
    assert forall i :: 0 <= i < |names| ==> ss[i] == StatusIn(jobs, names[i]);
    if AllSucceeded(names, jobs) {
      forall i | 0 <= i < |ss| ensures !Unfinished(ss[i]) && !FailedOnly(ss[i]) {
        assert Succeeded(StatusIn(jobs, names[i]));
      }
    }
  }

  /** The reconcile of a JobSet that is neither suspended nor finished: both loops, then the status. */
  method ReconcileActive(api: Api, jobset: string, rjs: seq<ReplicatedJob>, now: string) returns (outcome: Outcome)
    requires api.Valid()
    modifies api
    ensures api.Valid() && Careful(old(api.Now()), api.Now(), ChildNames(jobset, rjs))
    ensures !outcome.Skipped? && (FaultFree(old(api.script)) ==> !outcome.Error?)
    ensures outcome.Reached? ==> outcome.verdict == CountedVerdict(Sightings(old(api.Now()), api.Now()))
    ensures || (&& Looked(old(api.Now()), api.Now(), ChildNames(jobset, rjs))
                && Stores(CountedVerdict(Sightings(old(api.Now()), api.Now())),
                          old(TerminalState(api.data)), TerminalState(api.data)))
            || (outcome.Error? && TerminalState(api.data) == old(TerminalState(api.data)))
    ensures outcome.Reached? ==>
              Reports(outcome.verdict, CountsOf(Sightings(old(api.Now()), api.Now())), now, old(api.data), api.data)
    ensures outcome.Reached? && AllPresent(ChildNames(jobset, rjs), old(api.jobs)) ==>
              api.calls == old(api.calls) + |ChildNames(jobset, rjs)| + if |ChildNames(jobset, rjs)| % U32 > 0 then 1 else 0
  {
    ghost var start, names := api.Now(), ChildNames(jobset, rjs);
    var fault, c := VisitAll(api, jobset, rjs);
    if fault { return Error; }
    ghost var mid := api.Now();
    CountersTrack(Sightings(start, mid));
    outcome := WriteStatus(api, c, now);
    NothingMoreSeen(start, mid, api.Now(), names);
  }

  lemma NothingMoreSeen(a: View, b: View, c: View, names: seq<string>)
    requires Looked(a, b, names) && Looked(b, c, [])
    ensures Looked(a, c, names) && Sightings(a, c) == Sightings(a, b)
  {
    LookedTrans(a, b, c, names, []);
    assert names + [] == names;
    assert Sightings(a, c) == Sightings(a, b) + [];
  }

  /** One reconcile, interleaved with everything else that happens to the Jobs. */
  method Reconcile(api: Api, js: Snapshot, now: string) returns (outcome: Outcome)
    requires api.Valid()
    modifies api
    ensures api.Valid() && Progress(old(api.Now()), api.Now())
    ensures FaultFree(old(api.script)) ==> !outcome.Error?
    // a suspended or finished JobSet is left alone
    ensures outcome.Skipped? <==> SetAside(js.data)
    ensures outcome.Skipped? <==> !Active(js)
    ensures outcome.Skipped? ==> api.Now() == old(api.Now()) && api.data == old(api.data)
    // what is stored, and what it means; after an error either nothing was stored, or all the same what had to be
    ensures outcome.Reached? ==>
              && Judged(Children(js), old(api.Now()), api.Now(), outcome.verdict)
              && Stores(outcome.verdict, old(TerminalState(api.data)), TerminalState(api.data))
              && Reports(outcome.verdict, CountsOf(Sightings(old(api.Now()), api.Now())), now, old(api.data), api.data)
    ensures outcome.Error? && TerminalState(api.data) != old(TerminalState(api.data)) ==>
              var v := CountedVerdict(Sightings(old(api.Now()), api.Now()));
              && Judged(Children(js), old(api.Now()), api.Now(), v)
              && Stores(v, old(TerminalState(api.data)), TerminalState(api.data))
    // without foreign changes
    ensures Active(js) && Undisturbed(old(api.Now()), api.Now()) && AllPresent(Children(js), old(api.jobs)) ==>
              api.jobs == old(api.jobs)
    ensures outcome.Reached? && Undisturbed(old(api.Now()), api.Now()) ==>
              QuietlyJudged(Children(js), old(api.jobs), api.jobs, outcome.verdict)
    // one call for each child that exists, and one for the write
    ensures outcome.Reached? && AllPresent(Children(js), old(api.jobs)) ==>
              api.calls == old(api.calls) + |Children(js)| + if |Children(js)| % U32 > 0 then 1 else 0
  {
    LookedNothing(api.Now());
    ActiveMeans(js);
    if Suspended(js.data) { return Skipped; }
    if TerminalState(js.data).Some? { return Skipped; }
    var rjs := ReplicatedJobs(js.data);
    if rjs.None? { return Skipped; }
    ghost var start := api.Now();
    outcome := ReconcileActive(api, js.name, rjs.value, now);
    QuietlyUnchanged(start, api.Now(), Children(js));
    if Looked(start, api.Now(), Children(js)) { CountedIsJudged(Children(js), start, api.Now()); }
  }

  lemma QuietlyUnchanged(a: View, b: View, names: seq<string>)
    requires Careful(a, b, names)
    ensures Undisturbed(a, b) && AllPresent(names, a.jobs) ==> b.jobs == a.jobs
  {
    if Undisturbed(a, b) && AllPresent(names, a.jobs) { NothingAdded(a.jobs, b.jobs, names); }
  }

  // ---- controller lifetimes ----

  ghost predicate AllAbout(snapshots: seq<Snapshot>, names: seq<string>) {
    forall k :: 0 <= k < |snapshots| && ReplicatedJobs(snapshots[k].data).Some? ==> Children(snapshots[k]) == names
  }

  /** A stored "Completed" that a reconcile from `js` wrote is true of the children of `js`. */
  ghost predicate Earned(js: Snapshot, terminal: Option<string>, jobs: map<string, JobStatus>) {
    && Active(js) && terminal in {Some("Completed"), Some("Failed")}
    && (|Children(js)| < U32 ==> Children(js) != [] && (terminal == Some("Completed") ==> AllSucceeded(Children(js), jobs)))
  }

  lemma SuccessLasts(names: seq<string>, a: map<string, JobStatus>, b: map<string, JobStatus>)
    requires AllSucceeded(names, a) && Evolves(a, b)
    ensures AllSucceeded(names, b)
  {
    forall i | 0 <= i < |names| ensures Succeeded(StatusIn(b, names[i])) {
      assert Succeeded(StatusIn(a, names[i])) && NotAbove(StatusIn(a, names[i]), StatusIn(b, names[i]));
    }
  }

  /** One reconcile of a lifetime; `wrote` tells whether it stored a terminal state. */
  method ReconcileOnce(api: Api, js: Snapshot, now: string) returns (ghost wrote: bool)
    requires api.Valid()
    modifies api
    ensures api.Valid() && Evolves(old(api.jobs), api.jobs) && old(api.created) <= api.created
    ensures wrote ==> Earned(js, TerminalState(api.data), api.jobs)
    ensures !wrote ==> TerminalState(api.data) == old(TerminalState(api.data))
    ensures wrote && |Children(js)| < U32 && AllSucceeded(Children(js), old(api.jobs)) ==>
              TerminalState(api.data) == Some("Completed")
  {
    var outcome := Reconcile(api, js, now);
    wrote := || outcome == Reached(Completed) || outcome == Reached(Failed)
             || TerminalState(api.data) != old(TerminalState(api.data));
  }

  /**
    * A controller lifetime: reconciles of one JobSet from arbitrary, possibly stale snapshots. No Job name is ever
    * created twice, a terminal state is never erased, and `writer` is the snapshot that earned the stored one. If all
    * snapshots agree on the children, "Completed", once stored, stays stored and stays true.
    */
  method RunController(api: Api, snapshots: seq<Snapshot>, now: string, ghost names: seq<string>)
    returns (ghost writer: Option<nat>)
    requires api.Valid()
    modifies api
    ensures api.Valid() && Evolves(old(api.jobs), api.jobs) && old(api.created) <= api.created
    ensures match writer
            case None => TerminalState(api.data) == old(TerminalState(api.data))
            case Some(k) => k < |snapshots| && Earned(snapshots[k], TerminalState(api.data), api.jobs)
    ensures AllAbout(snapshots, names) && |names| < U32 &&
            (old(TerminalState(api.data)) == Some("Completed") ==> AllSucceeded(names, old(api.jobs))) ==>
              && (TerminalState(api.data) == Some("Completed") ==> AllSucceeded(names, api.jobs))
              && (old(TerminalState(api.data)) == Some("Completed") ==> TerminalState(api.data) == Some("Completed"))
  {
    writer := None;
    ghost var trusted := AllAbout(snapshots, names) && |names| < U32
                         && (TerminalState(api.data) == Some("Completed") ==> AllSucceeded(names, api.jobs));
    for k := 0 to |snapshots|
      invariant api.Valid() && Evolves(old(api.jobs), api.jobs) && old(api.created) <= api.created
      invariant writer.None? ==> TerminalState(api.data) == old(TerminalState(api.data))
      invariant writer.Some? ==> writer.value < k && Earned(snapshots[writer.value], TerminalState(api.data), api.jobs)
      invariant trusted && TerminalState(api.data) == Some("Completed") ==> AllSucceeded(names, api.jobs)
      invariant trusted && old(TerminalState(api.data)) == Some("Completed") ==> TerminalState(api.data) == Some("Completed")
    {
      ghost var jobs, terminal := api.jobs, TerminalState(api.data);
      ghost var wrote := ReconcileOnce(api, snapshots[k], now);
      EvolvesTrans(old(api.jobs), jobs, api.jobs);
      if trusted && terminal == Some("Completed") { SuccessLasts(names, jobs, api.jobs); }
      if !wrote && writer.Some? { EarnedLasts(snapshots[writer.value], terminal, jobs, api.jobs); }
      writer := if wrote then Some(k) else writer;
    }
  }

  lemma EarnedLasts(js: Snapshot, terminal: Option<string>, a: map<string, JobStatus>, b: map<string, JobStatus>)
    requires Earned(js, terminal, a) && Evolves(a, b)
    ensures Earned(js, terminal, b)
  {
    if AllSucceeded(Children(js), a) { SuccessLasts(Children(js), a, b); }
  }

  /**
    * "Failed" is not final. A reconcile from a stale snapshot overwrites it exactly when, undisturbed, every child has
    * succeeded after all; in any interleaving it does so if that was the case when it began, and only if it is the case
    * when it writes.
    */
  method FailureRevised(api: Api, js: Snapshot, now: string)
    requires api.Valid() && FaultFree(api.script) && TerminalState(api.data) == Some("Failed")
    modifies api
    ensures Progress(old(api.Now()), api.Now())
    ensures TerminalState(api.data) in {Some("Failed"), Some("Completed")}
    ensures Undisturbed(old(api.Now()), api.Now()) && (Active(js) ==> Unwrapped(StatusesIn(Children(js), old(api.jobs)))) ==>
              (TerminalState(api.data) == Some("Completed") <==>
               Active(js) && Children(js) != [] && AllSucceeded(Children(js), old(api.jobs)))
    ensures Active(js) && |Children(js)| < U32 && Children(js) != [] && AllSucceeded(Children(js), old(api.jobs)) ==>
              TerminalState(api.data) == Some("Completed")
    ensures TerminalState(api.data) == Some("Completed") ==>
              Active(js) && (|Children(js)| < U32 ==> Children(js) != [] && AllSucceeded(Children(js), api.jobs))
  {
    var outcome := Reconcile(api, js, now);
  }

  const STALE := Snapshot("js", Obj(map["spec" := Obj(map["replicatedJobs" := Arr([Obj(map["name" := Str("w")])])])]))

  lemma StaleChildren()
    ensures Active(STALE) && Children(STALE) == ["js-w-0"]
  {
    var rj, item := ReplicatedJob("w", 1), Obj(map["name" := Str("w")]);
    assert ReplicatedJobOf(item) == rj;
    assert ArrayOf(Member(STALE.data.Get("spec"), "replicatedJobs")) == Some([item]);
    assert ReplicatedJobs(STALE.data).value == [rj];
    assert JobName("js", "w", 0) == "js-w-0";
    assert NamesOf("js", rj, 1) == NamesOf("js", rj, 0) + ["js-w-0"] == ["js-w-0"];
    assert [rj][..0] == [];
    assert ChildNames("js", [rj]) == ChildNames("js", []) + NamesOf("js", rj, 1);
  }

  const CHILD := "js-w-0"
  const HISTORY := [Call([], NoFault), Call([], NoFault), Call([Advance(CHILD, 1, 1)], NoFault)]

  /** Finished children, one of them without success, and nobody interfering for as long as it takes: "Failed" is stored. */
  method FailureWritten(api: Api, js: Snapshot, now: string)
    requires api.Valid() && FaultFree(api.script) && Active(js) && 0 < |Children(js)| < U32
    requires AllPresent(Children(js), api.jobs) && AllFinished(Children(js), api.jobs) && SomeFailed(Children(js), api.jobs)
    requires Quiet(Take(api.script, |Children(js)| + 1))
    modifies api
    ensures api.Valid() && TerminalState(api.data) == Some("Failed")
    ensures api.jobs == old(api.jobs) && api.script == Drop(old(api.script), |Children(js)| + 1)
  {
    var outcome := Reconcile(api, js, now);
  }

  /** The child has a failed pod when the controller looks. */
  method FailureStored(now: string) returns (api: Api)
    ensures fresh(api) && api.Valid() && TerminalState(api.data) == Some("Failed")
    ensures api.jobs == map[CHILD := JobStatus(0, 1)] && api.script == [HISTORY[2]]
  {
    StaleChildren();
    HistoryBegins();
    ChildHasFailed();
    api := new Api(map[CHILD := JobStatus(0, 1)], STALE.data, HISTORY);
    FailureWritten(api, STALE, now);
  }

  lemma HistoryBegins()
    ensures Quiet(Take(HISTORY, 2)) && Drop(HISTORY, 2) == [HISTORY[2]] && FaultFree(HISTORY)
  {
  }

  lemma ChildHasFailed()
    ensures var jobs := map[CHILD := JobStatus(0, 1)];
            AllPresent([CHILD], jobs) && AllFinished([CHILD], jobs) && SomeFailed([CHILD], jobs)
  {
    var jobs := map[CHILD := JobStatus(0, 1)];
    assert FailedOnly(StatusIn(jobs, [CHILD][0]));
  }

  /** It happens: "Failed" is stored, the child's retry succeeds, a second look from the same snapshot stores "Completed". */
  method FailedThenCompleted(now: string) returns (api: Api, first: Option<string>)
    ensures first == Some("Failed") && TerminalState(api.data) == Some("Completed")
  {
    StaleChildren();
    api := FailureStored(now);
    first := TerminalState(api.data);
    var fault, status := api.GetOpt(CHILD); // by then somebody else's call has seen the retry succeed
    RetrySucceeds();
    assert AllSucceeded([CHILD], api.jobs);
    assert api.script == [];
    FailureRevised(api, STALE, now);
  }

  lemma RetrySucceeds()
    ensures AfterTurn(map[CHILD := JobStatus(0, 1)], HISTORY[2].before) == map[CHILD := JobStatus(1, 1)]
  {
    var steps := HISTORY[2].before;
    assert AfterTurn(map[CHILD := JobStatus(0, 1)], steps[..0]) == map[CHILD := JobStatus(0, 1)];
  }

  // ---- a reconcile whose counters wrap ----

  /** A JobSet with the replicated jobs `a` and `b`. */
  function TwoJobs(n: nat, m: nat): (js: Snapshot) {
    Snapshot("js", Obj(map["spec" := Obj(map["replicatedJobs" := Arr([
      Obj(map["name" := Str("a"), "replicas" := Num(n)]), Obj(map["name" := Str("b"), "replicas" := Num(m)])])])]))
  }

  lemma TwoJobsRead(n: nat, m: nat)
    requires n < U32 && m < U32
    ensures Active(TwoJobs(n, m))
    ensures ReplicatedJobs(TwoJobs(n, m).data) == Some([ReplicatedJob("a", n), ReplicatedJob("b", m)])
  {
    var spec := TwoJobs(n, m).data.Get("spec");
    var items := ArrayOf(Member(spec, "replicatedJobs")).value;
    assert ReplicatedJobOf(items[0]) == ReplicatedJob("a", n) && ReplicatedJobOf(items[1]) == ReplicatedJob("b", m);
    assert ReplicatedJobs(TwoJobs(n, m).data).value == [ReplicatedJob("a", n), ReplicatedJob("b", m)];
  }

  lemma {:induction false} FirstChild(jobset: string, rjs: seq<ReplicatedJob>)
    requires rjs != [] && rjs[0].replicas > 0
    ensures ChildNames(jobset, rjs) != [] && ChildNames(jobset, rjs)[0] == JobName(jobset, rjs[0].name, 0)
  {
    if |rjs| > 1 {
      FirstChild(jobset, rjs[..|rjs| - 1]);
    } else {
      NamesOfMembers(jobset, rjs[0], rjs[0].replicas);
      assert rjs[..0] == [];
    }
  }

  /** The children of such a JobSet when the first has succeeded and no other exists yet. */
  lemma OneSuccess(n: nat, m: nat)
    requires 0 < n < U32 && m < U32
    ensures var names := Children(TwoJobs(n, m));
            && |names| == n + m
            && StatusesIn(names, map[JobName("js", "a", 0) := JobStatus(1, 0)]) ==
               [JobStatus(1, 0)] + seq(n + m - 1, _ => JobStatus(0, 0))
  {
    TwoJobsRead(n, m);
    var rjs := [ReplicatedJob("a", n), ReplicatedJob("b", m)];
    TwoSum(rjs);
    ChildCount("js", rjs);
    FirstChild("js", rjs);
    ChildNamesDistinct("js", rjs);
    var names := ChildNames("js", rjs);
    var jobs := map[JobName("js", "a", 0) := JobStatus(1, 0)];
    assert forall i :: 0 < i < |names| ==> names[i] != names[0];
    assert StatusesIn(names, jobs) == [JobStatus(1, 0)] + seq(n + m - 1, _ => JobStatus(0, 0));
  }

  lemma TwoSum(rjs: seq<ReplicatedJob>)
    requires |rjs| == 2
    ensures SumReplicas(rjs) == rjs[0].replicas + rjs[1].replicas
  {
    assert rjs[..1][..0] == [];
    assert SumReplicas(rjs[..1]) == SumReplicas([]) + rjs[0].replicas;
  }

  /** With 2^32 + 1 children, one success makes the reconciler store "Completed" while all other children are pending. */
  method OneSuccessCompletes(n: nat, m: nat, now: string) returns (api: Api)
    requires 0 < n < U32 && m < U32 && n + m == U32 + 1
    ensures TerminalState(api.data) == Some("Completed")
    ensures !AllFinished(Children(TwoJobs(n, m)), map[JobName("js", "a", 0) := JobStatus(1, 0)])
  {
    var jobs := map[JobName("js", "a", 0) := JobStatus(1, 0)];
    TwoJobsRead(n, m);
    OneSuccess(n, m);
    WrappedVerdict();
    ghost var names := Children(TwoJobs(n, m));
    assert Unfinished(StatusesIn(names, jobs)[1]);
    api := new Api(jobs, TwoJobs(n, m).data, []);
    ghost var start := api.Now();
    var outcome := Reconcile(api, TwoJobs(n, m), now);
    QuietSightings(start, api.Now(), names);
  }

  // ---- suspending ----

  /** A JobSet with one replicated job and this value of `suspend`. */
  function Suspendable(flag: bool): (js: Snapshot) {
    Snapshot("js", Obj(map["spec" := Obj(map["suspend" := Bool(flag), "replicatedJobs" := Arr([Obj(map["name" := Str("w")])])])]))
  }

  /** Suspended, nothing is created. */
  method SuspendedLeftAlone(now: string) returns (api: Api, outcome: Outcome)
    ensures outcome == Skipped && api.jobs == map[] && api.data == Suspendable(true).data
  {
    api := new Api(map[], Suspendable(true).data, []);
    assert Has2(Suspendable(true).data, "spec", "suspend", Bool(true));
    outcome := Reconcile(api, Suspendable(true), now);
  }

  lemma ResumedChildren()
    ensures !SetAside(Suspendable(false).data) && ReplicatedJobs(Suspendable(false).data).Some?
    ensures Children(Suspendable(false)) == [CHILD]
  {
    var data, item := Suspendable(false).data, Obj(map["name" := Str("w")]);
    assert Has2(data, "spec", "replicatedJobs", Arr([item]));
    ReplicatedJobsMean(data, [item]);
    ReplicatedJobMeans(item);
    OneChild(ReplicatedJobs(data).value);
  }

  lemma OneChild(rjs: seq<ReplicatedJob>)
    requires rjs == [ReplicatedJob("w", 1)]
    ensures ChildNames("js", rjs) == ["js-w-0"]
  {
    var rj := rjs[0];
    assert JobName("js", "w", 0) == "js-w-0";
    assert NamesOf("js", rj, 1) == NamesOf("js", rj, 0) + ["js-w-0"] == ["js-w-0"];
    assert rjs[..0] == [];
    assert ChildNames("js", rjs) == ChildNames("js", []) + NamesOf("js", rj, 1);
  }

  /** The first, undisturbed pass over a new JobSet creates its children and nothing else. */
  method FirstPass(api: Api, js: Snapshot, now: string) returns (outcome: Outcome)
    requires api.Valid() && api.script == [] && api.jobs == map[] && !SetAside(js.data)
    requires ReplicatedJobs(js.data).Some? && 0 < |Children(js)| < U32
    modifies api
    ensures outcome == Reached(Running) && (forall n :: n in api.jobs <==> n in Children(js))
  {
    ActiveMeans(js);
    ghost var names := Children(js);
    outcome := Reconcile(api, js, now);
    assert Unfinished(StatusIn(old(api.jobs), names[0]));
    forall n | n in names ensures n in api.jobs {
      var i :| 0 <= i < |names| && names[i] == n;
    }
  }

  /** Resumed, its child is there afterwards. */
  method ResumedReconciled(now: string) returns (api: Api, outcome: Outcome)
    ensures outcome == Reached(Running) && api.jobs.Keys == {"js-w-0"}
  {
    ResumedChildren();
    api := new Api(map[], Suspendable(false).data, []);
    outcome := FirstPass(api, Suspendable(false), now);
  }
}
