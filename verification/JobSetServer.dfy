/**
  * An API server that other controllers use at the same time as the JobSet reconciler.
  *
  * Every API call is a separate step. Before each one the server performs a batch of foreign changes taken from an
  * arbitrary script, and the call may fail, with or without having taken effect; quantifying over scripts quantifies over
  * interleavings and failures.
  */
module JobSetServer {
  import opened Prelude
  import opened Json
  import opened JobSet

  datatype Foreign =
    | Advance(job: string, succeeded: nat, failed: nat)
    | CreateOther(job: string)

  /** What goes wrong with a call: nothing, the request is lost, or it takes effect and the answer is lost. */
  datatype Fault = NoFault | Lost | Unanswered

  datatype Call = Call(before: seq<Foreign>, fault: Fault)

  /** One answered read of a Job: what the server held at that instant. */
  datatype Look = Look(name: string, status: JobStatus)

  /** The server as the proofs see it: Jobs, creations, answered reads, calls served, and what is still to come. */
  datatype View = View(
    jobs: map<string, JobStatus>, created: seq<string>, looks: seq<Look>, calls: nat, script: seq<Call>)

  /** A Job that does not exist reads as one without finished pods. */
  function StatusIn(jobs: map<string, JobStatus>, name: string): (s: JobStatus) {
    if name in jobs then jobs[name] else JobStatus(0, 0)
  }

  predicate NotAbove(a: JobStatus, b: JobStatus) {
    a.succeeded <= b.succeeded && a.failed <= b.failed
  }

  /** Jobs are never deleted and their pod counts never drop. */
  ghost predicate Evolves(a: map<string, JobStatus>, b: map<string, JobStatus>) {
    a.Keys <= b.Keys && forall n :: NotAbove(StatusIn(a, n), StatusIn(b, n))
  }

  /** The only change is that some of `names` were created. */
  ghost predicate OnlyAdds(a: map<string, JobStatus>, b: map<string, JobStatus>, names: seq<string>) {
    && a.Keys <= b.Keys
    && (forall n :: n in b && n !in a ==> n in names)
    && (forall n :: StatusIn(a, n) == StatusIn(b, n))
  }

  ghost predicate Distinct(names: seq<string>) {
    forall i, j :: 0 <= i < j < |names| ==> names[i] != names[j]
  }

  /** No call in the script is made to fail. */
  ghost predicate FaultFree(script: seq<Call>) {
    forall i :: 0 <= i < |script| ==> script[i].fault.NoFault?
  }

  /** Nobody else changes anything. */
  ghost predicate Quiet(script: seq<Call>) {
    forall i :: 0 <= i < |script| ==> script[i].before == []
  }

  /** What the script has in store for the next call. */
  function NextFault(script: seq<Call>): (f: Fault) {
    if script == [] then NoFault else script[0].fault
  }

  function Take(script: seq<Call>, k: nat): (r: seq<Call>) {
    if k <= |script| then script[..k] else script
  }

  function Drop(script: seq<Call>, k: nat): (r: seq<Call>) {
    if k <= |script| then script[k..] else []
  }

  function AfterForeign(jobs: map<string, JobStatus>, step: Foreign): (r: map<string, JobStatus>) {
    match step
    case Advance(job, succeeded, failed) =>
      if job in jobs && NotAbove(jobs[job], JobStatus(succeeded, failed))
      then jobs[job := JobStatus(succeeded, failed)] else jobs
    case CreateOther(job) => if job in jobs then jobs else jobs[job := JobStatus(0, 0)]
  }

  function AfterTurn(jobs: map<string, JobStatus>, steps: seq<Foreign>): (r: map<string, JobStatus>) {
    if steps == [] then jobs else AfterForeign(AfterTurn(jobs, steps[..|steps| - 1]), steps[|steps| - 1])
  }

  /** What every stretch of calls keeps. */
  ghost predicate Progress(a: View, b: View) {
    && Evolves(a.jobs, b.jobs) && a.created <= b.created && a.looks <= b.looks
    && a.calls <= b.calls && b.script == Drop(a.script, b.calls - a.calls)
  }

  /** No foreign change happened between the two moments. */
  ghost predicate Undisturbed(a: View, b: View)
    requires a.calls <= b.calls
  {
    Quiet(Take(a.script, b.calls - a.calls))
  }

  /** Left alone, the stretch changes nothing but to create some of `names`. */
  ghost predicate Careful(a: View, b: View, names: seq<string>) {
    Progress(a, b) && (Undisturbed(a, b) ==> OnlyAdds(a.jobs, b.jobs, names))
  }

  ghost predicate AllPresent(names: seq<string>, jobs: map<string, JobStatus>) {
    forall i :: 0 <= i < |names| ==> names[i] in jobs
  }

  ghost predicate Between(a: map<string, JobStatus>, look: Look, b: map<string, JobStatus>) {
    NotAbove(StatusIn(a, look.name), look.status) && NotAbove(look.status, StatusIn(b, look.name))
  }

  /** The stretch read each of `names` once, in this order, and left all of them present. */
  ghost predicate Looked(a: View, b: View, names: seq<string>) {
    && Careful(a, b, names)
    && |b.looks| == |a.looks| + |names|
    && (forall i :: |a.looks| <= i < |b.looks| ==> b.looks[i].name == names[i - |a.looks|] && Between(a.jobs, b.looks[i], b.jobs))
    && AllPresent(names, b.jobs)
  }

  /** The statuses read during a stretch, each at its own instant. */
  ghost function Sightings(a: View, b: View): (ss: seq<JobStatus>)
    requires |a.looks| <= |b.looks|
    ensures |ss| == |b.looks| - |a.looks|
    ensures forall i :: 0 <= i < |ss| ==> ss[i] == b.looks[|a.looks| + i].status
  {
    seq(|b.looks| - |a.looks|, i requires 0 <= i < |b.looks| - |a.looks| => b.looks[|a.looks| + i].status)
  }

  lemma ScriptParts(script: seq<Call>, k: nat, m: nat)
    ensures Take(script, k + m) == Take(script, k) + Take(Drop(script, k), m)
    ensures Drop(script, k + m) == Drop(Drop(script, k), m)
  {
  }

  lemma QuietParts(a: seq<Call>, b: seq<Call>)
    ensures Quiet(a + b) <==> Quiet(a) && Quiet(b)
  {
    if Quiet(a + b) {
      forall i | 0 <= i < |a| ensures a[i].before == [] {
        assert (a + b)[i] == a[i];
      }
      forall i | 0 <= i < |b| ensures b[i].before == [] {
        assert (a + b)[|a| + i] == b[i];
      }
    }
  }

  lemma UndisturbedParts(a: View, b: View, c: View)
    requires Progress(a, b) && Progress(b, c)
    ensures Drop(a.script, c.calls - a.calls) == c.script
    ensures Undisturbed(a, c) <==> Undisturbed(a, b) && Undisturbed(b, c)
  {
    var k, m := b.calls - a.calls, c.calls - b.calls;
    ScriptParts(a.script, k, m);
    QuietParts(Take(a.script, k), Take(b.script, m));
  }

  lemma EvolvesTrans(a: map<string, JobStatus>, b: map<string, JobStatus>, c: map<string, JobStatus>)
    requires Evolves(a, b) && Evolves(b, c)
    ensures Evolves(a, c)
  {
    forall n ensures NotAbove(StatusIn(a, n), StatusIn(c, n)) {
      assert NotAbove(StatusIn(a, n), StatusIn(b, n)) && NotAbove(StatusIn(b, n), StatusIn(c, n));
    }
  }

  /** Stretches compose. */
  lemma CarefulTrans(a: View, b: View, c: View, names: seq<string>, more: seq<string>, all: seq<string>)
    requires Careful(a, b, names) && Careful(b, c, more)
    requires forall n :: n in names || n in more ==> n in all
    ensures Careful(a, c, all)
  {
    EvolvesTrans(a.jobs, b.jobs, c.jobs);
    UndisturbedParts(a, b, c);
    if Undisturbed(a, c) {
      forall n ensures StatusIn(a.jobs, n) == StatusIn(c.jobs, n) {
        assert StatusIn(a.jobs, n) == StatusIn(b.jobs, n) && StatusIn(b.jobs, n) == StatusIn(c.jobs, n);
      }
    }
  }

  lemma BetweenWiden(
    a: map<string, JobStatus>, a': map<string, JobStatus>, look: Look, b: map<string, JobStatus>, b': map<string, JobStatus>)
    requires Evolves(a, a') && Between(a', look, b) && Evolves(b, b')
    ensures Between(a, look, b')
  {
    assert NotAbove(StatusIn(a, look.name), StatusIn(a', look.name));
    assert NotAbove(StatusIn(b, look.name), StatusIn(b', look.name));
  }

  lemma LookedTrans(a: View, b: View, c: View, names: seq<string>, more: seq<string>)
    requires Looked(a, b, names) && Looked(b, c, more)
    ensures Looked(a, c, names + more)
    ensures Sightings(a, c) == Sightings(a, b) + Sightings(b, c)
  {
    CarefulTrans(a, b, c, names, more, names + more);
    forall i | |a.looks| <= i < |c.looks|
      ensures c.looks[i].name == (names + more)[i - |a.looks|] && Between(a.jobs, c.looks[i], c.jobs)
    {
      assert Evolves(a.jobs, a.jobs) && Evolves(c.jobs, c.jobs);
      if i < |b.looks| {
        assert c.looks[i] == b.looks[i];
        BetweenWiden(a.jobs, a.jobs, c.looks[i], b.jobs, c.jobs);
      } else {
        BetweenWiden(a.jobs, b.jobs, c.looks[i], c.jobs, c.jobs);
      }
    }
    forall i | 0 <= i < |names + more| ensures (names + more)[i] in c.jobs {
      if i < |names| { assert names[i] in b.jobs; } else { assert more[i - |names|] in c.jobs; }
    }
  }

  ghost function StatusesIn(names: seq<string>, jobs: map<string, JobStatus>): (ss: seq<JobStatus>)
    ensures |ss| == |names|
    ensures forall i :: 0 <= i < |names| ==> ss[i] == StatusIn(jobs, names[i])
  {
    seq(|names|, i requires 0 <= i < |names| => StatusIn(jobs, names[i]))
  }

  /** In an undisturbed stretch every read sees what was there at the start. */
  lemma QuietSightings(a: View, b: View, names: seq<string>)
    requires Looked(a, b, names) && Undisturbed(a, b)
    ensures Sightings(a, b) == StatusesIn(names, a.jobs)
    ensures AllPresent(names, a.jobs) ==> b.jobs == a.jobs
  {
    forall i | 0 <= i < |names| ensures Sightings(a, b)[i] == StatusIn(a.jobs, names[i]) {
      var look := b.looks[|a.looks| + i];
      assert look.name == names[i] && Between(a.jobs, look, b.jobs);
      assert StatusIn(a.jobs, names[i]) == StatusIn(b.jobs, names[i]);
    }
    if AllPresent(names, a.jobs) { NothingAdded(a.jobs, b.jobs, names); }
  }

  lemma NothingAdded(a: map<string, JobStatus>, b: map<string, JobStatus>, names: seq<string>)
    requires OnlyAdds(a, b, names) && AllPresent(names, a)
    ensures a == b
  {
    assert a.Keys == b.Keys;
    forall n | n in a ensures a[n] == b[n] {
      assert StatusIn(a, n) == StatusIn(b, n);
    }
  }

  class Api {
    var jobs: map<string, JobStatus>
    var data: Json                 // the stored JobSet
    var script: seq<Call>          // what the rest of the cluster will do
    ghost var created: seq<string> // every successful Job creation so far, whoever made it
    ghost var looks: seq<Look>     // every answered read so far
    ghost var calls: nat           // calls served so far

    ghost predicate Valid()
      reads this
    {
      Distinct(created) && forall n :: n in created ==> n in jobs
    }

    ghost function Now(): (v: View)
      reads this
    {
      View(jobs, created, looks, calls, script)
    }

    constructor (initial: map<string, JobStatus>, stored: Json, future: seq<Call>)
      ensures Valid() && data == stored && Now() == View(initial, [], [], 0, future)
    {
      jobs, data, script, created, looks, calls := initial, stored, future, [], [], 0;
    }

    /** The other controllers' turn; tells what will go wrong with the coming call. */
    method Interfere() returns (fault: Fault)
      requires Valid()
      modifies this`jobs, this`script, this`created, this`calls
      ensures Valid() && Looked(old(Now()), Now(), []) && calls == old(calls) + 1
      ensures fault == NextFault(old(script))
      ensures jobs == if old(script) == [] then old(jobs) else AfterTurn(old(jobs), old(script)[0].before)
    {
      calls := calls + 1;
      fault := NoFault;
      if script == [] { return; }
      var steps := script[0].before;
      fault := script[0].fault;
      assert Take(script, 1)[0] == script[0];
      script := script[1..];
      for i := 0 to |steps|
        invariant script == old(script)[1..] && calls == old(calls) + 1
        invariant Valid() && Evolves(old(jobs), jobs) && old(created) <= created
        invariant jobs == AfterTurn(old(jobs), steps[..i])
      {
        assert steps[..i + 1][..i] == steps[..i];
        ForeignEvolves(old(jobs), jobs, steps[i]);
        match steps[i]
        case Advance(job, succeeded, failed) =>
          if job in jobs && jobs[job].succeeded <= succeeded && jobs[job].failed <= failed {
            jobs := jobs[job := JobStatus(succeeded, failed)];
          }
        case CreateOther(job) =>
          if job !in jobs {
            jobs := jobs[job := JobStatus(0, 0)];
            created := created + [job];
          }
      }
      assert steps[..|steps|] == steps;
    }

    method GetOpt(name: string) returns (fault: bool, r: Option<JobStatus>)
      requires Valid()
      modifies this`jobs, this`script, this`created, this`calls, this`looks
      ensures Valid() && Careful(old(Now()), Now(), []) && calls == old(calls) + 1
      ensures FaultFree(old(script)) ==> !fault
      ensures jobs == if old(script) == [] then old(jobs) else AfterTurn(old(jobs), old(script)[0].before)
      ensures !fault ==> r == if name in jobs then Some(jobs[name]) else None
      ensures looks == if fault then old(looks) else old(looks) + [Look(name, StatusIn(jobs, name))]
    {
      r := None;
      var trouble := Interfere();
      fault := !trouble.NoFault?;
      if fault { return; }
      if name in jobs {
        r := Some(jobs[name]);
      }
      looks := looks + [Look(name, StatusIn(jobs, name))];
    }

    /** `conflict` is the 409 answer: somebody else was faster. */
    method CreateJob(name: string) returns (fault: bool, conflict: bool)
      requires Valid()
      modifies this`jobs, this`script, this`created, this`calls
      ensures Valid() && Careful(old(Now()), Now(), [name]) && calls == old(calls) + 1
      ensures FaultFree(old(script)) ==> !fault
      ensures !NextFault(old(script)).Lost? ==> name in jobs
      ensures fault <==> NextFault(old(script)) != NoFault
      ensures !fault && !conflict ==> created != [] && created[|created| - 1] == name
    {
      conflict := false;
      var trouble := Interfere();
      fault := !trouble.NoFault?;
      if trouble.Lost? { return; }
      if name in jobs {
        conflict := true;
      } else {
        ForeignEvolves(old(jobs), jobs, CreateOther(name));
        jobs := jobs[name := JobStatus(0, 0)];
        created := created + [name];
      }
    }

    method PatchStatus(patch: Json) returns (fault: bool)
      requires Valid()
      modifies this`jobs, this`script, this`created, this`calls, this`data
      ensures Valid() && Looked(old(Now()), Now(), []) && calls == old(calls) + 1
      ensures FaultFree(old(script)) ==> !fault
      ensures fault <==> NextFault(old(script)) != NoFault
      ensures data == if NextFault(old(script)).Lost? then old(data) else MergePatch(old(data), patch)
    {
      var trouble := Interfere();
      fault := !trouble.NoFault?;
      if !trouble.Lost? {
        data := MergePatch(data, patch);
      }
    }
  }

  lemma ForeignEvolves(a: map<string, JobStatus>, b: map<string, JobStatus>, step: Foreign)
    requires Evolves(a, b)
    ensures Evolves(a, AfterForeign(b, step))
  {
    var c := AfterForeign(b, step);
    forall n ensures NotAbove(StatusIn(a, n), StatusIn(c, n)) {
      assert NotAbove(StatusIn(a, n), StatusIn(b, n));
    }
  }
}
