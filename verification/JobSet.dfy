/** JobSets (simulator/src/jobset.rs): what the reconciler reads from one, its children's names, its verdict and its patches. */
module JobSet {
  import opened Prelude
  import opened Json

  /** u32 counters. */
  const U32: nat := 0x1_0000_0000

  /** Pod counts of a Job; absent counts read as zero. */
  datatype JobStatus = JobStatus(succeeded: nat, failed: nat)

  datatype ReplicatedJob = ReplicatedJob(name: string, replicas: nat)

  /** What the controller's cache holds about a JobSet, possibly out of date. */
  datatype Snapshot = Snapshot(name: string, data: Json)

  datatype Verdict = Completed | Failed | Running | Idle

  datatype Outcome = Skipped | Error | Reached(verdict: Verdict)

  // ---- reading a JobSet ----

  predicate Suspended(data: Json) {
    BoolOf(Member(data.Get("spec"), "suspend")) == Some(true)
  }

  function TerminalState(data: Json): (r: Option<string>) {
    StrOf(Member(data.Get("status"), "terminalState"))
  }

  function ReplicatedJobOf(rj: Json): (r: ReplicatedJob) {
    ReplicatedJob(StrOf(rj.Get("name")).GetOr("worker"), U64Of(rj.Get("replicas")).GetOr(1) % U32)
  }

  function ReplicatedJobs(data: Json): (r: Option<seq<ReplicatedJob>>) {
    var items := ArrayOf(Member(data.Get("spec"), "replicatedJobs"));
    if items.None? then None
    else Some(seq(|items.value|, i requires 0 <= i < |items.value| => ReplicatedJobOf(items.value[i])))
  }

  /** The reconciler has work to do for this snapshot. */
  predicate Active(js: Snapshot) {
    !Suspended(js.data) && TerminalState(js.data).None? && ReplicatedJobs(js.data).Some?
  }

  // ---- the same, said on the JSON itself ----

  /** Suspended, or finished, or without an array of replicated jobs. */
  ghost predicate SetAside(data: Json) {
    || Has2(data, "spec", "suspend", Bool(true))
    || (exists t :: Has2(data, "status", "terminalState", Str(t)))
    || forall items :: !Has2(data, "spec", "replicatedJobs", Arr(items))
  }

  lemma ActiveMeans(js: Snapshot)
    ensures Active(js) <==> !SetAside(js.data)
  {
    var items := ArrayOf(Member(js.data.Get("spec"), "replicatedJobs"));
    if items.Some? { assert Has2(js.data, "spec", "replicatedJobs", Arr(items.value)); }
    TerminalMeans(js.data);
  }

  lemma TerminalMeans(data: Json)
    ensures forall t :: TerminalState(data) == Some(t) <==> Has2(data, "status", "terminalState", Str(t))
  {
    if TerminalState(data).Some? { assert Has2(data, "status", "terminalState", Str(TerminalState(data).value)); }
  }

  /** Name and number of replicas (32 bits of it), with the defaults for whatever is missing or of another type. */
  lemma ReplicatedJobMeans(rj: Json)
    ensures var r := ReplicatedJobOf(rj);
            && (forall s :: Has(rj, "name", Str(s)) ==> r.name == s)
            && ((forall s :: !Has(rj, "name", Str(s))) ==> r.name == "worker")
            && (forall n :: Has(rj, "replicas", Num(n)) && 0 <= n < 0x1_0000_0000_0000_0000 ==> r.replicas == n % 0x1_0000_0000)
            && ((forall n :: !(Has(rj, "replicas", Num(n)) && 0 <= n < 0x1_0000_0000_0000_0000)) ==> r.replicas == 1)
  {
    if StrOf(rj.Get("name")).Some? { assert Has(rj, "name", Str(StrOf(rj.Get("name")).value)); }
    if U64Of(rj.Get("replicas")).Some? { assert Has(rj, "replicas", Num(U64Of(rj.Get("replicas")).value)); }
  }

  /** The children are those of each element of the array, in order. */
  lemma ReplicatedJobsMean(data: Json, items: seq<Json>)
    requires Has2(data, "spec", "replicatedJobs", Arr(items))
    ensures var rjs := ReplicatedJobs(data);
            && rjs.Some? && |rjs.value| == |items|
            && forall i :: 0 <= i < |items| ==> rjs.value[i] == ReplicatedJobOf(items[i])
  {
  }

  // ---- child names ----

  function JobName(jobset: string, rj: string, idx: nat): (s: string) {
    jobset + ['-'] + rj + ['-'] + Decimal(idx)
  }

  function NamesOf(jobset: string, rj: ReplicatedJob, count: nat): (r: seq<string>)
    ensures |r| == count
  {
    if count == 0 then [] else NamesOf(jobset, rj, count - 1) + [JobName(jobset, rj.name, count - 1)]
  }

  /** Every child, in the order the reconciler visits them. */
  function ChildNames(jobset: string, rjs: seq<ReplicatedJob>): (r: seq<string>) {
    if rjs == [] then []
    else ChildNames(jobset, rjs[..|rjs| - 1]) + NamesOf(jobset, rjs[|rjs| - 1], rjs[|rjs| - 1].replicas)
  }

  function Children(js: Snapshot): (r: seq<string>)
    requires ReplicatedJobs(js.data).Some?
  {
    ChildNames(js.name, ReplicatedJobs(js.data).value)
  }

  lemma JobNameInjective(jobset: string, rj: string, i: nat, rj': string, i': nat)
    requires JobName(jobset, rj, i) == JobName(jobset, rj', i')
    ensures rj == rj' && i == i'
  {
    LastSeparatorUnique('-', jobset + ['-'] + rj, Decimal(i), jobset + ['-'] + rj', Decimal(i'));
    DecimalInjective(i, i');
    var front := jobset + ['-'];
    assert (front + rj)[|front|..] == rj && (front + rj')[|front|..] == rj';
  }

  lemma {:induction false} NamesOfMembers(jobset: string, rj: ReplicatedJob, count: nat)
    ensures forall i :: 0 <= i < count ==> NamesOf(jobset, rj, count)[i] == JobName(jobset, rj.name, i)
  {
    if count > 0 { NamesOfMembers(jobset, rj, count - 1); }
  }

  ghost predicate DistinctNames(rjs: seq<ReplicatedJob>) {
    forall i, j :: 0 <= i < j < |rjs| ==> rjs[i].name != rjs[j].name
  }

  lemma {:induction false} ChildOrigin(jobset: string, rjs: seq<ReplicatedJob>, k: nat) returns (r: nat, i: nat)
    requires k < |ChildNames(jobset, rjs)|
    ensures r < |rjs| && i < rjs[r].replicas && ChildNames(jobset, rjs)[k] == JobName(jobset, rjs[r].name, i)
  {
    var n := |rjs| - 1;
    var front := ChildNames(jobset, rjs[..n]);
    if k < |front| {
      r, i := ChildOrigin(jobset, rjs[..n], k);
    } else {
      r, i := n, k - |front|;
      NamesOfMembers(jobset, rjs[n], rjs[n].replicas);
    }
  }

  /** With distinct replicated-job names, no two children share a name. */
  lemma {:induction false} ChildNamesDistinct(jobset: string, rjs: seq<ReplicatedJob>)
    requires DistinctNames(rjs)
    ensures forall i, j :: 0 <= i < j < |ChildNames(jobset, rjs)| ==> ChildNames(jobset, rjs)[i] != ChildNames(jobset, rjs)[j]
  {
    if rjs != [] {
      var n := |rjs| - 1;
      ChildNamesDistinct(jobset, rjs[..n]);
      var front, back := ChildNames(jobset, rjs[..n]), NamesOf(jobset, rjs[n], rjs[n].replicas);
      NamesOfMembers(jobset, rjs[n], rjs[n].replicas);
      forall i, j | 0 <= i < j < |front + back| ensures (front + back)[i] != (front + back)[j] {
        if j >= |front| && i < |front| {
          var r, idx := ChildOrigin(jobset, rjs[..n], i);
          if front[i] == back[j - |front|] {
            JobNameInjective(jobset, rjs[r].name, idx, rjs[n].name, j - |front|);
          }
        } else if i >= |front| {
          if back[i - |front|] == back[j - |front|] {
            JobNameInjective(jobset, rjs[n].name, i - |front|, rjs[n].name, j - |front|);
          }
        }
      }
    }
  }

  function SumReplicas(rjs: seq<ReplicatedJob>): (n: nat) {
    if rjs == [] then 0 else SumReplicas(rjs[..|rjs| - 1]) + rjs[|rjs| - 1].replicas
  }

  lemma {:induction false} ChildCount(jobset: string, rjs: seq<ReplicatedJob>)
    ensures |ChildNames(jobset, rjs)| == SumReplicas(rjs)
  {
    if rjs != [] { ChildCount(jobset, rjs[..|rjs| - 1]); }
  }

  // ---- the verdict ----

  /** The status decision on u32 counters. */
  function Judge(total: nat, succeeded: nat, failed: nat): (v: Verdict) {
    if (succeeded + failed) % U32 == total && total > 0 then (if failed > 0 then Failed else Completed)
    else if total > 0 then Running
    else Idle
  }

  predicate Succeeded(s: JobStatus) {
    s.succeeded > 0
  }

  predicate FailedOnly(s: JobStatus) {
    s.succeeded == 0 && s.failed > 0
  }

  predicate Unfinished(s: JobStatus) {
    s.succeeded == 0 && s.failed == 0
  }

  function Successes(ss: seq<JobStatus>): (n: nat) {
    if ss == [] then 0 else Successes(ss[..|ss| - 1]) + if Succeeded(ss[|ss| - 1]) then 1 else 0
  }

  function Failures(ss: seq<JobStatus>): (n: nat) {
    if ss == [] then 0 else Failures(ss[..|ss| - 1]) + if FailedOnly(ss[|ss| - 1]) then 1 else 0
  }

  function Pending(ss: seq<JobStatus>): (n: nat) {
    if ss == [] then 0 else Pending(ss[..|ss| - 1]) + if Unfinished(ss[|ss| - 1]) then 1 else 0
  }

  /** The verdict the children's statuses deserve. */
  ghost function TrueVerdict(ss: seq<JobStatus>): (v: Verdict) {
    if ss == [] then Idle
    else if exists i :: 0 <= i < |ss| && Unfinished(ss[i]) then Running
    else if exists i :: 0 <= i < |ss| && FailedOnly(ss[i]) then Failed
    else Completed
  }

  /** The verdict the wrapped counters give. */
  function CountedVerdict(ss: seq<JobStatus>): (v: Verdict) {
    Judge(|ss| % U32, Successes(ss) % U32, Failures(ss) % U32)
  }

  /** No counter that matters to the decision wraps to zero. */
  predicate Unwrapped(ss: seq<JobStatus>) {
    || ss == []
    || (|ss| % U32 > 0 && if Pending(ss) > 0 then Pending(ss) % U32 > 0 else Failures(ss) % U32 > 0 || Failures(ss) == 0)
  }

  lemma {:induction false} CountsMean(ss: seq<JobStatus>)
    ensures Successes(ss) + Failures(ss) + Pending(ss) == |ss|
    ensures Failures(ss) > 0 <==> exists i :: 0 <= i < |ss| && FailedOnly(ss[i])
    ensures Pending(ss) > 0 <==> exists i :: 0 <= i < |ss| && Unfinished(ss[i])
  {
    if ss != [] {
      var n := |ss| - 1;
      CountsMean(ss[..n]);
      assert forall i :: 0 <= i < n ==> ss[..n][i] == ss[i];
    }
  }

  /** On wrapped counters, "all children accounted for" says that a multiple of 2^32 of them is still pending. */
  lemma WrappedSum(total: nat, succeeded: nat, failed: nat, pending: nat)
    requires succeeded + failed + pending == total
    ensures (succeeded % U32 + failed % U32) % U32 == total % U32 <==> pending % U32 == 0
  {
    var s, f, p := succeeded % U32, failed % U32, pending % U32;
    var wraps := succeeded / U32 + failed / U32 + pending / U32;
    assert total == wraps * U32 + (s + f + p);
    ModShift(wraps, s + f + p);
  }

  lemma ModShift(q: nat, r: nat)
    ensures (q * U32 + r) % U32 == r % U32
  {
  }

  /** The counters judge rightly exactly when none of those that matter wraps to zero. */
  lemma VerdictExact(ss: seq<JobStatus>)
    ensures CountedVerdict(ss) == TrueVerdict(ss) <==> Unwrapped(ss)
  {
    CountsMean(ss);
    WrappedSum(|ss|, Successes(ss), Failures(ss), Pending(ss));
  }

  lemma FewAreUnwrapped(ss: seq<JobStatus>)
    requires |ss| < U32
    ensures Unwrapped(ss)
  {
    CountsMean(ss);
  }

  lemma {:induction false} PendingTail(ss: seq<JobStatus>, n: nat)
    ensures var all := ss + seq(n, _ => JobStatus(0, 0));
            && Successes(all) == Successes(ss) && Failures(all) == Failures(ss) && Pending(all) == Pending(ss) + n
  {
    var all := ss + seq(n, _ => JobStatus(0, 0));
    if n == 0 {
      assert all == ss;
    } else {
      PendingTail(ss, n - 1);
      assert all[..|all| - 1] == ss + seq(n - 1, _ => JobStatus(0, 0));
    }
  }

  /** One success among 2^32 + 1 children passes for completion. */
  lemma WrappedVerdict()
    ensures var ss := [JobStatus(1, 0)] + seq(U32, _ => JobStatus(0, 0));
            CountedVerdict(ss) == Completed && TrueVerdict(ss) == Running
  {
    PendingTail([JobStatus(1, 0)], U32);
    var ss := [JobStatus(1, 0)] + seq(U32, _ => JobStatus(0, 0));
    assert Unfinished(ss[1]);
  }

  function Condition(kind: string, reason: string, message: string, now: string): (r: Json) {
    Arr([Obj(map["type" := Str(kind), "status" := Str("True"), "lastTransitionTime" := Str(now),
                 "reason" := Str(reason), "message" := Str(message)])])
  }

  function TerminalPatch(state: string, message: string, now: string): (r: Json) {
    Obj(map["status" := Obj(map["terminalState" := Str(state), "conditions" := Condition(state, state, message, now)])])
  }

  function RunningPatch(message: string, now: string): (r: Json) {
    Obj(map["status" := Obj(map["conditions" := Condition("Running", "JobsRunning", message, now)])])
  }

  /** The status has exactly this condition. */
  ghost predicate SaysCondition(data: Json, kind: string, reason: string, message: string, now: string) {
    Has2(data, "status", "conditions",
         Arr([Obj(map["type" := Str(kind), "status" := Str("True"), "lastTransitionTime" := Str(now),
                      "reason" := Str(reason), "message" := Str(message)])]))
  }

  lemma TerminalPatchEffect(data: Json, state: string, message: string, now: string)
    ensures TerminalState(MergePatch(data, TerminalPatch(state, message, now))) == Some(state)
    ensures MergePatch(data, TerminalPatch(state, message, now)).Get("spec") == data.Get("spec")
    ensures SaysCondition(MergePatch(data, TerminalPatch(state, message, now)), state, state, message, now)
  {
    var patch := TerminalPatch(state, message, now).fields["status"];
    StatusPatchEffect(data, patch);
    var status := data.Get("status").GetOr(Null);
    assert MergePatch(status, patch).Get("terminalState") == Some(Str(state));
    assert MergePatch(status, patch).Get("conditions") == Some(patch.fields["conditions"]);
  }

  /** A running status keeps whatever terminal state is there. */
  lemma RunningPatchEffect(data: Json, message: string, now: string)
    ensures TerminalState(MergePatch(data, RunningPatch(message, now))) == TerminalState(data)
    ensures MergePatch(data, RunningPatch(message, now)).Get("spec") == data.Get("spec")
    ensures SaysCondition(MergePatch(data, RunningPatch(message, now)), "Running", "JobsRunning", message, now)
  {
    var patch := RunningPatch(message, now).fields["status"];
    StatusPatchEffect(data, patch);
    var status := data.Get("status").GetOr(Null);
    assert MergePatch(status, patch).Get("terminalState") == status.Get("terminalState");
    assert MergePatch(status, patch).Get("conditions") == Some(patch.fields["conditions"]);
  }
}
