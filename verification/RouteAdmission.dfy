/**
  * Route admission (simulator/src/route.rs) and the proxy's host index (simulator/src/proxy.rs), running concurrently.
  *
  * The API server keeps every version of a Route; controller and watchers act on versions they saw, however old.
  */
module RouteAdmission {
  import opened Prelude
  import opened Json

  const DOMAIN := "apps.ocp-sim.test"

  datatype Key = Key(name: string, namespace: string)

  datatype TargetPort = Number(n: int) | Name(name: string)

  datatype RouteBackend = RouteBackend(service: string, namespace: string, port: TargetPort, tls: bool)

  // ---- reading a Route ----

  function SpecHost(data: Json): (r: Option<string>) {
    StrOf(Member(data.Get("spec"), "host"))
  }

  function ComputeHost(key: Key, data: Json): (host: string) {
    match SpecHost(data)
    case Some(host) => if host != "" then host else key.name + "-" + key.namespace + "." + DOMAIN
    case None => key.name + "-" + key.namespace + "." + DOMAIN
  }

  function StatusHost(data: Json): (r: Option<string>) {
    StrOf(Member(FirstOf(ArrayOf(Member(data.Get("status"), "ingress"))), "host"))
  }

  /** The proxy's choice: what the router admitted, else what the Route asks for. */
  function ExtractHost(data: Json): (r: Option<string>) {
    if StatusHost(data).Some? then StatusHost(data)
    else if SpecHost(data) == Some("") then None
    else SpecHost(data)
  }

  predicate ConditionHolds(c: Json) {
    StrOf(c.Get("type")) == Some("Admitted") && StrOf(c.Get("status")) == Some("True")
  }

  predicate IngressAdmitted(ingress: Json) {
    var conds := ArrayOf(ingress.Get("conditions")).GetOr([]);
    exists i :: 0 <= i < |conds| && ConditionHolds(conds[i])
  }

  predicate IsAdmitted(data: Json) {
    var ingresses := ArrayOf(Member(data.Get("status"), "ingress")).GetOr([]);
    exists i :: 0 <= i < |ingresses| && IngressAdmitted(ingresses[i])
  }

  /** `as i32` on a u64. */
  function ToI32(n: nat): (r: int) {
    var low := n % 0x1_0000_0000;
    if low < 0x8000_0000 then low else low - 0x1_0000_0000
  }

  function ExtractBackend(data: Json): (r: Option<(string, TargetPort, bool)>) {
    var spec := data.Get("spec");
    var service := StrOf(Member(Member(spec, "to"), "name"));
    if service.None? then None
    else
      var target := Member(Member(spec, "port"), "targetPort");
      var port := if U64Of(target).Some? then Number(ToI32(U64Of(target).value))
                  else if StrOf(target).Some? then Name(StrOf(target).value)
                  else Number(80);
      var termination := StrOf(Member(Member(spec, "tls"), "termination"));
      Some((service.value, port, termination == Some("reencrypt") || termination == Some("passthrough")))
  }

  function AdmissionPatch(host: string, now: string): (r: Json) {
    Obj(map["status" := Obj(map["ingress" := Arr([Obj(map[
      "host" := Str(host), "routerName" := Str("default"),
      "routerCanonicalHostname" := Str("router-default." + DOMAIN),
      "conditions" := Arr([Obj(map["type" := Str("Admitted"), "status" := Str("True"), "lastTransitionTime" := Str(now)])])])])])])
  }

  // ---- the system ----

  datatype Source = FromRoute(key: Key) | FromGateway

  datatype Insertion = Insertion(source: Source, host: string, backend: RouteBackend)

  datatype World = World(
    versions: map<Key, seq<Json>>,
    table: map<string, RouteBackend>,
    log: seq<Insertion>)

  datatype Action =
    | Create(key: Key, data: Json)
    | Edit(key: Key, data: Json)
    | Admit(key: Key, seen: nat, now: string)
    | WatchRoute(key: Key, seen: nat)
    | WatchGateway(hosts: seq<string>, backend: RouteBackend)

  function Latest(vs: seq<Json>): (r: Json)
    requires vs != []
  {
    vs[|vs| - 1]
  }

  function Insert(w: World, i: Insertion): (r: World) {
    w.(table := w.table[i.host := i.backend], log := w.log + [i])
  }

  function InsertAll(w: World, hosts: seq<string>, backend: RouteBackend): (r: World) {
    if hosts == [] then w
    else
      var n := |hosts| - 1;
      Insert(InsertAll(w, hosts[..n], backend), Insertion(FromGateway, hosts[n], backend))
  }

  /** Users may edit anything but `spec.host` and the status. */
  predicate AllowedEdit(before: Json, after: Json) {
    SpecHost(after) == SpecHost(before) && after.Get("status") == before.Get("status")
  }

  function Step(w: World, a: Action): (r: World) {
    match a
    case Create(key, data) =>
      if key in w.versions || data.Get("status").Some? then w else w.(versions := w.versions[key := [data]])
    case Edit(key, data) =>
      if key in w.versions && w.versions[key] != [] && AllowedEdit(Latest(w.versions[key]), data)
      then w.(versions := w.versions[key := w.versions[key] + [data]]) else w
    case Admit(key, seen, now) =>
      if key in w.versions && seen < |w.versions[key]| && !IsAdmitted(w.versions[key][seen])
      then
        var host := ComputeHost(key, w.versions[key][seen]);
        w.(versions := w.versions[key := w.versions[key] + [MergePatch(Latest(w.versions[key]), AdmissionPatch(host, now))]])
      else w
    case WatchRoute(key, seen) =>
      if key in w.versions && seen < |w.versions[key]| then
        var data := w.versions[key][seen];
        if ExtractHost(data).None? || ExtractBackend(data).None? then w
        else
          var (service, port, tls) := ExtractBackend(data).value;
          Insert(w, Insertion(FromRoute(key), ExtractHost(data).value, RouteBackend(service, key.namespace, port, tls)))
      else w
    case WatchGateway(hosts, backend) => InsertAll(w, hosts, backend)
  }

  function Run(acts: seq<Action>): (r: World) {
    if acts == [] then World(map[], map[], []) else Step(Run(acts[..|acts| - 1]), acts[|acts| - 1])
  }

  // ---- hosts agree ----

  /** All versions of a Route want the same host, and a host in the status is that one. */
  ghost predicate VersionsAgree(key: Key, vs: seq<Json>) {
    && vs != []
    && (forall i :: 0 <= i < |vs| ==> SpecHost(vs[i]) == SpecHost(vs[0]))
    && (forall i :: 0 <= i < |vs| ==> StatusHost(vs[i]) in {None, Some(ComputeHost(key, vs[i]))})
  }

  /** Version `v` of the Route asks for this backend, in the Route's own namespace. */
  predicate AsksFor(key: Key, data: Json, backend: RouteBackend) {
    && backend.namespace == key.namespace
    && ExtractBackend(data) == Some((backend.service, backend.port, backend.tls))
  }

  /** An insertion made for a Route is under that Route's host, and to a backend that some version asks for. */
  ghost predicate RightlyInserted(versions: map<Key, seq<Json>>, i: Insertion)
    requires i.source.FromRoute?
  {
    && i.source.key in versions && versions[i.source.key] != []
    && i.host == ComputeHost(i.source.key, versions[i.source.key][0])
    && exists v :: 0 <= v < |versions[i.source.key]| && AsksFor(i.source.key, versions[i.source.key][v], i.backend)
  }

  ghost predicate LogAgrees(w: World) {
    forall i :: 0 <= i < |w.log| && w.log[i].source.FromRoute? ==> RightlyInserted(w.versions, w.log[i])
  }

  ghost predicate Inv(w: World) {
    (forall key :: key in w.versions ==> VersionsAgree(key, w.versions[key])) && LogAgrees(w)
  }

  lemma AdmissionEffect(data: Json, host: string, now: string)
    ensures SpecHost(MergePatch(data, AdmissionPatch(host, now))) == SpecHost(data)
    ensures StatusHost(MergePatch(data, AdmissionPatch(host, now))) == Some(host)
  {
    var patch := AdmissionPatch(host, now);
    var status := patch.fields["status"];
    var base := data.Get("status").GetOr(Null);
    StatusPatchEffect(data, status);
    assert MergePatch(base, status).Get("ingress") == Some(status.fields["ingress"]);
  }

  lemma Agrees(key: Key, vs: seq<Json>, data: Json)
    requires VersionsAgree(key, vs)
    requires SpecHost(data) == SpecHost(vs[0]) && StatusHost(data) in {None, Some(ComputeHost(key, data))}
    ensures VersionsAgree(key, vs + [data])
  {
  }

  lemma {:induction false} GatewayInsertions(w: World, hosts: seq<string>, backend: RouteBackend)
    ensures InsertAll(w, hosts, backend).versions == w.versions
    ensures w.log <= InsertAll(w, hosts, backend).log
    ensures forall i :: |w.log| <= i < |InsertAll(w, hosts, backend).log| ==> InsertAll(w, hosts, backend).log[i].source == FromGateway
    ensures w.table.Keys <= InsertAll(w, hosts, backend).table.Keys
  {
    if hosts != [] { GatewayInsertions(w, hosts[..|hosts| - 1], backend); }
  }

  lemma NewVersionKeepsInv(w: World, key: Key, vs: seq<Json>)
    requires Inv(w) && VersionsAgree(key, vs)
    requires key in w.versions ==> w.versions[key] <= vs
    ensures Inv(w.(versions := w.versions[key := vs]))
  {
    var versions := w.versions[key := vs];
    forall i | 0 <= i < |w.log| && w.log[i].source.FromRoute? ensures RightlyInserted(versions, w.log[i]) {
      var k := w.log[i].source.key;
      var v :| 0 <= v < |w.versions[k]| && AsksFor(k, w.versions[k][v], w.log[i].backend);
      assert versions[k][v] == w.versions[k][v];
    }
  }

  lemma StepKeepsInv(w: World, a: Action)
    requires Inv(w)
    ensures Inv(Step(w, a))
  {
    match a
    case Create(key, data) =>
      if key !in w.versions && data.Get("status").None? {
        NewVersionKeepsInv(w, key, [data]);
      }
    case Edit(key, data) =>
      if key in w.versions && AllowedEdit(Latest(w.versions[key]), data) {
        EditAgrees(key, w.versions[key], data);
        NewVersionKeepsInv(w, key, w.versions[key] + [data]);
      }
    case Admit(key, seen, now) =>
      if key in w.versions && seen < |w.versions[key]| {
        AdmitAgrees(key, w.versions[key], seen, now);
        NewVersionKeepsInv(w, key, w.versions[key] +
          [MergePatch(Latest(w.versions[key]), AdmissionPatch(ComputeHost(key, w.versions[key][seen]), now))]);
      }
    case WatchRoute(key, seen) =>
      if key in w.versions && seen < |w.versions[key]| {
        WatchKeepsInv(w, key, seen);
      }
    case WatchGateway(hosts, backend) => GatewayInsertions(w, hosts, backend);
  }

  lemma WatchKeepsInv(w: World, key: Key, seen: nat)
    requires Inv(w) && key in w.versions && seen < |w.versions[key]|
    ensures Inv(Step(w, WatchRoute(key, seen)))
  {
    var data, w' := w.versions[key][seen], Step(w, WatchRoute(key, seen));
    ExtractAgrees(key, w.versions[key], seen);
    if ExtractHost(data).Some? && ExtractBackend(data).Some? {
      assert AsksFor(key, w.versions[key][seen], w'.log[|w.log|].backend);
    }
  }

  lemma AdmitAgrees(key: Key, vs: seq<Json>, seen: nat, now: string)
    requires VersionsAgree(key, vs) && seen < |vs|
    ensures VersionsAgree(key, vs + [MergePatch(Latest(vs), AdmissionPatch(ComputeHost(key, vs[seen]), now))])
  {
    var host := ComputeHost(key, vs[seen]);
    AdmissionEffect(Latest(vs), host, now);
    Agrees(key, vs, MergePatch(Latest(vs), AdmissionPatch(host, now)));
  }

  lemma EditAgrees(key: Key, vs: seq<Json>, data: Json)
    requires VersionsAgree(key, vs) && AllowedEdit(Latest(vs), data)
    ensures VersionsAgree(key, vs + [data])
  {
    assert StatusHost(data) == StatusHost(Latest(vs));
    Agrees(key, vs, data);
  }

  lemma ExtractAgrees(key: Key, vs: seq<Json>, seen: nat)
    requires VersionsAgree(key, vs) && seen < |vs|
    ensures ExtractHost(vs[seen]) in {None, Some(ComputeHost(key, vs[0]))}
  {
  }

  lemma {:induction false} RunKeepsInv(acts: seq<Action>)
    ensures Inv(Run(acts))
  {
    if acts != [] {
      RunKeepsInv(acts[..|acts| - 1]);
      StepKeepsInv(Run(acts[..|acts| - 1]), acts[|acts| - 1]);
    }
  }

  /** In every interleaving, with every staleness, the proxy indexes a Route only under its computed host. */
  lemma RouteIndexedUnderItsHost(acts: seq<Action>, i: nat, v: nat)
    requires var w := Run(acts);
             && i < |w.log| && w.log[i].source.FromRoute? && w.log[i].source.key in w.versions
             && v < |w.versions[w.log[i].source.key]|
    ensures var w := Run(acts);
            w.log[i].host == ComputeHost(w.log[i].source.key, w.versions[w.log[i].source.key][v])
  {
    RunKeepsInv(acts);
  }

  // ---- the table is the last-writer-wins view of the insertions ----

  function Fold(log: seq<Insertion>): (table: map<string, RouteBackend>) {
    if log == [] then map[] else Fold(log[..|log| - 1])[log[|log| - 1].host := log[|log| - 1].backend]
  }

  lemma InsertFolds(w: World, i: Insertion)
    requires w.table == Fold(w.log)
    ensures Insert(w, i).table == Fold(Insert(w, i).log)
  {
    assert (w.log + [i])[..|w.log|] == w.log;
  }

  lemma {:induction false} InsertAllFolds(w: World, hosts: seq<string>, backend: RouteBackend)
    requires w.table == Fold(w.log)
    ensures InsertAll(w, hosts, backend).table == Fold(InsertAll(w, hosts, backend).log)
  {
    if hosts != [] {
      var n := |hosts| - 1;
      InsertAllFolds(w, hosts[..n], backend);
      InsertFolds(InsertAll(w, hosts[..n], backend), Insertion(FromGateway, hosts[n], backend));
    }
  }

  lemma StepFolds(w: World, a: Action)
    requires w.table == Fold(w.log)
    ensures Step(w, a).table == Fold(Step(w, a).log)
  {
    var w' := Step(w, a);
    match a
    case WatchGateway(hosts, backend) => InsertAllFolds(w, hosts, backend);
    case WatchRoute(_, _) => if w' != w { InsertFolds(w, w'.log[|w.log|]); }
    case _ =>
  }

  /** At every moment the index is the last-writer-wins view of all insertions by both watchers. */
  lemma {:induction false} TableIsFold(acts: seq<Action>)
    ensures Run(acts).table == Fold(Run(acts).log)
  {
    if acts != [] {
      TableIsFold(acts[..|acts| - 1]);
      StepFolds(Run(acts[..|acts| - 1]), acts[|acts| - 1]);
    }
  }

  lemma {:induction false} LastInsertion(log: seq<Insertion>, host: string) returns (i: nat)
    requires host in Fold(log)
    ensures i < |log| && log[i].host == host && log[i].backend == Fold(log)[host]
    ensures forall j :: i < j < |log| ==> log[j].host != host
  {
    var n := |log| - 1;
    if log[n].host == host {
      i := n;
    } else {
      i := LastInsertion(log[..n], host);
      assert forall j :: 0 <= j < n ==> log[..n][j] == log[j];
    }
  }

  /**
    * Where the proxy sends a host, at every moment of every interleaving: to what the last insertion for that host said,
    * and that came from the Gateway's watcher or from a Route whose computed host it is, some version of which asks for
    * this very backend.
    */
  lemma HostServedByItsRoute(acts: seq<Action>, host: string) returns (i: nat)
    requires host in Run(acts).table
    ensures var w := Run(acts);
            && i < |w.log| && w.log[i].host == host && w.log[i].backend == w.table[host]
            && (forall j :: i < j < |w.log| ==> w.log[j].host != host)
            && (w.log[i].source.FromRoute? ==>
                  var key := w.log[i].source.key;
                  && key in w.versions
                  && (forall v :: 0 <= v < |w.versions[key]| ==> ComputeHost(key, w.versions[key][v]) == host)
                  && exists v :: 0 <= v < |w.versions[key]| && AsksFor(key, w.versions[key][v], w.table[host]))
  {
    var w := Run(acts);
    TableIsFold(acts);
    RunKeepsInv(acts);
    i := LastInsertion(w.log, host);
    if w.log[i].source.FromRoute? {
      assert RightlyInserted(w.versions, w.log[i]);
    }
  }

  /** A host, once routed, is never dropped from the index. */
  lemma {:induction false} HostsNeverDropped(acts: seq<Action>, k: nat)
    requires k <= |acts|
    ensures Run(acts[..k]).table.Keys <= Run(acts).table.Keys
    decreases |acts|
  {
    if k == |acts| {
      assert acts[..k] == acts;
    } else {
      var n := |acts| - 1;
      assert acts[..n][..k] == acts[..k];
      HostsNeverDropped(acts[..n], k);
      match acts[n]
      case WatchGateway(hosts, backend) => GatewayInsertions(Run(acts[..n]), hosts, backend);
      case _ =>
    }
  }

  // ---- what is read and written, said on the JSON itself ----

  /** Condition `j` of ingress `i` says "Admitted". */
  ghost predicate AdmittedBy(data: Json, ingresses: seq<Json>, i: nat, conds: seq<Json>, j: nat) {
    && Has2(data, "status", "ingress", Arr(ingresses)) && i < |ingresses|
    && Has(ingresses[i], "conditions", Arr(conds)) && j < |conds|
    && Has(conds[j], "type", Str("Admitted")) && Has(conds[j], "status", Str("True"))
  }

  ghost predicate SaysAdmitted(data: Json) {
    exists ingresses, i, conds, j :: AdmittedBy(data, ingresses, i, conds, j)
  }

  lemma AdmittedMeans(data: Json)
    ensures IsAdmitted(data) <==> SaysAdmitted(data)
  {
    var ingresses := ArrayOf(Member(data.Get("status"), "ingress"));
    if IsAdmitted(data) {
      var i :| 0 <= i < |ingresses.value| && IngressAdmitted(ingresses.value[i]);
      var conds := ArrayOf(ingresses.value[i].Get("conditions"));
      var j :| 0 <= j < |conds.value| && ConditionHolds(conds.value[j]);
      assert AdmittedBy(data, ingresses.value, i, conds.value, j);
    }
    if list: seq<Json>, i: nat, conds: seq<Json>, j: nat :| AdmittedBy(data, list, i, conds, j) {
      assert ingresses == Some(list) && ingresses.GetOr([]) == list;
      var found := ArrayOf(list[i].Get("conditions"));
      assert found == Some(conds) && found.GetOr([]) == conds;
      assert ConditionHolds(conds[j]);
      assert IngressAdmitted(list[i]);
    }
  }

  /** The host a Route asks for, or the one made from its name and namespace. */
  lemma HostMeans(key: Key, data: Json)
    ensures forall h :: Has2(data, "spec", "host", Str(h)) && h != "" ==> ComputeHost(key, data) == h
    ensures (forall h :: Has2(data, "spec", "host", Str(h)) ==> h == "") ==>
              ComputeHost(key, data) == key.name + "-" + key.namespace + ".apps.ocp-sim.test"
  {
    if SpecHost(data).Some? { assert Has2(data, "spec", "host", Str(SpecHost(data).value)); }
  }

  /** The host of the first ingress, else a non-empty one of the spec. */
  lemma ExtractHostMeans(data: Json)
    ensures forall list, h :: Has2(data, "status", "ingress", Arr(list)) && list != [] && Has(list[0], "host", Str(h)) ==>
              ExtractHost(data) == Some(h)
    ensures (forall list, h :: Has2(data, "status", "ingress", Arr(list)) && list != [] ==> !Has(list[0], "host", Str(h))) ==>
              && (forall h :: Has2(data, "spec", "host", Str(h)) && h != "" ==> ExtractHost(data) == Some(h))
              && ((forall h :: Has2(data, "spec", "host", Str(h)) ==> h == "") ==> ExtractHost(data) == None)
  {
    var list := ArrayOf(Member(data.Get("status"), "ingress"));
    if list.Some? && list.value != [] {
      assert Has2(data, "status", "ingress", Arr(list.value));
      if StatusHost(data).Some? { assert Has(list.value[0], "host", Str(StatusHost(data).value)); }
    }
    if SpecHost(data).Some? { assert Has2(data, "spec", "host", Str(SpecHost(data).value)); }
  }

  /** The low 32 bits of a number, as a signed one. */
  ghost predicate AsI32(n: nat, r: int) {
    -0x8000_0000 <= r < 0x8000_0000 && (n - r) % 0x1_0000_0000 == 0
  }

  /** A numeric port as 32 bits, a named one by name, 80 for anything else. */
  ghost predicate PortOf(data: Json, port: TargetPort) {
    && (forall n :: Has3(data, "spec", "port", "targetPort", Num(n)) && 0 <= n < 0x1_0000_0000_0000_0000 ==>
          port.Number? && AsI32(n, port.n))
    && (forall s :: Has3(data, "spec", "port", "targetPort", Str(s)) ==> port == Name(s))
    && ((forall x :: Has3(data, "spec", "port", "targetPort", x) ==>
           !x.Str? && !(x.Num? && 0 <= x.n < 0x1_0000_0000_0000_0000)) ==> port == Number(80))
  }

  /** A Route has a backend exactly when its target has a name. */
  lemma BackendMeans(data: Json)
    ensures ExtractBackend(data).Some? <==> exists s :: Has3(data, "spec", "to", "name", Str(s))
    ensures ExtractBackend(data).Some? ==>
              var (service, port, tls) := ExtractBackend(data).value;
              && Has3(data, "spec", "to", "name", Str(service))
              && PortOf(data, port)
              && (tls <==> || Has3(data, "spec", "tls", "termination", Str("reencrypt"))
                           || Has3(data, "spec", "tls", "termination", Str("passthrough")))
  {
    var spec := data.Get("spec");
    var service := StrOf(Member(Member(spec, "to"), "name"));
    if service.Some? { assert Has3(data, "spec", "to", "name", Str(service.value)); }
    var target := Member(Member(spec, "port"), "targetPort");
    if target.Some? { assert Has3(data, "spec", "port", "targetPort", target.value); }
  }

  /** What admission puts into a Route: exactly this ingress, and nothing but the status changes. */
  ghost predicate AdmittedVersion(before: Json, after: Json, host: string, now: string) {
    && Has2(after, "status", "ingress", Arr([Obj(map[
         "host" := Str(host), "routerName" := Str("default"),
         "routerCanonicalHostname" := Str("router-default.apps.ocp-sim.test"),
         "conditions" := Arr([Obj(map["type" := Str("Admitted"), "status" := Str("True"), "lastTransitionTime" := Str(now)])])])]))
    && forall k :: k != "status" ==> after.Get(k) == before.Get(k)
  }

  lemma AdmissionWrites(data: Json, host: string, now: string)
    ensures AdmittedVersion(data, MergePatch(data, AdmissionPatch(host, now)), host, now)
  {
    assert "router-default." + DOMAIN == "router-default.apps.ocp-sim.test";
    var status := AdmissionPatch(host, now).fields["status"];
    StatusPatchEffect(data, status);
    assert MergePatch(data.Get("status").GetOr(Null), status).Get("ingress") == Some(status.fields["ingress"]);
  }

  lemma AdmittedVersionMeans(before: Json, after: Json, host: string, now: string)
    requires AdmittedVersion(before, after, host, now)
    ensures IsAdmitted(after) && StatusHost(after) == Some(host) && SpecHost(after) == SpecHost(before)
    ensures ExtractBackend(after) == ExtractBackend(before)
  {
    var ingress := after.fields["status"].fields["ingress"].items;
    var conds := ingress[0].fields["conditions"].items;
    assert AdmittedBy(after, ingress, 0, conds, 0);
    AdmittedMeans(after);
  }

  /** A reconcile admits the Route exactly when the version it saw does not say that it is admitted. */
  lemma AdmitMeans(w: World, key: Key, seen: nat, now: string)
    requires key in w.versions && seen < |w.versions[key]|
    ensures var vs, w' := w.versions[key], Step(w, Admit(key, seen, now));
            if SaysAdmitted(vs[seen]) then w' == w
            else
              && key in w'.versions && |w'.versions[key]| == |vs| + 1 && vs <= w'.versions[key]
              && w' == w.(versions := w.versions[key := w'.versions[key]])
              && AdmittedVersion(Latest(vs), Latest(w'.versions[key]), ComputeHost(key, vs[seen]), now)
  {
    AdmittedMeans(w.versions[key][seen]);
    AdmissionWrites(Latest(w.versions[key]), ComputeHost(key, w.versions[key][seen]), now);
  }

  /** Once admitted, a reconcile that has seen it writes nothing. */
  lemma AdmittedOnce(w: World, key: Key, seen: nat, now: string, later: string)
    requires key in w.versions && seen < |w.versions[key]| && !SaysAdmitted(w.versions[key][seen])
    ensures var w' := Step(w, Admit(key, seen, now));
            Step(w', Admit(key, |w.versions[key]|, later)) == w'
  {
    var vs, w' := w.versions[key], Step(w, Admit(key, seen, now));
    AdmitMeans(w, key, seen, now);
    AdmittedVersionMeans(Latest(vs), Latest(w'.versions[key]), ComputeHost(key, vs[seen]), now);
    AdmittedMeans(Latest(w'.versions[key]));
    AdmitMeans(w', key, |vs|, later);
  }

  /** A new Route with a backend is served under its host once it has been admitted and watched. */
  lemma NewRouteServed(w: World, key: Key, data: Json, now: string)
    requires key !in w.versions && data.Get("status").None?
    requires exists s :: Has3(data, "spec", "to", "name", Str(s))
    ensures var w' := Step(Step(Step(w, Create(key, data)), Admit(key, 0, now)), WatchRoute(key, 1));
            && ComputeHost(key, data) in w'.table
            && AsksFor(key, data, w'.table[ComputeHost(key, data)])
            && w'.table - {ComputeHost(key, data)} == w.table - {ComputeHost(key, data)}
  {
    var w1 := Step(w, Create(key, data));
    var w2 := Step(w1, Admit(key, 0, now));
    assert !SaysAdmitted(data);
    AdmitMeans(w1, key, 0, now);
    AdmittedVersionMeans(data, w2.versions[key][1], ComputeHost(key, data), now);
    BackendMeans(data);
    WatchInserts(w2, key, 1);
  }

  lemma WatchInserts(w: World, key: Key, seen: nat)
    requires key in w.versions && seen < |w.versions[key]|
    requires ExtractHost(w.versions[key][seen]).Some? && ExtractBackend(w.versions[key][seen]).Some?
    ensures var data, w' := w.versions[key][seen], Step(w, WatchRoute(key, seen));
            var host := ExtractHost(data).value;
            && host in w'.table && AsksFor(key, data, w'.table[host]) && w'.table == w.table[host := w'.table[host]]
  {
  }

  /** The Gateway's watcher puts its backend under each of the hosts, and touches no other host. */
  lemma {:induction false} GatewayServed(w: World, hosts: seq<string>, backend: RouteBackend, host: string)
    ensures var w' := Step(w, WatchGateway(hosts, backend));
            && w'.versions == w.versions
            && (host in hosts ==> host in w'.table && w'.table[host] == backend)
            && (host !in hosts ==> (host in w'.table <==> host in w.table) && (host in w.table ==> w'.table[host] == w.table[host]))
  {
    if hosts != [] {
      var n := |hosts| - 1;
      GatewayServed(w, hosts[..n], backend, host);
      assert hosts == hosts[..n] + [hosts[n]];
    }
  }

  /** An edit becomes the latest version exactly when the Route exists and neither its host nor its status changes. */
  lemma EditMeans(w: World, key: Key, data: Json)
    requires key in w.versions ==> w.versions[key] != []
    ensures Step(w, Edit(key, data)) ==
            if key in w.versions && SpecHost(data) == SpecHost(Latest(w.versions[key]))
               && data.Get("status") == Latest(w.versions[key]).Get("status")
            then w.(versions := w.versions[key := w.versions[key] + [data]]) else w
  {
  }
}
