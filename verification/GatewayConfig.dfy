/** The cluster table, its agreement with the route table, and the generator loops (simulator/src/gateway.rs). */
module GatewayConfig {
  import opened Prelude
  import opened Json
  import opened Gateway

  // ---- the cluster table ----

  const AUTH_PROXY := Cluster(KUBE_AUTH_PROXY, "kube-auth-proxy.openshift-ingress.svc.cluster.local", 8443, true)

  function ClusterFor(b: Backend, tlsPorts: set<nat>): (c: Cluster) {
    Cluster(ClusterName(b), b.service + ['.'] + b.namespace + ".svc.cluster.local", b.port, b.port in tlsPorts)
  }

  /** The cluster stands for this backend: its name, the service's address in the cluster, its port, TLS by its port. */
  predicate StandsFor(c: Cluster, b: Backend, tlsPorts: set<nat>) {
    && c.name == b.service + "_" + b.namespace + "_" + Decimal(b.port)
    && c.address == b.service + "." + b.namespace + ".svc.cluster.local"
    && c.port == b.port
    && (c.tls <==> b.port in tlsPorts)
  }

  lemma ClusterStandsFor(b: Backend, tlsPorts: set<nat>)
    ensures StandsFor(ClusterFor(b, tlsPorts), b, tlsPorts)
    ensures forall c :: StandsFor(c, b, tlsPorts) ==> c == ClusterFor(b, tlsPorts)
  {
  }

  /** Every backend of every rule, in the order the generator visits them. */
  function AllBackends(rules: seq<Rule>): (bs: seq<Backend>) {
    Flatten((r: Rule) => r.backends, rules)
  }

  function Names(bs: seq<Backend>): (r: set<string>) {
    set i | 0 <= i < |bs| :: ClusterName(bs[i])
  }

  /** Keeps the first backend of each cluster name. */
  function FirstOfName(bs: seq<Backend>): (r: seq<Backend>) {
    if bs == [] then []
    else
      var n := |bs| - 1;
      FirstOfName(bs[..n]) + if ClusterName(bs[n]) in Names(bs[..n]) then [] else [bs[n]]
  }

  /** Keeps the first occurrence of each (service, namespace, port). */
  function FirstOfBackend(bs: seq<Backend>): (r: seq<Backend>) {
    if bs == [] then []
    else
      var n := |bs| - 1;
      FirstOfBackend(bs[..n]) + if bs[n] in bs[..n] then [] else [bs[n]]
  }

  function ClustersFor(bs: seq<Backend>, tlsPorts: set<nat>): (r: seq<Cluster>)
    ensures |r| == |bs|
    ensures forall i :: 0 <= i < |bs| ==> r[i] == ClusterFor(bs[i], tlsPorts)
  {
    seq(|bs|, i requires 0 <= i < |bs| => ClusterFor(bs[i], tlsPorts))
  }

  function TableFor(bs: seq<Backend>, tlsPorts: set<nat>): (r: seq<Cluster>) {
    [AUTH_PROXY] + ClustersFor(FirstOfName(bs), tlsPorts)
  }

  function ClusterTable(rules: seq<Rule>, tlsPorts: set<nat>): (r: seq<Cluster>) {
    TableFor(AllBackends(rules), tlsPorts)
  }

  /** Where Envoy sends a cluster name. */
  function Resolve(clusters: seq<Cluster>, name: string): (r: Option<Cluster>)
    ensures r.Some? ==> r.value in clusters && r.value.name == name
    ensures r.Some? <==> exists i :: 0 <= i < |clusters| && clusters[i].name == name
  {
    if clusters == [] then None
    else if clusters[0].name == name then Some(clusters[0])
    else
      var r := Resolve(clusters[1..], name);
      assert forall i :: 1 <= i < |clusters| ==> clusters[i] == clusters[1..][i - 1];
      assert forall i :: 0 <= i < |clusters[1..]| ==> clusters[1..][i] == clusters[i + 1];
      r
  }

  // ---- names ----

  /** Backend clusters never take the name of the authentication proxy. */
  lemma NameHasUnderscore(b: Backend)
    ensures ClusterName(b) != KUBE_AUTH_PROXY
  {
    assert ClusterName(b)[|b.service|] == '_';
    assert forall i :: 0 <= i < |KUBE_AUTH_PROXY| ==> KUBE_AUTH_PROXY[i] != '_';
  }

  /** Cluster names identify backends whose namespaces have no underscore (no Kubernetes namespace has one). */
  lemma NamesInjective(b: Backend, c: Backend)
    requires '_' !in b.namespace && '_' !in c.namespace
    requires ClusterName(b) == ClusterName(c)
    ensures b == c
  {
    LastSeparatorUnique('_', b.service + ['_'] + b.namespace, Decimal(b.port),
                        c.service + ['_'] + c.namespace, Decimal(c.port));
    LastSeparatorUnique('_', b.service, b.namespace, c.service, c.namespace);
    DecimalInjective(b.port, c.port);
  }

  lemma NamesCollide()
    ensures var b, c := Backend("a_b", "c", 80), Backend("a", "b_c", 80);
            ClusterName(b) == ClusterName(c) && b.service + "." + b.namespace != c.service + "." + c.namespace
  {
    var b, c := Backend("a_b", "c", 80), Backend("a", "b_c", 80);
    assert b.service + ['_'] + b.namespace == "a_b_c" == c.service + ['_'] + c.namespace;
    assert (b.service + "." + b.namespace)[1] == '_' && (c.service + "." + c.namespace)[1] == '.';
  }

  lemma {:induction false} FirstOfNameMembers(bs: seq<Backend>)
    ensures Names(FirstOfName(bs)) == Names(bs)
    ensures forall b :: b in FirstOfName(bs) ==> b in bs
    ensures forall i, j :: 0 <= i < j < |FirstOfName(bs)| ==>
                             ClusterName(FirstOfName(bs)[i]) != ClusterName(FirstOfName(bs)[j])
  {
    if bs != [] {
      var n := |bs| - 1;
      FirstOfNameMembers(bs[..n]);
      var kept := FirstOfName(bs[..n]);
      assert Names(bs) == Names(bs[..n]) + {ClusterName(bs[n])} by { NamesSnoc(bs[..n], bs[n]); assert bs == bs[..n] + [bs[n]]; }
      if ClusterName(bs[n]) !in Names(bs[..n]) {
        NamesSnoc(kept, bs[n]);
        forall i | 0 <= i < |kept| ensures ClusterName(kept[i]) != ClusterName(bs[n]) {
          assert ClusterName(kept[i]) in Names(kept);
        }
      } else {
        assert FirstOfName(bs) == kept;
      }
    }
  }

  lemma NamesSnoc(bs: seq<Backend>, b: Backend)
    ensures Names(bs + [b]) == Names(bs) + {ClusterName(b)}
  {
    var all := bs + [b];
    assert forall i :: 0 <= i < |bs| ==> all[i] == bs[i];
    assert all[|bs|] == b;
    forall name ensures name in Names(all) <==> name in Names(bs) + {ClusterName(b)} {
      if name in Names(bs) {
        var i :| 0 <= i < |bs| && ClusterName(bs[i]) == name;
        assert ClusterName(all[i]) == name;
      }
      if name in Names(all) {
        var i :| 0 <= i < |all| && ClusterName(all[i]) == name;
      }
    }
  }

  /** Deduplicating by name is deduplicating by backend when namespaces have no underscore. */
  lemma {:induction false} DedupByName(bs: seq<Backend>)
    requires forall b :: b in bs ==> '_' !in b.namespace
    ensures FirstOfName(bs) == FirstOfBackend(bs)
  {
    if bs != [] {
      var n := |bs| - 1;
      DedupByName(bs[..n]);
      assert ClusterName(bs[n]) in Names(bs[..n]) <==> bs[n] in bs[..n] by {
        if bs[n] in bs[..n] {
          var i :| 0 <= i < n && bs[..n][i] == bs[n];
        }
        if ClusterName(bs[n]) in Names(bs[..n]) {
          var i :| 0 <= i < n && ClusterName(bs[..n][i]) == ClusterName(bs[n]);
          NamesInjective(bs[..n][i], bs[n]);
        }
      }
    }
  }

  /** No two clusters share a name, the authentication proxy's included. */
  lemma ClusterNamesDistinct(rules: seq<Rule>, tlsPorts: set<nat>)
    ensures forall i, j :: 0 <= i < j < |ClusterTable(rules, tlsPorts)| ==>
                             ClusterTable(rules, tlsPorts)[i].name != ClusterTable(rules, tlsPorts)[j].name
  {
    var kept := FirstOfName(AllBackends(rules));
    var table := ClusterTable(rules, tlsPorts);
    FirstOfNameMembers(AllBackends(rules));
    forall i, j | 0 <= i < j < |table| ensures table[i].name != table[j].name {
      assert table[j] == ClusterFor(kept[j - 1], tlsPorts);
      if i == 0 {
        NameHasUnderscore(kept[j - 1]);
      } else {
        assert table[i] == ClusterFor(kept[i - 1], tlsPorts);
      }
    }
  }

  lemma {:induction false} BackendListed(rules: seq<Rule>, b: Backend)
    ensures b in AllBackends(rules) <==> InRules(rules, b)
  {
    if rules != [] {
      var n := |rules| - 1;
      BackendListed(rules[..n], b);
      assert forall i :: 0 <= i < n ==> rules[i] == rules[..n][i];
    }
  }

  /** A listed backend's name is defined, by a cluster built from a backend of that name. */
  lemma NameDefined(rules: seq<Rule>, tlsPorts: set<nat>, b: Backend) returns (c: Backend)
    requires b in AllBackends(rules)
    ensures c in AllBackends(rules) && ClusterName(c) == ClusterName(b)
    ensures Resolve(ClusterTable(rules, tlsPorts), ClusterName(b)) == Some(ClusterFor(c, tlsPorts))
  {
    var bs := AllBackends(rules);
    var kept := FirstOfName(bs);
    var table := ClusterTable(rules, tlsPorts);
    FirstOfNameMembers(bs);
    NameInSet(bs, b);
    var i :| 0 <= i < |kept| && ClusterName(kept[i]) == ClusterName(b);
    assert table[i + 1] == ClusterFor(kept[i], tlsPorts);
    var found := Resolve(table, ClusterName(b)).value;
    var k :| 0 <= k < |table| && table[k] == found;
    NameHasUnderscore(b);
    c := kept[k - 1];
    assert table[k] == ClusterFor(c, tlsPorts);
    assert c in kept;
  }

  lemma NameInSet(bs: seq<Backend>, b: Backend)
    requires b in bs
    ensures ClusterName(b) in Names(bs)
  {
    var i :| 0 <= i < |bs| && bs[i] == b;
  }

  // ---- route table and cluster table together ----

  /** Every cluster a route entry names is defined exactly once, and has TLS exactly when its port is a TLS port. */
  lemma TablesClosed(rules: seq<Rule>, tlsPorts: set<nat>, e: RouteEntry)
    requires e in RouteTable(rules) && e.Forward?
    ensures var table := ClusterTable(rules, tlsPorts);
            exists i :: && 0 <= i < |table| && table[i].name == e.cluster && (table[i].tls <==> table[i].port in tlsPorts)
                        && forall j :: 0 <= j < |table| && table[j].name == e.cluster ==> j == i
  {
    var table := ClusterTable(rules, tlsPorts);
    var r := EntryOrigin(rules, e);
    var b := r.backends[0];
    var k :| 0 <= k < |rules| && rules[k] == r;
    BackendListed(rules, b);
    var c := NameDefined(rules, tlsPorts, b);
    var i :| 0 <= i < |table| && table[i] == ClusterFor(c, tlsPorts);
    ClusterNamesDistinct(rules, tlsPorts);
  }

  lemma EntryOrigin(rules: seq<Rule>, e: RouteEntry) returns (r: Rule)
    requires e in RouteTable(rules) && e.Forward?
    ensures r in rules && Routable(r) && e == EntryFor(r)
  {
    var s := SortByLength(rules);
    CatchAll(rules);
    SortMembers(rules);
    r := EmitOrigin(s, e);
    assert r in s;
  }

  lemma {:induction false} EmitOrigin(s: seq<Rule>, e: RouteEntry) returns (r: Rule)
    requires e in Emit(s)
    ensures r in s && Routable(r) && e == EntryFor(r)
  {
    var n := |s| - 1;
    if e in Emit(s[..n]) {
      r := EmitOrigin(s[..n], e);
    } else {
      r := s[n];
    }
  }

  /** The backend occurs in some rule. */
  ghost predicate InRules(rules: seq<Rule>, b: Backend) {
    exists i :: 0 <= i < |rules| && b in rules[i].backends
  }

  /** Backends that share a cluster name also share the address and port behind it. */
  ghost predicate NamesUnambiguous(rules: seq<Rule>) {
    forall b, c :: InRules(rules, b) && InRules(rules, c) && ClusterName(b) == ClusterName(c) ==>
                     b.service + "." + b.namespace == c.service + "." + c.namespace && b.port == c.port
  }

  /** The cluster a backend's name resolves to stands for that backend. */
  ghost predicate Reached(rules: seq<Rule>, tlsPorts: set<nat>, b: Backend) {
    var c := Resolve(ClusterTable(rules, tlsPorts), b.service + "_" + b.namespace + "_" + Decimal(b.port));
    c.Some? && StandsFor(c.value, b, tlsPorts)
  }

  ghost predicate AllReachable(rules: seq<Rule>, tlsPorts: set<nat>) {
    forall b :: InRules(rules, b) ==> Reached(rules, tlsPorts, b)
  }

  /** Every backend is reached at its own address exactly when no two backends collide on a cluster name. */
  lemma ReachableIff(rules: seq<Rule>, tlsPorts: set<nat>)
    ensures AllReachable(rules, tlsPorts) <==> NamesUnambiguous(rules)
  {
    if NamesUnambiguous(rules) {
      forall b | InRules(rules, b) ensures Reached(rules, tlsPorts, b) {
        BackendListed(rules, b);
        var c := NameDefined(rules, tlsPorts, b);
        BackendListed(rules, c);
        SameAddress(b, c, tlsPorts);
      }
    }
    if AllReachable(rules, tlsPorts) {
      forall b, c | InRules(rules, b) && InRules(rules, c) && ClusterName(b) == ClusterName(c)
        ensures b.service + "." + b.namespace == c.service + "." + c.namespace && b.port == c.port
      {
        assert Reached(rules, tlsPorts, b) && Reached(rules, tlsPorts, c);
        SuffixCancels(b.service + "." + b.namespace, c.service + "." + c.namespace);
      }
    }
  }

  lemma SameAddress(b: Backend, c: Backend, tlsPorts: set<nat>)
    requires ClusterName(b) == ClusterName(c)
    requires b.service + "." + b.namespace == c.service + "." + c.namespace && b.port == c.port
    ensures StandsFor(ClusterFor(c, tlsPorts), b, tlsPorts)
  {
  }

  lemma SuffixCancels(x: string, y: string)
    requires x + ".svc.cluster.local" == y + ".svc.cluster.local"
    ensures x == y
  {
    assert |x| == |y|;
    assert x == (x + ".svc.cluster.local")[..|x|] && y == (y + ".svc.cluster.local")[..|y|];
  }

  /** Rules with such a pair: one of the two backends is reached at the other's address, whatever prefixes and TLS ports. */
  lemma CollisionUnreachable(p: string, q: string, tlsPorts: set<nat>)
    ensures var b, c := Backend("a_b", "c", 80), Backend("a", "b_c", 80);
            !AllReachable([Rule(p, [b]), Rule(q, [c])], tlsPorts)
  {
    var b, c := Backend("a_b", "c", 80), Backend("a", "b_c", 80);
    NamesCollide();
    CollidingPair(b, c, p, q, tlsPorts);
  }

  lemma CollidingPair(b: Backend, c: Backend, p: string, q: string, tlsPorts: set<nat>)
    requires ClusterName(b) == ClusterName(c) && b.service + "." + b.namespace != c.service + "." + c.namespace
    ensures !AllReachable([Rule(p, [b]), Rule(q, [c])], tlsPorts)
  {
    var rules := [Rule(p, [b]), Rule(q, [c])];
    assert b in rules[0].backends && c in rules[1].backends;
    ReachableIff(rules, tlsPorts);
  }

  /** A path ends at the first backend of its longest-prefix rule, when namespaces have no underscore. */
  lemma PathReachesBackend(rules: seq<Rule>, tlsPorts: set<nat>, path: string, i: nat)
    requires Wins(rules, path, i)
    requires forall r, b :: r in rules && b in r.backends ==> '_' !in b.namespace
    ensures Decide(rules, path).Some? && Decide(rules, path).value.Forward?
    ensures var c := Resolve(ClusterTable(rules, tlsPorts), Decide(rules, path).value.cluster);
            c.Some? && StandsFor(c.value, rules[i].backends[0], tlsPorts)
  {
    RoutingMeaning(rules, path);
    forall b | b in AllBackends(rules) ensures '_' !in b.namespace {
      BackendListed(rules, b);
    }
    BackendListed(rules, rules[i].backends[0]);
    var c := NameDefined(rules, tlsPorts, rules[i].backends[0]);
    NamesInjective(c, rules[i].backends[0]);
  }

  // ---- the generators as written ----

  method ExtractHttpRouteRules(route: HttpRoute) returns (rules: seq<Rule>)
    ensures rules == RulesOf(route)
  {
    rules := [];
    var spec := route.data.Get("spec");
    if spec.None? { return; }
    var ruleArr := ArrayOf(spec.value.Get("rules"));
    if ruleArr.None? { return; }
    for i := 0 to |ruleArr.value|
      invariant |rules| == i
      invariant forall k :: 0 <= k < i ==> rules[k] == RuleOf(ruleArr.value[k], route.namespace)
    {
      var rule := ruleArr.value[i];
      var backends: seq<Backend> := [];
      var refs := ArrayOf(rule.Get("backendRefs"));
      if refs.Some? {
        for j := 0 to |refs.value|
          invariant backends == BackendsOf(refs.value[..j], route.namespace)
        {
          var b := BackendOf(refs.value[j], route.namespace);
          assert refs.value[..j + 1][..j] == refs.value[..j];
          if b.service != "" {
            backends := backends + [b];
          }
        }
        assert refs.value[..|refs.value|] == refs.value;
      }
      rules := rules + [Rule(PrefixOf(rule), backends)];
    }
  }

  method ExtractTlsPorts(dr: Json) returns (ports: set<nat>)
    ensures forall p: nat :: p in ports <==> HasTlsPort(dr, p)
  {
    ports := {};
    var settings := ArrayOf(Member(Member(dr.Get("spec"), "trafficPolicy"), "portLevelSettings")).GetOr([]);
    for i := 0 to |settings|
      invariant forall p: nat :: p in ports <==> exists k :: 0 <= k < i && SettingHasTls(settings[k], p)
    {
      var setting := settings[i];
      if StrOf(Member(setting.Get("tls"), "mode")).Some? {
        var number := U64Of(Member(setting.Get("port"), "number"));
        if number.Some? {
          ports := ports + {number.value % 0x1_0000};
        }
      }
    }
  }

  method GenerateRds(rules: seq<Rule>) returns (entries: seq<RouteEntry>)
    ensures entries == RouteTable(rules)
    ensures forall path, i: nat :: Wins(rules, path, i) ==>
              var b := rules[i].backends[0];
              FirstMatch(entries, path) == Some(Forward(rules[i].prefix, b.service + "_" + b.namespace + "_" + Decimal(b.port)))
    ensures (exists e :: e in entries && e.Unavailable?) <==> !AnyRoutable(rules)
  {
    entries := [];
    var sorted := SortByLength(rules);
    for k := 0 to |sorted|
      invariant entries == Emit(sorted[..k])
    {
      assert sorted[..k + 1][..k] == sorted[..k];
      if sorted[k].backends != [] {
        entries := entries + [Forward(sorted[k].prefix, ClusterName(sorted[k].backends[0]))];
      }
    }
    assert sorted[..|sorted|] == sorted;
    if entries == [] {
      entries := [Unavailable("/")];
    }
    CatchAll(rules);
    assert !AnyRoutable(rules) ==> Unavailable("/") in entries;
    forall path, i: nat | Wins(rules, path, i) ensures FirstMatch(entries, path) == Some(EntryFor(rules[i])) {
      RoutingMeaning(rules, path);
    }
  }

  /** The cluster of the authentication proxy, then one for each of some backends of the rules. */
  ghost predicate ClustersOf(rules: seq<Rule>, tlsPorts: set<nat>, clusters: seq<Cluster>) {
    && clusters != []
    && clusters[0] == Cluster("kube-auth-proxy", "kube-auth-proxy.openshift-ingress.svc.cluster.local", 8443, true)
    && (forall k :: 1 <= k < |clusters| ==> exists b :: InRules(rules, b) && StandsFor(clusters[k], b, tlsPorts))
    && (forall b :: InRules(rules, b) ==>
          exists k :: 1 <= k < |clusters| && clusters[k].name == b.service + "_" + b.namespace + "_" + Decimal(b.port))
  }

  lemma ClusterOrigin(rules: seq<Rule>, tlsPorts: set<nat>, k: nat) returns (b: Backend)
    requires 1 <= k < |ClusterTable(rules, tlsPorts)|
    ensures InRules(rules, b) && StandsFor(ClusterTable(rules, tlsPorts)[k], b, tlsPorts)
  {
    var kept := FirstOfName(AllBackends(rules));
    FirstOfNameMembers(AllBackends(rules));
    b := kept[k - 1];
    assert b in kept;
    BackendListed(rules, b);
    ClusterStandsFor(b, tlsPorts);
  }

  lemma ClusterExists(rules: seq<Rule>, tlsPorts: set<nat>, b: Backend) returns (k: nat)
    requires InRules(rules, b)
    ensures 1 <= k < |ClusterTable(rules, tlsPorts)|
    ensures ClusterTable(rules, tlsPorts)[k].name == b.service + "_" + b.namespace + "_" + Decimal(b.port)
  {
    var kept := FirstOfName(AllBackends(rules));
    FirstOfNameMembers(AllBackends(rules));
    BackendListed(rules, b);
    NameInSet(AllBackends(rules), b);
    var i :| 0 <= i < |kept| && ClusterName(kept[i]) == ClusterName(b);
    k := i + 1;
    assert ClusterTable(rules, tlsPorts)[k] == ClusterFor(kept[i], tlsPorts);
  }

  lemma TableMeans(rules: seq<Rule>, tlsPorts: set<nat>)
    ensures ClustersOf(rules, tlsPorts, ClusterTable(rules, tlsPorts))
  {
    var table := ClusterTable(rules, tlsPorts);
    forall k | 1 <= k < |table| ensures exists b :: InRules(rules, b) && StandsFor(table[k], b, tlsPorts) {
      var b := ClusterOrigin(rules, tlsPorts, k);
    }
    forall b | InRules(rules, b)
      ensures exists k :: 1 <= k < |table| && table[k].name == b.service + "_" + b.namespace + "_" + Decimal(b.port)
    {
      var k := ClusterExists(rules, tlsPorts, b);
    }
  }

  method GenerateCds(rules: seq<Rule>, tlsPorts: set<nat>) returns (clusters: seq<Cluster>)
    ensures clusters == ClusterTable(rules, tlsPorts)
    ensures ClustersOf(rules, tlsPorts, clusters)
  {
    clusters := [AUTH_PROXY];
    var seen: set<string> := {};
    for i := 0 to |rules|
      invariant seen == Names(AllBackends(rules[..i]))
      invariant clusters == TableFor(AllBackends(rules[..i]), tlsPorts)
    {
      assert rules[..i + 1][..i] == rules[..i];
      clusters, seen := AddBackends(clusters, seen, rules[i].backends, tlsPorts, AllBackends(rules[..i]));
    }
    assert rules[..|rules|] == rules;
    TableMeans(rules, tlsPorts);
  }

  /** The inner loop: one cluster per name not seen before. */
  method AddBackends(
    table: seq<Cluster>, names: set<string>, backends: seq<Backend>, tlsPorts: set<nat>, ghost before: seq<Backend>)
    returns (clusters: seq<Cluster>, seen: set<string>)
    requires names == Names(before) && table == TableFor(before, tlsPorts)
    ensures seen == Names(before + backends) && clusters == TableFor(before + backends, tlsPorts)
  {
    clusters, seen := table, names;
    ghost var visited := before;
    for j := 0 to |backends|
      invariant visited == before + backends[..j]
      invariant seen == Names(visited)
      invariant clusters == TableFor(visited, tlsPorts)
    {
      var name := ClusterName(backends[j]);
      VisitStep(visited, backends[j], tlsPorts);
      visited := visited + [backends[j]];
      if name in seen {
        continue;
      }
      seen := seen + {name};
      clusters := clusters + [ClusterFor(backends[j], tlsPorts)];
    }
    assert backends[..|backends|] == backends;
  }

  lemma VisitStep(visited: seq<Backend>, b: Backend, tlsPorts: set<nat>)
    ensures ClusterName(b) in Names(visited) ==>
              Names(visited + [b]) == Names(visited) && TableFor(visited + [b], tlsPorts) == TableFor(visited, tlsPorts)
    ensures ClusterName(b) !in Names(visited) ==>
              && Names(visited + [b]) == Names(visited) + {ClusterName(b)}
              && TableFor(visited + [b], tlsPorts) == TableFor(visited, tlsPorts) + [ClusterFor(b, tlsPorts)]
  {
    NamesSnoc(visited, b);
    assert (visited + [b])[..|visited|] == visited;
    var kept := FirstOfName(visited);
    if ClusterName(b) in Names(visited) {
      assert FirstOfName(visited + [b]) == kept;
    } else {
      assert ClustersFor(kept + [b], tlsPorts) == ClustersFor(kept, tlsPorts) + [ClusterFor(b, tlsPorts)];
    }
  }

  method CollectRules(routes: seq<HttpRoute>) returns (rules: seq<Rule>)
    ensures rules == AllRules(routes)
  {
    rules := [];
    for i := 0 to |routes|
      invariant rules == AllRules(routes[..i])
    {
      assert routes[..i + 1][..i] == routes[..i];
      assert rules + [] == rules;
      if ReferencesGateway(routes[i]) {
        var more := ExtractHttpRouteRules(routes[i]);
        rules := rules + more;
      }
    }
    assert routes[..|routes|] == routes;
  }

  method CollectTlsPorts(drs: seq<Json>) returns (ports: set<nat>)
    ensures forall p: nat :: p in ports <==> exists i :: 0 <= i < |drs| && HasTlsPort(drs[i], p)
  {
    ports := {};
    for i := 0 to |drs|
      invariant forall p: nat :: p in ports <==> exists k :: 0 <= k < i && HasTlsPort(drs[k], p)
    {
      var more := ExtractTlsPorts(drs[i]);
      ports := ports + more;
    }
  }

  /** `sync_httproute_config`: a failed DestinationRule list counts as no TLS ports. */
  method SyncHttpRouteConfig(routes: seq<HttpRoute>, destinationRules: Option<seq<Json>>)
    returns (rds: seq<RouteEntry>, cds: seq<Cluster>, ghost tlsPorts: set<nat>)
    ensures rds == RouteTable(AllRules(routes)) && cds == ClusterTable(AllRules(routes), tlsPorts)
    ensures forall p: nat :: p in tlsPorts <==>
              destinationRules.Some? && exists i :: 0 <= i < |destinationRules.value| && HasTlsPort(destinationRules.value[i], p)
    ensures ClustersOf(AllRules(routes), tlsPorts, cds)
  {
    var allRules := CollectRules(routes);
    var ports: set<nat> := {};
    if destinationRules.Some? {
      ports := CollectTlsPorts(destinationRules.value);
    }
    rds := GenerateRds(allRules);
    cds := GenerateCds(allRules, ports);
    tlsPorts := ports;
  }
}
