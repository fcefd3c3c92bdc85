/** The order in which the API server lists HTTPRoutes, and when routing decisions depend on it (simulator/src/gateway.rs). */
module GatewayOrder {
  import opened Prelude
  import opened Gateway
  import opened Json

  /** The first rule for exactly this prefix that has a backend. */
  function Leader(rules: seq<Rule>, p: string): (r: Option<Rule>)
    ensures r.Some? ==> r.value in rules && Routable(r.value) && r.value.prefix == p
  {
    if rules == [] then None
    else if Routable(rules[0]) && rules[0].prefix == p then Some(rules[0])
    else Leader(rules[1..], p)
  }

  lemma {:induction false} LeaderAppend(a: seq<Rule>, b: seq<Rule>, p: string)
    ensures Leader(a + b, p) == if Leader(a, p).Some? then Leader(a, p) else Leader(b, p)
  {
    if a == [] {
      assert a + b == b;
    } else {
      assert (a + b)[1..] == a[1..] + b;
      LeaderAppend(a[1..], b, p);
    }
  }

  lemma {:induction false} LeaderAt(rules: seq<Rule>, i: nat)
    requires i < |rules| && Routable(rules[i])
    requires forall j :: 0 <= j < i && Routable(rules[j]) ==> rules[j].prefix != rules[i].prefix
    ensures Leader(rules, rules[i].prefix) == Some(rules[i])
  {
    if i > 0 {
      assert forall j :: 0 <= j < |rules[1..]| ==> rules[1..][j] == rules[j + 1];
      LeaderAt(rules[1..], i - 1);
    }
  }

  /** The winner for a path is the leader of its own prefix. */
  lemma WinnerLeads(rules: seq<Rule>, path: string, i: nat)
    requires Wins(rules, path, i)
    ensures Leader(rules, rules[i].prefix) == Some(rules[i])
  {
    LeaderAt(rules, i);
  }

  /** A leader decides its own prefix. */
  lemma LeaderDecides(rules: seq<Rule>, p: string)
    requires Leader(rules, p).Some?
    ensures Decide(rules, p) == Some(EntryFor(Leader(rules, p).value))
  {
    var k :| 0 <= k < |rules| && rules[k] == Leader(rules, p).value;
    var i := WinnerExists(rules, p, k);
    assert rules[i].prefix == p;
    WinnerLeads(rules, p, i);
    RoutingMeaning(rules, p);
  }

  // ---- rules of many routes ----

  /** Listing the routes in another order permutes the rules. */
  lemma RulesPermuted(routes: seq<HttpRoute>, other: seq<HttpRoute>)
    requires multiset(other) == multiset(routes)
    ensures multiset(AllRules(other)) == multiset(AllRules(routes))
  {
    FlattenPermuted(RouteRules, routes, other);
  }

  /** The leader for a prefix over all routes is the leader within some route. */
  lemma {:induction false} LeaderOrigin(routes: seq<HttpRoute>, p: string) returns (x: HttpRoute)
    requires Leader(AllRules(routes), p).Some?
    ensures x in routes && Leader(RouteRules(x), p) == Leader(AllRules(routes), p)
  {
    var n := |routes| - 1;
    LeaderAppend(AllRules(routes[..n]), RouteRules(routes[n]), p);
    if Leader(AllRules(routes[..n]), p).Some? {
      x := LeaderOrigin(routes[..n], p);
    } else {
      x := routes[n];
    }
  }

  /** Routes that have rules for the same prefix send it to the same cluster, each by its first such rule. */
  ghost predicate RoutesAgree(routes: seq<HttpRoute>) {
    forall x, y, p :: x in routes && y in routes && Leader(RouteRules(x), p).Some? && Leader(RouteRules(y), p).Some? ==>
      EntryFor(Leader(RouteRules(x), p).value) == EntryFor(Leader(RouteRules(y), p).value)
  }

  lemma SameRoutes(routes: seq<HttpRoute>, other: seq<HttpRoute>, x: HttpRoute)
    requires multiset(other) == multiset(routes) && x in other
    ensures x in routes
  {
    assert x in multiset(routes);
  }

  lemma SameDecision(routes: seq<HttpRoute>, other: seq<HttpRoute>, path: string)
    requires multiset(other) == multiset(routes) && RoutesAgree(routes)
    ensures Decide(AllRules(other), path) == Decide(AllRules(routes), path)
  {
    var a, b := AllRules(routes), AllRules(other);
    RulesPermuted(routes, other);
    SameMembers(a, b);
    RoutingMeaning(a, path);
    RoutingMeaning(b, path);
    if i: nat :| Wins(a, path, i) {
      var j := WinnerTransfers(a, b, path, i);
      SamePrefix(a[i].prefix, b[j].prefix, path);
      WinnerLeads(a, path, i);
      WinnerLeads(b, path, j);
      var x := LeaderOrigin(routes, a[i].prefix);
      var y := LeaderOrigin(other, b[j].prefix);
      SameRoutes(routes, other, y);
    } else if j: nat :| Wins(b, path, j) {
      var i := WinnerTransfers(b, a, path, j);
    }
  }

  function RouteToFront(routes: seq<HttpRoute>, i: nat): (r: seq<HttpRoute>)
    requires i < |routes|
    ensures multiset(r) == multiset(routes)
    ensures r != [] && r[0] == routes[i]
  {
    assert routes == routes[..i] + [routes[i]] + routes[i + 1..];
    [routes[i]] + (routes[..i] + routes[i + 1..])
  }

  /** The route listed first decides the prefixes it has rules for. */
  lemma FirstRouteDecides(routes: seq<HttpRoute>, p: string)
    requires routes != [] && Leader(RouteRules(routes[0]), p).Some?
    ensures Decide(AllRules(routes), p) == Some(EntryFor(Leader(RouteRules(routes[0]), p).value))
  {
    assert routes == [routes[0]] + routes[1..];
    FlattenAppend(RouteRules, [routes[0]], routes[1..]);
    FlattenOne(RouteRules, routes[0]);
    LeaderAppend(RouteRules(routes[0]), AllRules(routes[1..]), p);
    LeaderDecides(AllRules(routes), p);
  }

  ghost predicate ListingIrrelevant(routes: seq<HttpRoute>) {
    forall other, path :: multiset(other) == multiset(routes) ==>
      Decide(AllRules(other), path) == Decide(AllRules(routes), path)
  }

  /** Decisions do not depend on the order in which the routes are listed exactly when routes that share a prefix agree on it. */
  lemma RouteOrderIndependence(routes: seq<HttpRoute>)
    ensures ListingIrrelevant(routes) <==> RoutesAgree(routes)
  {
    if RoutesAgree(routes) {
      forall other, path | multiset(other) == multiset(routes)
        ensures Decide(AllRules(other), path) == Decide(AllRules(routes), path)
      {
        SameDecision(routes, other, path);
      }
    }
    if ListingIrrelevant(routes) {
      forall x, y, p | x in routes && y in routes && Leader(RouteRules(x), p).Some? && Leader(RouteRules(y), p).Some?
        ensures EntryFor(Leader(RouteRules(x), p).value) == EntryFor(Leader(RouteRules(y), p).value)
      {
        var i :| 0 <= i < |routes| && routes[i] == x;
        var j :| 0 <= j < |routes| && routes[j] == y;
        FirstRouteDecides(RouteToFront(routes, i), p);
        FirstRouteDecides(RouteToFront(routes, j), p);
        assert Decide(AllRules(RouteToFront(routes, i)), p) == Decide(AllRules(routes), p);
        assert Decide(AllRules(RouteToFront(routes, j)), p) == Decide(AllRules(routes), p);
      }
    }
  }

  /** A route of the gateway with one rule: the prefix `p` goes to port 80 of a service. */
  function SimpleRoute(ns: string, p: string, service: string): (route: HttpRoute) {
    HttpRoute(ns, Obj(map["spec" := Obj(map[
      "parentRefs" := Arr([Obj(map["name" := Str(GATEWAY_NAME)])]),
      "rules" := Arr([Obj(map[
        "matches" := Arr([Obj(map["path" := Obj(map["value" := Str(p)])])]),
        "backendRefs" := Arr([Obj(map["name" := Str(service)])])])])])]))
  }

  lemma SimpleRules(ns: string, p: string, service: string)
    requires service != ""
    ensures RouteRules(SimpleRoute(ns, p, service)) == [Rule(p, [Backend(service, ns, 80)])]
  {
    var route := SimpleRoute(ns, p, service);
    var spec := route.data.Get("spec");
    var ref := Obj(map["name" := Str(service)]);
    var parents := ArrayOf(Member(spec, "parentRefs")).GetOr([]);
    assert parents == [Obj(map["name" := Str(GATEWAY_NAME)])];
    assert StrOf(parents[0].Get("name")) == Some(GATEWAY_NAME);
    var rule := ArrayOf(Member(spec, "rules")).value[0];
    assert PrefixOf(rule) == p;
    assert ArrayOf(rule.Get("backendRefs")) == Some([ref]);
    assert [ref][..0] == [];
    assert BackendsOf([ref], ns) == BackendsOf([], ns) + [Backend(service, ns, 80)];
    assert RuleOf(rule, ns) == Rule(p, [Backend(service, ns, 80)]);
    assert RulesOf(route) == [RuleOf(rule, ns)];
  }

  /** Two such routes for one prefix: the decision depends on which is listed first. */
  lemma ListingMatters(ns: string, p: string, s: string, t: string)
    requires s != "" && t != "" && ClusterName(Backend(s, ns, 80)) != ClusterName(Backend(t, ns, 80))
    ensures !ListingIrrelevant([SimpleRoute(ns, p, s), SimpleRoute(ns, p, t)])
  {
    var x, y := SimpleRoute(ns, p, s), SimpleRoute(ns, p, t);
    SimpleRules(ns, p, s);
    SimpleRules(ns, p, t);
    LeaderAt([Rule(p, [Backend(s, ns, 80)])], 0);
    LeaderAt([Rule(p, [Backend(t, ns, 80)])], 0);
    TheyDisagree([x, y], x, y, p);
  }

  lemma TheyDisagree(routes: seq<HttpRoute>, x: HttpRoute, y: HttpRoute, p: string)
    requires x in routes && y in routes && Leader(RouteRules(x), p).Some? && Leader(RouteRules(y), p).Some?
    requires EntryFor(Leader(RouteRules(x), p).value) != EntryFor(Leader(RouteRules(y), p).value)
    ensures !ListingIrrelevant(routes)
  {
    RouteOrderIndependence(routes);
  }
}
