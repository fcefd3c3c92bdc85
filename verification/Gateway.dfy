/** The HTTPRoute-to-Envoy compiler (simulator/src/gateway.rs): rules in, an ordered route table and a cluster table out. */
module Gateway {
  import opened Prelude
  import opened Json

  const GATEWAY_NAME := "data-science-gateway"
  const KUBE_AUTH_PROXY := "kube-auth-proxy"

  datatype Backend = Backend(service: string, namespace: string, port: nat)

  /** Strings are their UTF-8 bytes, which is what both `len` and Envoy's prefix match look at. */
  datatype Rule = Rule(prefix: string, backends: seq<Backend>)

  datatype RouteEntry =
    | Forward(prefix: string, cluster: string)
    | Unavailable(prefix: string)  // direct response 503

  datatype Cluster = Cluster(name: string, address: string, port: nat, tls: bool)

  datatype HttpRoute = HttpRoute(namespace: string, data: Json)

  // ---- reading HTTPRoutes ----

  function BackendOf(ref: Json, routeNs: string): (b: Backend) {
    Backend(StrOf(ref.Get("name")).GetOr(""),
            StrOf(ref.Get("namespace")).GetOr(routeNs),
            U64Of(ref.Get("port")).GetOr(80) % 0x1_0000)
  }

  function BackendsOf(refs: seq<Json>, routeNs: string): (bs: seq<Backend>) {
    if refs == [] then []
    else
      var n := |refs| - 1;
      var b := BackendOf(refs[n], routeNs);
      BackendsOf(refs[..n], routeNs) + if b.service == "" then [] else [b]
  }

  function PrefixOf(rule: Json): (p: string) {
    StrOf(Member(Member(FirstOf(ArrayOf(rule.Get("matches"))), "path"), "value")).GetOr("/")
  }

  function RuleOf(rule: Json, routeNs: string): (r: Rule) {
    Rule(PrefixOf(rule), BackendsOf(ArrayOf(rule.Get("backendRefs")).GetOr([]), routeNs))
  }

  function RulesOf(route: HttpRoute): (rules: seq<Rule>) {
    var items := ArrayOf(Member(route.data.Get("spec"), "rules")).GetOr([]);
    seq(|items|, i requires 0 <= i < |items| => RuleOf(items[i], route.namespace))
  }

  predicate ReferencesGateway(route: HttpRoute) {
    var refs := ArrayOf(Member(route.data.Get("spec"), "parentRefs")).GetOr([]);
    exists i :: 0 <= i < |refs| && StrOf(refs[i].Get("name")) == Some(GATEWAY_NAME)
  }

  /** What a route contributes to the gateway. */
  function RouteRules(route: HttpRoute): (rules: seq<Rule>) {
    if ReferencesGateway(route) then RulesOf(route) else []
  }

  function AllRules(routes: seq<HttpRoute>): (rules: seq<Rule>) {
    Flatten(RouteRules, routes)
  }

  /** The ports for which some setting of the DestinationRule has a TLS mode. */
  predicate HasTlsPort(dr: Json, port: nat) {
    var settings := ArrayOf(Member(Member(dr.Get("spec"), "trafficPolicy"), "portLevelSettings")).GetOr([]);
    exists i :: 0 <= i < |settings| && SettingHasTls(settings[i], port)
  }

  predicate SettingHasTls(setting: Json, port: nat) {
    && StrOf(Member(setting.Get("tls"), "mode")).Some?
    && U64Of(Member(setting.Get("port"), "number")).Some?
    && U64Of(Member(setting.Get("port"), "number")).value % 0x1_0000 == port
  }

  // ---- the route table ----

  predicate Routable(r: Rule) {
    r.backends != []
  }

  function ClusterName(b: Backend): (s: string) {
    b.service + ['_'] + b.namespace + ['_'] + Decimal(b.port)
  }

  /** Keeps longer prefixes first; among equals the new, earlier listed rule goes first. */
  function StableInsert(x: Rule, s: seq<Rule>): (r: seq<Rule>) {
    if s == [] || |x.prefix| >= |s[0].prefix| then [x] + s
    else [s[0]] + StableInsert(x, s[1..])
  }

  function SortByLength(rules: seq<Rule>): (r: seq<Rule>) {
    if rules == [] then [] else StableInsert(rules[0], SortByLength(rules[1..]))
  }

  function EntryFor(r: Rule): (e: RouteEntry)
    requires Routable(r)
  {
    Forward(r.prefix, ClusterName(r.backends[0]))
  }

  function Emit(sorted: seq<Rule>): (entries: seq<RouteEntry>) {
    if sorted == [] then []
    else
      var n := |sorted| - 1;
      Emit(sorted[..n]) + if Routable(sorted[n]) then [EntryFor(sorted[n])] else []
  }

  function RouteTable(rules: seq<Rule>): (entries: seq<RouteEntry>) {
    var entries := Emit(SortByLength(rules));
    if entries == [] then [Unavailable("/")] else entries
  }

  /** What Envoy does with a path: the first entry whose prefix matches, if any. */
  function FirstMatch(entries: seq<RouteEntry>, path: string): (r: Option<RouteEntry>) {
    if entries == [] then None
    else if entries[0].prefix <= path then Some(entries[0])
    else FirstMatch(entries[1..], path)
  }

  function Decide(rules: seq<Rule>, path: string): (r: Option<RouteEntry>) {
    FirstMatch(RouteTable(rules), path)
  }

  // ---- the sort is the stable sort ----

  ghost predicate Descending(s: seq<Rule>) {
    forall i, j :: 0 <= i < j < |s| ==> |s[i].prefix| >= |s[j].prefix|
  }

  /** The rules with prefixes of one length, in listing order. */
  function OfLength(s: seq<Rule>, n: nat): (r: seq<Rule>) {
    if s == [] then []
    else if |s[0].prefix| == n then [s[0]] + OfLength(s[1..], n)
    else OfLength(s[1..], n)
  }

  lemma {:induction false} InsertSorts(x: Rule, s: seq<Rule>)
    requires Descending(s)
    ensures Descending(StableInsert(x, s))
    ensures multiset(StableInsert(x, s)) == multiset(s) + multiset{x}
  {
    if s == [] || |x.prefix| >= |s[0].prefix| {
    } else {
      InsertSorts(x, s[1..]);
      var t := StableInsert(x, s[1..]);
      assert s == [s[0]] + s[1..];
      forall r | r in t ensures |s[0].prefix| >= |r.prefix| {
        assert r in multiset(t);
        assert r in s[1..] || r == x;
      }
    }
  }

  lemma {:induction false} InsertStable(x: Rule, s: seq<Rule>, n: nat)
    requires Descending(s)
    ensures OfLength(StableInsert(x, s), n) == OfLength([x] + s, n)
  {
    assert ([x] + s)[1..] == s;
    if s == [] || |x.prefix| >= |s[0].prefix| {
    } else {
      InsertStable(x, s[1..], n);
      assert ([x] + s[1..])[1..] == s[1..];
      var t := StableInsert(x, s[1..]);
      assert ([s[0]] + t)[1..] == t;
    }
  }

  /** The emitted order is the rules' own, sorted by decreasing prefix length, equal lengths in listing order. */
  lemma {:induction false} SortIsStable(rules: seq<Rule>)
    ensures Descending(SortByLength(rules))
    ensures multiset(SortByLength(rules)) == multiset(rules)
    ensures forall n: nat :: OfLength(SortByLength(rules), n) == OfLength(rules, n)
  {
    if rules != [] {
      SortIsStable(rules[1..]);
      var s := SortByLength(rules[1..]);
      InsertSorts(rules[0], s);
      assert rules == [rules[0]] + rules[1..];
      forall n: nat ensures OfLength(SortByLength(rules), n) == OfLength(rules, n) {
        InsertStable(rules[0], s, n);
        assert ([rules[0]] + s)[1..] == s;
      }
    }
  }

  ghost predicate HasLength(s: seq<Rule>, n: nat) {
    exists i :: 0 <= i < |s| && |s[i].prefix| == n
  }

  lemma {:induction false} OfLengthMember(s: seq<Rule>, n: nat)
    ensures OfLength(s, n) != [] <==> HasLength(s, n)
  {
    if s != [] {
      OfLengthMember(s[1..], n);
      assert forall i :: 1 <= i < |s| ==> s[i] == s[1..][i - 1];
      assert forall i :: 0 <= i < |s[1..]| ==> s[1..][i] == s[i + 1];
    }
  }

  /** Nothing else could come out of a stable sort: order and per-length listing determine the sequence. */
  lemma {:induction false} StableSortUnique(s: seq<Rule>, t: seq<Rule>)
    requires Descending(s) && Descending(t)
    requires forall n: nat :: OfLength(s, n) == OfLength(t, n)
    ensures s == t
  {
    if s == [] && t == [] {
    } else {
      HeadsAgree(s, t);
      forall n: nat ensures OfLength(s[1..], n) == OfLength(t[1..], n) {
        assert OfLength(s, n) == OfLength(t, n);
        if |s[0].prefix| == n {
          assert OfLength(s, n)[1..] == OfLength(s[1..], n) && OfLength(t, n)[1..] == OfLength(t[1..], n);
        }
      }
      StableSortUnique(s[1..], t[1..]);
      assert s == [s[0]] + s[1..] && t == [t[0]] + t[1..];
    }
  }

  lemma HeadsAgree(s: seq<Rule>, t: seq<Rule>)
    requires Descending(s) && Descending(t) && (s != [] || t != [])
    requires forall n: nat :: OfLength(s, n) == OfLength(t, n)
    ensures s != [] && t != [] && s[0] == t[0]
  {
    forall n: nat ensures HasLength(s, n) <==> HasLength(t, n) {
      OfLengthMember(s, n);
      OfLengthMember(t, n);
      assert OfLength(s, n) == OfLength(t, n);
    }
    assert s != [] ==> HasLength(s, |s[0].prefix|);
    assert t != [] ==> HasLength(t, |t[0].prefix|);
    assert s != [] && t != [];
    assert |s[0].prefix| == |t[0].prefix|;
    var n := |s[0].prefix|;
    assert OfLength(s, n)[0] == s[0] && OfLength(t, n)[0] == t[0];
  }

  // ---- meaning of the route table ----

  predicate Applies(r: Rule, path: string) {
    Routable(r) && r.prefix <= path
  }

  /** Rule `i` is the longest match with a backend, earliest among equals. */
  ghost predicate Wins(rules: seq<Rule>, path: string, i: nat) {
    && i < |rules| && Applies(rules[i], path)
    && forall j :: 0 <= j < |rules| && Applies(rules[j], path) ==>
         |rules[j].prefix| < |rules[i].prefix| || (|rules[j].prefix| == |rules[i].prefix| && i <= j)
  }

  function Pick(s: seq<Rule>, path: string): (r: Option<Rule>)
    ensures r.Some? <==> exists i :: 0 <= i < |s| && Applies(s[i], path)
    ensures r.Some? ==> r.value in s && Applies(r.value, path)
  {
    if s == [] then None
    else if Applies(s[0], path) then Some(s[0])
    else
      var r := Pick(s[1..], path);
      assert forall i :: 1 <= i < |s| ==> s[i] == s[1..][i - 1];
      assert forall i :: 0 <= i < |s[1..]| ==> s[1..][i] == s[i + 1];
      r
  }

  lemma {:induction false} PickInsert(x: Rule, s: seq<Rule>, path: string)
    requires Descending(s)
    ensures Pick(StableInsert(x, s), path) ==
            if Applies(x, path) && (Pick(s, path).None? || |x.prefix| >= |Pick(s, path).value.prefix|)
            then Some(x) else Pick(s, path)
  {
    if s == [] || |x.prefix| >= |s[0].prefix| {
      assert ([x] + s)[1..] == s;
      if Pick(s, path).Some? {
        var i :| 0 <= i < |s| && s[i] == Pick(s, path).value;
      }
    } else {
      PickInsert(x, s[1..], path);
      var t := StableInsert(x, s[1..]);
      assert ([s[0]] + t)[1..] == t;
    }
  }

  lemma {:induction false} PickWinner(rules: seq<Rule>, path: string, i: nat)
    requires Wins(rules, path, i)
    ensures Pick(SortByLength(rules), path) == Some(rules[i])
  {
    var rest, s := rules[1..], SortByLength(rules[1..]);
    SortIsStable(rest);
    PickInsert(rules[0], s, path);
    if i > 0 {
      forall j | 0 <= j < |rest| && Applies(rest[j], path)
        ensures |rest[j].prefix| < |rest[i - 1].prefix| || (|rest[j].prefix| == |rest[i - 1].prefix| && i - 1 <= j)
      {
        assert rest[j] == rules[j + 1];
      }
      PickWinner(rest, path, i - 1);
    } else if Pick(s, path).Some? {
      var r := Pick(s, path).value;
      assert r in multiset(s);
      assert r in rest;
      var j :| 0 <= j < |rest| && rest[j] == r;
      assert rules[j + 1] == r;
    }
  }

  lemma {:induction false} WinnerExists(rules: seq<Rule>, path: string, k: nat) returns (i: nat)
    requires k < |rules| && Applies(rules[k], path)
    ensures Wins(rules, path, i)
    decreases |rules|
  {
    var rest := rules[1..];
    if exists j :: 0 <= j < |rest| && Applies(rest[j], path) {
      var j :| 0 <= j < |rest| && Applies(rest[j], path);
      var m := WinnerExists(rest, path, j);
      if Applies(rules[0], path) && |rules[0].prefix| >= |rest[m].prefix| {
        i := 0;
      } else {
        i := m + 1;
      }
      forall j | 0 <= j < |rules| && Applies(rules[j], path)
        ensures |rules[j].prefix| < |rules[i].prefix| || (|rules[j].prefix| == |rules[i].prefix| && i <= j)
      {
        if j > 0 { assert rules[j] == rest[j - 1]; }
      }
    } else {
      i := 0;
      forall j | 1 <= j < |rules| ensures !Applies(rules[j], path) { assert rules[j] == rest[j - 1]; }
    }
  }

  lemma {:induction false} EmitCons(x: Rule, s: seq<Rule>)
    ensures Emit([x] + s) == (if Routable(x) then [EntryFor(x)] else []) + Emit(s)
  {
    if s == [] {
      assert [x] + s == [x] && [x][..0] == [];
    } else {
      var n := |s| - 1;
      EmitCons(x, s[..n]);
      assert ([x] + s)[..n + 1] == [x] + s[..n];
    }
  }

  lemma {:induction false} EmitPick(s: seq<Rule>, path: string)
    ensures FirstMatch(Emit(s), path) ==
            match Pick(s, path) case Some(r) => Some(EntryFor(r)) case None => None
  {
    if s != [] {
      EmitPick(s[1..], path);
      EmitCons(s[0], s[1..]);
      assert s == [s[0]] + s[1..];
      if Routable(s[0]) {
        FirstMatchCons(EntryFor(s[0]), Emit(s[1..]), path);
      } else {
        assert Emit(s) == Emit(s[1..]);
      }
    }
  }

  lemma FirstMatchCons(e: RouteEntry, rest: seq<RouteEntry>, path: string)
    ensures FirstMatch([e] + rest, path) == if e.prefix <= path then Some(e) else FirstMatch(rest, path)
  {
    assert ([e] + rest)[1..] == rest;
  }

  lemma {:induction false} EmitEmpty(s: seq<Rule>)
    ensures Emit(s) == [] <==> forall i :: 0 <= i < |s| ==> !Routable(s[i])
    ensures forall i :: 0 <= i < |Emit(s)| ==> Emit(s)[i].Forward?
  {
    if s != [] {
      var n := |s| - 1;
      EmitEmpty(s[..n]);
      assert forall i :: 0 <= i < n ==> s[i] == s[..n][i];
    }
  }

  ghost predicate AnyRoutable(rules: seq<Rule>) {
    exists r :: r in rules && Routable(r)
  }

  lemma SortMembers(rules: seq<Rule>)
    ensures forall r :: r in SortByLength(rules) <==> r in rules
  {
    SortIsStable(rules);
    forall r ensures r in SortByLength(rules) <==> r in rules {
      assert r in multiset(SortByLength(rules)) <==> r in multiset(rules);
    }
  }

  /** The 503 entry is emitted exactly when no rule has a backend, and then it is the only entry. */
  lemma CatchAll(rules: seq<Rule>)
    ensures AnyRoutable(rules) ==> RouteTable(rules) == Emit(SortByLength(rules)) && forall e :: e in RouteTable(rules) ==> e.Forward?
    ensures !AnyRoutable(rules) ==> RouteTable(rules) == [Unavailable("/")]
  {
    var s := SortByLength(rules);
    SortMembers(rules);
    EmitEmpty(s);
    if AnyRoutable(rules) {
      var r :| r in rules && Routable(r);
      assert r in s;
    } else {
      forall i | 0 <= i < |s| ensures !Routable(s[i]) {
        assert s[i] in rules;
      }
    }
  }

  /** Envoy's first match over the emitted table is the longest-prefix rule with a backend, sent to its first backend. */
  lemma RoutingMeaning(rules: seq<Rule>, path: string)
    ensures forall i: nat :: Wins(rules, path, i) ==> Decide(rules, path) == Some(EntryFor(rules[i]))
    ensures AnyRoutable(rules) ==> (Decide(rules, path).Some? <==> exists i: nat :: Wins(rules, path, i))
    ensures !AnyRoutable(rules) ==> Decide(rules, path) == if "/" <= path then Some(Unavailable("/")) else None
  {
    CatchAll(rules);
    if AnyRoutable(rules) {
      var s := SortByLength(rules);
      EmitPick(s, path);
      forall i: nat | Wins(rules, path, i) ensures Decide(rules, path) == Some(EntryFor(rules[i])) {
        PickWinner(rules, path, i);
      }
      if Pick(s, path).Some? {
        SortMembers(rules);
        var k :| 0 <= k < |rules| && rules[k] == Pick(s, path).value;
        var i := WinnerExists(rules, path, k);
      }
    } else {
      var table := RouteTable(rules);
      assert table[1..] == [];
      assert FirstMatch(table[1..], path) == None;
      forall i: nat | i < |rules| ensures !Routable(rules[i]) {
        assert rules[i] in rules;
      }
    }
  }

  // ---- order and locality ----

  /** Rules that share a prefix send it to the same cluster. */
  ghost predicate Unambiguous(rules: seq<Rule>) {
    forall i, j | 0 <= i < |rules| && 0 <= j < |rules| && Routable(rules[i]) && Routable(rules[j]) ::
      rules[i].prefix == rules[j].prefix ==> EntryFor(rules[i]) == EntryFor(rules[j])
  }

  ghost predicate OrderIndependent(rules: seq<Rule>) {
    forall other, path :: multiset(other) == multiset(rules) ==> Decide(other, path) == Decide(rules, path)
  }

  lemma SameMembers(a: seq<Rule>, b: seq<Rule>)
    requires multiset(a) == multiset(b)
    ensures forall r :: r in a <==> r in b
  {
    forall r ensures r in a <==> r in b {
      assert r in multiset(a) <==> r in multiset(b);
    }
  }

  lemma WinnerTransfers(a: seq<Rule>, b: seq<Rule>, path: string, i: nat) returns (j: nat)
    requires (forall r :: r in a <==> r in b) && Wins(a, path, i)
    ensures Wins(b, path, j) && |b[j].prefix| == |a[i].prefix|
  {
    assert a[i] in a;
    var k :| 0 <= k < |b| && b[k] == a[i];
    j := WinnerExists(b, path, k);
    assert b[j] in b;
    var m :| 0 <= m < |a| && a[m] == b[j];
  }

  /** Two matching prefixes of one length are the same prefix. */
  lemma SamePrefix(p: string, q: string, path: string)
    requires p <= path && q <= path && |p| == |q|
    ensures p == q
  {
    assert p == path[..|p|] && q == path[..|q|];
  }

  /** A decision over a permuted list, when shared prefixes agree. */
  lemma PermutedDecision(a: seq<Rule>, b: seq<Rule>, path: string)
    requires multiset(a) == multiset(b) && Unambiguous(a)
    ensures Decide(a, path) == Decide(b, path)
  {
    SameMembers(a, b);
    RoutingMeaning(a, path);
    RoutingMeaning(b, path);
    if i: nat :| Wins(a, path, i) {
      var j := WinnerTransfers(a, b, path, i);
      SamePrefix(a[i].prefix, b[j].prefix, path);
      assert b[j] in b;
      var m :| 0 <= m < |a| && a[m] == b[j];
      assert EntryFor(a[i]) == EntryFor(a[m]);
    } else if j: nat :| Wins(b, path, j) {
      var i := WinnerTransfers(b, a, path, j);
    }
  }

  function ToFront(rules: seq<Rule>, i: nat): (r: seq<Rule>)
    requires i < |rules|
    ensures multiset(r) == multiset(rules)
  {
    assert rules == rules[..i] + [rules[i]] + rules[i + 1..];
    [rules[i]] + rules[..i] + rules[i + 1..]
  }

  /** A rule listed first decides its own prefix. */
  lemma FrontDecides(rules: seq<Rule>)
    requires rules != [] && Routable(rules[0])
    ensures Decide(rules, rules[0].prefix) == Some(EntryFor(rules[0]))
  {
    RoutingMeaning(rules, rules[0].prefix);
    assert Wins(rules, rules[0].prefix, 0);
  }

  /** Decisions do not depend on the order of listing exactly when rules that share a prefix agree on the cluster. */
  lemma OrderIndependence(rules: seq<Rule>)
    ensures OrderIndependent(rules) <==> Unambiguous(rules)
  {
    if Unambiguous(rules) {
      forall other, path | multiset(other) == multiset(rules) ensures Decide(other, path) == Decide(rules, path) {
        PermutedDecision(rules, other, path);
      }
    }
    if OrderIndependent(rules) {
      forall i, j | 0 <= i < |rules| && 0 <= j < |rules| && Routable(rules[i]) && Routable(rules[j])
                    && rules[i].prefix == rules[j].prefix
        ensures EntryFor(rules[i]) == EntryFor(rules[j])
      {
        FrontDecides(ToFront(rules, i));
        FrontDecides(ToFront(rules, j));
        assert Decide(ToFront(rules, i), rules[i].prefix) == Decide(rules, rules[i].prefix);
        assert Decide(ToFront(rules, j), rules[i].prefix) == Decide(rules, rules[i].prefix);
      }
    }
  }

  /** Two rules for one prefix with different clusters: whoever is listed first gets the path. */
  lemma OrderMatters(p: string, b: Backend, c: Backend)
    requires ClusterName(b) != ClusterName(c)
    ensures !OrderIndependent([Rule(p, [b]), Rule(p, [c])])
  {
    var rules := [Rule(p, [b]), Rule(p, [c])];
    OrderIndependence(rules);
    assert EntryFor(rules[0]) != EntryFor(rules[1]);
  }

  /** `more` is `rules` with `x` inserted at position `k`. */
  ghost predicate Inserted(rules: seq<Rule>, k: nat, x: Rule, more: seq<Rule>) {
    && k <= |rules| && |more| == |rules| + 1 && more[k] == x
    && (forall m :: 0 <= m < k ==> more[m] == rules[m])
    && (forall m :: k < m < |more| ==> more[m] == rules[m - 1])
  }

  /** Insertion moves the winner along with everyone else. */
  lemma WinShift(rules: seq<Rule>, k: nat, x: Rule, more: seq<Rule>, path: string, j: nat)
    requires Inserted(rules, k, x, more) && !Applies(x, path) && j < |more| && j != k
    ensures Wins(more, path, j) <==> Wins(rules, path, if j < k then j else j - 1)
  {
    var i := if j < k then j else j - 1;
    if Wins(rules, path, i) {
      forall m | 0 <= m < |more| && Applies(more[m], path)
        ensures |more[m].prefix| < |more[j].prefix| || (|more[m].prefix| == |more[j].prefix| && j <= m)
      {
        assert more[m] == rules[if m < k then m else m - 1];
      }
    }
    if Wins(more, path, j) {
      forall m | 0 <= m < |rules| && Applies(rules[m], path)
        ensures |rules[m].prefix| < |rules[i].prefix| || (|rules[m].prefix| == |rules[i].prefix| && i <= m)
      {
        assert rules[m] == more[if m < k then m else m + 1];
      }
    }
  }

  lemma StillRoutable(rules: seq<Rule>, k: nat, x: Rule, more: seq<Rule>)
    requires Inserted(rules, k, x, more) && AnyRoutable(rules)
    ensures AnyRoutable(more)
  {
    var r :| r in rules && Routable(r);
    var i :| 0 <= i < |rules| && rules[i] == r;
    assert more[if i < k then i else i + 1] == r;
  }

  /** Adding a rule anywhere leaves every path alone that does not start with its prefix. */
  lemma AddedRuleIsLocal(rules: seq<Rule>, k: nat, x: Rule, more: seq<Rule>, path: string)
    requires Inserted(rules, k, x, more) && AnyRoutable(rules)
    requires !(Routable(x) && x.prefix <= path)
    ensures Decide(more, path) == Decide(rules, path)
  {
    StillRoutable(rules, k, x, more);
    RoutingMeaning(rules, path);
    RoutingMeaning(more, path);
    if Decide(more, path).Some? {
      var j: nat :| Wins(more, path, j);
      WinShift(rules, k, x, more, path, j);
      assert more[j] == rules[if j < k then j else j - 1];
    } else if Decide(rules, path).Some? {
      var i: nat :| Wins(rules, path, i);
      WinShift(rules, k, x, more, path, if i < k then i else i + 1);
    }
  }
}
