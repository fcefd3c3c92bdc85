/** What the gateway compiler reads from HTTPRoutes and DestinationRules, said on the JSON itself (simulator/src/gateway.rs). */
module GatewayReading {
  import opened Prelude
  import opened Json
  import opened Gateway

  const U64: int := 0x1_0000_0000_0000_0000

  // ---- backends ----

  /** Name, namespace and port of a backend reference, with the defaults for whatever is missing or of another type. */
  lemma BackendMeans(ref: Json, routeNs: string)
    ensures var b := BackendOf(ref, routeNs);
            && (forall s :: Has(ref, "name", Str(s)) ==> b.service == s)
            && ((forall s :: !Has(ref, "name", Str(s))) ==> b.service == "")
            && (forall s :: Has(ref, "namespace", Str(s)) ==> b.namespace == s)
            && ((forall s :: !Has(ref, "namespace", Str(s))) ==> b.namespace == routeNs)
            && (forall n :: Has(ref, "port", Num(n)) && 0 <= n < U64 ==> b.port == n % 65536)
            && ((forall n :: !(Has(ref, "port", Num(n)) && 0 <= n < U64)) ==> b.port == 80)
  {
    if StrOf(ref.Get("name")).Some? { assert Has(ref, "name", Str(StrOf(ref.Get("name")).value)); }
    if StrOf(ref.Get("namespace")).Some? { assert Has(ref, "namespace", Str(StrOf(ref.Get("namespace")).value)); }
    if U64Of(ref.Get("port")).Some? { assert Has(ref, "port", Num(U64Of(ref.Get("port")).value)); }
  }

  /** The reference names a service. */
  ghost predicate Named(ref: Json) {
    exists s :: Has(ref, "name", Str(s)) && s != ""
  }

  /** References without a name are dropped, the others keep their order. */
  lemma {:induction false} BackendsMean(refs: seq<Json>, ref: Json, routeNs: string)
    ensures BackendsOf([], routeNs) == []
    ensures BackendsOf(refs + [ref], routeNs) ==
            BackendsOf(refs, routeNs) + if Named(ref) then [BackendOf(ref, routeNs)] else []
  {
    assert (refs + [ref])[..|refs|] == refs;
    BackendMeans(ref, routeNs);
  }

  // ---- rules ----

  /** The path value of the first match, else the root. */
  lemma PrefixMeans(rule: Json)
    ensures forall ms, p :: Has(rule, "matches", Arr(ms)) && ms != [] && Has2(ms[0], "path", "value", Str(p)) ==>
              PrefixOf(rule) == p
    ensures (forall ms, p :: Has(rule, "matches", Arr(ms)) && ms != [] ==> !Has2(ms[0], "path", "value", Str(p))) ==>
              PrefixOf(rule) == "/"
  {
    var ms := ArrayOf(rule.Get("matches"));
    if ms.Some? && ms.value != [] {
      assert Has(rule, "matches", Arr(ms.value));
      var p := StrOf(Member(Member(Some(ms.value[0]), "path"), "value"));
      if p.Some? { assert Has2(ms.value[0], "path", "value", Str(p.value)); }
    }
  }

  lemma RuleMeans(rule: Json, routeNs: string)
    ensures RuleOf(rule, routeNs).prefix == PrefixOf(rule)
    ensures forall refs :: Has(rule, "backendRefs", Arr(refs)) ==> RuleOf(rule, routeNs).backends == BackendsOf(refs, routeNs)
    ensures (forall refs :: !Has(rule, "backendRefs", Arr(refs))) ==> RuleOf(rule, routeNs).backends == []
  {
    var refs := ArrayOf(rule.Get("backendRefs"));
    if refs.Some? { assert Has(rule, "backendRefs", Arr(refs.value)); }
  }

  /** One rule for each element of the rules array, in order; none without such an array. */
  lemma RulesMean(route: HttpRoute)
    ensures forall items :: Has2(route.data, "spec", "rules", Arr(items)) ==>
              && |RulesOf(route)| == |items|
              && forall i :: 0 <= i < |items| ==> RulesOf(route)[i] == RuleOf(items[i], route.namespace)
    ensures (forall items :: !Has2(route.data, "spec", "rules", Arr(items))) ==> RulesOf(route) == []
  {
    var items := ArrayOf(Member(route.data.Get("spec"), "rules"));
    if items.Some? { assert Has2(route.data, "spec", "rules", Arr(items.value)); }
  }

  ghost predicate NamesParent(route: HttpRoute, refs: seq<Json>) {
    && Has2(route.data, "spec", "parentRefs", Arr(refs))
    && exists i :: 0 <= i < |refs| && Has(refs[i], "name", Str("data-science-gateway"))
  }

  /** A route counts exactly when one of its parents is named "data-science-gateway". */
  lemma ReferencesMean(route: HttpRoute)
    ensures ReferencesGateway(route) <==> exists refs :: NamesParent(route, refs)
  {
    var refs := ArrayOf(Member(route.data.Get("spec"), "parentRefs"));
    if ReferencesGateway(route) {
      var i :| 0 <= i < |refs.value| && StrOf(refs.value[i].Get("name")) == Some(GATEWAY_NAME);
      assert Has(refs.value[i], "name", Str("data-science-gateway"));
      assert NamesParent(route, refs.value);
    }
    if rs: seq<Json> :| NamesParent(route, rs) {
      var i :| 0 <= i < |rs| && Has(rs[i], "name", Str("data-science-gateway"));
      assert refs == Some(rs) && refs.GetOr([]) == rs;
      assert StrOf(rs[i].Get("name")) == Some(GATEWAY_NAME);
    }
  }

  // ---- TLS ports ----

  ghost predicate TlsSetting(setting: Json, port: nat) {
    && (exists m :: Has2(setting, "tls", "mode", Str(m)))
    && exists n :: Has2(setting, "port", "number", Num(n)) && 0 <= n < U64 && n % 65536 == port
  }

  ghost predicate TlsIn(dr: Json, settings: seq<Json>, port: nat) {
    && Has3(dr, "spec", "trafficPolicy", "portLevelSettings", Arr(settings))
    && exists i :: 0 <= i < |settings| && TlsSetting(settings[i], port)
  }

  lemma SettingMeans(setting: Json, port: nat)
    ensures SettingHasTls(setting, port) <==> TlsSetting(setting, port)
  {
    if SettingHasTls(setting, port) {
      assert Has2(setting, "tls", "mode", Str(StrOf(Member(setting.Get("tls"), "mode")).value));
      assert Has2(setting, "port", "number", Num(U64Of(Member(setting.Get("port"), "number")).value));
    }
  }

  /** A port is a TLS port of a DestinationRule exactly when some setting has a TLS mode and this port number, as 16 bits. */
  lemma TlsPortMeans(dr: Json, port: nat)
    ensures HasTlsPort(dr, port) <==> exists settings :: TlsIn(dr, settings, port)
  {
    var settings := ArrayOf(Member(Member(dr.Get("spec"), "trafficPolicy"), "portLevelSettings"));
    if HasTlsPort(dr, port) {
      var i :| 0 <= i < |settings.value| && SettingHasTls(settings.value[i], port);
      SettingMeans(settings.value[i], port);
      assert TlsIn(dr, settings.value, port);
    }
    if ss: seq<Json> :| TlsIn(dr, ss, port) {
      var i :| 0 <= i < |ss| && TlsSetting(ss[i], port);
      assert settings == Some(ss) && settings.GetOr([]) == ss;
      SettingMeans(ss[i], port);
    }
  }
}
