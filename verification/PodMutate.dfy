/** The pod webhook and the namespace UID blocks (simulator/src/pod_mutate.rs). */
module PodMutate {
  import opened Prelude
  import opened Json

  const BASE: nat := 1_000_000_000
  const BLOCK: nat := 10_000

  /** `hash` is the process-wide string hash. */
  function UidRange(hash: string -> nat, namespace: string): (uid: nat) {
    BASE + hash(namespace) % 100_000 * BLOCK
  }

  /** The "add" operation of section 4.1 of RFC 6902, at a path of object members. */
  datatype Add = Add(path: seq<string>, value: Json)

  predicate RunsAsNonRoot(holder: Option<Json>) {
    BoolOf(Member(holder, "runAsNonRoot")) == Some(true)
  }

  predicate AnyContainerNonRoot(spec: Json) {
    var containers := ArrayOf(spec.Get("containers")).GetOr([]);
    exists i :: 0 <= i < |containers| && RunsAsNonRoot(containers[i].Get("securityContext"))
  }

  function ComputePatch(hash: string -> nat, pod: Json, namespace: string): (r: Option<Add>) {
    match pod.Get("spec")
    case None => None
    case Some(spec) =>
      var sc := spec.Get("securityContext");
      if Member(sc, "fsGroup").Some? then None
      else if !RunsAsNonRoot(sc) && !AnyContainerNonRoot(spec) then None
      else
        var uid := Num(UidRange(hash, namespace));
        Some(if sc.Some? then Add(["spec", "securityContext", "fsGroup"], uid)
             else Add(["spec", "securityContext"], Obj(map["fsGroup" := uid])))
  }

  /** Adding needs every parent on the path to exist and the last one to be an object. */
  function Apply(doc: Json, path: seq<string>, value: Json): (r: Option<Json>)
    requires path != []
    decreases |path|
  {
    if !doc.Obj? then None
    else if |path| == 1 then Some(Obj(doc.fields[path[0] := value]))
    else if path[0] !in doc.fields then None
    else
      var child := Apply(doc.fields[path[0]], path[1..], value);
      if child.None? then None else Some(Obj(doc.fields[path[0] := child.value]))
  }

  function ApplyAdd(pod: Json, op: Add): (r: Option<Json>)
    requires op.path != []
  {
    Apply(pod, op.path, op.value)
  }

  /** The security context is absent or an object. */
  predicate Sane(pod: Json) {
    match Member(pod.Get("spec"), "securityContext")
    case None => true
    case Some(sc) => sc.Obj?
  }

  /** What admission is meant to do to a pod: set the group and leave everything else alone. */
  ghost function WithFsGroup(pod: Json, uid: int): Json
    requires pod.Obj? && "spec" in pod.fields && pod.fields["spec"].Obj?
  {
    var spec := pod.fields["spec"].fields;
    var sc := if "securityContext" in spec && spec["securityContext"].Obj? then spec["securityContext"].fields else map[];
    Obj(pod.fields["spec" := Obj(spec["securityContext" := Obj(sc["fsGroup" := Num(uid)])])])
  }

  lemma ApplyOne(doc: Json, key: string, value: Json)
    requires doc.Obj?
    ensures Apply(doc, [key], value) == Some(Obj(doc.fields[key := value]))
  {
  }

  lemma ApplyInto(doc: Json, key: string, rest: seq<string>, value: Json)
    requires doc.Obj? && key in doc.fields && rest != []
    ensures var child := Apply(doc.fields[key], rest, value);
            Apply(doc, [key] + rest, value) == if child.None? then None else Some(Obj(doc.fields[key := child.value]))
  {
    assert ([key] + rest)[1..] == rest;
  }

  ghost predicate NonRootContainer(spec: Json, containers: seq<Json>) {
    && Has(spec, "containers", Arr(containers))
    && exists i :: 0 <= i < |containers| && Has2(containers[i], "securityContext", "runAsNonRoot", Bool(true))
  }

  /** The pod has no group yet, and runs as non-root as a whole or in some container. */
  ghost predicate WantsGroup(pod: Json, spec: Json) {
    && Has(pod, "spec", spec)
    && (forall g :: !Has2(spec, "securityContext", "fsGroup", g))
    && (|| Has2(spec, "securityContext", "runAsNonRoot", Bool(true))
        || exists containers :: NonRootContainer(spec, containers))
  }

  lemma ContainersMean(spec: Json)
    ensures AnyContainerNonRoot(spec) <==> exists containers :: NonRootContainer(spec, containers)
  {
    var containers := ArrayOf(spec.Get("containers"));
    if AnyContainerNonRoot(spec) {
      var i :| 0 <= i < |containers.value| && RunsAsNonRoot(containers.value[i].Get("securityContext"));
      assert Has2(containers.value[i], "securityContext", "runAsNonRoot", Bool(true));
      assert NonRootContainer(spec, containers.value);
    }
    if cs: seq<Json> :| NonRootContainer(spec, cs) {
      var i :| 0 <= i < |cs| && Has2(cs[i], "securityContext", "runAsNonRoot", Bool(true));
      assert containers == Some(cs) && containers.GetOr([]) == cs;
      assert RunsAsNonRoot(cs[i].Get("securityContext"));
    }
  }

  /** A patch is emitted exactly for such pods. */
  lemma PatchEmittedIff(hash: string -> nat, pod: Json, namespace: string)
    ensures ComputePatch(hash, pod, namespace).Some? <==> exists spec :: WantsGroup(pod, spec)
  {
    if pod.Get("spec").Some? {
      var spec := pod.Get("spec").value;
      ContainersMean(spec);
      var group := Member(spec.Get("securityContext"), "fsGroup");
      if group.Some? { assert Has2(spec, "securityContext", "fsGroup", group.value); }
      assert RunsAsNonRoot(spec.Get("securityContext")) <==> Has2(spec, "securityContext", "runAsNonRoot", Bool(true));
      if ComputePatch(hash, pod, namespace).Some? { assert WantsGroup(pod, spec); }
    }
  }

  /** An emitted patch applies if and only if the pod's security context is absent or an object; then it sets fsGroup, only. */
  lemma PatchAppliesIff(hash: string -> nat, pod: Json, namespace: string)
    requires ComputePatch(hash, pod, namespace).Some?
    ensures ComputePatch(hash, pod, namespace).value.path != []
    ensures pod.Obj? && "spec" in pod.fields && pod.fields["spec"].Obj?
    ensures ApplyAdd(pod, ComputePatch(hash, pod, namespace).value) ==
            if Sane(pod) then Some(WithFsGroup(pod, 1_000_000_000 + hash(namespace) % 100_000 * 10_000)) else None
  {
    var op := ComputePatch(hash, pod, namespace).value;
    var spec := pod.fields["spec"];
    if "securityContext" in spec.fields {
      var sc := spec.fields["securityContext"];
      assert op.path == ["spec"] + (["securityContext"] + ["fsGroup"]);
      ApplyInto(pod, "spec", ["securityContext"] + ["fsGroup"], op.value);
      ApplyInto(spec, "securityContext", ["fsGroup"], op.value);
      if sc.Obj? { ApplyOne(sc, "fsGroup", op.value); }
    } else {
      assert op.path == ["spec"] + ["securityContext"];
      ApplyInto(pod, "spec", ["securityContext"], op.value);
      ApplyOne(spec, "securityContext", op.value);
    }
  }

  /** Admission is idempotent: the patched pod needs no second patch. */
  lemma SecondPatchIsNone(hash: string -> nat, pod: Json, namespace: string, other: string)
    requires ComputePatch(hash, pod, namespace).Some? && Sane(pod)
    ensures pod.Obj? && "spec" in pod.fields && pod.fields["spec"].Obj?
    ensures ComputePatch(hash, WithFsGroup(pod, UidRange(hash, namespace)), other).None?
  {
    var patched := WithFsGroup(pod, UidRange(hash, namespace));
    assert Member(patched.fields["spec"].Get("securityContext"), "fsGroup").Some?;
  }

  // ---- namespaces ----

  const UID_RANGE_ANNOTATION := "openshift.io/sa.scc.uid-range"
  const SUPPLEMENTAL_GROUPS_ANNOTATION := "openshift.io/sa.scc.supplemental-groups"
  const SKIP_NAMESPACES := {"kube-system", "kube-public", "kube-node-lease", "ocp-sim", "local-path-storage"}

  function RangeText(uid: nat): (s: string) {
    Decimal(uid) + ['/'] + "10000"
  }

  function ReconcileNamespace(hash: string -> nat, name: string, annotations: map<string, string>): (r: map<string, string>) {
    if name in SKIP_NAMESPACES || UID_RANGE_ANNOTATION in annotations then annotations
    else
      var range := RangeText(UidRange(hash, name));
      annotations[UID_RANGE_ANNOTATION := range][SUPPLEMENTAL_GROUPS_ANNOTATION := range]
  }

  /** Which namespaces are annotated, and with what. */
  lemma AnnotationMeans(hash: string -> nat, name: string, annotations: map<string, string>)
    ensures var noted := ReconcileNamespace(hash, name, annotations);
            var range := Decimal(1_000_000_000 + hash(name) % 100_000 * 10_000) + "/10000";
            if name in {"kube-system", "kube-public", "kube-node-lease", "ocp-sim", "local-path-storage"}
               || "openshift.io/sa.scc.uid-range" in annotations
            then noted == annotations
            else
              && noted.Keys == annotations.Keys + {"openshift.io/sa.scc.uid-range", "openshift.io/sa.scc.supplemental-groups"}
              && noted["openshift.io/sa.scc.uid-range"] == range && noted["openshift.io/sa.scc.supplemental-groups"] == range
              && forall k :: k in annotations && k != "openshift.io/sa.scc.supplemental-groups" ==> noted[k] == annotations[k]
  {
    assert UID_RANGE_ANNOTATION != SUPPLEMENTAL_GROUPS_ANNOTATION by {
      assert |UID_RANGE_ANNOTATION| != |SUPPLEMENTAL_GROUPS_ANNOTATION|;
    }
    assert RangeText(UidRange(hash, name)) == Decimal(1_000_000_000 + hash(name) % 100_000 * 10_000) + "/10000";
  }

  /** The fsGroup given to a pod is the base of the range annotated on its namespace, and of no other range text. */
  lemma FsGroupMatchesAnnotation(
    hash: string -> nat, pod: Json, namespace: string, annotations: map<string, string>, uid: nat)
    requires namespace !in SKIP_NAMESPACES && UID_RANGE_ANNOTATION !in annotations
    requires ComputePatch(hash, pod, namespace).Some?
    ensures var op := ComputePatch(hash, pod, namespace).value;
            var noted := ReconcileNamespace(hash, namespace, annotations);
            noted[UID_RANGE_ANNOTATION] == RangeText(uid) <==> op.value in {Num(uid), Obj(map["fsGroup" := Num(uid)])}
    ensures var noted := ReconcileNamespace(hash, namespace, annotations);
            ReconcileNamespace(hash, namespace, noted) == noted
  {
    var own := UidRange(hash, namespace);
    assert UID_RANGE_ANNOTATION != SUPPLEMENTAL_GROUPS_ANNOTATION by {
      assert |UID_RANGE_ANNOTATION| != |SUPPLEMENTAL_GROUPS_ANNOTATION|;
    }
    if RangeText(own) == RangeText(uid) {
      LastSeparatorUnique('/', Decimal(own), "10000", Decimal(uid), "10000");
      DecimalInjective(own, uid);
    }
    assert map["fsGroup" := Num(uid)]["fsGroup"] == Num(uid);
    assert map["fsGroup" := Num(own)]["fsGroup"] == Num(own);
  }

  /** `u` is one of the UIDs annotated on a namespace. */
  predicate InBlock(hash: string -> nat, namespace: string, u: int) {
    UidRange(hash, namespace) <= u < UidRange(hash, namespace) + BLOCK
  }

  /** Two namespaces share their whole block or nothing, and every block lies in [1e9, 2e9). */
  lemma BlocksEqualOrDisjoint(hash: string -> nat, a: string, b: string)
    ensures || (forall u :: InBlock(hash, a, u) <==> InBlock(hash, b, u))
            || (forall u :: !(InBlock(hash, a, u) && InBlock(hash, b, u)))
    ensures forall u :: InBlock(hash, a, u) ==> BASE <= u < 2 * BASE
  {
    var i, j := hash(a) % 100_000, hash(b) % 100_000;
    if i < j {
      assert i * BLOCK + BLOCK <= j * BLOCK;
    } else if j < i {
      assert j * BLOCK + BLOCK <= i * BLOCK;
    }
    assert i * BLOCK + BLOCK <= 100_000 * BLOCK;
  }
}
