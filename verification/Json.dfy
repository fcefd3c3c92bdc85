/** JSON values, the typed accessors the controllers use on them, and the merge patch of RFC 7396. */
module Json {
  import opened Prelude

  /** Numbers are integers; any other JSON number is `Fraction`, which no accessor here accepts. */
  datatype Json =
    | Null
    | Bool(flag: bool)
    | Num(n: int)
    | Fraction(r: real)
    | Str(text: string)
    | Arr(items: seq<Json>)
    | Obj(fields: map<string, Json>)
  {
    /** `value.get(key)`: only objects have members. */
    function Get(key: string): (r: Option<Json>) {
      if Obj? && key in fields then Some(fields[key]) else None
    }

    function AsStr(): (r: Option<string>) {
      if Str? then Some(text) else None
    }

    function AsArray(): (r: Option<seq<Json>>) {
      if Arr? then Some(items) else None
    }

    function AsBool(): (r: Option<bool>) {
      if Bool? then Some(flag) else None
    }

    /** Rust's `as_u64`. */
    function AsU64(): (r: Option<nat>)
      ensures r.Some? ==> r.value < 0x1_0000_0000_0000_0000
    {
      if Num? && 0 <= n < 0x1_0000_0000_0000_0000 then Some(n) else None
    }
  }

  // Accessor chains on values that may be missing.

  function Member(v: Option<Json>, key: string): (r: Option<Json>) {
    if v.Some? then v.value.Get(key) else None
  }

  function StrOf(v: Option<Json>): (r: Option<string>) {
    if v.Some? then v.value.AsStr() else None
  }

  function ArrayOf(v: Option<Json>): (r: Option<seq<Json>>) {
    if v.Some? then v.value.AsArray() else None
  }

  function BoolOf(v: Option<Json>): (r: Option<bool>) {
    if v.Some? then v.value.AsBool() else None
  }

  function U64Of(v: Option<Json>): (r: Option<nat>) {
    if v.Some? then v.value.AsU64() else None
  }

  function FirstOf(v: Option<seq<Json>>): (r: Option<Json>) {
    if v.Some? && v.value != [] then Some(v.value[0]) else None
  }

  // What the accessors find, said with constructors only: the object has this value under this path of members.

  predicate Has(v: Json, k: string, x: Json) {
    v.Obj? && k in v.fields && v.fields[k] == x
  }

  predicate Has2(v: Json, k: string, l: string, x: Json) {
    v.Obj? && k in v.fields && Has(v.fields[k], l, x)
  }

  predicate Has3(v: Json, k: string, l: string, m: string, x: Json) {
    v.Obj? && k in v.fields && Has2(v.fields[k], l, m, x)
  }

  /** Section 2 of RFC 7396. */
  function MergePatch(target: Json, patch: Json): (r: Json)
    decreases patch
  {
    if !patch.Obj? then patch
    else
      var base := if target.Obj? then target.fields else map[];
      Obj(map k | k in base.Keys + patch.fields.Keys && !(k in patch.fields && patch.fields[k].Null?) ::
            if k in patch.fields
            then MergePatch(if k in base then base[k] else Null, patch.fields[k])
            else base[k])
  }

  /** Merging a patch of the status object merges the status and changes nothing else. */
  lemma StatusPatchEffect(data: Json, status: Json)
    requires status.Obj?
    ensures var patched := MergePatch(data, Obj(map["status" := status]));
            && patched.Get("status") == Some(MergePatch(data.Get("status").GetOr(Null), status))
            && forall key :: key != "status" ==> patched.Get(key) == data.Get(key)
  {
  }

  /** Section 2 of RFC 7396, member by member: null removes, objects merge into what is there, anything else replaces. */
  lemma MergePatchMeans(target: Json, patch: Json, k: string)
    ensures !patch.Obj? ==> MergePatch(target, patch) == patch
    ensures patch.Obj? ==> MergePatch(target, patch).Obj?
    ensures Has(patch, k, Null) ==> MergePatch(target, patch).Get(k) == None
    ensures patch.Obj? && k !in patch.fields ==> MergePatch(target, patch).Get(k) == target.Get(k)
    ensures patch.Obj? && k in patch.fields && !patch.fields[k].Null? ==>
              MergePatch(target, patch).Get(k) == Some(MergePatch(target.Get(k).GetOr(Null), patch.fields[k]))
  {
  }
}
