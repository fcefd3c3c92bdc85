/**
  * The ImageStream status controller (simulator/src/imagestream.rs): when one patch is enough, and what "up to date" means.
  *
  * The controller decides on a version it has cached, however old, and patches the version the API server has by then.
  */
module ImageStream {
  import opened Prelude
  import opened Json

  function SpecTags(data: Json): (r: Option<seq<Json>>) {
    ArrayOf(Member(data.Get("spec"), "tags"))
  }

  function StatusTags(data: Json): (r: Option<seq<Json>>) {
    ArrayOf(Member(data.Get("status"), "tags"))
  }

  /** Tag name and image as the comparison sees them: anything missing reads as the empty string. */
  function SpecPair(tag: Json): (r: (string, string)) {
    (StrOf(tag.Get("name")).GetOr(""), StrOf(Member(tag.Get("from"), "name")).GetOr(""))
  }

  function StatusPair(tag: Json): (r: (string, string)) {
    (StrOf(tag.Get("tag")).GetOr(""),
     StrOf(Member(FirstOf(ArrayOf(tag.Get("items"))), "dockerImageReference")).GetOr(""))
  }

  function Pairs(tags: seq<Json>, pair: Json -> (string, string)): (r: seq<(string, string)>)
    ensures |r| == |tags| && forall i :: 0 <= i < |tags| ==> r[i] == pair(tags[i])
  {
    seq(|tags|, i requires 0 <= i < |tags| => pair(tags[i]))
  }

  predicate StatusNeedsUpdate(data: Json) {
    var spec, status := SpecTags(data), StatusTags(data);
    spec.Some? && spec.value != [] &&
    (status.None? || |spec.value| != |status.value| ||
     exists i :: 0 <= i < |spec.value| && !Listed(status.value, SpecPair(spec.value[i])))
  }

  predicate Listed(status: seq<Json>, pair: (string, string)) {
    exists j :: 0 <= j < |status| && StatusPair(status[j]) == pair
  }

  /** The tag can be turned into a status entry. */
  predicate Importable(tag: Json) {
    StrOf(tag.Get("name")).Some? && StrOf(Member(tag.Get("from"), "name")).Some?
  }

  function StatusTagFor(tag: Json, now: string): (r: Json)
    ensures StatusPair(r) == SpecPair(tag)
  {
    var (name, image) := SpecPair(tag);
    Obj(map["tag" := Str(name),
            "items" := Arr([Obj(map["dockerImageReference" := Str(image), "created" := Str(now),
                                    "generation" := Num(1), "image" := Str("")])])])
  }

  /** The `filter_map` over the spec tags. */
  function NewStatusTags(tags: seq<Json>, now: string): (r: seq<Json>)
    ensures |r| <= |tags|
    ensures |r| == |tags| <==> forall i :: 0 <= i < |tags| ==> Importable(tags[i])
  {
    if tags == [] then []
    else
      var n := |tags| - 1;
      assert forall i :: 0 <= i < n ==> tags[i] == tags[..n][i];
      NewStatusTags(tags[..n], now) + if Importable(tags[n]) then [StatusTagFor(tags[n], now)] else []
  }

  function StatusPatch(tags: seq<Json>, now: string): (r: Json) {
    Obj(map["status" := Obj(map["dockerImageRepository" := Str(""), "tags" := Arr(NewStatusTags(tags, now))])])
  }

  /** One reconcile: decision and patch come from the cached version, the patch goes to the stored one. */
  function Reconcile(cached: Json, stored: Json, now: string): (r: Json) {
    if StatusNeedsUpdate(cached) then MergePatch(stored, StatusPatch(SpecTags(cached).value, now)) else stored
  }

  lemma PatchedTags(data: Json, tags: seq<Json>, now: string)
    ensures SpecTags(MergePatch(data, StatusPatch(tags, now))) == SpecTags(data)
    ensures StatusTags(MergePatch(data, StatusPatch(tags, now))) == Some(NewStatusTags(tags, now))
  {
    var patch := StatusPatch(tags, now);
    var status := patch.fields["status"];
    var base := data.Get("status").GetOr(Null);
    StatusPatchEffect(data, status);
    assert MergePatch(base, status).Get("tags") == Some(Arr(NewStatusTags(tags, now)));
  }

  /** Some importable tag has this name and image. */
  predicate Offered(tags: seq<Json>, pair: (string, string)) {
    exists j :: 0 <= j < |tags| && Importable(tags[j]) && SpecPair(tags[j]) == pair
  }

  function ImportableCount(tags: seq<Json>): (n: nat) {
    if tags == [] then 0 else ImportableCount(tags[..|tags| - 1]) + if Importable(tags[|tags| - 1]) then 1 else 0
  }

  ghost predicate AllImportable(tags: seq<Json>) {
    forall i :: 0 <= i < |tags| ==> Importable(tags[i])
  }

  /** The new status lists exactly the pairs of the importable tags, one entry each. */
  lemma {:induction false} NewTagsList(tags: seq<Json>, now: string, pair: (string, string))
    ensures Listed(NewStatusTags(tags, now), pair) <==> Offered(tags, pair)
    ensures |NewStatusTags(tags, now)| == ImportableCount(tags)
  {
    if tags != [] {
      var n := |tags| - 1;
      var front := NewStatusTags(tags[..n], now);
      NewTagsList(tags[..n], now, pair);
      OfferedSnoc(tags, pair);
      if Importable(tags[n]) {
        ListedSnoc(front, StatusTagFor(tags[n], now), pair);
      } else {
        assert NewStatusTags(tags, now) == front;
      }
    }
  }

  lemma OfferedSnoc(tags: seq<Json>, pair: (string, string))
    requires tags != []
    ensures var n := |tags| - 1;
            Offered(tags, pair) <==> Offered(tags[..n], pair) || (Importable(tags[n]) && SpecPair(tags[n]) == pair)
  {
    var n := |tags| - 1;
    assert forall i :: 0 <= i < n ==> tags[i] == tags[..n][i];
  }

  lemma ListedSnoc(status: seq<Json>, last: Json, pair: (string, string))
    ensures Listed(status + [last], pair) <==> Listed(status, pair) || StatusPair(last) == pair
  {
    var all := status + [last];
    assert all[|status|] == last && forall i :: 0 <= i < |status| ==> all[i] == status[i];
  }

  /** The spec `tags` is settled by a status made from `cached`. */
  ghost predicate SettledBy(tags: seq<Json>, cached: seq<Json>) {
    |tags| == ImportableCount(cached) && forall i :: 0 <= i < |tags| ==> Offered(cached, SpecPair(tags[i]))
  }

  /**
    * A patch made from a cached version settles the stored one exactly when the stored spec has no tags, or as many as
    * the cached spec has importable ones, each of them among these.
    */
  lemma SettlesIff(cached: Json, stored: Json, now: string)
    requires StatusNeedsUpdate(cached)
    ensures !StatusNeedsUpdate(Reconcile(cached, stored, now)) <==>
            SpecTags(stored).GetOr([]) == [] || SettledBy(SpecTags(stored).value, SpecTags(cached).value)
  {
    var tags := SpecTags(cached).value;
    PatchedTags(stored, tags, now);
    forall pair ensures Listed(NewStatusTags(tags, now), pair) <==> Offered(tags, pair) {
      NewTagsList(tags, now, pair);
    }
    NewTagsList(tags, now, ("", ""));
  }

  /** With an up-to-date cache, one patch is enough exactly when every tag has a string name and a string source. */
  lemma FixpointIff(cached: Json, stored: Json, now: string)
    requires StatusNeedsUpdate(cached) && SpecTags(stored) == SpecTags(cached)
    ensures !StatusNeedsUpdate(Reconcile(cached, stored, now)) <==> AllImportable(SpecTags(cached).value)
  {
    var tags := SpecTags(cached).value;
    SettlesIff(cached, stored, now);
    NewTagsList(tags, now, ("", ""));
    if AllImportable(tags) {
      forall i | 0 <= i < |tags| ensures Offered(tags, SpecPair(tags[i])) {}
    }
  }

  // ---- runs, with any staleness ----

  datatype Event =
    | Edit(data: Json)               // a user changes anything but the status
    | Sync(seen: nat, now: string)   // the controller reconciles from the version `seen`

  function Latest(vs: seq<Json>): (r: Json)
    requires vs != []
  {
    vs[|vs| - 1]
  }

  function Step(vs: seq<Json>, e: Event): (r: seq<Json>)
    requires vs != []
    ensures vs <= r
  {
    match e
    case Edit(data) => if data.Get("status") == Latest(vs).Get("status") then vs + [data] else vs
    case Sync(seen, now) =>
      if seen < |vs| && StatusNeedsUpdate(vs[seen]) then vs + [Reconcile(vs[seen], Latest(vs), now)] else vs
  }

  function Run(vs: seq<Json>, events: seq<Event>): (r: seq<Json>)
    requires vs != []
    ensures vs <= r
  {
    if events == [] then vs else Step(Run(vs, events[..|events| - 1]), events[|events| - 1])
  }

  /** The status of version `k` was made from the spec of an earlier version, or there is none. */
  ghost predicate StatusEarned(vs: seq<Json>, k: nat)
    requires k < |vs|
  {
    || StatusTags(vs[k]).None?
    || exists i, now :: 0 <= i < k && StatusFrom(vs[i], now, vs[k])
  }

  predicate StatusFrom(source: Json, now: string, target: Json) {
    && SpecTags(source).Some?
    && StatusTags(target) == Some(NewStatusTags(SpecTags(source).value, now))
  }

  /** In every interleaving, every status was made from the spec of some earlier version. */
  lemma {:induction false} StatusFromSomeSpec(first: Json, events: seq<Event>, k: nat)
    requires first.Get("status").None? && k < |Run([first], events)|
    ensures StatusEarned(Run([first], events), k)
  {
    if events != [] {
      var before := Run([first], events[..|events| - 1]);
      var after := Step(before, events[|events| - 1]);
      if k < |before| {
        StatusFromSomeSpec(first, events[..|events| - 1], k);
        EarnedStays(before, after, k);
      } else {
        StatusFromSomeSpec(first, events[..|events| - 1], |before| - 1);
        EarnedNow(before, events[|events| - 1]);
      }
    }
  }

  lemma EarnedStays(vs: seq<Json>, more: seq<Json>, k: nat)
    requires k < |vs| && vs <= more && StatusEarned(vs, k)
    ensures StatusEarned(more, k)
  {
    if StatusTags(vs[k]).Some? {
      var i, now :| 0 <= i < k && StatusFrom(vs[i], now, vs[k]);
      assert StatusFrom(more[i], now, more[k]);
    }
  }

  lemma EarnedNow(vs: seq<Json>, e: Event)
    requires vs != [] && StatusEarned(vs, |vs| - 1) && Step(vs, e) != vs
    ensures |Step(vs, e)| == |vs| + 1 && StatusEarned(Step(vs, e), |vs|)
  {
    var after := Step(vs, e);
    match e
    case Edit(data) =>
      if StatusTags(data).Some? {
        var i, now :| 0 <= i < |vs| - 1 && StatusFrom(vs[i], now, vs[|vs| - 1]);
        assert StatusFrom(after[i], now, after[|vs|]);
      }
    case Sync(seen, now) =>
      PatchedTags(Latest(vs), SpecTags(vs[seen]).value, now);
      assert StatusFrom(after[seen], now, after[|vs|]);
  }

  /** Only reconciles, each from version `base` or a later one that exists. */
  ghost predicate FreshSyncs(vs: seq<Json>, base: nat, events: seq<Event>)
    requires vs != []
  {
    forall i :: 0 <= i < |events| ==> events[i].Sync? && base <= events[i].seen < |Run(vs, events[..i])|
  }

  lemma FreshPrefix(vs: seq<Json>, base: nat, events: seq<Event>)
    requires vs != [] && events != [] && FreshSyncs(vs, base, events)
    ensures FreshSyncs(vs, base, events[..|events| - 1])
  {
    var n := |events| - 1;
    forall i | 0 <= i < n ensures events[..n][i].Sync? && base <= events[..n][i].seen < |Run(vs, events[..n][..i])| {
      assert events[..n][i] == events[i] && events[..n][..i] == events[..i];
    }
  }

  /** Once the stored version is settled and the cache has caught up with it, the controller writes nothing any more. */
  lemma {:induction false} QuietOnceSettled(vs: seq<Json>, events: seq<Event>)
    requires vs != [] && !StatusNeedsUpdate(Latest(vs)) && FreshSyncs(vs, |vs| - 1, events)
    ensures Run(vs, events) == vs
  {
    if events != [] {
      var n := |events| - 1;
      FreshPrefix(vs, |vs| - 1, events);
      QuietOnceSettled(vs, events[..n]);
      SettledStep(vs, events[n].seen, events[n].now);
    }
  }

  lemma SettledStep(vs: seq<Json>, seen: nat, now: string)
    requires vs != [] && !StatusNeedsUpdate(Latest(vs)) && seen == |vs| - 1
    ensures Step(vs, Sync(seen, now)) == vs
  {
  }

  /** With a tag that cannot be imported, every single reconcile writes again, for ever, however fresh the cache. */
  lemma {:induction false} HotLoop(vs: seq<Json>, events: seq<Event>)
    requires vs != [] && StatusNeedsUpdate(Latest(vs)) && !AllImportable(SpecTags(Latest(vs)).value)
    requires FreshSyncs(vs, |vs| - 1, events)
    ensures |Run(vs, events)| == |vs| + |events|
    ensures forall k :: |vs| - 1 <= k < |Run(vs, events)| ==>
              StatusNeedsUpdate(Run(vs, events)[k]) && SpecTags(Run(vs, events)[k]) == SpecTags(Latest(vs))
  {
    if events != [] {
      var n := |events| - 1;
      FreshPrefix(vs, |vs| - 1, events);
      HotLoop(vs, events[..n]);
      var before := Run(vs, events[..n]);
      var seen, now := events[n].seen, events[n].now;
      PatchedTags(Latest(before), SpecTags(before[seen]).value, now);
      FixpointIff(before[seen], Latest(before), now);
    }
  }

  function OneTag(name: string, image: string): (tag: Json) {
    Obj(map["name" := Str(name), "from" := Obj(map["name" := Str(image)])])
  }

  /** An object whose spec has this one tag. */
  function Simple(name: string, image: string): (data: Json) {
    Obj(map["spec" := Obj(map["tags" := Arr([OneTag(name, image)])])])
  }

  lemma SimpleTags(name: string, image: string)
    ensures SpecTags(Simple(name, image)) == Some([OneTag(name, image)]) && StatusNeedsUpdate(Simple(name, image))
    ensures SpecPair(OneTag(name, image)) == (name, image) && Importable(OneTag(name, image))
  {
  }

  /** A reconcile from a stale version undoes a settled status: by then the tag had been changed. */
  lemma StaleUndoes(name: string, image: string, name': string, image': string, now: string, now': string)
    requires (name, image) != (name', image')
    ensures var settled := Reconcile(Simple(name', image'), Simple(name', image'), now);
            && !StatusNeedsUpdate(settled)
            && StatusNeedsUpdate(Reconcile(Simple(name, image), settled, now'))
  {
    var stale, current := Simple(name, image), Simple(name', image');
    SimpleTags(name, image);
    SimpleTags(name', image');
    var settled := Reconcile(current, current, now);
    assert AllImportable([OneTag(name', image')]);
    FixpointIff(current, current, now);
    PatchedTags(current, [OneTag(name', image')], now);
    SettlesIff(stale, settled, now');
    assert !Offered([OneTag(name, image)], SpecPair([OneTag(name', image')][0]));
  }

  // ---- what "no update needed" guarantees ----

  lemma {:induction false} DistinctAsMultiset<T>(s: seq<T>, t: seq<T>)
    requires forall i, j :: 0 <= i < j < |s| ==> s[i] != s[j]
    requires forall i :: 0 <= i < |s| ==> s[i] in t
    ensures multiset(s) <= multiset(t)
  {
    if s != [] {
      var n := |s| - 1;
      DistinctAsMultiset(s[..n], t);
      assert s == s[..n] + [s[n]];
      assert s[n] !in multiset(s[..n]) by {
        assert s[n] !in s[..n];
      }
    }
  }

  /** The pigeonhole step: with distinct tag names, "up to date" means status and spec list the same pairs, each once. */
  lemma UpToDateIsPermutation(data: Json)
    requires SpecTags(data).Some? && SpecTags(data).value != []
    requires !StatusNeedsUpdate(data)
    requires var tags := SpecTags(data).value;
             forall i, j :: 0 <= i < j < |tags| ==> SpecPair(tags[i]).0 != SpecPair(tags[j]).0
    ensures StatusTags(data).Some?
    ensures multiset(Pairs(StatusTags(data).value, StatusPair)) == multiset(Pairs(SpecTags(data).value, SpecPair))
  {
    var spec, status := Pairs(SpecTags(data).value, SpecPair), Pairs(StatusTags(data).value, StatusPair);
    forall i | 0 <= i < |spec| ensures spec[i] in status {
      assert Listed(StatusTags(data).value, SpecPair(SpecTags(data).value[i]));
      var j :| 0 <= j < |status| && status[j] == spec[i];
    }
    DistinctAsMultiset(spec, status);
    var extra := multiset(status) - multiset(spec);
    assert multiset(status) == multiset(spec) + extra;
    assert |extra| == 0;
  }

  // ---- what is read and written, said on the JSON itself ----

  lemma TagListsMean(data: Json)
    ensures forall ts :: SpecTags(data) == Some(ts) <==> Has2(data, "spec", "tags", Arr(ts))
    ensures forall ts :: StatusTags(data) == Some(ts) <==> Has2(data, "status", "tags", Arr(ts))
  {
    if SpecTags(data).Some? { assert Has2(data, "spec", "tags", Arr(SpecTags(data).value)); }
    if StatusTags(data).Some? { assert Has2(data, "status", "tags", Arr(StatusTags(data).value)); }
  }

  /** Name and source of a spec tag, empty where missing; importable exactly when both are there. */
  lemma SpecPairMeans(tag: Json)
    ensures forall s :: Has(tag, "name", Str(s)) ==> SpecPair(tag).0 == s
    ensures (forall s :: !Has(tag, "name", Str(s))) ==> SpecPair(tag).0 == ""
    ensures forall s :: Has2(tag, "from", "name", Str(s)) ==> SpecPair(tag).1 == s
    ensures (forall s :: !Has2(tag, "from", "name", Str(s))) ==> SpecPair(tag).1 == ""
    ensures Importable(tag) <==> (exists s :: Has(tag, "name", Str(s))) && exists s :: Has2(tag, "from", "name", Str(s))
  {
    var name, image := StrOf(tag.Get("name")), StrOf(Member(tag.Get("from"), "name"));
    if name.Some? { assert Has(tag, "name", Str(name.value)); }
    if image.Some? { assert Has2(tag, "from", "name", Str(image.value)); }
  }

  /** Tag and first image of a status entry, empty where missing. */
  lemma StatusPairMeans(tag: Json)
    ensures forall s :: Has(tag, "tag", Str(s)) ==> StatusPair(tag).0 == s
    ensures (forall s :: !Has(tag, "tag", Str(s))) ==> StatusPair(tag).0 == ""
    ensures forall items, s :: Has(tag, "items", Arr(items)) && items != [] && Has(items[0], "dockerImageReference", Str(s)) ==>
              StatusPair(tag).1 == s
    ensures (forall items, s :: Has(tag, "items", Arr(items)) && items != [] ==> !Has(items[0], "dockerImageReference", Str(s))) ==>
              StatusPair(tag).1 == ""
  {
    var name, items := StrOf(tag.Get("tag")), ArrayOf(tag.Get("items"));
    if name.Some? { assert Has(tag, "tag", Str(name.value)); }
    if items.Some? && items.value != [] {
      assert Has(tag, "items", Arr(items.value));
      var image := StrOf(items.value[0].Get("dockerImageReference"));
      if image.Some? { assert Has(items.value[0], "dockerImageReference", Str(image.value)); }
    }
  }

  /** The status has as many entries as the spec has tags, and each tag's name and source among them. */
  ghost predicate UpToDate(tags: seq<Json>, status: seq<Json>) {
    && |tags| == |status|
    && forall i :: 0 <= i < |tags| ==> exists j :: 0 <= j < |status| && StatusPair(status[j]) == SpecPair(tags[i])
  }

  /** An update is needed exactly when there are tags, and no status that is up to date with them. */
  lemma NeedsUpdateMeans(data: Json)
    ensures StatusNeedsUpdate(data) <==>
            exists tags :: && Has2(data, "spec", "tags", Arr(tags)) && tags != []
                           && forall status :: Has2(data, "status", "tags", Arr(status)) ==> !UpToDate(tags, status)
  {
    TagListsMean(data);
    var spec, status := SpecTags(data), StatusTags(data);
    if spec.Some? && status.Some? && |spec.value| == |status.value| {
      assert UpToDate(spec.value, status.value) <==>
             forall i :: 0 <= i < |spec.value| ==> Listed(status.value, SpecPair(spec.value[i]));
    }
    if StatusNeedsUpdate(data) { assert Has2(data, "spec", "tags", Arr(spec.value)); }
  }

  /** The entry written for a tag. */
  ghost predicate EntryFor(tag: Json, now: string, entry: Json) {
    exists name, image ::
      && Has(tag, "name", Str(name)) && Has2(tag, "from", "name", Str(image))
      && entry == Obj(map["tag" := Str(name),
                          "items" := Arr([Obj(map["dockerImageReference" := Str(image), "created" := Str(now),
                                                  "generation" := Num(1), "image" := Str("")])])])
  }

  /** A patch stores an empty repository and, in order, one entry for each importable tag of the cached spec. */
  lemma PatchWrites(cached: Json, stored: Json, now: string)
    requires StatusNeedsUpdate(cached)
    ensures var after := Reconcile(cached, stored, now);
            && Has2(after, "status", "dockerImageRepository", Str(""))
            && Has2(after, "status", "tags", Arr(NewStatusTags(SpecTags(cached).value, now)))
            && forall k :: k != "status" ==> after.Get(k) == stored.Get(k)
  {
    var tags := SpecTags(cached).value;
    StatusPatchEffect(stored, StatusPatch(tags, now).fields["status"]);
    StatusFields(stored.Get("status").GetOr(Null), tags, now);
  }

  lemma StatusFields(base: Json, tags: seq<Json>, now: string)
    ensures var merged := MergePatch(base, StatusPatch(tags, now).fields["status"]);
            && Has(merged, "dockerImageRepository", Str(""))
            && Has(merged, "tags", Arr(NewStatusTags(tags, now)))
  {
    var patch := StatusPatch(tags, now).fields["status"];
    assert MergePatch(base, patch).Get("tags") == Some(patch.fields["tags"]);
    assert MergePatch(base, patch).Get("dockerImageRepository") == Some(Str(""));
  }

  lemma NewTagsMean(tags: seq<Json>, tag: Json, now: string)
    ensures NewStatusTags([], now) == []
    ensures Importable(tag) ==> EntryFor(tag, now, StatusTagFor(tag, now))
    ensures NewStatusTags(tags + [tag], now) ==
            NewStatusTags(tags, now) + if Importable(tag) then [StatusTagFor(tag, now)] else []
  {
    assert (tags + [tag])[..|tags|] == tags;
    if Importable(tag) {
      var name, image := StrOf(tag.Get("name")).value, StrOf(Member(tag.Get("from"), "name")).value;
      assert Has(tag, "name", Str(name)) && Has2(tag, "from", "name", Str(image));
    }
  }
}
