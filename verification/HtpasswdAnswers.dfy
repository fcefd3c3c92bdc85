/** What readers of an edited file are told: which entries an edit touches, and when anyone notices. */
module HtpasswdAnswers {
  import opened Prelude
  import opened Text
  import opened UserStore
  import opened Htpasswd

  /** `u` logs in with `p` and with nothing else. */
  ghost predicate OnlyPassword(users: seq<UserEntry>, u: string, p: string) {
    forall q :: Authenticate(users, u, q).Some? <==> q == p
  }

  ghost predicate NoPassword(users: seq<UserEntry>, u: string) {
    forall q :: Authenticate(users, u, q).None?
  }

  /** Everyone but `u` gets the same answers. */
  ghost predicate SameForOthers(before: seq<UserEntry>, after: seq<UserEntry>, u: string) {
    forall v, q :: v != u ==> SameAnswer(before, after, v, q)
  }

  predicate SameAnswer(before: seq<UserEntry>, after: seq<UserEntry>, v: string, q: string) {
    Authenticate(after, v, q) == Authenticate(before, v, q) && Lookup(after, v) == Lookup(before, v)
  }

  // ---- reading what was written, line breaks in names and passwords included ----

  function ParseText(s: string): (users: seq<UserEntry>) {
    ParseLines(SplitLines(s))
  }

  /** The entries that the text written for `u` and `p` defines; one line unless they contain newlines. */
  function Written(u: string, p: string): (users: seq<UserEntry>) {
    ParseText(Entry(u, p))
  }

  lemma {:induction false} ParseJoined(ls: seq<string>)
    ensures ParseText(JoinLines(ls)) == Flatten(ParseText, ls)
  {
    if ls == [] {
      ParseBlank();
    } else if |ls| == 1 {
      FlattenOne(ParseText, ls[0]);
      assert ls == [ls[0]];
    } else {
      ParseJoined(ls[1..]);
      SplitNewline(ls[0], JoinLines(ls[1..]));
      ParseAppend(SplitLines(ls[0]), SplitLines(JoinLines(ls[1..])));
      FlattenCons(ParseText, ls[0], ls[1..]);
      assert ls == [ls[0]] + ls[1..];
    }
  }

  /** Reading back whatever the editor writes. */
  lemma ReadBackAny(ls: seq<string>)
    ensures FromHtpasswd(JoinLines(ls) + ['\n']) == Flatten(ParseText, ls)
  {
    var text := JoinLines(ls) + ['\n'];
    FromHtpasswdPieces(text);
    assert text == JoinLines(ls) + ['\n'] + [];
    SplitNewline(JoinLines(ls), []);
    ParseAppend(SplitLines(JoinLines(ls)), [[]]);
    ParseBlank();
    ParseJoined(ls);
  }

  /** The user list after an upsert. */
  function Upserted(lines: seq<string>, u: string, p: string): (users: seq<UserEntry>) {
    Flatten(ParseText, UpsertUser(lines, u, p))
  }

  lemma ParseOneLine(line: string)
    requires '\n' !in line
    ensures ParseText(line) == match ParseLine(line) case Some(e) => [e] case None => []
  {
    SplitOneLine(line);
    ParseSingle(line);
  }

  // ---- who is in the list after an edit ----

  /** Some line that the editor keeps defines `e`. */
  ghost predicate KeptLine(lines: seq<string>, u: string, e: UserEntry) {
    exists i :: 0 <= i < |lines| && RawUser(lines[i]) != Some(u) && ParseLine(lines[i]) == Some(e)
  }

  /** Some line that the editor replaces or removes defines `e`. */
  ghost predicate TakenLine(lines: seq<string>, u: string, e: UserEntry) {
    exists i :: 0 <= i < |lines| && RawUser(lines[i]) == Some(u) && ParseLine(lines[i]) == Some(e)
  }

  lemma EntryUpserted(lines: seq<string>, u: string, p: string)
    ensures Entry(u, p) in UpsertUser(lines, u, p)
  {
    ReplacedLines(lines, u, p, Entry(u, p));
  }

  lemma UpsertedMembers(lines: seq<string>, u: string, p: string, e: UserEntry)
    requires NoNewlines(lines)
    ensures e in Upserted(lines, u, p) <==> e in Written(u, p) || KeptLine(lines, u, e)
  {
    var edited := UpsertUser(lines, u, p);
    InFlatten(ParseText, edited, e);
    EntryUpserted(lines, u, p);
    if KeptLine(lines, u, e) {
      var i :| 0 <= i < |lines| && RawUser(lines[i]) != Some(u) && ParseLine(lines[i]) == Some(e);
      ParseBlank();
      ReplacedLines(lines, u, p, lines[i]);
      assert lines[i] in edited;
      ParseOneLine(lines[i]);
    }
    if x :| x in edited && e in ParseText(x) && x != Entry(u, p) {
      ReplacedLines(lines, u, p, x);
      var i :| 0 <= i < |lines| && lines[i] == x;
      ParseOneLine(lines[i]);
    }
  }

  lemma RemovedMembers(lines: seq<string>, u: string, e: UserEntry)
    ensures e in ParseLines(RemoveUser(lines, u)) <==> KeptLine(lines, u, e)
  {
    var edited := RemoveUser(lines, u);
    ParsedFrom(edited, e);
    if KeptLine(lines, u, e) {
      var i :| 0 <= i < |lines| && RawUser(lines[i]) != Some(u) && ParseLine(lines[i]) == Some(e);
      ParseBlank();
      RemovedLines(lines, u, lines[i]);
      var j :| 0 <= j < |edited| && edited[j] == lines[i];
    }
    if j :| 0 <= j < |edited| && ParseLine(edited[j]) == Some(e) {
      RemovedLines(lines, u, edited[j]);
    }
  }

  lemma ReadMembers(lines: seq<string>, u: string, e: UserEntry)
    ensures e in ParseLines(lines) <==> KeptLine(lines, u, e) || TakenLine(lines, u, e)
  {
    ParsedFrom(lines, e);
  }

  // ---- who comes first ----

  lemma {:induction false} LookupAppend(a: seq<UserEntry>, b: seq<UserEntry>, v: string)
    ensures Lookup(a + b, v) == if Lookup(a, v).Some? then Lookup(a, v) else Lookup(b, v)
  {
    if a == [] {
      assert a + b == b;
    } else {
      assert (a + b)[1..] == a[1..] + b;
      LookupAppend(a[1..], b, v);
    }
  }

  /** No line that the editor replaces or removes defines `v`. */
  ghost predicate NotTaken(lines: seq<string>, u: string, v: string) {
    forall e :: TakenLine(lines, u, e) ==> e.username != v
  }

  lemma NotTakenStep(lines: seq<string>, u: string, v: string)
    requires lines != [] && NotTaken(lines, u, v)
    ensures NotTaken(lines[1..], u, v)
    ensures RawUser(lines[0]) == Some(u) && ParseLine(lines[0]).Some? ==> ParseLine(lines[0]).value.username != v
  {
    forall e | TakenLine(lines[1..], u, e) ensures e.username != v {
      var i :| 0 <= i < |lines[1..]| && RawUser(lines[1..][i]) == Some(u) && ParseLine(lines[1..][i]) == Some(e);
      assert RawUser(lines[i + 1]) == Some(u) && ParseLine(lines[i + 1]) == Some(e);
      assert TakenLine(lines, u, e);
    }
    if RawUser(lines[0]) == Some(u) && ParseLine(lines[0]).Some? {
      assert TakenLine(lines, u, ParseLine(lines[0]).value);
    }
  }

  lemma {:induction false} RemovedLookup(lines: seq<string>, u: string, v: string)
    requires NotTaken(lines, u, v)
    ensures Lookup(ParseLines(RemoveUser(lines, u)), v) == Lookup(ParseLines(lines), v)
  {
    if lines != [] {
      NotTakenStep(lines, u, v);
      RemovedLookup(lines[1..], u, v);
      ParseBlank();
      var rest := RemoveUser(lines[1..], u);
      LookupCons(lines[0], lines[1..], v);
      LookupCons(lines[0], rest, v);
      assert lines == [lines[0]] + lines[1..];
    }
  }

  lemma LookupCons(line: string, rest: seq<string>, v: string)
    ensures Lookup(ParseLines([line] + rest), v) ==
            if ParseLine(line).Some? && ParseLine(line).value.username == v then ParseLine(line)
            else Lookup(ParseLines(rest), v)
  {
    assert ([line] + rest)[1..] == rest;
    match ParseLine(line)
    case Some(e) => assert ([e] + ParseLines(rest))[1..] == ParseLines(rest);
    case None =>
  }

  lemma {:induction false} ReplacedLookup(lines: seq<string>, u: string, p: string, v: string)
    requires NoNewlines(lines) && NotTaken(lines, u, v) && Lookup(Written(u, p), v).None?
    ensures Lookup(Flatten(ParseText, ReplaceUser(lines, u, p)), v) == Lookup(ParseLines(lines), v)
  {
    if lines != [] {
      NotTakenStep(lines, u, v);
      ReplacedLookup(lines[1..], u, p, v);
      ParseBlank();
      LookupCons(lines[0], lines[1..], v);
      assert lines == [lines[0]] + lines[1..];
      var rest := ReplaceUser(lines[1..], u, p);
      if lines[0] != [] {
        var head := if RawUser(lines[0]) == Some(u) then Entry(u, p) else lines[0];
        FlattenCons(ParseText, head, rest);
        LookupAppend(ParseText(head), Flatten(ParseText, rest), v);
        ParseOneLine(lines[0]);
      }
    }
  }

  lemma UpsertedLookup(lines: seq<string>, u: string, p: string, v: string)
    requires NoNewlines(lines) && NotTaken(lines, u, v) && Lookup(Written(u, p), v).None?
    ensures Lookup(Upserted(lines, u, p), v) == Lookup(ParseLines(lines), v)
  {
    ReplacedLookup(lines, u, p, v);
    var tail := if Mentions(lines, u) then [] else [Entry(u, p)];
    FlattenAppend(ParseText, ReplaceUser(lines, u, p), tail);
    if !Mentions(lines, u) { FlattenOne(ParseText, Entry(u, p)); }
    LookupAppend(Flatten(ParseText, ReplaceUser(lines, u, p)), Flatten(ParseText, tail), v);
  }

  // ---- who notices ----

  /** An entry of somebody other than `u` that an edit loses, replaces, removes or writes. */
  ghost predicate Touched(text: string, u: string, written: seq<UserEntry>, e: UserEntry) {
    e.username != u && (LostEntry(text) == Some(e) || TakenLine(EditorLines(text), u, e) || e in written)
  }

  /** The entry is there before and after, and so is whoever comes first under its name. */
  ghost predicate StaysKnown(before: seq<UserEntry>, after: seq<UserEntry>, e: UserEntry) {
    e in before && e in after && Lookup(after, e.username) == Lookup(before, e.username)
  }

  ghost predicate Unnoticed(text: string, u: string, written: seq<UserEntry>, after: seq<UserEntry>) {
    forall e :: Touched(text, u, written, e) ==> StaysKnown(FromHtpasswd(text), after, e)
  }

  ghost predicate Bare(users: seq<UserEntry>) {
    forall e :: e in users ==> e == UserEntry(e.username, e.password, None, None)
  }

  lemma BareKnown(users: seq<UserEntry>, e: UserEntry)
    requires Bare(users) && e == UserEntry(e.username, e.password, None, None)
    ensures Authenticate(users, e.username, e.password) == if e in users then Some(e) else None
  {
  }

  lemma FileIsBare(text: string)
    ensures Bare(FromHtpasswd(text))
  {
    forall e | e in FromHtpasswd(text) ensures e == UserEntry(e.username, e.password, None, None) {
      ParsedBare(RustLines(text), e);
    }
  }

  /** The list after an edit: kept lines and written entries, in an order that only touched names can feel. */
  ghost predicate Edited(text: string, u: string, written: seq<UserEntry>, after: seq<UserEntry>) {
    && Bare(after)
    && (forall e :: e in after <==> e in written || KeptLine(EditorLines(text), u, e))
    && (forall v :: NotTaken(EditorLines(text), u, v) && Lookup(written, v).None? ==>
          Lookup(after, v) == Lookup(ParseLines(EditorLines(text)), v))
  }

  lemma EntryOutcome(text: string, u: string, written: seq<UserEntry>, after: seq<UserEntry>, e: UserEntry)
    requires Edited(text, u, written, after) && e.username != u && !Touched(text, u, written, e)
    ensures e in after <==> e in FromHtpasswd(text)
  {
    EditorView(text);
    ReadMembers(EditorLines(text), u, e);
  }

  lemma UntouchedName(text: string, u: string, written: seq<UserEntry>, v: string)
    requires v != u && forall e :: Touched(text, u, written, e) ==> e.username != v
    ensures NotTaken(EditorLines(text), u, v) && Lookup(written, v).None?
    ensures LostEntry(text).Some? ==> LostEntry(text).value.username != v
  {
    assert forall e: UserEntry :: e.username == v && TakenLine(EditorLines(text), u, e) ==> Touched(text, u, written, e);
    assert forall e: UserEntry :: e.username == v && e in written ==> Touched(text, u, written, e);
    assert forall e: UserEntry :: e.username == v && LostEntry(text) == Some(e) ==> Touched(text, u, written, e);
  }

  lemma LookupInView(text: string, v: string)
    requires LostEntry(text).Some? ==> LostEntry(text).value.username != v
    ensures Lookup(FromHtpasswd(text), v) == Lookup(ParseLines(EditorLines(text)), v)
  {
    EditorView(text);
    var kept := ParseLines(EditorLines(text));
    if LostEntry(text).Some? {
      LookupAppend([LostEntry(text).value], kept, v);
    } else {
      assert [] + kept == kept;
    }
  }

  lemma NameOutcome(text: string, u: string, written: seq<UserEntry>, after: seq<UserEntry>, v: string)
    requires Edited(text, u, written, after) && v != u
    requires forall e :: Touched(text, u, written, e) ==> e.username != v
    ensures Lookup(after, v) == Lookup(FromHtpasswd(text), v)
  {
    UntouchedName(text, u, written, v);
    LookupInView(text, v);
  }

  /** Nobody else notices an edit exactly when every touched entry is as well known afterwards as before. */
  lemma EditNoticed(text: string, u: string, written: seq<UserEntry>, after: seq<UserEntry>)
    requires Edited(text, u, written, after)
    ensures SameForOthers(FromHtpasswd(text), after, u) <==> Unnoticed(text, u, written, after)
  {
    if Unnoticed(text, u, written, after) {
      forall v, q | v != u ensures SameAnswer(FromHtpasswd(text), after, v, q) {
        AnswersKept(text, u, written, after, v, q);
      }
    }
    if SameForOthers(FromHtpasswd(text), after, u) {
      forall e | Touched(text, u, written, e) ensures StaysKnown(FromHtpasswd(text), after, e) {
        TouchedKept(text, u, written, after, e);
      }
    }
  }

  lemma AnswersKept(text: string, u: string, written: seq<UserEntry>, after: seq<UserEntry>, v: string, q: string)
    requires Edited(text, u, written, after) && Unnoticed(text, u, written, after) && v != u
    ensures SameAnswer(FromHtpasswd(text), after, v, q)
  {
    if e :| Touched(text, u, written, e) && e.username == v {
      assert StaysKnown(FromHtpasswd(text), after, e);
    } else {
      NameOutcome(text, u, written, after, v);
    }
    var e := UserEntry(v, q, None, None);
    FileIsBare(text);
    BareKnown(after, e);
    BareKnown(FromHtpasswd(text), e);
    if !Touched(text, u, written, e) { EntryOutcome(text, u, written, after, e); }
  }

  lemma TouchedKept(text: string, u: string, written: seq<UserEntry>, after: seq<UserEntry>, e: UserEntry)
    requires Edited(text, u, written, after) && SameForOthers(FromHtpasswd(text), after, u)
    requires Touched(text, u, written, e)
    ensures StaysKnown(FromHtpasswd(text), after, e)
  {
    EditorView(text);
    ReadMembers(EditorLines(text), u, e);
    FileIsBare(text);
    BareKnown(after, e);
    BareKnown(FromHtpasswd(text), e);
    assert SameAnswer(FromHtpasswd(text), after, e.username, e.password);
  }

  lemma AddEdits(text: string, u: string, p: string)
    ensures FromHtpasswd(AddText(text, u, p)) == Upserted(EditorLines(text), u, p)
    ensures Edited(text, u, Written(u, p), FromHtpasswd(AddText(text, u, p)))
  {
    var lines, after := EditorLines(text), FromHtpasswd(AddText(text, u, p));
    ReadBackAny(UpsertUser(lines, u, p));
    SplitHasNoNewlines(Trim(text));
    FileIsBare(AddText(text, u, p));
    forall e ensures e in after <==> e in Written(u, p) || KeptLine(lines, u, e) {
      UpsertedMembers(lines, u, p, e);
    }
    forall v | NotTaken(lines, u, v) && Lookup(Written(u, p), v).None?
      ensures Lookup(after, v) == Lookup(ParseLines(lines), v)
    {
      UpsertedLookup(lines, u, p, v);
    }
  }

  lemma DeleteEdits(text: string, u: string)
    requires DeleteText(text, u).Some?
    ensures Edited(text, u, [], FromHtpasswd(DeleteText(text, u).value))
  {
    var lines, after := EditorLines(text), FromHtpasswd(DeleteText(text, u).value);
    ReadDeleted(text, u);
    FileIsBare(DeleteText(text, u).value);
    forall e ensures e in after <==> KeptLine(lines, u, e) {
      RemovedMembers(lines, u, e);
    }
    forall v | NotTaken(lines, u, v) ensures Lookup(after, v) == Lookup(ParseLines(lines), v) {
      RemovedLookup(lines, u, v);
    }
  }
}
