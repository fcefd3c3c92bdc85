/** What `user add` and `user delete` promise, as seen by the simulator's reader: for every file and every user name. */
module HtpasswdPromises {
  import opened Prelude
  import opened Text
  import opened UserStore
  import opened Htpasswd
  import opened HtpasswdAnswers

  /** No padded line for `u` carries another password than `p`. */
  ghost predicate NoStaleShadow(lines: seq<string>, u: string, p: string) {
    forall i :: 0 <= i < |lines| && Shadows(lines[i], u) ==> ParseLine(lines[i]).value.password == p
  }

  ghost predicate NoShadow(lines: seq<string>, u: string) {
    forall i :: 0 <= i < |lines| ==> !Shadows(lines[i], u)
  }

  ghost predicate HasShadow(lines: seq<string>, u: string) {
    exists i :: 0 <= i < |lines| && Shadows(lines[i], u)
  }

  /** Trimming the file takes an entry away from somebody other than `u`. */
  predicate LosesOther(text: string, u: string) {
    LostEntry(text).Some? && LostEntry(text).value.username != u
  }

  /** Nobody notices: the next entry of that name is the same. */
  predicate LossUnseen(text: string, u: string) {
    LosesOther(text, u) ==>
      Lookup(ParseLines(EditorLines(text)), LostEntry(text).value.username) == LostEntry(text)
  }

  lemma {:induction false} FirstAuthenticates(users: seq<UserEntry>, e: UserEntry)
    requires Lookup(users, e.username) == Some(e)
    ensures Authenticate(users, e.username, e.password) == Some(e)
  {
    if users[0] != e { FirstAuthenticates(users[1..], e); }
  }

  /** Answers about anyone but `u` after an edit that keeps the other entries. */
  lemma AnswersOf(kept: seq<UserEntry>, after: seq<UserEntry>, u: string, v: string, q: string)
    requires Others(after, u) == Others(kept, u) && v != u
    ensures Authenticate(after, v, q) == Authenticate(kept, v, q) && Lookup(after, v) == Lookup(kept, v)
  {
    OthersAnswer(kept, u, v, q);
    OthersAnswer(after, u, v, q);
  }

  /** A first entry repeated by the next one of its name adds no answer. */
  lemma RepeatedEntry(e: UserEntry, kept: seq<UserEntry>, v: string, q: string)
    requires Lookup(kept, e.username) == Some(e)
    ensures Authenticate([e] + kept, v, q) == Authenticate(kept, v, q) && Lookup([e] + kept, v) == Lookup(kept, v)
  {
    assert ([e] + kept)[1..] == kept;
    FirstAuthenticates(kept, e);
  }

  /** Dropping the first entry goes unnoticed exactly when the next entry of that name is the same. */
  lemma DroppedUnseen(e: UserEntry, kept: seq<UserEntry>, after: seq<UserEntry>, u: string)
    requires e.username != u && Others(after, u) == Others(kept, u)
    ensures SameForOthers([e] + kept, after, u) <==> Lookup(kept, e.username) == Some(e)
  {
    if Lookup(kept, e.username) == Some(e) {
      forall v, q | v != u ensures SameAnswer([e] + kept, after, v, q) {
        AnswersOf(kept, after, u, v, q);
        RepeatedEntry(e, kept, v, q);
      }
    }
    if SameForOthers([e] + kept, after, u) {
      AnswersOf(kept, after, u, e.username, e.password);
      assert SameAnswer([e] + kept, after, e.username, e.password);
      assert Lookup([e] + kept, e.username) == Some(e);
    }
  }

  lemma SameAnswers(before: seq<UserEntry>, after: seq<UserEntry>, u: string)
    requires Others(after, u) == Others(before, u)
    ensures SameForOthers(before, after, u)
  {
    forall v, q | v != u ensures SameAnswer(before, after, v, q) {
      AnswersOf(before, after, u, v, q);
    }
  }

  /** From the editor's view of the file to the reader's. */
  lemma EditedOthers(text: string, after: seq<UserEntry>, u: string)
    requires Others(after, u) == Others(ParseLines(EditorLines(text)), u)
    ensures Others(after, u) == Others(FromHtpasswd(text), u) <==> !LosesOther(text, u)
    ensures SameForOthers(FromHtpasswd(text), after, u) <==> LossUnseen(text, u)
  {
    var kept := ParseLines(EditorLines(text));
    OthersInView(text, u);
    if LosesOther(text, u) {
      assert |Others(FromHtpasswd(text), u)| == 1 + |Others(kept, u)|;
      EditorView(text);
      DroppedUnseen(LostEntry(text).value, kept, after, u);
    } else {
      assert [] + Others(kept, u) == Others(kept, u);
      SameAnswers(FromHtpasswd(text), after, u);
    }
  }

  lemma OthersInView(text: string, u: string)
    ensures Others(FromHtpasswd(text), u) ==
            (if LosesOther(text, u) then [LostEntry(text).value] else []) + Others(ParseLines(EditorLines(text)), u)
  {
    EditorView(text);
    var kept := ParseLines(EditorLines(text));
    if LostEntry(text).Some? {
      assert ([LostEntry(text).value] + kept)[1..] == kept;
    } else {
      assert [] + kept == kept;
    }
  }

  // ---- add ----

  lemma UpsertHasEntry(lines: seq<string>, u: string, p: string)
    requires ValidUser(u) && '\n' !in p
    ensures UserEntry(u, Trim(p), None, None) in ParseLines(UpsertUser(lines, u, p))
  {
    var edited := UpsertUser(lines, u, p);
    EntryParses(u, p);
    ReplacedLines(lines, u, p, Entry(u, p));
    assert Entry(u, p) in edited;
    ParsedFrom(edited, UserEntry(u, Trim(p), None, None));
  }

  lemma ShadowSurvives(lines: seq<string>, u: string, p: string, i: nat)
    requires i < |lines| && Shadows(lines[i], u)
    ensures ParseLine(lines[i]).value in ParseLines(UpsertUser(lines, u, p))
    ensures ParseLine(lines[i]).value in ParseLines(RemoveUser(lines, u))
  {
    ParseBlank();
    ReplacedLines(lines, u, p, lines[i]);
    RemovedLines(lines, u, lines[i]);
    assert lines[i] in UpsertUser(lines, u, p);
    ParsedFrom(UpsertUser(lines, u, p), ParseLine(lines[i]).value);
    ParsedFrom(RemoveUser(lines, u), ParseLine(lines[i]).value);
  }

  /** `u` logs in with `q` after `add` exactly when the written text says so, or a padded line does. */
  lemma AddLogins(text: string, u: string, p: string, q: string)
    ensures Authenticate(FromHtpasswd(AddText(text, u, p)), u, q).Some? <==>
            UserEntry(u, q, None, None) in Written(u, p) || ShadowSays(EditorLines(text), u, q)
  {
    var after, lines, e := FromHtpasswd(AddText(text, u, p)), EditorLines(text), UserEntry(u, q, None, None);
    AddEdits(text, u, p);
    BareKnown(after, e);
    assert e in after <==> e in Written(u, p) || KeptLine(lines, u, e);
    if i :| 0 <= i < |lines| && Shadows(lines[i], u) && ParseLine(lines[i]).value.password == q {
      ParsedFrom(lines, ParseLine(lines[i]).value);
      ParsedBare(lines, ParseLine(lines[i]).value);
      assert KeptLine(lines, u, e);
    }
  }

  ghost predicate ShadowSays(lines: seq<string>, u: string, q: string) {
    exists i :: 0 <= i < |lines| && Shadows(lines[i], u) && ParseLine(lines[i]).value.password == q
  }

  /** The written text defines `u`. */
  predicate WritesUser(u: string, p: string) {
    exists e :: e in Written(u, p) && e.username == u
  }

  /** And with no other password than this. */
  predicate WritesOnly(u: string, p: string, q: string) {
    forall e :: e in Written(u, p) && e.username == u ==> e.password == q
  }

  /** For names and passwords without newlines, `u` is defined exactly when the name is valid, and as it should be. */
  lemma WrittenLine(u: string, p: string)
    requires u != [] && '\n' !in u && '\n' !in p
    ensures WritesUser(u, p) <==> ValidUser(u)
    ensures WritesOnly(u, p, Trim(p))
  {
    var line := Entry(u, p);
    ParseOneLine(line);
    if ValidUser(u) {
      EntryParses(u, p);
      assert Written(u, p) == [UserEntry(u, Trim(p), None, None)];
      assert Written(u, p)[0] in Written(u, p);
    } else if ParseLine(line).Some? && ParseLine(line).value.username == u {
      EntryDefines(u, p);
    }
  }

  /** When exactly `u` logs in with `q` and nothing else after `add`. */
  lemma AddOnlyPassword(text: string, u: string, p: string, q: string)
    ensures OnlyPassword(FromHtpasswd(AddText(text, u, p)), u, q) <==>
            && NoStaleShadow(EditorLines(text), u, q) && WritesOnly(u, p, q)
            && (WritesUser(u, p) || HasShadow(EditorLines(text), u))
  {
    var after, lines := FromHtpasswd(AddText(text, u, p)), EditorLines(text);
    forall x ensures Authenticate(after, u, x).Some? <==> UserEntry(u, x, None, None) in Written(u, p) || ShadowSays(lines, u, x) {
      AddLogins(text, u, p, x);
    }
    forall e | e in Written(u, p) ensures e == UserEntry(e.username, e.password, None, None) {
      ParsedBare(SplitLines(Entry(u, p)), e);
    }
    if OnlyPassword(after, u, q) {
      assert Authenticate(after, u, q).Some?;
      forall e | e in Written(u, p) && e.username == u ensures e.password == q {
        assert Authenticate(after, u, e.password).Some?;
      }
      forall i | 0 <= i < |lines| && Shadows(lines[i], u) ensures ParseLine(lines[i]).value.password == q {
        assert ShadowSays(lines, u, ParseLine(lines[i]).value.password);
        assert Authenticate(after, u, ParseLine(lines[i]).value.password).Some?;
      }
    } else {
      var x :| Authenticate(after, u, x).Some? != (x == q);
    }
  }

  /**
    * After `add`, `u` logs in with exactly the (trimmed) new password, if and only if no padded line for `u` with another
    * password hides from the editor, and the written text defines `u` with that password only (or does not define `u`,
    * but a padded line with that very password does); with exactly the password as given, if and only if moreover there
    * is no white space around it. Without newlines in them, the name defines `u` exactly when it is valid.
    */
  lemma AddSetsPassword(text: string, u: string, p: string)
    ensures OnlyPassword(FromHtpasswd(AddText(text, u, p)), u, Trim(p)) <==>
            && NoStaleShadow(EditorLines(text), u, Trim(p)) && WritesOnly(u, p, Trim(p))
            && (WritesUser(u, p) || HasShadow(EditorLines(text), u))
    ensures OnlyPassword(FromHtpasswd(AddText(text, u, p)), u, p) <==>
            && Trim(p) == p && NoStaleShadow(EditorLines(text), u, p) && WritesOnly(u, p, p)
            && (WritesUser(u, p) || HasShadow(EditorLines(text), u))
    ensures u != [] && '\n' !in u && '\n' !in p ==> WritesOnly(u, p, Trim(p)) && (WritesUser(u, p) <==> ValidUser(u))
  {
    AddOnlyPassword(text, u, p, Trim(p));
    if u != [] && '\n' !in u && '\n' !in p { WrittenLine(u, p); }
    if Trim(p) != p { CleanNamesOnly(AddText(text, u, p), u, p); }
  }

  /** A password with a newline inside never works, whatever the file. */
  lemma NewlinePassword(text: string, u: string, p: string)
    requires '\n' in Trim(p)
    ensures !OnlyPassword(FromHtpasswd(AddText(text, u, p)), u, Trim(p))
  {
    CleanNamesOnly(AddText(text, u, p), u, Trim(p));
  }

  /** A password with white space around it never works as given. */
  lemma PaddedPassword(text: string, u: string, p: string)
    requires Trim(p) != p
    ensures Authenticate(FromHtpasswd(AddText(text, u, p)), u, p).None?
  {
    CleanNamesOnly(AddText(text, u, p), u, p);
  }

  /** The line written for a name with a colon or padding defines another name. */
  lemma MisnamedLine(u: string, p: string)
    requires u != [] && u[0] != '#' && !ValidUser(u) && '\n' !in u
    ensures var k := ColonIndex(u);
            && k < |Entry(u, p)|
            && ParseLine(Entry(u, p)) == Some(UserEntry(Trim(u[..k]), Trim(Entry(u, p)[k + 1..]), None, None))
            && Trim(u[..k]) != u
  {
    var line, k := Entry(u, p), ColonIndex(u);
    assert line[k] == ':' && line[..k] == u[..k];
    ColonIndexUnique(line, k);
    BlankIff(line);
    assert line[0] == (if k == 0 then ':' else u[0]);
    if Trim(u[..k]) == u { EntryDefines(u, p); }
  }

  /** `add` reports success for a name with a colon or padding, and lets in somebody else instead. */
  lemma MisnamedAdd(text: string, u: string, p: string)
    requires u != [] && u[0] != '#' && !ValidUser(u) && '\n' !in u && '\n' !in p
    ensures NoPassword(FromHtpasswd(AddText(text, u, p)), u)
    ensures var line, k := Entry(u, p), ColonIndex(u);
            && k < |line| && Trim(u[..k]) != u
            && Authenticate(FromHtpasswd(AddText(text, u, p)), Trim(u[..k]), Trim(line[k + 1..])).Some?
  {
    MisnamedLine(u, p);
    var line := Entry(u, p);
    forall q ensures Authenticate(FromHtpasswd(AddText(text, u, p)), u, q).None? {
      CleanNamesOnly(AddText(text, u, p), u, q);
    }
    ReadAdded(text, u, p);
    ReplacedLines(EditorLines(text), u, p, line);
    assert line in UpsertUser(EditorLines(text), u, p);
    ParsedFrom(UpsertUser(EditorLines(text), u, p), ParseLine(line).value);
  }

  lemma UpsertKeepsOthers(lines: seq<string>, u: string, p: string)
    requires PlainUser(u) && '\n' !in p
    ensures Others(ParseLines(UpsertUser(lines, u, p)), u) == Others(ParseLines(lines), u)
  {
    ReplaceKeepsOthers(lines, u, p);
    if !Mentions(lines, u) {
      var entry := [Entry(u, p)];
      ParseAppend(ReplaceUser(lines, u, p), entry);
      OthersAppend(ParseLines(ReplaceUser(lines, u, p)), ParseLines(entry), u);
      PlainEntry(u, p);
      ParseSingle(Entry(u, p));
      assert Others(ParseLines(entry), u) == [];
    } else {
      assert UpsertUser(lines, u, p) == ReplaceUser(lines, u, p);
    }
  }

  /**
    * Nobody but `u` notices `add`, if and only if every entry that it loses, replaces or writes under another name is as
    * well known afterwards as before. For a name whose line defines nobody else, it changes no other entry, if and only
    * if the file does not open with an indented `#name:` line of somebody else; and nobody notices, if and only if the
    * entry lost that way is followed by an equal one.
    */
  lemma AddKeepsOthers(text: string, u: string, p: string)
    ensures SameForOthers(FromHtpasswd(text), FromHtpasswd(AddText(text, u, p)), u) <==>
            Unnoticed(text, u, Written(u, p), Upserted(EditorLines(text), u, p))
    ensures PlainUser(u) && '\n' !in p ==>
              (Others(FromHtpasswd(AddText(text, u, p)), u) == Others(FromHtpasswd(text), u) <==> !LosesOther(text, u))
    ensures PlainUser(u) && '\n' !in p ==>
              (SameForOthers(FromHtpasswd(text), FromHtpasswd(AddText(text, u, p)), u) <==> LossUnseen(text, u))
    ensures ValidUser(u) ==> (LosesOther(text, u) <==> IndentedComment(text))
  {
    AddEdits(text, u, p);
    EditNoticed(text, u, Written(u, p), FromHtpasswd(AddText(text, u, p)));
    if PlainUser(u) && '\n' !in p {
      ReadAdded(text, u, p);
      UpsertKeepsOthers(EditorLines(text), u, p);
      EditedOthers(text, FromHtpasswd(AddText(text, u, p)), u);
    }
    EditorView(text);
  }

  // ---- delete ----

  lemma RemoveLeavesNobody(lines: seq<string>, u: string)
    ensures NoPassword(ParseLines(RemoveUser(lines, u)), u) <==> NoShadow(lines, u)
  {
    var edited := RemoveUser(lines, u);
    var users := ParseLines(edited);
    forall e | e in users && e.username == u ensures !NoShadow(lines, u) {
      ParsedFrom(edited, e);
      var i :| 0 <= i < |edited| && ParseLine(edited[i]) == Some(e);
      RemovedLines(lines, u, edited[i]);
    }
    forall i | 0 <= i < |lines| && Shadows(lines[i], u)
      ensures Authenticate(users, u, ParseLine(lines[i]).value.password).Some?
    {
      ShadowSurvives(lines, u, [], i);
    }
  }

  /** After a successful `delete`, `u` logs in with no password at all, if and only if no padded line hid from the editor. */
  lemma DeleteRemovesUser(text: string, u: string)
    requires DeleteText(text, u).Some?
    ensures NoPassword(FromHtpasswd(DeleteText(text, u).value), u) <==> NoShadow(EditorLines(text), u)
  {
    ReadDeleted(text, u);
    RemoveLeavesNobody(EditorLines(text), u);
  }

  /**
    * `delete` changes nothing for anyone else, if and only if the file does not open with an indented `#name:` line and
    * no deleted line stood for somebody else, as it may for a padded name; nobody notices, if and only if every such
    * entry is as well known afterwards as before.
    */
  lemma DeleteKeepsOthers(text: string, u: string)
    requires DeleteText(text, u).Some?
    ensures Others(FromHtpasswd(DeleteText(text, u).value), u) == Others(FromHtpasswd(text), u) <==>
            !LosesOther(text, u) && NoForeign(EditorLines(text), u)
    ensures SameForOthers(FromHtpasswd(text), FromHtpasswd(DeleteText(text, u).value), u) <==>
            Unnoticed(text, u, [], ParseLines(RemoveUser(EditorLines(text), u)))
    ensures NoForeign(EditorLines(text), u) ==>
              (SameForOthers(FromHtpasswd(text), FromHtpasswd(DeleteText(text, u).value), u) <==> LossUnseen(text, u))
    ensures PlainUser(u) ==> NoForeign(EditorLines(text), u)
    ensures ValidUser(u) ==> (LosesOther(text, u) <==> IndentedComment(text))
  {
    var after := FromHtpasswd(DeleteText(text, u).value);
    DeleteEdits(text, u);
    EditNoticed(text, u, [], after);
    ReadDeleted(text, u);
    RemoveKeepsOthers(EditorLines(text), u);
    EditorView(text);
    if PlainUser(u) { PlainHasNoForeign(EditorLines(text), u); }
    if NoForeign(EditorLines(text), u) {
      EditedOthers(text, after, u);
    } else {
      OthersInView(text, u);
      assert |Others(after, u)| < |Others(FromHtpasswd(text), u)|;
    }
  }

  /** When `delete` reports that `u` is unknown, only a padded line can still let `u` in. */
  lemma DeleteFailure(text: string, u: string)
    requires DeleteText(text, u).None?
    ensures NoPassword(FromHtpasswd(text), u) <==>
            NoShadow(EditorLines(text), u) && !(LostEntry(text).Some? && LostEntry(text).value.username == u)
    ensures ValidUser(u) ==> (NoPassword(FromHtpasswd(text), u) <==> NoShadow(EditorLines(text), u))
  {
    if text == [] {
      EmptyHasNoUser();
      assert EditorLines(text) == [[]];
    }
    ReplaceAbsent(EditorLines(text), u, []);
    RemoveLeavesNobody(EditorLines(text), u);
    EditorView(text);
    var kept := ParseLines(EditorLines(text));
    if LostEntry(text).Some? {
      FirstCounts(LostEntry(text).value, kept, u);
    } else {
      assert [] + kept == kept;
    }
  }

  lemma FirstCounts(e: UserEntry, kept: seq<UserEntry>, u: string)
    ensures NoPassword([e] + kept, u) <==> e.username != u && NoPassword(kept, u)
  {
    var users := [e] + kept;
    assert users[1..] == kept;
    if e.username == u {
      assert Authenticate(users, u, e.password) == Some(e);
    } else {
      assert forall q :: Authenticate(users, u, q) == Authenticate(kept, u, q);
    }
  }

  /** A name with a colon or a newline cannot be deleted: the command never finds it. */
  lemma NeverFound(text: string, u: string)
    requires ':' in u || '\n' in u
    ensures DeleteText(text, u).None?
  {
    SplitHasNoNewlines(Trim(text));
    forall i | 0 <= i < |EditorLines(text)| ensures RawUser(EditorLines(text)[i]) != Some(u) {
      var line := EditorLines(text)[i];
      assert forall c :: c in line[..ColonIndex(line)] ==> c in line;
    }
  }

  lemma {:induction false} ReplaceAbsent(lines: seq<string>, u: string, p: string)
    requires !Mentions(lines, u)
    ensures ReplaceUser(lines, u, p) == RemoveUser(lines, u)
    ensures ParseLines(RemoveUser(lines, u)) == ParseLines(lines)
    ensures !Mentions(RemoveUser(lines, u), u)
    ensures RemoveUser(RemoveUser(lines, u), u) == RemoveUser(lines, u)
  {
    if lines != [] {
      MentionsStep(lines, u);
      ReplaceAbsent(lines[1..], u, p);
      ParseBlank();
      if lines[0] != [] {
        var r := RemoveUser(lines, u);
        assert r == [lines[0]] + RemoveUser(lines[1..], u);
        assert r[1..] == RemoveUser(lines[1..], u);
        MentionsStep(r, u);
      }
    }
  }

  /** Names under which the editor finds its own line again. */
  predicate EditorUser(u: string) {
    u != [] && !IsSpace(u[0]) && ':' !in u && '\n' !in u
  }

  lemma ValidIsEditorUser(u: string)
    requires ValidUser(u)
    ensures EditorUser(u)
  {
    TrimStartHead(u);
    TrimEndIsPrefix(TrimStart(u));
  }

  /**
    * Adding someone new and deleting them again restores the reader's user list, entry by entry, if and only if the file
    * does not open with an indented `#name:` line.
    */
  lemma AddThenDelete(text: string, u: string, p: string)
    requires EditorUser(u) && '\n' !in p
    requires !Mentions(EditorLines(text), u)
    ensures DeleteText(AddText(text, u, p), u).Some?
    ensures FromHtpasswd(DeleteText(AddText(text, u, p), u).value) == FromHtpasswd(text) <==> !IndentedComment(text)
  {
    var kept := RemoveUser(EditorLines(text), u);
    ReplaceAbsent(EditorLines(text), u, p);
    EditorLinesOfAdded(text, u, p);
    RemoveLast(kept, TrimEnd(Entry(u, p)), u);
    ReadDeleted(AddText(text, u, p), u);
    EditorView(text);
  }

  lemma RemoveLast(kept: seq<string>, last: string, u: string)
    requires RawUser(last) == Some(u)
    ensures Mentions(kept + [last], u)
    ensures RemoveUser(kept + [last], u) == RemoveUser(kept, u)
  {
    assert (kept + [last])[|kept|] == last;
    ReplaceSnoc(kept, last, u, []);
  }

  lemma EditorLinesOfAdded(text: string, u: string, p: string)
    requires EditorUser(u) && '\n' !in p
    requires !Mentions(EditorLines(text), u)
    ensures RawUser(TrimEnd(Entry(u, p))) == Some(u)
    ensures EditorLines(AddText(text, u, p)) == RemoveUser(EditorLines(text), u) + [TrimEnd(Entry(u, p))]
    ensures AddText(text, u, p) != []
  {
    var lines := EditorLines(text);
    var kept := RemoveUser(lines, u);
    ReplaceAbsent(lines, u, p);
    EntryTrimmed(u, p);
    SplitHasNoNewlines(Trim(text));
    RemovedNoNewlines(lines, u);
    SolidStart(text, u, p);
    TrimOfJoined(kept, Entry(u, p));
  }

  lemma TrimEndJoined(kept: seq<string>, entry: string)
    requires TrimEnd(entry) != []
    ensures TrimEnd(JoinLines(kept + [entry]) + ['\n']) == JoinLines(kept + [TrimEnd(entry)])
  {
    var front := JoinLines(kept + [[]]);
    JoinLast(kept, entry);
    JoinLast(kept, TrimEnd(entry));
    assert front + entry + ['\n'] == front + (entry + ['\n']);
    assert (entry + ['\n'])[..|entry|] == entry;
    TrimEndOfAppend(front, entry + ['\n']);
  }

  /** Trimming a joined file trims its last line. */
  lemma TrimOfJoined(kept: seq<string>, entry: string)
    requires NoNewlines(kept) && '\n' !in entry && TrimEnd(entry) != []
    requires JoinLines(kept + [entry]) != [] && !IsSpace(JoinLines(kept + [entry])[0])
    ensures SplitLines(Trim(JoinLines(kept + [entry]) + ['\n'])) == kept + [TrimEnd(entry)]
  {
    TrimEndJoined(kept, entry);
    TrimEndIsPrefix(entry);
    assert NoNewlines(kept + [TrimEnd(entry)]);
    SplitOfJoin(kept + [TrimEnd(entry)]);
  }

  lemma EntryTrimmed(u: string, p: string)
    requires EditorUser(u) && '\n' !in p
    ensures RawUser(TrimEnd(Entry(u, p))) == Some(u)
    ensures TrimEnd(Entry(u, p)) != []
  {
    var tail := [':'] + p;
    assert Entry(u, p) == u + tail;
    TrimEndKeepsHead(tail);
    TrimEndOfAppend(u, tail);
    var line := TrimEnd(Entry(u, p));
    assert line == u + TrimEnd(tail);
    assert line[..|u|] == u && line[|u|] == ':';
    ColonIndexUnique(line, |u|);
  }

  lemma {:induction false} JoinLast(lines: seq<string>, last: string)
    ensures JoinLines(lines + [last]) == JoinLines(lines + [[]]) + last
  {
    if lines == [] {
      assert lines + [last] == [last] && lines + [[]] == [[]];
    } else {
      JoinLast(lines[1..], last);
      assert (lines + [last])[1..] == lines[1..] + [last];
      assert (lines + [[]])[1..] == lines[1..] + [[]];
    }
  }

  /** What the editor writes starts with a printing character. */
  lemma SolidStart(text: string, u: string, p: string)
    requires EditorUser(u)
    requires !Mentions(EditorLines(text), u)
    ensures !IsSpace(AddText(text, u, p)[0])
    ensures AddText(text, u, p) != []
  {
    var lines := EditorLines(text);
    ReplaceAbsent(lines, u, p);
    var out := RemoveUser(lines, u) + [Entry(u, p)];
    var t := Trim(text);
    if t != [] {
      TrimStartHead(text);
      TrimEndIsPrefix(TrimStart(text));
      assert !IsSpace(t[0]);
      assert lines[0] == [t[0]] + SplitLines(t[1..])[0];
      MentionsStep(lines, u);
      assert out[0] == lines[0];
    } else {
      assert lines == [[]];
      assert lines[1..] == [];
      assert out == [Entry(u, p)];
    }
    assert JoinLines(out)[0] == out[0][0];
  }

  // ---- files on which the promises fail ----

  lemma PaddedEntryShadows(u: string, p: string)
    requires ValidUser(u) && '\n' !in p
    ensures Shadows([' '] + Entry(u, p), u)
    ensures ParseLine([' '] + Entry(u, p)).value.password == Trim(p)
  {
    var line := [' '] + Entry(u, p);
    EntryParses(u, p);
    ParsePadLeft(' ', Entry(u, p));
    assert line[..|u| + 1] == [' '] + u && line[|u| + 1] == ':';
    ColonIndexUnique(line, |u| + 1);
  }

  /** A padded duplicate defeats `add`: whatever the new password, the old one stays alive. */
  lemma PaddedLineSurvives(u: string, stale: string, p: string)
    requires ValidUser(u) && '\n' !in p && '\n' !in stale
    requires stale != [] && !IsSpace(stale[|stale| - 1]) && Trim(stale) != Trim(p)
    ensures var text := JoinLines(["x:1", [' '] + Entry(u, stale)]) + ['\n'];
            !OnlyPassword(FromHtpasswd(AddText(text, u, p)), u, Trim(p))
  {
    var line := [' '] + Entry(u, stale);
    var lines := ["x:1"] + [line];
    var text := JoinLines(lines) + ['\n'];
    EntryParses(u, stale);
    assert line[|line| - 1] == stale[|stale| - 1];
    assert JoinLines(lines)[0] == 'x';
    TrimOfJoined(["x:1"], line);
    PaddedEntryShadows(u, stale);
    assert EditorLines(text)[1] == line;
    AddSetsPassword(text, u, p);
  }

  /** A padded duplicate defeats `delete`, too: it reports success and the user still logs in. */
  lemma DeletedStillIn(u: string, stale: string, p: string)
    requires ValidUser(u) && '\n' !in p && '\n' !in stale && stale != [] && !IsSpace(stale[|stale| - 1])
    ensures var text := JoinLines([Entry(u, p), [' '] + Entry(u, stale)]) + ['\n'];
            && DeleteText(text, u).Some?
            && Authenticate(FromHtpasswd(DeleteText(text, u).value), u, Trim(stale)).Some?
  {
    var first, line := Entry(u, p), [' '] + Entry(u, stale);
    var lines := [first] + [line];
    var text := JoinLines(lines) + ['\n'];
    EntryParses(u, p);
    EntryParses(u, stale);
    ValidIsEditorUser(u);
    assert line[|line| - 1] == stale[|stale| - 1];
    assert JoinLines(lines)[0] == first[0] == u[0];
    TrimOfJoined([first], line);
    PaddedEntryShadows(u, stale);
    assert RawUser(EditorLines(text)[0]) == Some(u) && EditorLines(text)[1] == line;
    ReadDeleted(text, u);
    ShadowSurvives(EditorLines(text), u, [], 1);
  }

  /** A file that opens with the indented line `c` and has a proper line for `v`. */
  function Commented(c: string, v: string, q: string): (text: string) {
    [' '] + JoinLines([c, Entry(v, q)]) + ['\n']
  }

  predicate Comment(c: string) {
    c != [] && c[0] == '#' && ':' in c && '\n' !in c
  }

  /** To the reader the indented comment is a user, to the editor it is not. */
  lemma CommentedFile(c: string, v: string, q: string)
    requires Comment(c) && ValidUser(v) && '\n' !in q
    ensures ParseLine([' '] + c).Some? && LostEntry(Commented(c, v, q)) == ParseLine([' '] + c)
    ensures EditorLines(Commented(c, v, q)) == [c, TrimEnd(Entry(v, q))]
  {
    var body := JoinLines([c] + [Entry(v, q)]);
    JoinTwo(c, Entry(v, q));
    assert Commented(c, v, q) == [' '] + (body + ['\n']);
    TrimPadLeft(' ', body + ['\n']);
    CommentedBody(c, v, q, body);
    assert Commented(c, v, q) == ([' '] + c) + ['\n'] + (Entry(v, q) + ['\n']);
    CommentOpens(c, Entry(v, q) + ['\n'], Commented(c, v, q));
  }

  lemma JoinTwo(a: string, b: string)
    ensures JoinLines([a] + [b]) == a + ['\n'] + b
  {
    var lines := [a] + [b];
    assert lines[0] == a && lines[1..] == [b];
  }

  lemma CommentedBody(c: string, v: string, q: string, body: string)
    requires Comment(c) && ValidUser(v) && '\n' !in q
    requires body == JoinLines([c] + [Entry(v, q)]) && body != [] && body[0] == '#'
    ensures SplitLines(Trim(body + ['\n'])) == [c, TrimEnd(Entry(v, q))]
  {
    ValidIsEditorUser(v);
    EntryTrimmed(v, q);
    EntryParses(v, q);
    TrimOfJoined([c], Entry(v, q));
  }

  lemma IndentedLine(c: string)
    requires Comment(c)
    ensures ParseLine([' '] + c).Some? && !Blank([' '] + c) && TrimStart([' '] + c) == c
  {
    var line := [' '] + c;
    assert line[1] == '#' && line[1..] == c;
    BlankIff(line);
    ParsePadLeft(' ', c);
  }

  lemma CommentOpens(c: string, rest: string, text: string)
    requires Comment(c) && text == ([' '] + c) + ['\n'] + rest
    ensures ParseLine([' '] + c).Some? && LostEntry(text) == ParseLine([' '] + c)
  {
    var line := [' '] + c;
    IndentedLine(c);
    SplitAfterLine(line, rest);
    assert FirstContent([line] + SplitLines(rest)) == line;
  }

  /** A comment and a line for `v`: the editor finds `v` only, and the reader knows nobody else. */
  lemma CommentAndLine(lines: seq<string>, v: string)
    requires |lines| == 2 && Comment(lines[0]) && ValidUser(v) && RawUser(lines[1]) == Some(v)
    ensures Mentions(lines, v)
    ensures forall e :: e in ParseLines(lines) ==> e.username == v
    ensures forall u :: ValidUser(u) && u != v ==> !Mentions(lines, u)
  {
    RawUserParses(lines[1], v);
    ParseSingle(lines[1]);
    assert lines[1..] == [lines[1]];
    var name := lines[0][..ColonIndex(lines[0])];
    assert name != [] ==> name[0] == '#';
  }

  lemma CommentedView(c: string, v: string, q: string) returns (e: UserEntry, lines: seq<string>)
    requires Comment(c) && ValidUser(v) && '\n' !in q
    ensures ParseLine([' '] + c) == Some(e) == LostEntry(Commented(c, v, q)) && ['#'] <= e.username
    ensures FromHtpasswd(Commented(c, v, q)) == [e] + ParseLines(lines)
    ensures lines == EditorLines(Commented(c, v, q))
    ensures Mentions(lines, v)
    ensures forall x :: x in ParseLines(lines) ==> x.username == v
    ensures forall u :: ValidUser(u) && u != v ==> !Mentions(lines, u)
  {
    var text := Commented(c, v, q);
    CommentedFile(c, v, q);
    EditorView(text);
    ValidIsEditorUser(v);
    EntryTrimmed(v, q);
    lines := EditorLines(text);
    CommentAndLine(lines, v);
    e := ParseLine([' '] + c).value;
  }

  /** An indented comment such as ` #a:1` defeats every `add`: whoever it let in is locked out. */
  lemma CommentedUserLost(c: string, v: string, q: string, u: string, p: string)
    requires Comment(c) && ValidUser(v) && ValidUser(u) && '\n' !in q && '\n' !in p
    ensures ParseLine([' '] + c).Some?
    ensures var text, e := Commented(c, v, q), ParseLine([' '] + c).value;
            && Authenticate(FromHtpasswd(text), e.username, e.password).Some?
            && Authenticate(FromHtpasswd(AddText(text, u, p)), e.username, e.password).None?
  {
    var text := Commented(c, v, q);
    var e, lines := CommentedView(c, v, q);
    ReadAdded(text, u, p);
    UpsertKeepsOthers(lines, u, p);
    AnswersOf(ParseLines(lines), FromHtpasswd(AddText(text, u, p)), u, e.username, e.password);
    assert ([e] + ParseLines(lines))[0] == e;
  }

  /** It defeats `delete`, too. */
  lemma CommentedUserLostByDelete(c: string, v: string, q: string)
    requires Comment(c) && ValidUser(v) && '\n' !in q
    ensures ParseLine([' '] + c).Some? && DeleteText(Commented(c, v, q), v).Some?
    ensures var text, e := Commented(c, v, q), ParseLine([' '] + c).value;
            && Authenticate(FromHtpasswd(text), e.username, e.password).Some?
            && Authenticate(FromHtpasswd(DeleteText(text, v).value), e.username, e.password).None?
  {
    var text := Commented(c, v, q);
    var e, lines := CommentedView(c, v, q);
    ReadDeleted(text, v);
    PlainHasNoForeign(lines, v);
    RemoveKeepsOthers(lines, v);
    AnswersOf(ParseLines(lines), FromHtpasswd(DeleteText(text, v).value), v, e.username, e.password);
    assert ([e] + ParseLines(lines))[0] == e;
  }

  /** And no addition is undone by its deletion. */
  lemma CommentedNotRestored(c: string, v: string, q: string, u: string, p: string)
    requires Comment(c) && ValidUser(v) && ValidUser(u) && u != v && '\n' !in q && '\n' !in p
    ensures var text := Commented(c, v, q);
            && DeleteText(AddText(text, u, p), u).Some?
            && FromHtpasswd(DeleteText(AddText(text, u, p), u).value) != FromHtpasswd(text)
  {
    var text := Commented(c, v, q);
    var e, lines := CommentedView(c, v, q);
    EditorView(text);
    ValidIsEditorUser(u);
    AddThenDelete(text, u, p);
  }
}
