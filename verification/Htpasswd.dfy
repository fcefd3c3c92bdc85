/** The CLI's htpasswd editor (cli/cmd/user.go) against the simulator's reader: text edits as user-list updates. */
module Htpasswd {
  import opened Prelude
  import opened Text
  import opened UserStore

  /** The part before the first colon, as Go's `SplitN(line, ":", 2)` yields it: not trimmed. */
  function RawUser(line: string): (r: Option<string>) {
    var i := ColonIndex(line);
    if i == |line| then None else Some(line[..i])
  }

  function Entry(username: string, password: string): (line: string) {
    username + [':'] + password
  }

  /** The lines the editor sees. */
  function EditorLines(text: string): (lines: seq<string>) {
    SplitLines(Trim(text))
  }

  predicate Mentions(lines: seq<string>, username: string) {
    exists i :: 0 <= i < |lines| && RawUser(lines[i]) == Some(username)
  }

  function ReplaceUser(lines: seq<string>, username: string, password: string): (r: seq<string>) {
    if lines == [] then []
    else
      var rest := ReplaceUser(lines[1..], username, password);
      if lines[0] == [] then rest
      else if RawUser(lines[0]) == Some(username) then [Entry(username, password)] + rest
      else [lines[0]] + rest
  }

  function RemoveUser(lines: seq<string>, username: string): (r: seq<string>) {
    if lines == [] then []
    else
      var rest := RemoveUser(lines[1..], username);
      if lines[0] == [] || RawUser(lines[0]) == Some(username) then rest else [lines[0]] + rest
  }

  function UpsertUser(lines: seq<string>, username: string, password: string): (r: seq<string>) {
    ReplaceUser(lines, username, password) +
    if Mentions(lines, username) then [] else [Entry(username, password)]
  }

  function AddText(text: string, username: string, password: string): (r: string) {
    JoinLines(UpsertUser(EditorLines(text), username, password)) + ['\n']
  }

  /** `None` is the command's error return, which leaves the stored text alone. */
  function DeleteText(text: string, username: string): (r: Option<string>) {
    if text == [] || !Mentions(EditorLines(text), username) then None
    else Some(JoinLines(RemoveUser(EditorLines(text), username)) + ['\n'])
  }

  // ---- what the two commands mean for the reader ----

  /** Names the reader returns unchanged. */
  predicate ValidUser(u: string) {
    u != [] && u[0] != '#' && ':' !in u && '\n' !in u && Trim(u) == u
  }

  function Others(users: seq<UserEntry>, u: string): (r: seq<UserEntry>) {
    if users == [] then []
    else if users[0].username == u then Others(users[1..], u)
    else [users[0]] + Others(users[1..], u)
  }

  /** A line the reader takes for `u` although the editor does not, because of padding around the name. */
  predicate Shadows(line: string, u: string) {
    && ParseLine(line).Some?
    && ParseLine(line).value.username == u
    && RawUser(line) != Some(u)
  }

  /** The first line with something on it (empty when there is none). */
  function FirstContent(lines: seq<string>): (line: string) {
    if lines == [] then []
    else if Blank(lines[0]) then FirstContent(lines[1..])
    else lines[0]
  }

  /** The text opens with an indented `#name:password` line: a user to the reader, a comment once unindented. */
  predicate IndentedComment(text: string) {
    IndentedHash(FirstContent(SplitLines(text)))
  }

  predicate IndentedHash(line: string) {
    line != [] && IsSpace(line[0]) && ['#'] <= TrimStart(line) && ':' in line
  }

  lemma EntryParses(u: string, p: string)
    requires ValidUser(u) && '\n' !in p
    ensures RawUser(Entry(u, p)) == Some(u)
    ensures ParseLine(Entry(u, p)) == Some(UserEntry(u, Trim(p), None, None))
    ensures '\n' !in Entry(u, p)
  {
    var line := Entry(u, p);
    assert line[..|u|] == u && line[|u|] == ':' && line[|u| + 1..] == p;
    ColonIndexUnique(line, |u|);
    BlankIff(line);
  }

  /** The only name the line written by `add` can define as itself is a valid one. */
  lemma EntryDefines(u: string, p: string)
    requires u != [] && '\n' !in u && ParseLine(Entry(u, p)).Some? && ParseLine(Entry(u, p)).value.username == u
    ensures ValidUser(u)
  {
    var line := Entry(u, p);
    assert line[0] == u[0] && line[|u|] == ':';
    var name := line[..ColonIndex(line)];
    TrimShorter(name);
    assert ':' !in name;
    assert name == u;
  }

  lemma TrimShorter(s: string)
    ensures |Trim(s)| <= |s|
  {
    TrimStartShorter(s);
    TrimEndIsPrefix(TrimStart(s));
  }

  lemma {:induction false} TrimStartShorter(s: string)
    ensures |TrimStart(s)| <= |s|
  {
    if s != [] && IsSpace(s[0]) { TrimStartShorter(s[1..]); }
  }

  /** Names whose lines never define anybody else: valid ones, and those whose lines are comments. */
  predicate PlainUser(u: string) {
    ValidUser(u) || (u != [] && u[0] == '#' && '\n' !in u)
  }

  lemma PlainEntry(u: string, p: string)
    requires PlainUser(u) && '\n' !in p
    ensures ParseLine(Entry(u, p)).Some? ==> ParseLine(Entry(u, p)).value.username == u
  {
    if ValidUser(u) { EntryParses(u, p); } else { assert Entry(u, p)[0] == '#'; }
  }

  lemma PlainLine(line: string, u: string)
    requires PlainUser(u) && RawUser(line) == Some(u)
    ensures ParseLine(line).Some? ==> ParseLine(line).value.username == u
  {
    if ValidUser(u) { RawUserParses(line, u); } else { assert line[0] == line[..ColonIndex(line)][0] == '#'; }
  }

  /** A line the editor attributes to `u` defines `u` for the reader. */
  lemma RawUserParses(line: string, u: string)
    requires ValidUser(u) && RawUser(line) == Some(u)
    ensures ParseLine(line).Some? && ParseLine(line).value.username == u
  {
    var i := ColonIndex(line);
    assert line[..i] == u;
    assert line[0] == u[0] && line[i] == ':';
    BlankIff(line);
  }

  lemma {:induction false} OthersAppend(a: seq<UserEntry>, b: seq<UserEntry>, u: string)
    ensures Others(a + b, u) == Others(a, u) + Others(b, u)
  {
    if a == [] {
      assert a + b == b;
    } else {
      assert (a + b)[1..] == a[1..] + b;
      OthersAppend(a[1..], b, u);
    }
  }

  /** Answers about anyone but `u` are answers about the list without `u`. */
  lemma {:induction false} OthersAnswer(users: seq<UserEntry>, u: string, v: string, q: string)
    requires v != u
    ensures Authenticate(users, v, q) == Authenticate(Others(users, u), v, q)
    ensures Lookup(users, v) == Lookup(Others(users, u), v)
  {
    if users != [] {
      OthersAnswer(users[1..], u, v, q);
      if users[0].username != u {
        assert Others(users, u)[1..] == Others(users[1..], u);
      }
    }
  }

  lemma {:induction false} ReplaceKeepsOthers(lines: seq<string>, u: string, p: string)
    requires PlainUser(u) && '\n' !in p
    ensures Others(ParseLines(ReplaceUser(lines, u, p)), u) == Others(ParseLines(lines), u)
  {
    if lines != [] {
      ReplaceKeepsOthers(lines[1..], u, p);
      var rest := ReplaceUser(lines[1..], u, p);
      ParseBlank();
      if lines[0] != [] {
        var head := if RawUser(lines[0]) == Some(u) then Entry(u, p) else lines[0];
        ParseCons(head, rest, u);
        ParseCons(lines[0], lines[1..], u);
        PlainEntry(u, p);
        if RawUser(lines[0]) == Some(u) { PlainLine(lines[0], u); }
        assert ReplaceUser(lines, u, p) == [head] + rest;
        assert lines == [lines[0]] + lines[1..];
      }
    }
  }

  lemma ParseCons(line: string, rest: seq<string>, u: string)
    ensures Others(ParseLines([line] + rest), u) ==
            (match ParseLine(line)
             case Some(e) => (if e.username == u then [] else [e]) + Others(ParseLines(rest), u)
             case None => Others(ParseLines(rest), u))
  {
    assert ([line] + rest)[1..] == rest;
    match ParseLine(line)
    case Some(e) => assert ([e] + ParseLines(rest))[1..] == ParseLines(rest);
    case None =>
  }

  /** A line the editor attributes to `u` although the reader takes it for somebody else. */
  predicate Foreign(line: string, u: string) {
    && RawUser(line) == Some(u)
    && ParseLine(line).Some?
    && ParseLine(line).value.username != u
  }

  ghost predicate NoForeign(lines: seq<string>, u: string) {
    forall i :: 0 <= i < |lines| ==> !Foreign(lines[i], u)
  }

  lemma PlainHasNoForeign(lines: seq<string>, u: string)
    requires PlainUser(u)
    ensures NoForeign(lines, u)
  {
    forall i | 0 <= i < |lines| ensures !Foreign(lines[i], u) {
      if RawUser(lines[i]) == Some(u) { PlainLine(lines[i], u); }
    }
  }

  /** Removing the lines of `u` removes nobody else exactly when none of them stands for somebody else. */
  lemma {:induction false} RemoveKeepsOthers(lines: seq<string>, u: string)
    ensures NoForeign(lines, u) ==> Others(ParseLines(RemoveUser(lines, u)), u) == Others(ParseLines(lines), u)
    ensures |Others(ParseLines(RemoveUser(lines, u)), u)| <= |Others(ParseLines(lines), u)|
    ensures !NoForeign(lines, u) ==> |Others(ParseLines(RemoveUser(lines, u)), u)| < |Others(ParseLines(lines), u)|
  {
    if lines != [] {
      RemoveKeepsOthers(lines[1..], u);
      assert NoForeign(lines, u) <==> !Foreign(lines[0], u) && NoForeign(lines[1..], u) by {
        assert forall i :: 1 <= i < |lines| ==> lines[i] == lines[1..][i - 1];
        assert forall i :: 0 <= i < |lines[1..]| ==> lines[1..][i] == lines[i + 1];
      }
      RemoveStep(lines, u);
    }
  }

  lemma RemoveStep(lines: seq<string>, u: string)
    requires lines != []
    ensures var rest, all := Others(ParseLines(RemoveUser(lines[1..], u)), u), Others(ParseLines(RemoveUser(lines, u)), u);
            var here := if ParseLine(lines[0]).Some? && ParseLine(lines[0]).value.username != u
                        then [ParseLine(lines[0]).value] else [];
            && Others(ParseLines(lines), u) == here + Others(ParseLines(lines[1..]), u)
            && all == (if Foreign(lines[0], u) then [] else here) + rest
  {
    ParseBlank();
    ParseCons(lines[0], lines[1..], u);
    assert lines == [lines[0]] + lines[1..];
    if lines[0] != [] && RawUser(lines[0]) != Some(u) {
      ParseCons(lines[0], RemoveUser(lines[1..], u), u);
    }
  }

  lemma {:induction false} ParsedFrom(lines: seq<string>, e: UserEntry)
    ensures e in ParseLines(lines) <==> exists i :: 0 <= i < |lines| && ParseLine(lines[i]) == Some(e)
  {
    if lines != [] {
      ParsedFrom(lines[1..], e);
      assert forall i :: 1 <= i < |lines| ==> lines[i] == lines[1..][i - 1];
      assert forall i :: 0 <= i < |lines[1..]| ==> lines[1..][i] == lines[i + 1];
    }
  }

  /** Exactly which lines the editor leaves behind. */
  lemma {:induction false} ReplacedLines(lines: seq<string>, u: string, p: string, line: string)
    ensures line in ReplaceUser(lines, u, p) <==>
            || (line in lines && line != [] && RawUser(line) != Some(u))
            || (line == Entry(u, p) && Mentions(lines, u))
  {
    if lines != [] {
      ReplacedLines(lines[1..], u, p, line);
      MentionsStep(lines, u);
      assert lines == [lines[0]] + lines[1..];
      EmptyHasNoUser();
    }
  }

  lemma {:induction false} RemovedLines(lines: seq<string>, u: string, line: string)
    ensures line in RemoveUser(lines, u) <==> line in lines && line != [] && RawUser(line) != Some(u)
  {
    if lines != [] {
      RemovedLines(lines[1..], u, line);
      assert lines == [lines[0]] + lines[1..];
    }
  }

  lemma EmptyHasNoUser()
    ensures RawUser([]) == None
  {
    ColonIndexAbsent([]);
  }

  lemma MentionsStep(lines: seq<string>, u: string)
    requires lines != []
    ensures Mentions(lines, u) <==> RawUser(lines[0]) == Some(u) || Mentions(lines[1..], u)
  {
    assert forall i :: 1 <= i < |lines| ==> lines[i] == lines[1..][i - 1];
    assert forall i :: 0 <= i < |lines[1..]| ==> lines[1..][i] == lines[i + 1];
  }

  lemma EditedNoNewlines(lines: seq<string>, u: string, p: string)
    requires NoNewlines(lines) && '\n' !in u && '\n' !in p
    ensures NoNewlines(UpsertUser(lines, u, p)) && UpsertUser(lines, u, p) != []
  {
    forall line | line in UpsertUser(lines, u, p) ensures '\n' !in line { ReplacedLines(lines, u, p, line); }
    if Mentions(lines, u) { ReplacedLines(lines, u, p, Entry(u, p)); }
  }

  lemma RemovedNoNewlines(lines: seq<string>, u: string)
    requires NoNewlines(lines)
    ensures NoNewlines(RemoveUser(lines, u))
  {
    forall line | line in RemoveUser(lines, u) ensures '\n' !in line { RemovedLines(lines, u, line); }
  }

  /** Reading back a file the editor wrote. */
  lemma ReadBack(lines: seq<string>)
    requires NoNewlines(lines)
    ensures FromHtpasswd(JoinLines(lines) + ['\n']) == ParseLines(lines)
  {
    var text := JoinLines(lines) + ['\n'];
    FromHtpasswdPieces(text);
    ParseBlank();
    if lines == [] {
      assert text == [] + ['\n'] + [];
      SplitAfterLine([], []);
      ParseAppend([[]], [[]]);
    } else {
      JoinTerminated(lines);
      SplitOfJoin(lines + [[]]);
      ParseAppend(lines, [[]]);
    }
  }

  lemma ReadAdded(text: string, u: string, p: string)
    requires '\n' !in u && '\n' !in p
    ensures FromHtpasswd(AddText(text, u, p)) == ParseLines(UpsertUser(EditorLines(text), u, p))
  {
    SplitHasNoNewlines(Trim(text));
    EditedNoNewlines(EditorLines(text), u, p);
    ReadBack(UpsertUser(EditorLines(text), u, p));
  }

  lemma ReadDeleted(text: string, u: string)
    requires DeleteText(text, u).Some?
    ensures FromHtpasswd(DeleteText(text, u).value) == ParseLines(RemoveUser(EditorLines(text), u))
  {
    SplitHasNoNewlines(Trim(text));
    RemovedNoNewlines(EditorLines(text), u);
    ReadBack(RemoveUser(EditorLines(text), u));
  }

  // ---- trimming the whole file ----

  lemma {:induction false} TrimEndInvisible(text: string)
    ensures ParseLines(SplitLines(TrimEnd(text))) == ParseLines(SplitLines(text))
  {
    if text != [] && IsSpace(text[|text| - 1]) {
      var init, c := text[..|text| - 1], text[|text| - 1];
      assert text == init + [c];
      TrimEndInvisible(init);
      SplitAppend(init, c);
      ParseExtended(SplitLines(init), c);
    }
  }

  /** One more white space at the end of the last line, or one more empty line. */
  lemma ParseExtended(ls: seq<string>, c: char)
    requires ls != [] && IsSpace(c)
    ensures ParseLines(ExtendLines(ls, c)) == ParseLines(ls)
  {
    var front, last := ls[..|ls| - 1], ls[|ls| - 1];
    assert ls == front + [last];
    ParseBlank();
    ParseAppend(ls, [[]]);
    ParseAppend(front, [last]);
    ParseAppend(front, [last + [c]]);
    ParsePadRight(last, c);
    ParseSingle(last);
    ParseSingle(last + [c]);
  }

  lemma ParseSingle(line: string)
    ensures ParseLines([line]) == match ParseLine(line) case Some(e) => [e] case None => []
  {
    assert [line][1..] == [];
    assert ParseLines([line][1..]) == [];
  }

  /** Trimming the front loses one user when an indented comment sign opens the file, and nobody otherwise. */
  lemma {:induction false} TrimStartEffect(text: string)
    ensures IndentedComment(text) ==> ParseLine(FirstContent(SplitLines(text))).Some?
    ensures IndentedComment(text) ==> ['#'] <= ParseLine(FirstContent(SplitLines(text))).value.username
    ensures ParseLines(SplitLines(text)) ==
            (if IndentedComment(text) then [ParseLine(FirstContent(SplitLines(text))).value] else []) +
            ParseLines(SplitLines(TrimStart(text)))
  {
    var pieces := SplitLines(text);
    if text != [] && IsSpace(text[0]) {
      var c, tail := text[0], text[1..];
      TrimStartEffect(tail);
      var rest := SplitLines(tail);
      if c == '\n' {
        ParseBlank();
        assert pieces[1..] == rest;
      } else {
        IndentStep(c, rest);
      }
    } else {
      FirstContentSolid(text);
    }
  }

  lemma FirstContentSolid(text: string)
    requires text == [] || !IsSpace(text[0])
    ensures !IndentedComment(text)
  {
    var pieces := SplitLines(text);
    if text != [] {
      assert pieces[0] == [text[0]] + SplitLines(text[1..])[0];
      BlankIff(pieces[0]);
    } else {
      assert pieces == [[]];
      assert pieces[1..] == [];
    }
  }

  /** One more white space in front of the first line. */
  lemma IndentStep(c: char, rest: seq<string>)
    requires IsSpace(c) && rest != []
    ensures var padded := [[c] + rest[0]] + rest[1..];
            var here, there := FirstContent(padded), FirstContent(rest);
            && (IndentedHash(there) && ParseLine(there).Some? ==>
                  IndentedHash(here) && ParseLine(here) == ParseLine(there) && ParseLines(padded) == ParseLines(rest))
            && (!IndentedHash(there) && IndentedHash(here) ==>
                  && ParseLine(here).Some? && ['#'] <= ParseLine(here).value.username
                  && ParseLines(padded) == [ParseLine(here).value] + ParseLines(rest))
            && (!IndentedHash(there) && !IndentedHash(here) ==> ParseLines(padded) == ParseLines(rest))
  {
    var line := rest[0];
    var padded := [[c] + line] + rest[1..];
    assert padded[1..] == rest[1..];
    TrimPadLeft(c, line);
    if Blank(line) {
      assert ParseLine([c] + line) == ParseLine(line) == None;
    } else {
      IndentLine(c, line);
    }
  }

  lemma IndentLine(c: char, line: string)
    requires IsSpace(c) && !Blank(line)
    ensures var here := [c] + line;
            if IndentedHash(here) && !IndentedHash(line)
            then ParseLine(line).None? && ParseLine(here).Some? && ['#'] <= ParseLine(here).value.username
            else ParseLine(here) == ParseLine(line) && (IndentedHash(line) ==> IndentedHash(here))
  {
    assert ([c] + line)[1..] == line;
    ParsePadLeft(c, line);
    if ['#'] <= line && ':' in line { HashName(line); }
  }

  lemma HashName(line: string)
    requires ['#'] <= line && ':' in line
    ensures ColonIndex(line) < |line| && ['#'] <= Trim(line[..ColonIndex(line)])
  {
    ColonIndexAbsent(line);
    assert line[0] == '#';
    var name := line[..ColonIndex(line)];
    assert name[0] == '#';
    TrimKeepsHead(name);
  }

  lemma TrimKeepsHead(s: string)
    requires s != [] && !IsSpace(s[0])
    ensures Trim(s) != [] && Trim(s)[0] == s[0]
  {
    TrimEndKeepsHead(s);
  }

  lemma {:induction false} TrimEndKeepsHead(s: string)
    requires s != [] && !IsSpace(s[0])
    ensures TrimEnd(s) != [] && TrimEnd(s)[0] == s[0]
  {
    if IsSpace(s[|s| - 1]) { TrimEndKeepsHead(s[..|s| - 1]); }
  }

  /** The entry that trimming the whole file turns into a comment. */
  function LostEntry(text: string): (r: Option<UserEntry>) {
    if IndentedComment(text) then ParseLine(FirstContent(SplitLines(text))) else None
  }

  /** What the reader saw is what the editor's own view of the file holds, preceded by the lost entry if there is one. */
  lemma EditorView(text: string)
    ensures FromHtpasswd(text) ==
            (match LostEntry(text) case Some(e) => [e] case None => []) + ParseLines(EditorLines(text))
    ensures LostEntry(text).Some? <==> IndentedComment(text)
    ensures LostEntry(text).Some? ==> ['#'] <= LostEntry(text).value.username
    ensures ParseLines(EditorLines(text)) == FromHtpasswd(text) <==> !IndentedComment(text)
  {
    FromHtpasswdPieces(text);
    TrimStartEffect(text);
    TrimEndInvisible(TrimStart(text));
    if IndentedComment(text) {
      assert |[LostEntry(text).value] + ParseLines(EditorLines(text))| == 1 + |ParseLines(EditorLines(text))|;
    } else {
      assert [] + ParseLines(EditorLines(text)) == ParseLines(EditorLines(text));
    }
  }

  // ---- the two commands as written ----

  method HtpasswdAddUser(current: string, username: string, password: string) returns (htpasswd: string, found: bool)
    ensures htpasswd == AddText(current, username, password)
    ensures found <==> Mentions(EditorLines(current), username)
  {
    var lines := EditorLines(current);
    found := false;
    var updated: seq<string> := [];
    for i := 0 to |lines|
      invariant found <==> Mentions(lines[..i], username)
      invariant updated == ReplaceUser(lines[..i], username, password)
    {
      var line := lines[i];
      ReplaceSnoc(lines[..i], line, username, password);
      assert lines[..i + 1] == lines[..i] + [line];
      if line == [] {
        EmptyHasNoUser();
        continue;
      }
      if RawUser(line) == Some(username) {
        updated := updated + [Entry(username, password)];
        found := true;
      } else {
        updated := updated + [line];
      }
    }
    assert lines[..|lines|] == lines;
    if !found {
      updated := updated + [Entry(username, password)];
    } else {
      assert updated + [] == updated;
    }
    htpasswd := JoinLines(updated) + ['\n'];
  }

  method HtpasswdDeleteUser(current: string, username: string) returns (r: Option<string>)
    ensures r == DeleteText(current, username)
  {
    if current == [] { return None; }
    var lines := EditorLines(current);
    var updated: seq<string> := [];
    var found := false;
    for i := 0 to |lines|
      invariant found <==> Mentions(lines[..i], username)
      invariant updated == RemoveUser(lines[..i], username)
    {
      var line := lines[i];
      ReplaceSnoc(lines[..i], line, username, []);
      assert lines[..i + 1] == lines[..i] + [line];
      if RawUser(line) == Some(username) {
        found := true;
        continue;
      }
      if line != [] {
        updated := updated + [line];
      }
    }
    assert lines[..|lines|] == lines;
    if !found { return None; }
    r := Some(JoinLines(updated) + ['\n']);
  }

  lemma {:induction false} ReplaceSnoc(lines: seq<string>, line: string, u: string, p: string)
    ensures ReplaceUser(lines + [line], u, p) ==
            ReplaceUser(lines, u, p) +
            (if line == [] then [] else if RawUser(line) == Some(u) then [Entry(u, p)] else [line])
    ensures RemoveUser(lines + [line], u) ==
            RemoveUser(lines, u) + (if line == [] || RawUser(line) == Some(u) then [] else [line])
    ensures Mentions(lines + [line], u) <==> Mentions(lines, u) || RawUser(line) == Some(u)
  {
    var all := lines + [line];
    assert forall i :: 0 <= i < |lines| ==> all[i] == lines[i];
    assert all[|lines|] == line;
    if lines == [] {
      assert all == [line] && all[1..] == [];
    } else {
      assert all[1..] == lines[1..] + [line];
      ReplaceSnoc(lines[1..], line, u, p);
    }
  }
}
