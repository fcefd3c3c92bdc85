/** The simulator's user list and its htpasswd reader (simulator/src/oauth/types.rs). */
module UserStore {
  import opened Prelude
  import opened Text

  datatype UserEntry = UserEntry(
    username: string, password: string, email: Option<string>, groups: Option<seq<string>>)

  /** The first entry with this name and password. */
  function Authenticate(users: seq<UserEntry>, username: string, password: string): (r: Option<UserEntry>)
    ensures r.Some? <==> exists e :: e in users && e.username == username && e.password == password
    ensures r.Some? ==> r.value in users && r.value.username == username && r.value.password == password
  {
    if users == [] then None
    else if users[0].username == username && users[0].password == password then Some(users[0])
    else Authenticate(users[1..], username, password)
  }

  /** Of several matching entries the first is returned. */
  lemma {:induction false} AuthenticatesFirst(users: seq<UserEntry>, username: string, password: string, i: nat)
    requires i < |users| && users[i].username == username && users[i].password == password
    requires forall j :: 0 <= j < i ==> users[j].username != username || users[j].password != password
    ensures Authenticate(users, username, password) == Some(users[i])
  {
    if i > 0 {
      assert forall j :: 0 <= j < |users[1..]| ==> users[1..][j] == users[j + 1];
      AuthenticatesFirst(users[1..], username, password, i - 1);
    }
  }

  /** The first entry with this name. */
  function Lookup(users: seq<UserEntry>, username: string): (r: Option<UserEntry>)
    ensures r.Some? <==> exists e :: e in users && e.username == username
    ensures r.Some? ==> exists i :: && 0 <= i < |users| && users[i] == r.value && r.value.username == username
                                    && forall j :: 0 <= j < i ==> users[j].username != username
  {
    if users == [] then None
    else if users[0].username == username then Some(users[0])
    else
      var r := Lookup(users[1..], username);
      assert forall i :: 0 <= i < |users[1..]| ==> users[1..][i] == users[i + 1];
      assert forall i :: 1 <= i < |users| ==> users[i] == users[1..][i - 1];
      r
  }

  /** Position of the first colon, or the length when there is none. */
  function ColonIndex(s: string): (i: nat)
    ensures i <= |s|
    ensures i < |s| ==> s[i] == ':'
    ensures ':' !in s[..i]
  {
    if s == [] || s[0] == ':' then 0 else
      var i := ColonIndex(s[1..]);
      assert s[..1 + i] == [s[0]] + s[1..][..i];
      1 + i
  }

  /** One htpasswd line: blank lines, comments and lines without a colon define nobody. */
  function ParseLine(line: string): (r: Option<UserEntry>) {
    if Blank(line) || ['#'] <= line then None
    else
      var i := ColonIndex(line);
      if i == |line| then None
      else Some(UserEntry(Trim(line[..i]), Trim(line[i + 1..]), None, None))
  }

  function ParseLines(lines: seq<string>): (users: seq<UserEntry>) {
    if lines == [] then []
    else
      var rest := ParseLines(lines[1..]);
      match ParseLine(lines[0])
      case Some(e) => [e] + rest
      case None => rest
  }

  function StripCr(line: string): (r: string) {
    if line != [] && line[|line| - 1] == '\r' then line[..|line| - 1] else line
  }

  /** Drops the carriage return of every line that a newline ends, i.e. all but the last piece. */
  function StripTerminated(pieces: seq<string>): (r: seq<string>)
    requires pieces != []
  {
    if |pieces| == 1 then pieces else [StripCr(pieces[0])] + StripTerminated(pieces[1..])
  }

  /** Rust's `str::lines`: a final empty piece is not a line. */
  function RustLines(data: string): (r: seq<string>) {
    var pieces := StripTerminated(SplitLines(data));
    if pieces != [] && pieces[|pieces| - 1] == [] then pieces[..|pieces| - 1] else pieces
  }

  function FromHtpasswd(data: string): (users: seq<UserEntry>) {
    ParseLines(RustLines(data))
  }

  // ---- how the parser treats padding ----

  lemma {:induction false} ParseAppend(a: seq<string>, b: seq<string>)
    ensures ParseLines(a + b) == ParseLines(a) + ParseLines(b)
  {
    if a == [] {
      assert a + b == b;
    } else {
      assert (a + b)[1..] == a[1..] + b;
      ParseAppend(a[1..], b);
    }
  }

  lemma ParseBlank()
    ensures ParseLine([]) == None
    ensures ParseLines([[]]) == []
  {
    assert Trim([]) == [];
    var one: seq<string> := [[]];
    assert one[1..] == [];
  }

  lemma {:induction false} ColonIndexUnique(s: string, i: nat)
    requires i < |s| && s[i] == ':' && ':' !in s[..i]
    ensures ColonIndex(s) == i
  {
    var k := ColonIndex(s);
    assert forall j :: 0 <= j < i ==> s[..i][j] == s[j] != ':';
    assert forall j :: 0 <= j < k ==> s[..k][j] == s[j] != ':';
  }

  lemma {:induction false} ColonIndexAbsent(s: string)
    ensures ColonIndex(s) == |s| <==> ':' !in s
  {
    if ColonIndex(s) == |s| { assert s == s[..|s|]; }
  }

  /** White space at the end of a line is invisible to the parser. */
  lemma ParsePadRight(line: string, c: char)
    requires IsSpace(c)
    ensures ParseLine(line + [c]) == ParseLine(line)
  {
    var padded := line + [c];
    TrimPadRight(line, c);
    if !Blank(line) {
      assert line != [];
      assert padded[0] == line[0];
      var i := ColonIndex(line);
      if i < |line| {
        assert padded[..i] == line[..i];
        ColonIndexUnique(padded, i);
        assert padded[i + 1..] == line[i + 1..] + [c];
        TrimPadRight(line[i + 1..], c);
      } else {
        ColonIndexAbsent(line);
        ColonIndexAbsent(padded);
      }
    }
  }

  /** Where the colon is, and what surrounds it, after one more character in front. */
  lemma ColonPadLeft(c: char, line: string)
    requires c != ':'
    ensures ColonIndex([c] + line) == 1 + ColonIndex(line)
    ensures ([c] + line)[..1 + ColonIndex(line)] == [c] + line[..ColonIndex(line)]
  {
    assert ([c] + line)[1..] == line;
  }

  /** White space at the start is invisible too, unless it hides a comment sign. */
  lemma ParsePadLeft(c: char, line: string)
    requires IsSpace(c)
    ensures ParseLine([c] + line) ==
            if ['#'] <= line && ':' in line
            then Some(UserEntry(Trim(line[..ColonIndex(line)]), Trim(line[ColonIndex(line) + 1..]), None, None))
            else ParseLine(line)
  {
    var padded := [c] + line;
    var i := ColonIndex(line);
    TrimPadLeft(c, line);
    ColonPadLeft(c, line);
    ColonIndexAbsent(line);
    if ['#'] <= line {
      BlankIff(line);
    }
    if i < |line| {
      assert padded[i + 2..] == line[i + 1..];
      TrimPadLeft(c, line[..i]);
    }
  }

  lemma StripCrInvisible(line: string)
    ensures ParseLine(StripCr(line)) == ParseLine(line)
  {
    if line != [] && line[|line| - 1] == '\r' {
      ParsePadRight(line[..|line| - 1], '\r');
      assert line[..|line| - 1] + ['\r'] == line;
    }
  }

  lemma {:induction false} StripTerminatedInvisible(pieces: seq<string>)
    requires pieces != []
    ensures StripTerminated(pieces) != []
    ensures ParseLines(StripTerminated(pieces)) == ParseLines(pieces)
  {
    if |pieces| > 1 {
      StripTerminatedInvisible(pieces[1..]);
      StripCrInvisible(pieces[0]);
      assert StripTerminated(pieces)[1..] == StripTerminated(pieces[1..]);
    }
  }

  lemma LastEmptyInvisible(pieces: seq<string>)
    requires pieces != [] && pieces[|pieces| - 1] == []
    ensures ParseLines(pieces[..|pieces| - 1]) == ParseLines(pieces)
  {
    assert pieces == pieces[..|pieces| - 1] + [[]];
    ParseAppend(pieces[..|pieces| - 1], [[]]);
    ParseBlank();
  }

  /** Carriage returns and the final newline are irrelevant: reading is parsing the newline-separated pieces. */
  lemma FromHtpasswdPieces(data: string)
    ensures FromHtpasswd(data) == ParseLines(SplitLines(data))
  {
    var pieces := StripTerminated(SplitLines(data));
    StripTerminatedInvisible(SplitLines(data));
    if pieces != [] && pieces[|pieces| - 1] == [] { LastEmptyInvisible(pieces); }
  }

  /** No line defines a name with a colon, a newline or white space around it. */
  lemma ParsedNameClean(line: string)
    requires ParseLine(line).Some? && '\n' !in line
    ensures var u := ParseLine(line).value.username; ':' !in u && '\n' !in u && Trim(u) == u
    ensures var q := ParseLine(line).value.password; '\n' !in q && Trim(q) == q
  {
    var name := line[..ColonIndex(line)];
    TrimWithin(name);
    TrimAgain(name);
    TrimWithin(line[ColonIndex(line) + 1..]);
    TrimAgain(line[ColonIndex(line) + 1..]);
  }

  lemma {:induction false} ParsedNamesClean(lines: seq<string>, e: UserEntry)
    requires NoNewlines(lines) && e in ParseLines(lines)
    ensures ':' !in e.username && '\n' !in e.username && Trim(e.username) == e.username
    ensures '\n' !in e.password && Trim(e.password) == e.password
  {
    if ParseLine(lines[0]) == Some(e) {
      ParsedNameClean(lines[0]);
    } else {
      ParsedNamesClean(lines[1..], e);
    }
  }

  /** Such names, and passwords with a newline or white space around them, are in no user list that was read from a file. */
  lemma CleanNamesOnly(data: string, u: string, p: string)
    requires ':' in u || '\n' in u || Trim(u) != u || '\n' in p || Trim(p) != p
    ensures Authenticate(FromHtpasswd(data), u, p).None?
  {
    FromHtpasswdPieces(data);
    SplitHasNoNewlines(data);
    var r := Authenticate(FromHtpasswd(data), u, p);
    if r.Some? { ParsedNamesClean(SplitLines(data), r.value); }
  }

  lemma {:induction false} ParsedBare(lines: seq<string>, e: UserEntry)
    requires e in ParseLines(lines)
    ensures e == UserEntry(e.username, e.password, None, None)
  {
    if ParseLine(lines[0]) != Some(e) {
      ParsedBare(lines[1..], e);
    }
  }
}
