/** Trimming and line splitting, as Rust's `str` and Go's `strings` both do them. */
module Text {

  /** The Unicode White_Space property. */
  predicate IsSpace(c: char) {
    || '\t' <= c <= '\r' || c == ' ' || c == '\U{0085}' || c == '\U{00A0}' || c == '\U{1680}'
    || '\U{2000}' <= c <= '\U{200A}' || c == '\U{2028}' || c == '\U{2029}' || c == '\U{202F}'
    || c == '\U{205F}' || c == '\U{3000}'
  }

  lemma WhiteSpaceTable(c: char)
    ensures IsSpace(c) <==>
            c as int in {0x09, 0x0A, 0x0B, 0x0C, 0x0D, 0x20, 0x85, 0xA0, 0x1680, 0x2000, 0x2001, 0x2002, 0x2003, 0x2004, 0x2005,
                         0x2006, 0x2007, 0x2008, 0x2009, 0x200A, 0x2028, 0x2029, 0x202F, 0x205F, 0x3000}
  {
  }

  function TrimStart(s: string): (r: string) {
    if s != [] && IsSpace(s[0]) then TrimStart(s[1..]) else s
  }

  function TrimEnd(s: string): (r: string) {
    if s != [] && IsSpace(s[|s| - 1]) then TrimEnd(s[..|s| - 1]) else s
  }

  function Trim(s: string): (r: string) {
    TrimEnd(TrimStart(s))
  }

  predicate Blank(s: string) {
    Trim(s) == []
  }

  /** The pieces between newlines; always at least one. */
  function SplitLines(s: string): (r: seq<string>)
    ensures r != []
  {
    if s == [] then [[]]
    else
      var rest := SplitLines(s[1..]);
      if s[0] == '\n' then [[]] + rest else [[s[0]] + rest[0]] + rest[1..]
  }

  function JoinLines(lines: seq<string>): (r: string) {
    if lines == [] then []
    else if |lines| == 1 then lines[0]
    else lines[0] + ['\n'] + JoinLines(lines[1..])
  }

  predicate NoNewlines(lines: seq<string>) {
    forall i :: 0 <= i < |lines| ==> '\n' !in lines[i]
  }

  lemma {:induction false} SplitHasNoNewlines(s: string)
    ensures NoNewlines(SplitLines(s))
  {
    if s != [] { SplitHasNoNewlines(s[1..]); }
  }

  lemma {:induction false} SplitAfterLine(line: string, rest: string)
    requires '\n' !in line
    ensures SplitLines(line + ['\n'] + rest) == [line] + SplitLines(rest)
  {
    var s := line + ['\n'] + rest;
    if line == [] {
      assert s[1..] == rest;
    } else {
      assert s[1..] == line[1..] + ['\n'] + rest;
      SplitAfterLine(line[1..], rest);
      assert [line[0]] + line[1..] == line;
    }
  }

  /** A newline separates the lines before it from those behind it. */
  lemma {:induction false} SplitNewline(a: string, b: string)
    ensures SplitLines(a + ['\n'] + b) == SplitLines(a) + SplitLines(b)
  {
    var s := a + ['\n'] + b;
    if a == [] {
      assert s[1..] == b;
    } else {
      assert s[1..] == a[1..] + ['\n'] + b;
      SplitNewline(a[1..], b);
    }
  }

  lemma {:induction false} SplitOneLine(line: string)
    requires '\n' !in line
    ensures SplitLines(line) == [line]
  {
    if line != [] {
      SplitOneLine(line[1..]);
      assert [line[0]] + line[1..] == line;
    }
  }

  /** Splitting undoes joining. */
  lemma {:induction false} SplitOfJoin(lines: seq<string>)
    requires lines != [] && NoNewlines(lines)
    ensures SplitLines(JoinLines(lines)) == lines
  {
    if |lines| == 1 {
      SplitOneLine(lines[0]);
    } else {
      SplitOfJoin(lines[1..]);
      SplitAfterLine(lines[0], JoinLines(lines[1..]));
    }
  }

  lemma {:induction false} JoinTerminated(lines: seq<string>)
    requires lines != []
    ensures JoinLines(lines) + ['\n'] == JoinLines(lines + [[]])
  {
    if |lines| > 1 {
      JoinTerminated(lines[1..]);
      assert (lines + [[]])[1..] == lines[1..] + [[]];
    } else {
      assert (lines + [[]])[1..] == [[]];
    }
  }

  /** What one more character does to the lines: only the last one changes. */
  function ExtendLines(ls: seq<string>, c: char): (r: seq<string>)
    requires ls != []
  {
    if c == '\n' then ls + [[]] else ls[..|ls| - 1] + [ls[|ls| - 1] + [c]]
  }

  lemma ExtendLinesTail(a: string, ls: seq<string>, c: char)
    requires ls != []
    ensures ExtendLines([a] + ls, c) == [a] + ExtendLines(ls, c)
  {
    assert ([a] + ls)[|ls|] == ls[|ls| - 1];
    assert ([a] + ls)[..|ls|] == [a] + ls[..|ls| - 1];
  }

  lemma {:induction false} SplitAppend(s: string, c: char)
    ensures SplitLines(s + [c]) == ExtendLines(SplitLines(s), c)
  {
    if s == [] {
      assert s + [c] == [c] && [c][1..] == [];
      var rest := SplitLines([c][1..]);
      assert rest == [[]];
      assert [c] + rest[0] == [c] && [[c]] + rest[1..] == [[c]];
    } else {
      SplitAppend(s[1..], c);
      assert (s + [c])[1..] == s[1..] + [c];
      var rest := SplitLines(s[1..]);
      if s[0] == '\n' {
        ExtendLinesTail([], rest, c);
      } else if |rest| > 1 {
        ExtendLinesTail(rest[0], rest[1..], c);
        ExtendLinesTail([s[0]] + rest[0], rest[1..], c);
        assert rest == [rest[0]] + rest[1..];
      } else {
        assert [s[0]] + (rest[0] + [c]) == [s[0]] + rest[0] + [c];
      }
    }
  }

  lemma {:induction false} TrimEndOfAppend(a: string, b: string)
    requires TrimEnd(b) != []
    ensures TrimEnd(a + b) == a + TrimEnd(b)
  {
    if b != [] {
      if IsSpace(b[|b| - 1]) {
        assert (a + b)[..|a + b| - 1] == a + b[..|b| - 1];
        TrimEndOfAppend(a, b[..|b| - 1]);
      }
    }
  }

  lemma {:induction false} TrimStartKeepsSolidEnd(s: string)
    requires s != [] && !IsSpace(s[|s| - 1])
    ensures TrimStart(s) != [] && TrimStart(s)[|TrimStart(s)| - 1] == s[|s| - 1]
  {
    if IsSpace(s[0]) { TrimStartKeepsSolidEnd(s[1..]); }
  }

  lemma {:induction false} TrimStartEmpty(s: string)
    ensures TrimStart(s) == [] <==> forall i :: 0 <= i < |s| ==> IsSpace(s[i])
  {
    if s != [] && IsSpace(s[0]) {
      TrimStartEmpty(s[1..]);
      assert forall i :: 1 <= i < |s| ==> s[i] == s[1..][i - 1];
      assert forall i :: 0 <= i < |s[1..]| ==> s[1..][i] == s[i + 1];
    }
  }

  lemma {:induction false} TrimEndEmpty(s: string)
    ensures TrimEnd(s) == [] <==> forall i :: 0 <= i < |s| ==> IsSpace(s[i])
  {
    if s != [] && IsSpace(s[|s| - 1]) {
      TrimEndEmpty(s[..|s| - 1]);
      assert forall i :: 0 <= i < |s| - 1 ==> s[i] == s[..|s| - 1][i];
    }
  }

  /** A string is blank when every character is white space. */
  lemma BlankIff(s: string)
    ensures Blank(s) <==> forall i :: 0 <= i < |s| ==> IsSpace(s[i])
  {
    TrimStartEmpty(s);
    TrimEndEmpty(TrimStart(s));
    if TrimStart(s) != [] {
      TrimStartHead(s);
    }
  }

  lemma {:induction false} TrimStartHead(s: string)
    ensures TrimStart(s) != [] ==> !IsSpace(TrimStart(s)[0])
  {
    if s != [] && IsSpace(s[0]) { TrimStartHead(s[1..]); }
  }

  /** Leading and trailing white space does not matter to `Trim`. */
  lemma TrimPadLeft(c: char, s: string)
    requires IsSpace(c)
    ensures Trim([c] + s) == Trim(s)
  {
    assert ([c] + s)[1..] == s;
  }

  lemma {:induction false} TrimPadRight(s: string, c: char)
    requires IsSpace(c)
    ensures Trim(s + [c]) == Trim(s)
    decreases |s|
  {
    if s == [] {
      assert s + [c] == [c];
      assert [c][1..] == [];
    } else if IsSpace(s[0]) {
      assert (s + [c])[1..] == s[1..] + [c];
      TrimPadRight(s[1..], c);
    } else {
      assert (s + [c])[..|s|] == s;
    }
  }

  lemma {:induction false} TrimStartWithin(s: string)
    ensures forall c :: c in TrimStart(s) ==> c in s
  {
    if s != [] && IsSpace(s[0]) { TrimStartWithin(s[1..]); }
  }

  lemma {:induction false} TrimEndIsPrefix(s: string)
    ensures TrimEnd(s) <= s
    ensures TrimEnd(TrimEnd(s)) == TrimEnd(s)
  {
    if s != [] && IsSpace(s[|s| - 1]) { TrimEndIsPrefix(s[..|s| - 1]); }
  }

  lemma TrimWithin(s: string)
    ensures forall c :: c in Trim(s) ==> c in s
  {
    TrimStartWithin(s);
    TrimEndIsPrefix(TrimStart(s));
  }

  lemma TrimAgain(s: string)
    ensures Trim(Trim(s)) == Trim(s)
  {
    TrimStartHead(s);
    TrimEndIsPrefix(TrimStart(s));
  }
}
