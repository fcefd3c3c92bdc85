/** The login page's escaping (simulator/src/oauth/helpers.rs): four whole-string rewrites against one pass and its inverse. */
module Html {
  /** Rust's `replace` with a single-character pattern. */
  function Replace(s: string, c: char, with: string): (r: string) {
    if s == [] then [] else (if s[0] == c then with else [s[0]]) + Replace(s[1..], c, with)
  }

  function HtmlEscape(s: string): (r: string) {
    Replace(Replace(Replace(Replace(s, '&', "&amp;"), '<', "&lt;"), '>', "&gt;"), '"', "&quot;")
  }

  function EscapeChar(c: char): (r: string)
    ensures r != []
  {
    if c == '&' then "&amp;" else if c == '<' then "&lt;" else if c == '>' then "&gt;" else if c == '"' then "&quot;" else [c]
  }

  function OnePass(s: string): (r: string) {
    if s == [] then [] else EscapeChar(s[0]) + OnePass(s[1..])
  }

  /** What a browser makes of the four entities, left to right. */
  function Decode(s: string): (r: string) {
    if s == [] then []
    else if "&amp;" <= s then ['&'] + Decode(s[5..])
    else if "&lt;" <= s then ['<'] + Decode(s[4..])
    else if "&gt;" <= s then ['>'] + Decode(s[4..])
    else if "&quot;" <= s then ['"'] + Decode(s[6..])
    else [s[0]] + Decode(s[1..])
  }

  lemma {:induction false} ReplaceAppend(a: string, b: string, c: char, with: string)
    ensures Replace(a + b, c, with) == Replace(a, c, with) + Replace(b, c, with)
  {
    if a == [] {
      assert a + b == b;
    } else {
      assert (a + b)[1..] == a[1..] + b;
      ReplaceAppend(a[1..], b, c, with);
    }
  }

  lemma {:induction false} ReplaceAbsent(s: string, c: char, with: string)
    requires c !in s
    ensures Replace(s, c, with) == s
  {
    if s != [] {
      ReplaceAbsent(s[1..], c, with);
      assert s == [s[0]] + s[1..];
    }
  }

  lemma ReplaceOne(d: char, c: char, with: string)
    ensures Replace([d], c, with) == if d == c then with else [d]
  {
    assert [d][1..] == [];
    assert Replace([d][1..], c, with) == [];
  }

  lemma LaterRewrites(s: string)
    requires '<' !in s && '>' !in s && '"' !in s
    ensures Replace(Replace(Replace(s, '<', "&lt;"), '>', "&gt;"), '"', "&quot;") == s
  {
    ReplaceAbsent(s, '<', "&lt;");
    ReplaceAbsent(s, '>', "&gt;");
    ReplaceAbsent(s, '"', "&quot;");
  }

  lemma EscapeLt()
    ensures HtmlEscape(['<']) == "&lt;"
  {
    ReplaceOne('<', '&', "&amp;");
    ReplaceOne('<', '<', "&lt;");
    ReplaceAbsent("&lt;", '>', "&gt;");
    ReplaceAbsent("&lt;", '"', "&quot;");
  }

  lemma EscapeGt()
    ensures HtmlEscape(['>']) == "&gt;"
  {
    ReplaceOne('>', '&', "&amp;");
    ReplaceOne('>', '<', "&lt;");
    ReplaceOne('>', '>', "&gt;");
    ReplaceAbsent("&gt;", '"', "&quot;");
  }

  lemma EscapeQuote()
    ensures HtmlEscape(['"']) == "&quot;"
  {
    ReplaceOne('"', '&', "&amp;");
    ReplaceOne('"', '<', "&lt;");
    ReplaceOne('"', '>', "&gt;");
    ReplaceOne('"', '"', "&quot;");
  }

  /** The later rewrites leave the entities of the earlier ones alone. */
  lemma EscapeOne(c: char)
    ensures HtmlEscape([c]) == EscapeChar(c)
  {
    if c == '<' {
      EscapeLt();
    } else if c == '>' {
      EscapeGt();
    } else if c == '"' {
      EscapeQuote();
    } else {
      ReplaceOne(c, '&', "&amp;");
      LaterRewrites(EscapeChar(c));
    }
  }

  lemma EscapeAppend(a: string, b: string)
    ensures HtmlEscape(a + b) == HtmlEscape(a) + HtmlEscape(b)
  {
    ReplaceAppend(a, b, '&', "&amp;");
    var a1, b1 := Replace(a, '&', "&amp;"), Replace(b, '&', "&amp;");
    ReplaceAppend(a1, b1, '<', "&lt;");
    var a2, b2 := Replace(a1, '<', "&lt;"), Replace(b1, '<', "&lt;");
    ReplaceAppend(a2, b2, '>', "&gt;");
    ReplaceAppend(Replace(a2, '>', "&gt;"), Replace(b2, '>', "&gt;"), '"', "&quot;");
  }

  /** The chain of four rewrites is one pass over the characters; in particular nothing is escaped twice. */
  lemma {:induction false} ChainIsOnePass(s: string)
    ensures HtmlEscape(s) == OnePass(s)
  {
    if s != [] {
      assert s == [s[0]] + s[1..];
      EscapeAppend([s[0]], s[1..]);
      EscapeOne(s[0]);
      ChainIsOnePass(s[1..]);
    }
  }

  lemma {:induction false} OnePassIsInert(s: string)
    ensures '<' !in OnePass(s) && '>' !in OnePass(s) && '"' !in OnePass(s)
  {
    if s != [] { OnePassIsInert(s[1..]); }
  }

  lemma {:induction false} DecodeOnePass(s: string)
    ensures Decode(OnePass(s)) == s
  {
    if s != [] {
      DecodeEntity(s[0], OnePass(s[1..]));
      DecodeOnePass(s[1..]);
    }
  }

  /** The second character tells the entities apart, with "&gt;" and "&quot;" never confused with "&amp;" or "&lt;". */
  lemma DecodeEntity(c: char, rest: string)
    ensures Decode(EscapeChar(c) + rest) == [c] + Decode(rest)
  {
    var all := EscapeChar(c) + rest;
    assert all[|EscapeChar(c)|..] == rest;
    if c == '&' {
      assert "&amp;" <= all;
    } else if c == '<' {
      assert all[1] == 'l';
      assert "&lt;" <= all;
    } else if c == '>' {
      assert all[1] == 'g';
      assert "&gt;" <= all;
    } else if c == '"' {
      assert all[1] == 'q';
      assert "&quot;" <= all;
    } else {
      assert all[0] == c;
    }
  }

  /** The escaped text holds no markup character and decodes to the original, for every string. */
  lemma EscapeIsSafeAndFaithful(s: string)
    ensures '<' !in HtmlEscape(s) && '>' !in HtmlEscape(s) && '"' !in HtmlEscape(s)
    ensures Decode(HtmlEscape(s)) == s
  {
    ChainIsOnePass(s);
    OnePassIsInert(s);
    DecodeOnePass(s);
  }
}
