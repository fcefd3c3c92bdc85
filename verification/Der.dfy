/** The hand-written RSA key reader (simulator/src/oauth/types.rs) against the DER encoding of X.690 and RFC 8017. */
module Der {
  import opened Prelude

  /** usize is 64 bits wide. */
  const WORD: nat := 0x1_0000_0000_0000_0000

  // ---- big-endian numbers ----

  function Value(bs: seq<Byte>): (v: nat) {
    if bs == [] then 0 else Value(bs[..|bs| - 1]) * 256 + bs[|bs| - 1]
  }

  /** The shortest big-endian form; zero has no octets. */
  function BigEndian(n: nat): (bs: seq<Byte>)
    ensures n > 0 ==> bs != [] && bs[0] != 0
    ensures Value(bs) == n
  {
    if n == 0 then []
    else
      var front := BigEndian(n / 256);
      assert (front + [n % 256])[..|front|] == front;
      front + [n % 256]
  }

  function Pow256(k: nat): (p: nat)
    ensures p > 0
  {
    if k == 0 then 1 else 256 * Pow256(k - 1)
  }

  lemma {:induction false} BigEndianLength(n: nat, k: nat)
    requires n < Pow256(k)
    ensures |BigEndian(n)| <= k
  {
    if n != 0 {
      BigEndianLength(n / 256, k - 1);
    }
  }

  lemma WordIsEightOctets()
    ensures Pow256(8) == WORD
  {
    assert Pow256(4) == 0x1_0000_0000;
    assert Pow256(8) == 256 * (256 * (256 * (256 * Pow256(4))));
  }

  /** There is only one octet string without a leading zero for each number. */
  lemma {:induction false} MinimalUnique(bs: seq<Byte>)
    requires bs != [] ==> bs[0] != 0
    ensures BigEndian(Value(bs)) == bs
  {
    if bs != [] {
      var front := bs[..|bs| - 1];
      MinimalUnique(front);
      var v := Value(bs);
      assert v / 256 == Value(front) && v % 256 == bs[|bs| - 1];
      if front != [] { ValuePositive(front); }
      assert bs == front + [bs[|bs| - 1]];
    }
  }

  lemma {:induction false} ValuePositive(bs: seq<Byte>)
    requires bs != [] && bs[0] != 0
    ensures Value(bs) > 0
  {
    if |bs| > 1 { ValuePositive(bs[..|bs| - 1]); }
  }

  lemma {:induction false} LeadingZero(bs: seq<Byte>)
    ensures Value([0] + bs) == Value(bs)
  {
    if bs == [] {
      assert [0] + bs == [0];
    } else {
      LeadingZero(bs[..|bs| - 1]);
      assert ([0] + bs)[..|bs|] == [0] + bs[..|bs| - 1];
    }
  }

  // ---- the encoder ----

  /** Section 10.1 of X.690: short form below 128, otherwise the shortest long form. */
  function EncodeLength(n: nat): (r: seq<Byte>)
    requires n < WORD
    ensures 1 <= |r| <= 9
  {
    if n < 0x80 then [n]
    else
      WordIsEightOctets();
      BigEndianLength(n, 8);
      [0x80 + |BigEndian(n)|] + BigEndian(n)
  }

  /** Section 8.3 of X.690 for positive numbers: a zero octet keeps the sign bit clear. */
  function IntegerContent(n: nat): (r: seq<Byte>)
    requires n > 0
  {
    if BigEndian(n)[0] >= 0x80 then [0] + BigEndian(n) else BigEndian(n)
  }

  function Tagged(tag: Byte, content: seq<Byte>): (r: seq<Byte>)
    requires |content| < WORD
  {
    [tag] + EncodeLength(|content|) + content
  }

  /** The key's encoding fits into memory. */
  predicate Encodable(n: nat, e: nat) {
    && n > 0 && e > 0 && |IntegerContent(n)| < WORD && |IntegerContent(e)| < WORD
    && |Tagged(0x02, IntegerContent(n)) + Tagged(0x02, IntegerContent(e))| < WORD
  }

  /** Appendix A.1.1 of RFC 8017: SEQUENCE { modulus INTEGER, publicExponent INTEGER }. */
  function RsaPublicKey(n: nat, e: nat): (r: seq<Byte>)
    requires Encodable(n, e)
  {
    Tagged(0x30, Tagged(0x02, IntegerContent(n)) + Tagged(0x02, IntegerContent(e)))
  }

  // ---- the reader; `None` stands for the panic on an index out of bounds ----

  function LengthSize(der: seq<Byte>): (r: Option<nat>) {
    if der == [] then None
    else
      var head: int := der[0];
      Some(if head < 0x80 then 1 else head - 0x7f)
  }

  function ReadLength(der: seq<Byte>): (r: Option<nat>) {
    if der == [] then None
    else if der[0] < 0x80 then Some(der[0])
    else
      var num := der[0] - 0x80;
      if 1 + num > |der| then None else Some(Value(der[1..1 + num]) % WORD)
  }

  /** Content of the element at `pos` and the position after it; the tag is skipped unread. */
  function ReadElement(der: seq<Byte>, pos: nat): (r: Option<(seq<Byte>, nat)>)
    ensures r.Some? ==> r.value.1 <= |der|
  {
    if pos >= |der| then None
    else
      var rest := der[pos + 1..];
      if ReadLength(rest).None? || LengthSize(rest).None? then None
      else
        var start := pos + 1 + LengthSize(rest).value;
        var end := start + ReadLength(rest).value;
        if end > |der| then None else Some((der[start..end], end))
  }

  function StripSign(bs: seq<Byte>): (r: seq<Byte>) {
    if bs != [] && bs[0] == 0 then bs[1..] else bs
  }

  /** Skips the outer header, then reads two elements; only the first loses its sign octet. */
  function ParseRsa(der: seq<Byte>): (r: Option<(seq<Byte>, seq<Byte>)>) {
    if der == [] || LengthSize(der[1..]).None? then None
    else
      var first := ReadElement(der, 1 + LengthSize(der[1..]).value);
      if first.None? then None
      else
        var second := ReadElement(der, first.value.1);
        if second.None? then None else Some((StripSign(first.value.0), second.value.0))
  }

  /** A length is missing exactly when it is cut short; in the long form it is taken modulo 2^64. */
  lemma ReadLengthMeans(der: seq<Byte>)
    ensures ReadLength(der).None? <==> der == [] || (der[0] >= 0x80 && |der| <= der[0] - 0x80)
    ensures ReadLength(der).Some? ==>
              ReadLength(der).value == if der[0] < 0x80 then der[0] else Value(der[1..der[0] - 0x7f]) % 0x1_0000_0000_0000_0000
  {
  }

  // ---- the reader inverts the encoder ----

  lemma LongForm(digits: seq<Byte>, rest: seq<Byte>)
    requires 0 < |digits| <= 8 && Value(digits) < WORD
    ensures ReadLength([0x80 + |digits|] + digits + rest) == Some(Value(digits))
    ensures LengthSize([0x80 + |digits|] + digits + rest) == Some(1 + |digits|)
  {
    var der := [0x80 + |digits|] + digits + rest;
    assert der[1..1 + |digits|] == digits;
    ModUnique(Value(digits), 0, Value(digits));
  }

  /** The two length readers invert the encoder, in short and long form. */
  lemma LengthRoundTrip(n: nat, rest: seq<Byte>)
    requires n < WORD
    ensures ReadLength(EncodeLength(n) + rest) == Some(n)
    ensures LengthSize(EncodeLength(n) + rest) == Some(|EncodeLength(n)|)
  {
    if n >= 0x80 {
      WordIsEightOctets();
      BigEndianLength(n, 8);
      LongForm(BigEndian(n), rest);
    }
  }

  lemma HeaderFollows(pre: seq<Byte>, tag: Byte, header: seq<Byte>, content: seq<Byte>, rest: seq<Byte>)
    ensures var der := pre + ([tag] + header + content) + rest;
            && |pre| < |der| && der[|pre| + 1..] == header + (content + rest)
            && der[|pre| + 1 + |header|..|pre| + 1 + |header| + |content|] == content
  {
  }

  /** An encoded element is read back wherever it stands. */
  lemma ElementRoundTrip(pre: seq<Byte>, tag: Byte, content: seq<Byte>, rest: seq<Byte>)
    requires |content| < WORD
    ensures ReadElement(pre + Tagged(tag, content) + rest, |pre|) == Some((content, |pre| + |Tagged(tag, content)|))
  {
    HeaderFollows(pre, tag, EncodeLength(|content|), content, rest);
    LengthRoundTrip(|content|, content + rest);
  }

  lemma StripsToMinimal(n: nat)
    requires n > 0
    ensures StripSign(IntegerContent(n)) == BigEndian(n)
    ensures Value(IntegerContent(n)) == n
  {
    LeadingZero(BigEndian(n));
  }

  lemma OuterHeader(tag: Byte, body: seq<Byte>)
    requires |body| < WORD
    ensures var header := EncodeLength(|body|);
            && Tagged(tag, body) == ([tag] + header) + body
            && LengthSize(Tagged(tag, body)[1..]) == Some(|header|)
  {
    assert Tagged(tag, body)[1..] == EncodeLength(|body|) + body;
    LengthRoundTrip(|body|, body);
  }

  lemma ParseSteps(der: seq<Byte>, size: nat, n: seq<Byte>, mid: nat, e: seq<Byte>)
    requires der != [] && LengthSize(der[1..]) == Some(size)
    requires ReadElement(der, 1 + size) == Some((n, mid)) && ReadElement(der, mid) == Some((e, |der|))
    ensures ParseRsa(der) == Some((StripSign(n), e))
  {
  }

  lemma TwoElements(n: seq<Byte>, e: seq<Byte>)
    requires |n| < WORD && |e| < WORD && |Tagged(0x02, n) + Tagged(0x02, e)| < WORD
    ensures ParseRsa(Tagged(0x30, Tagged(0x02, n) + Tagged(0x02, e))) == Some((StripSign(n), e))
  {
    var first, second := Tagged(0x02, n), Tagged(0x02, e);
    var pre := [0x30] + EncodeLength(|first + second|);
    OuterHeader(0x30, first + second);
    ElementRoundTrip(pre, 0x02, n, second);
    ElementRoundTrip(pre + first, 0x02, e, []);
    Regroup(pre, first, second);
    ParseSteps(pre + (first + second), |pre| - 1, n, |pre| + |first|, e);
  }

  lemma Regroup(a: seq<Byte>, b: seq<Byte>, c: seq<Byte>)
    ensures a + b + c == a + (b + c) && a + b + c + [] == a + (b + c)
  {
  }

  /** For every key, the modulus comes out as minimal octets and the exponent as octets of its value. */
  lemma ParseEncodedKey(n: nat, e: nat)
    requires Encodable(n, e)
    ensures ParseRsa(RsaPublicKey(n, e)) == Some((BigEndian(n), IntegerContent(e)))
    ensures Value(BigEndian(n)) == n && Value(IntegerContent(e)) == e
  {
    TwoElements(IntegerContent(n), IntegerContent(e));
    StripsToMinimal(n);
    StripsToMinimal(e);
  }

  /** Whatever follows, the element `first` behind `pre` is read as `n`. */
  ghost predicate AlwaysRead(pre: seq<Byte>, first: seq<Byte>, n: seq<Byte>) {
    forall part :: ReadElement(pre + first + part, |pre|) == Some((n, |pre| + |first|))
  }

  /** Cut off anywhere, the element `first` behind `pre` is not read. */
  ghost predicate NeedsAll(pre: seq<Byte>, first: seq<Byte>) {
    forall m :: 0 <= m < |first| ==> ReadElement(pre + first[..m], |pre|).None?
  }

  lemma TaggedIsWhole(pre: seq<Byte>, tag: Byte, content: seq<Byte>)
    requires |content| < WORD
    ensures AlwaysRead(pre, Tagged(tag, content), content) && NeedsAll(pre, Tagged(tag, content))
  {
    forall part ensures ReadElement(pre + Tagged(tag, content) + part, |pre|) == Some((content, |pre| + |Tagged(tag, content)|)) {
      ElementRoundTrip(pre, tag, content, part);
    }
    forall m | 0 <= m < |Tagged(tag, content)| ensures ReadElement(pre + Tagged(tag, content)[..m], |pre|).None? {
      CutElement(pre, tag, content, m);
    }
  }

  /** A key that was cut off anywhere is never read. */
  lemma TruncatedKeyPanics(n: nat, e: nat, k: nat)
    requires Encodable(n, e) && k < |RsaPublicKey(n, e)|
    ensures ParseRsa(RsaPublicKey(n, e)[..k]).None?
  {
    CutPair(IntegerContent(n), IntegerContent(e), k);
  }

  lemma CutPair(n: seq<Byte>, e: seq<Byte>, k: nat)
    requires |n| < WORD && |e| < WORD && |Tagged(0x02, n) + Tagged(0x02, e)| < WORD
    requires k < |Tagged(0x30, Tagged(0x02, n) + Tagged(0x02, e))|
    ensures ParseRsa(Tagged(0x30, Tagged(0x02, n) + Tagged(0x02, e))[..k]).None?
  {
    var first, second := Tagged(0x02, n), Tagged(0x02, e);
    var header := EncodeLength(|first + second|);
    OuterHeader(0x30, first + second);
    TaggedIsWhole([0x30] + header, 0x02, n);
    TaggedIsWhole([0x30] + header + first, 0x02, e);
    CutBody([0x30] + header, first, second, n, Tagged(0x30, first + second), k);
  }

  lemma CutBody(pre: seq<Byte>, first: seq<Byte>, second: seq<Byte>, n: seq<Byte>, der: seq<Byte>, k: nat)
    requires |pre| > 0 && der == pre + (first + second) && k < |der| && LengthSize(der[1..]) == Some(|pre| - 1)
    requires AlwaysRead(pre, first, n) && NeedsAll(pre, first) && NeedsAll(pre + first, second)
    ensures ParseRsa(der[..k]).None?
  {
    Regroup(pre, first, second);
    CutKey(pre, first, second, n, k);
  }

  lemma CutKey(pre: seq<Byte>, first: seq<Byte>, second: seq<Byte>, n: seq<Byte>, k: nat)
    requires |pre| > 0 && k < |pre + first + second| && LengthSize((pre + first + second)[1..]) == Some(|pre| - 1)
    requires AlwaysRead(pre, first, n) && NeedsAll(pre, first) && NeedsAll(pre + first, second)
    ensures ParseRsa((pre + first + second)[..k]).None?
  {
    var der := pre + first + second;
    var cut := der[..k];
    if k <= 1 {
      NoLength(cut);
    } else {
      SizeOfPrefix(der[1..], k - 1);
      assert der[1..][..k - 1] == cut[1..];
      if k < |pre| {
        PastTheEnd(cut, |pre| - 1);
      } else {
        CutPieces(pre, first, second, k);
        if k < |pre| + |first| {
          FirstMissing(cut, |pre| - 1);
        } else {
          ParseStops(cut, |pre| - 1, n, |pre| + |first|);
        }
      }
    }
  }

  lemma NoLength(der: seq<Byte>)
    requires |der| <= 1
    ensures ParseRsa(der).None?
  {
  }

  /** Only the first octet tells how long the length header is. */
  lemma SizeOfPrefix(der: seq<Byte>, k: nat)
    requires 0 < k <= |der|
    ensures LengthSize(der[..k]) == LengthSize(der)
  {
  }

  lemma PastTheEnd(der: seq<Byte>, size: nat)
    requires der != [] && LengthSize(der[1..]) == Some(size) && 1 + size >= |der|
    ensures ParseRsa(der).None?
  {
  }

  lemma FirstMissing(der: seq<Byte>, size: nat)
    requires der != [] && LengthSize(der[1..]) == Some(size) && ReadElement(der, 1 + size).None?
    ensures ParseRsa(der).None?
  {
  }

  lemma CutPieces(a: seq<Byte>, b: seq<Byte>, c: seq<Byte>, k: nat)
    requires |a| <= k <= |a| + |b| + |c|
    ensures k <= |a| + |b| ==> (a + b + c)[..k] == a + b[..k - |a|]
    ensures k >= |a| + |b| ==> (a + b + c)[..k] == a + b + c[..k - |a| - |b|]
  {
  }

  lemma ParseStops(der: seq<Byte>, size: nat, n: seq<Byte>, mid: nat)
    requires der != [] && LengthSize(der[1..]) == Some(size)
    requires ReadElement(der, 1 + size) == Some((n, mid)) && ReadElement(der, mid).None?
    ensures ParseRsa(der).None?
  {
  }

  /** An element that was cut off is not read. */
  lemma CutElement(pre: seq<Byte>, tag: Byte, content: seq<Byte>, k: nat)
    requires |content| < WORD && k < |Tagged(tag, content)|
    ensures ReadElement(pre + Tagged(tag, content)[..k], |pre|).None?
  {
    var header := EncodeLength(|content|);
    if k > 0 {
      var rest := (header + content)[..k - 1];
      CutTagged(tag, header, content, k);
      AfterTag(pre, tag, rest);
      CutLength(|content|, content, k - 1);
      ElementTooLong(pre + ([tag] + rest), |pre|, rest, |header|, |content|);
    }
  }

  lemma CutTagged(tag: Byte, header: seq<Byte>, content: seq<Byte>, k: nat)
    requires 0 < k <= 1 + |header| + |content|
    ensures ([tag] + header + content)[..k] == [tag] + (header + content)[..k - 1]
  {
  }

  lemma AfterTag(pre: seq<Byte>, tag: Byte, rest: seq<Byte>)
    ensures |pre| < |pre + ([tag] + rest)| && (pre + ([tag] + rest))[|pre| + 1..] == rest
  {
  }

  lemma ElementTooLong(der: seq<Byte>, pos: nat, rest: seq<Byte>, size: nat, len: nat)
    requires pos < |der| && der[pos + 1..] == rest && |rest| < size + len
    requires if |rest| < size then ReadLength(rest).None? || LengthSize(rest).None?
             else ReadLength(rest) == Some(len) && LengthSize(rest) == Some(size)
    ensures ReadElement(der, pos).None?
  {
  }

  /** A length header that is there in full says how long the content must be; one that is not says nothing. */
  lemma CutLength(n: nat, content: seq<Byte>, k: nat)
    requires n < WORD && |content| == n && k <= |EncodeLength(n)| + n
    ensures var cut := (EncodeLength(n) + content)[..k];
            if k < |EncodeLength(n)| then ReadLength(cut).None? || LengthSize(cut).None?
            else ReadLength(cut) == Some(n) && LengthSize(cut) == Some(|EncodeLength(n)|)
  {
    var header := EncodeLength(n);
    var cut := (header + content)[..k];
    if k >= |header| {
      assert cut == header + content[..k - |header|];
      LengthRoundTrip(n, content[..k - |header|]);
    } else if k > 0 {
      assert cut[0] == header[0];
      WordIsEightOctets();
      if n >= 0x80 { BigEndianLength(n, 8); }
    }
  }

  /** The exponent is minimal, as section 6.3.1.2 of RFC 7518 wants it, exactly when its top bit is clear. */
  lemma ExponentMinimalIff(n: nat, e: nat)
    requires Encodable(n, e)
    ensures ParseRsa(RsaPublicKey(n, e)) == Some((BigEndian(n), BigEndian(e))) <==> BigEndian(e)[0] < 0x80
  {
    ParseEncodedKey(n, e);
    assert |[0] + BigEndian(e)| == 1 + |BigEndian(e)|;
  }

  lemma OneOctet(e: nat)
    requires 128 <= e < 256
    ensures BigEndian(e) == [e] && IntegerContent(e) == [0, e]
  {
    assert BigEndian(e) == BigEndian(e / 256) + [e];
  }

  /** With an exponent such as 128, every key comes out with a superfluous zero octet. */
  lemma ExponentPadded(n: nat, e: nat)
    requires Encodable(n, e) && 128 <= e < 256
    ensures ParseRsa(RsaPublicKey(n, e)) == Some((BigEndian(n), [0, e])) && BigEndian(e) == [e]
  {
    ParseEncodedKey(n, e);
    OneOctet(e);
  }

  // ---- the reader as written ----

  method ReadDerLen(der: seq<Byte>) returns (r: Option<nat>)
    ensures r == ReadLength(der)
  {
    if der == [] { return None; }
    var head := der[0];
    if head < 0x80 {
      return Some(head);
    }
    var num := head - 0x80;
    var len: nat := 0;
    for i := 0 to num
      invariant i < |der|
      invariant len == Value(der[1..1 + i]) % WORD
    {
      if 1 + i >= |der| { return None; }
      assert der[1..2 + i][..i] == der[1..1 + i];
      ShiftStep(Value(der[1..1 + i]), der[1 + i]);
      len := (len * 256) % WORD + der[1 + i];
    }
    r := Some(len);
  }

  /** Shifting left by eight and or-ing in an octet, on a 64-bit word. */
  lemma ShiftStep(v: nat, b: Byte)
    ensures (v % WORD * 256) % WORD + b == (v * 256 + b) % WORD
  {
    var q, r := v / WORD, v % WORD;
    assert v == q * WORD + r;
    var high, low := r / 0x100_0000_0000_0000, r % 0x100_0000_0000_0000;
    assert r * 256 == high * WORD + low * 256;
    assert low * 256 + b < WORD;
    ModUnique(r * 256, high, low * 256);
    assert v * 256 + b == (q * 256 + high) * WORD + (low * 256 + b);
    ModUnique(v * 256 + b, q * 256 + high, low * 256 + b);
  }

  lemma ModUnique(x: nat, q: nat, r: nat)
    requires x == q * WORD + r && r < WORD
    ensures x % WORD == r
  {
  }

  method ParseRsaIntegers(der: seq<Byte>) returns (r: Option<(seq<Byte>, seq<Byte>)>)
    ensures r == ParseRsa(der)
  {
    if der == [] { return None; }
    var pos := 1; // SEQUENCE tag
    var size := LengthSize(der[pos..]);
    if size.None? { return None; }
    pos := pos + size.value;

    if pos >= |der| { return None; }
    pos := pos + 1; // INTEGER tag
    var nLen := ReadDerLen(der[pos..]);
    size := LengthSize(der[pos..]);
    if nLen.None? { return None; }
    pos := pos + size.value;
    if pos + nLen.value > |der| { return None; }
    var n := der[pos..pos + nLen.value];
    if n != [] && n[0] == 0 {
      n := n[1..];
    }
    pos := pos + nLen.value;

    if pos >= |der| { return None; }
    pos := pos + 1; // INTEGER tag
    var eLen := ReadDerLen(der[pos..]);
    size := LengthSize(der[pos..]);
    if eLen.None? { return None; }
    pos := pos + size.value;
    if pos + eLen.value > |der| { return None; }
    r := Some((n, der[pos..pos + eLen.value]));
  }
}
