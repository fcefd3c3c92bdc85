/** Small vocabulary shared by every component: optional values, decimal numerals, flattening. */
module Prelude {

  datatype Option<+T> = None | Some(value: T) {
    function GetOr(default: T): T {
      match this
      case Some(v) => v
      case None => default
    }
  }

  type Byte = b: int | 0 <= b < 256

  /** The decimal numeral that Rust's `{}` prints for an unsigned integer. */
  function Decimal(n: nat): (s: string)
    ensures s != []
    ensures forall i :: 0 <= i < |s| ==> '0' <= s[i] <= '9'
  {
    var digit := ['0' + (n % 10) as char];
    if n < 10 then digit else Decimal(n / 10) + digit
  }

  /** What a numeral stands for. */
  function NumeralValue(s: string): (n: int) {
    if s == [] then 0 else 10 * NumeralValue(s[..|s| - 1]) + (s[|s| - 1] as int - '0' as int)
  }

  /** The numeral stands for the number, and has no leading zero. */
  lemma {:induction false} DecimalMeans(n: nat)
    ensures NumeralValue(Decimal(n)) == n
    ensures |Decimal(n)| > 1 ==> Decimal(n)[0] != '0'
  {
    var s := Decimal(n);
    if n >= 10 {
      DecimalMeans(n / 10);
      assert s[..|s| - 1] == Decimal(n / 10);
    } else {
      assert s[..0] == [];
    }
  }

  lemma {:induction false} DecimalInjective(m: nat, n: nat)
    requires Decimal(m) == Decimal(n)
    ensures m == n
  {
    var s := Decimal(m);
    assert s[|s| - 1] == '0' + (m % 10) as char == '0' + (n % 10) as char;
    assert |s| == 1 <==> m < 10;
    assert |s| == 1 <==> n < 10;
    if m >= 10 {
      assert Decimal(m / 10) == s[..|s| - 1] == Decimal(n / 10);
      DecimalInjective(m / 10, n / 10);
    }
  }

  /** Two strings cut at their last `sep` agree on both sides when the right sides contain no `sep`. */
  lemma LastSeparatorUnique(sep: char, a: string, x: string, b: string, y: string)
    requires a + [sep] + x == b + [sep] + y
    requires sep !in x && sep !in y
    ensures a == b && x == y
  {
    var s := a + [sep] + x;
    assert s[|a|] == sep && s[|b|] == sep;
    assert forall i :: |a| < i < |s| ==> s[i] == x[i - |a| - 1];
    assert forall i :: |b| < i < |s| ==> s[i] == y[i - |b| - 1];
    assert |a| == |b|;
    assert a == s[..|a|] == b;
    assert x == s[|a| + 1..] == y;
  }

  /** The images of all elements, one after the other. */
  function Flatten<T, U>(f: T -> seq<U>, xs: seq<T>): (r: seq<U>) {
    if xs == [] then [] else Flatten(f, xs[..|xs| - 1]) + f(xs[|xs| - 1])
  }

  lemma {:induction false} FlattenAppend<T, U>(f: T -> seq<U>, a: seq<T>, b: seq<T>)
    ensures Flatten(f, a + b) == Flatten(f, a) + Flatten(f, b)
  {
    if b == [] {
      assert a + b == a;
    } else {
      FlattenAppend(f, a, b[..|b| - 1]);
      assert (a + b)[..|a + b| - 1] == a + b[..|b| - 1];
    }
  }

  lemma FlattenOne<T, U>(f: T -> seq<U>, x: T)
    ensures Flatten(f, [x]) == f(x)
  {
    assert [x][..0] == [];
  }

  /** Permuting the elements permutes the result. */
  lemma {:induction false} FlattenPermuted<T, U>(f: T -> seq<U>, xs: seq<T>, ys: seq<T>)
    requires multiset(ys) == multiset(xs)
    ensures multiset(Flatten(f, ys)) == multiset(Flatten(f, xs))
  {
    if xs == [] {
      assert |multiset(ys)| == 0;
    } else {
      var n := |xs| - 1;
      var x := xs[n];
      assert xs == xs[..n] + [x];
      assert x in multiset(ys);
      var k :| 0 <= k < |ys| && ys[k] == x;
      var a, b := ys[..k], ys[k + 1..];
      assert ys == a + [x] + b;
      assert multiset(a + b) == multiset(ys) - multiset{x} == multiset(xs[..n]);
      FlattenPermuted(f, xs[..n], a + b);
      FlattenPulledOut(f, a, x, b);
    }
  }

  lemma FlattenPulledOut<T, U>(f: T -> seq<U>, a: seq<T>, x: T, b: seq<T>)
    ensures multiset(Flatten(f, a + [x] + b)) == multiset(Flatten(f, a + b)) + multiset(f(x))
  {
    FlattenAppend(f, a + [x], b);
    FlattenAppend(f, a, [x]);
    FlattenAppend(f, a, b);
    FlattenOne(f, x);
  }

  lemma FlattenCons<T, U>(f: T -> seq<U>, x: T, xs: seq<T>)
    ensures Flatten(f, [x] + xs) == f(x) + Flatten(f, xs)
  {
    FlattenAppend(f, [x], xs);
    FlattenOne(f, x);
  }

  lemma {:induction false} InFlatten<T, U>(f: T -> seq<U>, xs: seq<T>, y: U)
    ensures y in Flatten(f, xs) <==> exists x :: x in xs && y in f(x)
  {
    if xs != [] {
      var n := |xs| - 1;
      InFlatten(f, xs[..n], y);
      assert xs == xs[..n] + [xs[n]];
    }
  }
}
