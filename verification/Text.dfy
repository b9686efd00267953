/** Go's string operations that the sources rely on, and what they guarantee. */
module Text {

  // ---------------------------------------------------------------- Order

  /** The `<` of Go strings: lexicographic, a proper prefix first. */
  predicate Less(a: string, b: string) {
    if b == [] then false
    else if a == [] then true
    else a[0] < b[0] || (a[0] == b[0] && Less(a[1..], b[1..]))
  }

  lemma {:induction false} LessIsTotal(a: string, b: string)
    ensures a == b || Less(a, b) || Less(b, a)
  {
    if a != [] && b != [] && a[0] == b[0] {
      LessIsTotal(a[1..], b[1..]);
      assert a == [a[0]] + a[1..] && b == [b[0]] + b[1..];
    }
  }

  lemma {:induction false} LessIsAsymmetric(a: string, b: string)
    requires Less(a, b)
    ensures a != b && !Less(b, a)
  {
    if a != [] && a[0] == b[0] {
      LessIsAsymmetric(a[1..], b[1..]);
    }
  }

  lemma {:induction false} LessIsTransitive(a: string, b: string, c: string)
    requires Less(a, b) && Less(b, c)
    ensures Less(a, c)
  {
    if a != [] && a[0] == b[0] && b[0] == c[0] {
      LessIsTransitive(a[1..], b[1..], c[1..]);
    }
  }

  // ---------------------------------------------------------------- Path elements

  /** The elements between slashes; always at least one. */
  function Split(s: string): (es: seq<string>)
    ensures es != []
  {
    if s == [] then [[]]
    else
      var es := Split(s[1..]);
      if s[0] == '/' then [[]] + es else [[s[0]] + es[0]] + es[1..]
  }

  function Join(es: seq<string>): string {
    if es == [] then "" else if |es| == 1 then es[0] else es[0] + "/" + Join(es[1..])
  }

  lemma {:induction false} SplitElement(e: string)
    requires '/' !in e
    ensures Split(e) == [e]
  {
    if e != [] {
      SplitElement(e[1..]);
      assert e == [e[0]] + e[1..];
    }
  }

  lemma {:induction false} SplitFirst(e: string, s: string)
    requires '/' !in e
    ensures Split(e + "/" + s) == [e] + Split(s)
  {
    var t := e + "/" + s;
    if e == [] {
      assert t[1..] == s;
    } else {
      SplitFirst(e[1..], s);
      assert t[1..] == e[1..] + "/" + s;
      assert e == [e[0]] + e[1..];
    }
  }

  lemma {:induction false} SplitJoin(es: seq<string>)
    requires es != [] && forall i :: 0 <= i < |es| ==> '/' !in es[i]
    ensures Split(Join(es)) == es
  {
    if |es| == 1 {
      SplitElement(es[0]);
    } else {
      SplitJoin(es[1..]);
      SplitFirst(es[0], Join(es[1..]));
    }
  }

  lemma {:induction false} JoinSplit(s: string)
    ensures Join(Split(s)) == s
    ensures forall i :: 0 <= i < |Split(s)| ==> '/' !in Split(s)[i]
  {
    if s != [] {
      JoinSplit(s[1..]);
      var es := Split(s[1..]);
      assert s == [s[0]] + s[1..];
      if s[0] != '/' && |es| > 1 {
        assert Split(s)[1..] == es[1..];
      }
    }
  }

  // ---------------------------------------------------------------- Numbers

  function Decimal(n: nat): string {
    if n < 10 then [('0' as int + n) as char]
    else Decimal(n / 10) + [('0' as int + n % 10) as char]
  }

  predicate Digit(c: char) { '0' <= c <= '9' }

  lemma {:induction false} DecimalDigits(n: nat)
    ensures Decimal(n) != [] && Digits(Decimal(n))
  {
    if n >= 10 {
      DecimalDigits(n / 10);
    }
  }

  lemma {:induction false} DecimalIsInjective(m: nat, n: nat)
    requires Decimal(m) == Decimal(n)
    ensures m == n
  {
    DecimalDigits(m / 10);
    DecimalDigits(n / 10);
    var s := Decimal(m);
    if m >= 10 && n >= 10 {
      assert s[..|s| - 1] == Decimal(m / 10) == Decimal(n / 10);
      DecimalIsInjective(m / 10, n / 10);
      assert s[|s| - 1] == ('0' as int + m % 10) as char == ('0' as int + n % 10) as char;
    }
  }

  predicate Digits(d: string) { forall i :: 0 <= i < |d| ==> Digit(d[i]) }

  lemma ColonNotLater(s: string, d: string, t: string, e: string)
    requires s + (":" + d) == t + (":" + e) && Digits(d)
    ensures |t| <= |s|
  {
    var all := s + (":" + d);
    assert all[|t|] == ':';
  }

  lemma ColonSplits(s: string, d: string, t: string, e: string)
    requires s + (":" + d) == t + (":" + e) && Digits(d) && Digits(e)
    ensures s == t && d == e
  {
    ColonNotLater(s, d, t, e);
    ColonNotLater(t, e, s, d);
    var all := s + (":" + d);
    assert all[..|s|] == s && all[..|t|] == t;
    assert all[|s| + 1..] == d && all[|t| + 1..] == e;
  }

  /** A number, a text that begins with no digit, and another number can be taken apart again. */
  lemma NumbersSplit(m: nat, sep: string, n: nat, p: nat, q: nat)
    requires sep != [] && !Digit(sep[0])
    requires Decimal(m) + sep + Decimal(n) == Decimal(p) + sep + Decimal(q)
    ensures m == p && n == q
  {
    var d, e := Decimal(m), Decimal(p);
    DecimalDigits(m);
    DecimalDigits(p);
    var all := d + sep + Decimal(n);
    assert all[|d|] == sep[0] && all[|e|] == sep[0];
    assert forall i :: 0 <= i < |d| ==> all[i] == d[i];
    assert forall i :: 0 <= i < |e| ==> all[i] == e[i];
    assert |d| == |e|;
    assert all[..|d|] == d && all[..|e|] == e;
    assert all[|d| + |sep|..] == Decimal(n) && all[|e| + |sep|..] == Decimal(q);
    DecimalIsInjective(m, p);
    DecimalIsInjective(n, q);
  }
}
