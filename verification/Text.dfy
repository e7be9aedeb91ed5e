/** Decimal rendering shared by activation identifiers, history file names and
    state revisions. Go's `%0Nd` verb on a non-negative integer pads with zeros
    on the left and never truncates; everything below is about that rendering. */
module Text {

  datatype Option<+T> = None | Some(value: T)

  predicate IsDigit(c: char) {
    '0' <= c <= '9'
  }

  predicate AllDigits(s: string) {
    forall k :: 0 <= k < |s| ==> IsDigit(s[k])
  }

  function Digits(n: nat): (s: string)
    ensures |s| > 0 && AllDigits(s)
  {
    var last := [('0' as int + n % 10) as char];
    if n < 10 then last else Digits(n / 10) + last
  }

  function Zeros(k: nat): (s: string)
    ensures |s| == k && forall i :: 0 <= i < k ==> s[i] == '0'
  {
    seq(k, i => '0')
  }

  /** `%0<width>d`. */
  function Padded(n: nat, width: nat): (s: string)
    ensures AllDigits(s) && |s| >= width && |s| > 0
  {
    var d := Digits(n);
    if |d| >= width then d else Zeros(width - |d|) + d
  }

  function DigitsValue(s: string): nat
    requires AllDigits(s)
  {
    if s == [] then 0
    else DigitsValue(s[..|s| - 1]) * 10 + (s[|s| - 1] as int - '0' as int)
  }

  lemma {:induction false} DigitsRoundTrip(n: nat)
    ensures DigitsValue(Digits(n)) == n
  {
    if n >= 10 {
      DigitsRoundTrip(n / 10);
      assert Digits(n)[..|Digits(n)| - 1] == Digits(n / 10);
    }
  }

  lemma {:induction false} LeadingZeros(k: nat, s: string)
    requires AllDigits(s)
    ensures AllDigits(Zeros(k) + s) && DigitsValue(Zeros(k) + s) == DigitsValue(s)
    decreases |s|, k
  {
    var t := Zeros(k) + s;
    assert forall i :: 0 <= i < |t| ==> t[i] == if i < k then '0' else s[i - k];
    if s == [] {
      if k > 0 {
        assert t[..k] == t && t[..|t| - 1] == Zeros(k - 1) + [];
        LeadingZeros(k - 1, []);
      }
    } else {
      assert t[..|t| - 1] == Zeros(k) + s[..|s| - 1];
      LeadingZeros(k, s[..|s| - 1]);
    }
  }

  lemma PaddedRoundTrip(n: nat, width: nat)
    ensures DigitsValue(Padded(n, width)) == n
  {
    DigitsRoundTrip(n);
    if |Digits(n)| < width {
      LeadingZeros(width - |Digits(n)|, Digits(n));
    }
  }

  lemma PaddedInjective(m: nat, n: nat, width: nat)
    requires Padded(m, width) == Padded(n, width)
    ensures m == n
  {
    PaddedRoundTrip(m, width);
    PaddedRoundTrip(n, width);
  }

  /** A number that closes a text after a dash is determined by the text. */
  lemma TrailingNumberInjective(a: string, m: nat, b: string, n: nat, width: nat)
    requires a + "-" + Padded(m, width) == b + "-" + Padded(n, width)
    ensures m == n && a == b
  {
    var s := a + "-" + Padded(m, width);
    var x, y := Padded(m, width), Padded(n, width);
    assert s[|a|] == '-' && s[|b|] == '-';
    assert forall k :: |a| < k < |s| ==> s[k] == x[k - |a| - 1];
    assert forall k :: |b| < k < |s| ==> s[k] == y[k - |b| - 1];
    assert |a| == |b|;
    assert x == s[|a| + 1..] == y;
    assert a == s[..|a|] == b;
    PaddedInjective(m, n, width);
  }

  /** A number that opens a text before a dash is determined by the text. */
  lemma LeadingNumberInjective(m: nat, a: string, n: nat, b: string, width: nat)
    requires Padded(m, width) + "-" + a == Padded(n, width) + "-" + b
    ensures m == n && a == b
  {
    var x, y := Padded(m, width), Padded(n, width);
    var s := x + "-" + a;
    assert s[|x|] == '-' && s[|y|] == '-';
    assert forall k :: 0 <= k < |x| ==> s[k] == x[k];
    assert forall k :: 0 <= k < |y| ==> s[k] == y[k];
    assert |x| == |y|;
    assert x == s[..|x|] == y;
    assert a == s[|x| + 1..] == b;
    PaddedInjective(m, n, width);
  }

  lemma {:induction false} MaxExists(s: set<int>)
    requires s != {}
    ensures exists m: int :: m in s && forall x :: x in s ==> x <= m
    decreases |s|
  {
    var m := SomeMember(s);
    var rest := s - {m};
    if rest != {} {
      MaxExists(rest);
      var n: int :| n in rest && forall x :: x in rest ==> x <= n;
      var top := if n < m then m else n;
      forall x | x in s ensures x <= top {
        assert x == m || x in rest;
      }
      assert top in s;
    } else {
      forall x | x in s ensures x <= m {
        assert x == m || x in rest;
      }
    }
  }

  lemma SomeMember<T>(s: set<T>) returns (m: T)
    requires s != {}
    ensures m in s
  {
    m :| m in s;
  }

  function MaxOf(s: set<int>): (m: int)
    requires s != {}
    ensures m in s && forall x :: x in s ==> x <= m
  {
    MaxExists(s);
    var m :| m in s && forall x :: x in s ==> x <= m;
    m
  }

  /** Go's string comparison. */
  predicate TextLess(a: string, b: string) {
    b != [] && (a == [] || a[0] < b[0] || (a[0] == b[0] && TextLess(a[1..], b[1..])))
  }

  lemma {:induction false} TextIrreflexive(a: string)
    ensures !TextLess(a, a)
  {
    if a != [] {
      TextIrreflexive(a[1..]);
    }
  }

  /** Go's string order decides between any two different strings. */
  lemma {:induction false} TextOrder(a: string, b: string)
    ensures !TextLess(a, a)
    ensures a != b ==> TextLess(a, b) || TextLess(b, a)
    ensures TextLess(a, b) ==> !TextLess(b, a)
  {
    TextIrreflexive(a);
    if a != [] && b != [] {
      TextOrder(a[1..], b[1..]);
      assert a == [a[0]] + a[1..] && b == [b[0]] + b[1..];
    }
  }

  lemma {:induction false} TextTransitive(a: string, b: string, c: string)
    requires TextLess(a, b) && TextLess(b, c)
    ensures TextLess(a, c)
  {
    if a != [] && b != [] && c != [] && a[0] == b[0] == c[0] {
      TextTransitive(a[1..], b[1..], c[1..]);
    }
  }

  /** White space as strings.TrimSpace sees it. */
  predicate IsSpace(c: char) {
    c in {'\t', '\n', '\U{0B}', '\U{0C}', '\r', ' ', '\U{85}', '\U{A0}', '\U{1680}', '\U{2028}', '\U{2029}',
          '\U{202F}', '\U{205F}', '\U{3000}'}
    || '\U{2000}' <= c <= '\U{200A}'
  }

  /** strings.TrimSpace(s) == "" */
  predicate Blank(s: string) {
    forall k :: 0 <= k < |s| ==> IsSpace(s[k])
  }
}
