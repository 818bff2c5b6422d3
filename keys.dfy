/**
  The duplicate-detection key of the edge sampler.

  graph.js builds the key of a drawn index pair as `[s, e].sort().join("-")`.
  Array.prototype.sort without a comparator orders elements by comparing their
  string forms code unit by code unit, so the key of (9, 10) is "10-9", not
  "9-10". This module models that key exactly and proves that, although the
  order inside it is not numeric, it depends only on the unordered pair and
  tells different unordered pairs apart.
 */
module Keys {

  predicate IsDigit(c: char) { '0' <= c <= '9' }

  predicate AllDigits(s: string) { forall k :: 0 <= k < |s| ==> IsDigit(s[k]) }

  function Digit(d: nat): (c: char)
    requires d < 10
    ensures IsDigit(c)
  {
    (48 + d) as char
  }

  /** JavaScript's String(n) of a non-negative integer: its decimal numeral. */
  function Decimal(n: nat): (s: string)
    ensures 1 <= |s| && AllDigits(s)
    ensures n >= 10 ==> |s| >= 2
  {
    if n < 10 then [Digit(n)] else Decimal(n / 10) + [Digit(n % 10)]
  }

  lemma {:induction false} DecimalInjective(a: nat, b: nat)
    requires Decimal(a) == Decimal(b)
    ensures a == b
  {
    if a >= 10 && b >= 10 {
      var sa, sb := Decimal(a), Decimal(b);
      assert sa[..|sa| - 1] == Decimal(a / 10);
      assert sb[..|sb| - 1] == Decimal(b / 10);
      assert Digit(a % 10) == sa[|sa| - 1] == sb[|sb| - 1] == Digit(b % 10);
      DecimalInjective(a / 10, b / 10);
    } else if a < 10 && b < 10 {
      assert Decimal(a)[0] == Decimal(b)[0];
    }
  }

  /** The default sort order of JavaScript strings: code unit by code unit, a proper prefix first. */
  predicate LexLess(a: string, b: string)
  {
    if |a| == 0 then |b| > 0
    else if |b| == 0 then false
    else if a[0] != b[0] then a[0] < b[0]
    else LexLess(a[1..], b[1..])
  }

  lemma {:induction false} LexTrichotomy(a: string, b: string)
    ensures a != b ==> LexLess(a, b) || LexLess(b, a)
    ensures !(LexLess(a, b) && LexLess(b, a))
  {
    if |a| > 0 && |b| > 0 && a[0] == b[0] {
      LexTrichotomy(a[1..], b[1..]);
      assert a == [a[0]] + a[1..] && b == [b[0]] + b[1..];
    }
  }

  /** The string forms of `[s, e].sort()`: the pair in string order (sort is stable on ties). */
  function SortedNumerals(s: nat, e: nat): (string, string)
  {
    if LexLess(Decimal(e), Decimal(s)) then (Decimal(e), Decimal(s)) else (Decimal(s), Decimal(e))
  }

  /** The edge key `[s, e].sort().join("-")`. */
  function Key(s: nat, e: nat): string
  {
    var p := SortedNumerals(s, e);
    p.0 + "-" + p.1
  }

  /** Two index pairs are the same unordered pair. */
  predicate SamePair(a: nat, b: nat, c: nat, d: nat)
  {
    (a == c && b == d) || (a == d && b == c)
  }

  lemma KeySymmetric(s: nat, e: nat)
    ensures Key(s, e) == Key(e, s)
  {
    if s != e {
      if Decimal(s) == Decimal(e) { DecimalInjective(s, e); }
      LexTrichotomy(Decimal(s), Decimal(e));
    }
  }

  /** The position of the first "-" in a string. */
  function DashIndex(s: string): (i: nat)
    requires '-' in s
    ensures i < |s| && s[i] == '-'
  {
    if s[0] == '-' then 0 else 1 + DashIndex(s[1..])
  }

  lemma {:induction false} DashIndexAfterDigits(p: string, q: string)
    requires AllDigits(p)
    ensures (p + "-" + q)[|p|] == '-'
    ensures DashIndex(p + "-" + q) == |p|
  {
    var s := p + "-" + q;
    assert s[|p|] == '-';
    if |p| > 0 {
      assert s[0] == p[0];
      assert s[1..] == p[1..] + "-" + q;
      DashIndexAfterDigits(p[1..], q);
    }
  }

  lemma SplitAtDash(p1: string, q1: string, p2: string, q2: string)
    requires AllDigits(p1) && AllDigits(q1) && AllDigits(p2) && AllDigits(q2)
    requires p1 + "-" + q1 == p2 + "-" + q2
    ensures p1 == p2 && q1 == q2
  {
    var s := p1 + "-" + q1;
    DashIndexAfterDigits(p1, q1);
    DashIndexAfterDigits(p2, q2);
    assert p1 == s[..|p1|] == p2;
    assert q1 == s[|p1| + 1..] == q2;
  }

  lemma KeyInjective(a: nat, b: nat, c: nat, d: nat)
    requires Key(a, b) == Key(c, d)
    ensures SamePair(a, b, c, d)
  {
    var p, q := SortedNumerals(a, b), SortedNumerals(c, d);
    SplitAtDash(p.0, p.1, q.0, q.1);
    if LexLess(Decimal(b), Decimal(a)) {
      if LexLess(Decimal(d), Decimal(c)) {
        DecimalInjective(b, d); DecimalInjective(a, c);
      } else {
        DecimalInjective(b, c); DecimalInjective(a, d);
      }
    } else {
      if LexLess(Decimal(d), Decimal(c)) {
        DecimalInjective(a, d); DecimalInjective(b, c);
      } else {
        DecimalInjective(a, c); DecimalInjective(b, d);
      }
    }
  }

  /** The key identifies exactly the unordered pair: equal keys iff the same pair. */
  lemma KeyIdentifiesPair(a: nat, b: nat, c: nat, d: nat)
    ensures Key(a, b) == Key(c, d) <==> SamePair(a, b, c, d)
  {
    if Key(a, b) == Key(c, d) {
      KeyInjective(a, b, c, d);
    } else if a == d && b == c {
      KeySymmetric(a, b);
    }
  }

  /** The order inside a key is the string order, which is not the numeric order. */
  lemma KeyOrderIsNotNumeric()
    ensures Key(9, 10) == "10-9" && Key(10, 9) == "10-9"
    ensures Key(2, 3) == "2-3"
  {
    assert Decimal(10) == "10";
    assert LexLess("10", "9");
  }
}
