/** Decimal formatting of counters and the ordering of B-tree keys. */
module Decimal {

  /** The decimal digits of `n`, most significant first and without padding. */
  function Digits(n: nat): (d: seq<nat>)
    ensures |d| > 0
    ensures forall i :: 0 <= i < |d| ==> d[i] < 10
  {
    if n < 10 then [n] else Digits(n / 10) + [n % 10]
  }

  function Value(d: seq<nat>): nat {
    if d == [] then 0 else 10 * Value(d[..|d| - 1]) + d[|d| - 1]
  }

  lemma {:induction false} DigitsRoundTrip(n: nat)
    ensures Value(Digits(n)) == n
  {
    if n >= 10 {
      DigitsRoundTrip(n / 10);
      assert Digits(n)[..|Digits(n)| - 1] == Digits(n / 10);
    }
  }

  /** A number below `10^w` prints in at most `w` digits. */
  lemma {:induction false} DigitsWidth(n: nat, w: nat)
    requires w > 0 && n < Power10(w)
    ensures |Digits(n)| <= w
  {
    if n >= 10 {
      DigitsWidth(n / 10, w - 1);
    }
  }

  function Power10(w: nat): (p: nat) {
    if w == 0 then 1 else 10 * Power10(w - 1)
  }

  predicate IsDigit(c: char) {
    '0' <= c <= '9'
  }

  function DigitChar(d: nat): (c: char)
    requires d < 10
    ensures IsDigit(c)
    ensures c as int == '0' as int + d
  {
    (d + '0' as int) as char
  }

  /** The text a Rust `{}` placeholder produces for an unsigned counter. */
  function Text(n: nat): (t: string)
    ensures |t| > 0
    ensures forall i :: 0 <= i < |t| ==> IsDigit(t[i])
  {
    var d := Digits(n);
    seq(|d|, i requires 0 <= i < |d| => DigitChar(d[i]))
  }

  lemma TextInjective(a: nat, b: nat)
    requires Text(a) == Text(b)
    ensures a == b
  {
    var x, y := Digits(a), Digits(b);
    assert |x| == |Text(a)| == |Text(b)| == |y|;
    forall i | 0 <= i < |x|
      ensures x[i] == y[i]
    {
      assert Text(a)[i] == DigitChar(x[i]) && Text(b)[i] == DigitChar(y[i]);
    }
    assert x == y;
    DigitsRoundTrip(a);
    DigitsRoundTrip(b);
  }

  /** A number followed by a separator can be read back: the text determines both parts. */
  lemma SeparatedInjective(a: nat, x: string, b: nat, y: string)
    requires Text(a) + "_" + x == Text(b) + "_" + y
    ensures a == b && x == y
  {
    var left, right := Text(a) + "_" + x, Text(b) + "_" + y;
    var m, n := |Text(a)|, |Text(b)|;
    assert left[m] == '_' && right[n] == '_';
    assert !IsDigit(left[m]) && !IsDigit(right[n]);
    assert m == n;
    assert left[..m] == Text(a) && right[..m] == Text(b);
    TextInjective(a, b);
    assert left[m + 1..] == x && right[m + 1..] == y;
  }
}

/** Rust's `BTreeMap` visits string keys in lexicographic order. */
module KeyOrder {

  predicate Precedes(a: string, b: string) {
    b != "" && (a == "" || a[0] < b[0] || (a[0] == b[0] && Precedes(a[1..], b[1..])))
  }

  lemma {:induction false} Total(a: string, b: string)
    ensures a == b || Precedes(a, b) || Precedes(b, a)
  {
    if a != "" && b != "" && a[0] == b[0] {
      Total(a[1..], b[1..]);
      if a[1..] == b[1..] {
        assert a == [a[0]] + a[1..] && b == [b[0]] + b[1..];
      }
    }
  }

  lemma {:induction false} Asymmetric(a: string, b: string)
    requires Precedes(a, b)
    ensures !Precedes(b, a) && a != b
  {
    if a != "" && a[0] == b[0] {
      Asymmetric(a[1..], b[1..]);
    }
  }

  lemma {:induction false} Transitive(a: string, b: string, c: string)
    requires Precedes(a, b) && Precedes(b, c)
    ensures Precedes(a, c)
  {
    if a != "" && a[0] == b[0] == c[0] {
      Transitive(a[1..], b[1..], c[1..]);
    }
  }

  predicate IsLeast(k: string, keys: set<string>) {
    k in keys && forall x | x in keys :: x != k ==> Precedes(k, x)
  }

  lemma {:induction false} LeastExists(keys: set<string>)
    requires keys != {}
    ensures exists k :: IsLeast(k, keys)
    decreases |keys|
  {
    var x :| x in keys;
    var rest := keys - {x};
    if rest == {} {
      assert keys == {x};
      assert IsLeast(x, keys);
    } else {
      LeastExists(rest);
      var m :| IsLeast(m, rest);
      Total(m, x);
      if Precedes(m, x) {
        assert IsLeast(m, keys);
      } else {
        forall y | y in keys && y != x
          ensures Precedes(x, y)
        {
          if y != m { Transitive(x, m, y); }
        }
        assert IsLeast(x, keys);
      }
    }
  }

  /** The key a B-tree iterator yields first. */
  function Least(keys: set<string>): (k: string)
    requires keys != {}
    ensures IsLeast(k, keys)
  {
    LeastExists(keys);
    assert forall a, b | IsLeast(a, keys) && IsLeast(b, keys) :: a == b by {
      forall a, b | IsLeast(a, keys) && IsLeast(b, keys)
        ensures a == b
      {
        if a != b { Asymmetric(a, b); }
      }
    }
    var k :| k in keys && IsLeast(k, keys);
    k
  }
}
