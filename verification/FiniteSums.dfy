/** Sums of a weight over a finite set, as the quotas and byte totals need them. */
module FiniteSums {

  ghost function Sum<T>(s: set<T>, weight: T -> nat): nat {
    if s == {} then 0
    else
      var x :| x in s;
      weight(x) + Sum(s - {x}, weight)
  }

  /** Any element may be taken out first. */
  lemma {:induction false} SumTake<T>(s: set<T>, weight: T -> nat, x: T)
    requires x in s
    ensures Sum(s, weight) == weight(x) + Sum(s - {x}, weight)
    decreases |s|
  {
    var y :| y in s && Sum(s, weight) == weight(y) + Sum(s - {y}, weight);
    if y != x {
      SumTake(s - {y}, weight, x);
      SumTake(s - {x}, weight, y);
      assert s - {y} - {x} == s - {x} - {y};
    }
  }

  lemma SumAdd<T>(s: set<T>, weight: T -> nat, x: T)
    requires x !in s
    ensures Sum(s + {x}, weight) == Sum(s, weight) + weight(x)
  {
    SumTake(s + {x}, weight, x);
    assert s + {x} - {x} == s;
  }

  lemma {:induction false} SumSame<T>(s: set<T>, a: T -> nat, b: T -> nat)
    requires forall x :: x in s ==> a(x) == b(x)
    ensures Sum(s, a) == Sum(s, b)
    decreases |s|
  {
    if s != {} {
      var x :| x in s;
      SumTake(s, a, x);
      SumTake(s, b, x);
      SumSame(s - {x}, a, b);
    }
  }

  lemma {:induction false} SumSubset<T>(small: set<T>, s: set<T>, weight: T -> nat)
    requires small <= s
    ensures Sum(small, weight) <= Sum(s, weight)
    decreases |s|
  {
    if s != {} {
      var x :| x in s;
      SumTake(s, weight, x);
      if x in small {
        SumTake(small, weight, x);
        SumSubset(small - {x}, s - {x}, weight);
      } else {
        SumSubset(small, s - {x}, weight);
      }
    }
  }
}
