/** Sums of an integer-valued function over a finite set. */
module FiniteSums {

  ghost function Sum<T>(s: set<T>, f: T -> int): int {
    if s == {} then 0 else
      var x :| x in s;
      f(x) + Sum(s - {x}, f)
  }

  lemma {:induction false} SumPick<T>(s: set<T>, f: T -> int, x: T)
    requires x in s
    ensures Sum(s, f) == f(x) + Sum(s - {x}, f)
  {
    var y :| y in s && Sum(s, f) == f(y) + Sum(s - {y}, f);
    if y != x {
      SumPick(s - {y}, f, x);
      SumPick(s - {x}, f, y);
      assert s - {y} - {x} == s - {x} - {y};
    }
  }

  lemma {:induction false} SumAgrees<T>(s: set<T>, f: T -> int, g: T -> int)
    requires forall x | x in s :: f(x) == g(x)
    ensures Sum(s, f) == Sum(s, g)
  {
    if s != {} {
      var x :| x in s;
      SumPick(s, f, x);
      SumPick(s, g, x);
      SumAgrees(s - {x}, f, g);
    }
  }

  lemma {:induction false} SumAtMost<T>(s: set<T>, f: T -> int, g: T -> int)
    requires forall x | x in s :: f(x) <= g(x)
    ensures Sum(s, f) <= Sum(s, g)
  {
    if s != {} {
      var x :| x in s;
      SumPick(s, f, x);
      SumPick(s, g, x);
      SumAtMost(s - {x}, f, g);
    }
  }

  lemma {:induction false} SumPlus<T>(s: set<T>, f: T -> int, g: T -> int, h: T -> int)
    requires forall x | x in s :: h(x) == f(x) + g(x)
    ensures Sum(s, h) == Sum(s, f) + Sum(s, g)
  {
    if s != {} {
      var x :| x in s;
      SumPick(s, f, x);
      SumPick(s, g, x);
      SumPick(s, h, x);
      SumPlus(s - {x}, f, g, h);
    }
  }

  lemma {:induction false} SumTimes<T>(s: set<T>, c: int, f: T -> int, g: T -> int)
    requires forall x | x in s :: g(x) == c * f(x)
    ensures Sum(s, g) == c * Sum(s, f)
  {
    if s != {} {
      var x :| x in s;
      SumPick(s, f, x);
      SumPick(s, g, x);
      SumTimes(s - {x}, c, f, g);
      assert c * Sum(s, f) == c * f(x) + c * Sum(s - {x}, f);
    }
  }

  lemma {:induction false} SumZero<T>(s: set<T>, f: T -> int)
    requires forall x | x in s :: f(x) == 0
    ensures Sum(s, f) == 0
  {
    if s != {} {
      var x :| x in s;
      SumPick(s, f, x);
      SumZero(s - {x}, f);
    }
  }

  /** A non-negative function sums to at least each of its values. */
  lemma SumDominates<T>(s: set<T>, f: T -> int, x: T)
    requires x in s && forall y | y in s :: f(y) >= 0
    ensures 0 <= f(x) <= Sum(s, f)
  {
    SumPick(s, f, x);
    SumNonNegative(s - {x}, f);
  }

  lemma {:induction false} SumNonNegative<T>(s: set<T>, f: T -> int)
    requires forall y | y in s :: f(y) >= 0
    ensures Sum(s, f) >= 0
  {
    if s != {} {
      var x :| x in s;
      SumPick(s, f, x);
      SumNonNegative(s - {x}, f);
    }
  }

  /** Changing the function at one point, which may be new to the domain, changes the sum by the
      difference there. */
  lemma SumUpdate<T>(s: set<T>, x: T, f: T -> int, g: T -> int)
    requires forall y | y in s && y != x :: f(y) == g(y)
    requires x !in s ==> f(x) == 0
    ensures Sum(s + {x}, g) == Sum(s, f) - f(x) + g(x)
  {
    var rest := s - {x};
    SumPick(s + {x}, g, x);
    assert s + {x} - {x} == rest;
    SumAgrees(rest, f, g);
    if x in s {
      SumPick(s, f, x);
    } else {
      assert rest == s;
    }
  }
}
