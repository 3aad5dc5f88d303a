/** Sums over finite sets of rows. */
module Sums {

  ghost function Pick<T>(s: set<T>): (x: T)
    requires s != {}
    ensures x in s
  {
    var x :| x in s; x
  }

  ghost function SumOver<T>(s: set<T>, f: T -> int): int {
    if s == {} then 0
    else var x := Pick(s); f(x) + SumOver(s - {x}, f)
  }

  lemma {:induction false} SumSplits<T>(s: set<T>, f: T -> int, g: T -> int, h: T -> int)
    requires forall x :: x in s ==> f(x) == g(x) + h(x)
    ensures SumOver(s, f) == SumOver(s, g) + SumOver(s, h)
  {
    if s != {} {
      SumSplits(s - {Pick(s)}, f, g, h);
    }
  }

  lemma {:induction false} SumOfZeros<T>(s: set<T>, f: T -> int)
    requires forall x :: x in s ==> f(x) == 0
    ensures SumOver(s, f) == 0
  {
    if s != {} {
      SumOfZeros(s - {Pick(s)}, f);
    }
  }

  lemma {:induction false} SumOfOne<T>(s: set<T>, x: T, f: T -> int)
    requires x in s && forall y :: y in s && y != x ==> f(y) == 0
    ensures SumOver(s, f) == f(x)
  {
    var first := Pick(s);
    if first == x {
      SumOfZeros(s - {x}, f);
    } else {
      SumOfOne(s - {first}, x, f);
    }
  }

  lemma {:induction false} SumSame<T>(s: set<T>, f: T -> int, g: T -> int)
    requires forall x :: x in s ==> f(x) == g(x)
    ensures SumOver(s, f) == SumOver(s, g)
  {
    if s != {} {
      SumSame(s - {Pick(s)}, f, g);
    }
  }

  lemma {:induction false} SumNotNegative<T>(s: set<T>, f: T -> int)
    requires forall x :: x in s ==> 0 <= f(x)
    ensures 0 <= SumOver(s, f)
  {
    if s != {} {
      SumNotNegative(s - {Pick(s)}, f);
    }
  }

  lemma {:induction false} SumSplitsOff<T>(s: set<T>, x: T, f: T -> int)
    requires x in s
    ensures SumOver(s, f) == f(x) + SumOver(s - {x}, f)
    decreases |s|
  {
    var first := Pick(s);
    if first != x {
      SumSplitsOff(s - {first}, x, f);
      SumSplitsOff(s - {x}, first, f);
      assert s - {first} - {x} == s - {x} - {first};
    }
  }

  lemma {:induction false} SumOfUnion<T>(a: set<T>, b: set<T>, f: T -> int)
    requires a !! b
    ensures SumOver(a + b, f) == SumOver(a, f) + SumOver(b, f)
  {
    if a == {} {
      assert a + b == b;
    } else {
      var x := Pick(a);
      SumSplitsOff(a + b, x, f);
      SumOfUnion(a - {x}, b, f);
      assert a + b - {x} == (a - {x}) + b;
    }
  }
}
