/** Sums over finite sets, and occurrence counts in token streams. */
module Sums {

  /** The sum of `f` over `s`, independent of the order of summation. */
  ghost function Sum<T(!new)>(s: set<T>, f: T -> nat): nat
    decreases |s|
  {
    if s == {} then 0
    else
      var x :| x in s;
      f(x) + Sum(s - {x}, f)
  }

  lemma {:induction false} SumTake<T(!new)>(s: set<T>, f: T -> nat, x: T)
    requires x in s
    ensures Sum(s, f) == f(x) + Sum(s - {x}, f)
    decreases |s|
  {
    var y :| y in s && Sum(s, f) == f(y) + Sum(s - {y}, f);
    if y != x {
      SumTake(s - {y}, f, x);
      SumTake(s - {x}, f, y);
      assert s - {y} - {x} == s - {x} - {y};
    }
  }

  lemma SumAdd<T(!new)>(s: set<T>, f: T -> nat, x: T)
    requires x !in s
    ensures Sum(s + {x}, f) == f(x) + Sum(s, f)
  {
    SumTake(s + {x}, f, x);
    assert s + {x} - {x} == s;
  }

  lemma {:induction false} SumSame<T(!new)>(s: set<T>, f: T -> nat, g: T -> nat)
    requires forall x :: x in s ==> f(x) == g(x)
    ensures Sum(s, f) == Sum(s, g)
    decreases |s|
  {
    if s != {} {
      var x :| x in s;
      SumTake(s, f, x);
      SumTake(s, g, x);
      SumSame(s - {x}, f, g);
    }
  }

  lemma {:induction false} SumZero<T(!new)>(s: set<T>, f: T -> nat)
    requires forall x :: x in s ==> f(x) == 0
    ensures Sum(s, f) == 0
    decreases |s|
  {
    if s != {} {
      var x :| x in s;
      SumTake(s, f, x);
      SumZero(s - {x}, f);
    }
  }

  /** Terms on which `f` vanishes contribute nothing. */
  lemma {:induction false} SumWiden<T(!new)>(s: set<T>, t: set<T>, f: T -> nat)
    requires s <= t && forall x :: x in t && x !in s ==> f(x) == 0
    ensures Sum(s, f) == Sum(t, f)
    decreases |t - s|
  {
    if s != t {
      var x :| x in t && x !in s;
      SumAdd(s, f, x);
      assert t - (s + {x}) == t - s - {x};
      SumWiden(s + {x}, t, f);
    }
  }

  /** Raising `f` at one point raises the sum by as much. */
  lemma SumBump<T(!new)>(s: set<T>, f: T -> nat, g: T -> nat, x: T, d: nat)
    requires x in s && g(x) == f(x) + d && forall y :: y in s && y != x ==> g(y) == f(y)
    ensures Sum(s, g) == Sum(s, f) + d
  {
    SumTake(s, f, x);
    SumTake(s, g, x);
    SumSame(s - {x}, f, g);
  }

  /** How often `x` occurs in `s`. */
  function Count<T(==)>(s: seq<T>, x: T): nat {
    if s == [] then 0 else (if s[0] == x then 1 else 0) + Count(s[1..], x)
  }

  lemma {:induction false} CountConcat<T>(a: seq<T>, b: seq<T>, x: T)
    ensures Count(a + b, x) == Count(a, x) + Count(b, x)
  {
    if a == [] {
      assert a + b == b;
    } else {
      CountConcat(a[1..], b, x);
      assert (a + b)[1..] == a[1..] + b;
    }
  }

  lemma {:induction false} CountIn<T>(s: seq<T>, x: T)
    ensures Count(s, x) > 0 <==> x in s
  {
    if s != [] {
      CountIn(s[1..], x);
      assert s == [s[0]] + s[1..];
    }
  }

  /** The counts of a stream's tokens add up to its length. */
  lemma {:induction false} CountsSum<T(!new)>(s: seq<T>, tokens: set<T>)
    requires forall x :: x in s ==> x in tokens
    ensures Sum(tokens, (x: T) => Count(s, x)) == |s|
  {
    if s == [] {
      SumZero(tokens, (x: T) => Count(s, x));
    } else {
      CountsSum(s[1..], tokens);
      SumBump(tokens, (x: T) => Count(s[1..], x), (x: T) => Count(s, x), s[0], 1);
    }
  }
}
