/** Sorting by a comparator that need only be a total order on the elements at hand. */
module Sorting {
  import opened Sequences

  ghost predicate TotalOn<T(!new)>(le: (T, T) -> bool, s: set<T>) {
    && (forall a, b :: a in s && b in s ==> le(a, b) || le(b, a))
    && (forall a, b, c :: a in s && b in s && c in s && le(a, b) && le(b, c) ==> le(a, c))
  }

  /** No two different elements compare equal. */
  ghost predicate StrictOn<T(!new)>(le: (T, T) -> bool, s: set<T>) {
    forall a, b :: a in s && b in s && le(a, b) && le(b, a) ==> a == b
  }

  ghost predicate SortedBy<T(!new)>(le: (T, T) -> bool, s: seq<T>) {
    forall i, j :: 0 <= i < j < |s| ==> le(s[i], s[j])
  }

  function InsertBy<T>(le: (T, T) -> bool, x: T, s: seq<T>): seq<T> {
    if s == [] then [x]
    else if le(x, s[0]) then [x] + s
    else [s[0]] + InsertBy(le, x, s[1..])
  }

  function SortBy<T>(le: (T, T) -> bool, s: seq<T>): seq<T> {
    if s == [] then [] else InsertBy(le, s[0], SortBy(le, s[1..]))
  }

  lemma {:induction false} InsertPermutes<T(!new)>(le: (T, T) -> bool, x: T, s: seq<T>)
    ensures multiset(InsertBy(le, x, s)) == multiset(s) + multiset{x}
  {
    if s != [] {
      InsertPermutes(le, x, s[1..]);
      assert s == [s[0]] + s[1..];
    }
  }

  lemma {:induction false} SortPermutes<T(!new)>(le: (T, T) -> bool, s: seq<T>)
    ensures multiset(SortBy(le, s)) == multiset(s)
  {
    if s != [] {
      SortPermutes(le, s[1..]);
      InsertPermutes(le, s[0], SortBy(le, s[1..]));
      assert s == [s[0]] + s[1..];
    }
  }

  lemma InBoth<T>(a: seq<T>, b: seq<T>, x: T)
    requires multiset(a) == multiset(b)
    ensures x in a <==> x in b
  {
    assert x in multiset(a) <==> x in multiset(b);
  }

  lemma {:induction false} InsertSorted<T(!new)>(le: (T, T) -> bool, x: T, s: seq<T>, all: set<T>)
    requires TotalOn(le, all) && x in all && Elements(s) <= all && SortedBy(le, s)
    ensures SortedBy(le, InsertBy(le, x, s))
  {
    if s != [] {
      assert s[0] in Elements(s);
      if le(x, s[0]) {
        forall j | 0 <= j < |s| ensures le(x, s[j]) {
          assert s[j] in Elements(s);
          assert s[0] in all && s[j] in all;
        }
      } else {
        var rest := InsertBy(le, x, s[1..]);
        assert Elements(s[1..]) <= Elements(s);
        InsertSorted(le, x, s[1..], all);
        InsertPermutes(le, x, s[1..]);
        forall y | y in rest ensures le(s[0], y) {
          assert y in multiset(rest);
          assert y == x || y in s[1..];
        }
      }
    }
  }

  lemma {:induction false} SortSorted<T(!new)>(le: (T, T) -> bool, s: seq<T>, all: set<T>)
    requires TotalOn(le, all) && Elements(s) <= all
    ensures SortedBy(le, SortBy(le, s))
  {
    if s != [] {
      var rest := SortBy(le, s[1..]);
      assert Elements(s[1..]) <= Elements(s) && s[0] in Elements(s);
      SortSorted(le, s[1..], all);
      SortPermutes(le, s[1..]);
      forall x | x in Elements(rest) ensures x in all {
        InBoth(rest, s[1..], x);
      }
      InsertSorted(le, s[0], rest, all);
    }
  }

  lemma HeadsAgree<T(!new)>(le: (T, T) -> bool, a: seq<T>, b: seq<T>, all: set<T>)
    requires StrictOn(le, all) && Elements(a) <= all && multiset(a) == multiset(b)
    requires SortedBy(le, a) && SortedBy(le, b) && a != [] && b != []
    ensures a[0] == b[0]
  {
    InBoth(a, b, a[0]);
    InBoth(a, b, b[0]);
    assert a[0] in Elements(a) && b[0] in Elements(a);
    var i :| 0 <= i < |a| && a[i] == b[0];
    var j :| 0 <= j < |b| && b[j] == a[0];
    assert i > 0 ==> le(a[0], a[i]);
    assert j > 0 ==> le(b[0], b[j]);
  }

  lemma TailsAgree<T(!new)>(a: seq<T>, b: seq<T>)
    requires multiset(a) == multiset(b) && a != [] && b != [] && a[0] == b[0]
    ensures multiset(a[1..]) == multiset(b[1..]) && Elements(a[1..]) <= Elements(a)
  {
    assert a == [a[0]] + a[1..] && b == [b[0]] + b[1..];
    assert multiset(a[1..]) == multiset(a) - multiset{a[0]} == multiset(b[1..]);
  }

  /** Under a strict total order there is one sorted arrangement. */
  lemma {:induction false} SortedIsUnique<T(!new)>(le: (T, T) -> bool, a: seq<T>, b: seq<T>, all: set<T>)
    requires StrictOn(le, all) && Elements(a) <= all && multiset(a) == multiset(b)
    requires SortedBy(le, a) && SortedBy(le, b)
    ensures a == b
  {
    hide StrictOn, Elements;
    assert |a| == |multiset(a)| == |multiset(b)| == |b|;
    if a != [] {
      HeadsAgree(le, a, b, all);
      TailsAgree(a, b);
      SortedIsUnique(le, a[1..], b[1..], all);
      assert a == [a[0]] + a[1..] && b == [b[0]] + b[1..];
    }
  }
}
