/** Ranked results: the order every ranked path of the system sorts by, and the bounded
    heap that selects the best `k` without sorting everything. */
module Ranking {
  import opened Sequences

  /** A candidate under a sort key.  A score ranked highest first enters as its negation. */
  datatype Ranked<T> = Ranked(key: real, id: nat, item: T)

  /** `a` ranks no later than `b`: key ascending, then id ascending. */
  predicate Le<T>(a: Ranked<T>, b: Ranked<T>) {
    a.key < b.key || (a.key == b.key && a.id <= b.id)
  }

  predicate Lt<T>(a: Ranked<T>, b: Ranked<T>) {
    a.key < b.key || (a.key == b.key && a.id < b.id)
  }

  ghost predicate Sorted<T>(s: seq<Ranked<T>>) {
    forall i, j :: 0 <= i < j < |s| ==> Le(s[i], s[j])
  }

  ghost predicate DistinctIds<T>(s: seq<Ranked<T>>) {
    forall i, j :: 0 <= i < j < |s| ==> s[i].id != s[j].id
  }

  function Insert<T>(x: Ranked<T>, s: seq<Ranked<T>>): (r: seq<Ranked<T>>)
    requires Sorted(s)
    ensures Sorted(r) && multiset(r) == multiset(s) + multiset{x}
  {
    if s == [] then [x]
    else if Le(x, s[0]) then [x] + s
    else
      var rest := Insert(x, s[1..]);
      InsertStep(x, s, rest);
      [s[0]] + rest
  }

  lemma InsertStep<T>(x: Ranked<T>, s: seq<Ranked<T>>, rest: seq<Ranked<T>>)
    requires s != [] && Sorted(s) && !Le(x, s[0])
    requires Sorted(rest) && multiset(rest) == multiset(s[1..]) + multiset{x}
    ensures Sorted([s[0]] + rest)
    ensures multiset([s[0]] + rest) == multiset(s) + multiset{x}
  {
    assert s == [s[0]] + s[1..];
    forall y | y in rest ensures Le(s[0], y) {
      assert y in multiset(rest);
      assert y == x || y in s[1..];
    }
  }

  /** The sort every ranked list goes through. */
  function Sort<T>(s: seq<Ranked<T>>): (r: seq<Ranked<T>>)
    ensures Sorted(r) && multiset(r) == multiset(s)
  {
    if s == [] then []
    else
      assert s == [s[0]] + s[1..];
      Insert(s[0], Sort(s[1..]))
  }

  lemma SameLength<T>(a: seq<T>, b: seq<T>)
    requires multiset(a) == multiset(b)
    ensures |a| == |b|
  {
    assert |multiset(a)| == |multiset(b)|;
  }

  lemma InOther<T>(a: seq<T>, b: seq<T>, x: T)
    requires multiset(a) == multiset(b) && x in a
    ensures x in b
  {
    assert x in multiset(a);
  }

  lemma DistinctPermutes<T>(a: seq<Ranked<T>>, b: seq<Ranked<T>>)
    requires DistinctIds(a) && multiset(a) == multiset(b)
    ensures DistinctIds(b)
  {
    DistinctPermuted((x: Ranked<T>) => x.id, a, b);
  }

  /** Distinct ids leave one way to sort. */
  lemma SortedUnique<T>(a: seq<Ranked<T>>, b: seq<Ranked<T>>)
    requires Sorted(a) && Sorted(b) && multiset(a) == multiset(b) && DistinctIds(a)
    ensures a == b
  {
    DistinctPermutes(a, b);
    forall x ensures x in Elements(a) <==> x in Elements(b) {
      assert x in multiset(a) <==> x in multiset(b);
    }
    ListedOnce(Lt, a, b);
  }

  /** Any sorted selection that leaves out only later candidates is the head of the full sort. */
  lemma SelectionIsTop<T>(all: seq<Ranked<T>>, kept: seq<Ranked<T>>, dropped: seq<Ranked<T>>)
    requires DistinctIds(all) && multiset(all) == multiset(kept) + multiset(dropped)
    requires forall x, y :: x in kept && y in dropped ==> Le(x, y)
    ensures Sort(kept) == Take(Sort(all), |kept|)
  {
    hide Sort, Le;
    var a, b := Sort(kept), Sort(dropped);
    SameLength(a, kept);
    ConcatSorted(a, b) by {
      forall x, y | x in a && y in b ensures Le(x, y) {
        InOther(a, kept, x);
        InOther(b, dropped, y);
      }
    }
    assert multiset(a + b) == multiset(all);
    DistinctPermutes(all, a + b);
    SortedUnique(a + b, Sort(all));
    SameLength(a + b, Sort(all));
  }

  lemma ConcatSorted<T>(a: seq<Ranked<T>>, b: seq<Ranked<T>>)
    requires Sorted(a) && Sorted(b)
    requires forall x, y :: x in a && y in b ==> Le(x, y)
    ensures Sorted(a + b)
  {
    hide Le;
  }

  /** The bounded heap holds the best of what was seen: `heap` and `dropped` split `seen`. */
  ghost predicate Bounded<T>(seen: seq<Ranked<T>>, heap: seq<Ranked<T>>, dropped: seq<Ranked<T>>, k: nat) {
    && multiset(seen) == multiset(heap) + multiset(dropped)
    && |heap| <= k
    && (dropped != [] ==> |heap| == k)
    && (forall x, y :: x in heap && y in dropped ==> Le(x, y))
  }

  /** The position of the worst candidate: the root of the heap. */
  function Worst<T>(heap: seq<Ranked<T>>): (w: nat)
    requires heap != []
    ensures w < |heap| && forall x :: x in heap ==> Le(x, heap[w])
  {
    if |heap| == 1 then 0
    else
      var w := Worst(heap[1..]);
      assert heap == [heap[0]] + heap[1..];
      if Le(heap[w + 1], heap[0]) then 0 else w + 1
  }

  lemma EmptyBounded<T>(k: nat)
    ensures Bounded<T>([], [], [], k)
  {
  }

  lemma FullHeap<T>(seen: seq<Ranked<T>>, heap: seq<Ranked<T>>, dropped: seq<Ranked<T>>, k: nat)
    requires Bounded(seen, heap, dropped, k) && !(|heap| < k)
    ensures |heap| == k
  {
  }

  lemma PushBounded<T>(seen: seq<Ranked<T>>, heap: seq<Ranked<T>>, dropped: seq<Ranked<T>>, k: nat, x: Ranked<T>)
    requires Bounded(seen, heap, dropped, k) && |heap| < k
    ensures Bounded(seen + [x], heap + [x], dropped, k)
  {
    hide Le;
  }

  lemma EvictBounded<T>(seen: seq<Ranked<T>>, heap: seq<Ranked<T>>, dropped: seq<Ranked<T>>, k: nat, x: Ranked<T>)
    requires Bounded(seen, heap, dropped, k) && heap != [] && |heap| == k
    requires Lt(x, heap[Worst(heap)])
    ensures Bounded(seen + [x], heap[Worst(heap) := x], dropped + [heap[Worst(heap)]], k)
  {
    hide Worst, Le, Lt;
    var w := Worst(heap);
    var heap' := heap[w := x];
    ReplaceOne(heap, w, x);
    EvictedIsLast(heap, x);
    forall a, b | a in heap' && b in dropped + [heap[w]] ensures Le(a, b) {
      assert a == x || a in heap;
      if b != heap[w] {
        assert Le(heap[w], b);
        LeTransitive(a, heap[w], b);
      }
    }
  }

  lemma LeTransitive<T>(a: Ranked<T>, b: Ranked<T>, c: Ranked<T>)
    requires Le(a, b) && Le(b, c)
    ensures Le(a, c)
  {
  }

  lemma EvictedIsLast<T>(heap: seq<Ranked<T>>, x: Ranked<T>)
    requires heap != [] && Lt(x, heap[Worst(heap)])
    ensures Worst(heap) < |heap| && Le(x, heap[Worst(heap)]) && forall a :: a in heap ==> Le(a, heap[Worst(heap)])
  {
  }

  lemma ReplaceOne<T>(s: seq<T>, w: nat, x: T)
    requires w < |s|
    ensures multiset(s[w := x]) == multiset(s) - multiset{s[w]} + multiset{x}
    ensures forall a :: a in s[w := x] ==> a == x || a in s
  {
  }

  lemma SkipBounded<T>(seen: seq<Ranked<T>>, heap: seq<Ranked<T>>, dropped: seq<Ranked<T>>, k: nat, x: Ranked<T>)
    requires Bounded(seen, heap, dropped, k) && heap != [] && |heap| == k
    requires !Lt(x, heap[Worst(heap)])
    ensures Bounded(seen + [x], heap, dropped + [x], k)
  {
    forall a, b | a in heap && b in dropped + [x] ensures Le(a, b) {
      if b == x {
        assert Le(a, heap[Worst(heap)]);
      }
    }
  }

  /** `ExactVectorIndex::nearest`: the bounded heap yields exactly the first `k` of a full
      sort, in whatever order the candidates are enumerated. */
  method BoundedTopK<T>(candidates: seq<Ranked<T>>, k: nat) returns (out: seq<Ranked<T>>)
    requires DistinctIds(candidates)
    ensures out == Take(Sort(candidates), k)
  {
    hide Sort, Bounded, Le, Lt;
    if k == 0 {
      return [];
    }
    var heap: seq<Ranked<T>> := [];
    ghost var dropped: seq<Ranked<T>> := [];
    var i := 0;
    EmptyBounded<T>(k);
    assert candidates[..0] == [];
    while i < |candidates|
      invariant 0 <= i <= |candidates|
      invariant Bounded(candidates[..i], heap, dropped, k)
    {
      var x := candidates[i];
      assert candidates[..i + 1] == candidates[..i] + [x];
      if |heap| < k {
        PushBounded(candidates[..i], heap, dropped, k, x);
        heap := heap + [x];
      } else {
        FullHeap(candidates[..i], heap, dropped, k);
        var w := Worst(heap);
        if Lt(x, heap[w]) {
          EvictBounded(candidates[..i], heap, dropped, k, x);
          dropped := dropped + [heap[w]];
          heap := heap[w := x];
        } else {
          SkipBounded(candidates[..i], heap, dropped, k, x);
          dropped := dropped + [x];
        }
      }
      i := i + 1;
    }
    assert candidates[..i] == candidates;
    BoundedIsTop(candidates, heap, dropped, k);
    out := Sort(heap);
  }

  lemma BoundedIsTop<T>(all: seq<Ranked<T>>, heap: seq<Ranked<T>>, dropped: seq<Ranked<T>>, k: nat)
    requires DistinctIds(all) && Bounded(all, heap, dropped, k)
    ensures Sort(heap) == Take(Sort(all), k)
  {
    hide Sort, Le;
    SelectionIsTop(all, heap, dropped);
    SameLength(Sort(all), all);
    assert |multiset(all)| == |heap| + |dropped|;
  }

  /** The result does not depend on the order in which a hash map enumerates its entries. */
  lemma OrderIndependent<T>(a: seq<Ranked<T>>, b: seq<Ranked<T>>)
    requires DistinctIds(a) && multiset(a) == multiset(b)
    ensures Sort(a) == Sort(b)
  {
    DistinctPermutes(a, Sort(a));
    SortedUnique(Sort(a), Sort(b));
  }

  // ---- mapping over a permutation ----

  ghost function Without<T>(s: seq<T>, k: nat): (r: seq<T>)
    requires k < |s|
    ensures |r| == |s| - 1
  {
    s[..k] + s[k + 1..]
  }

  lemma WithoutOne<T>(s: seq<T>, k: nat)
    requires k < |s|
    ensures multiset(Without(s, k)) == multiset(s) - multiset{s[k]}
  {
    assert s == s[..k] + [s[k]] + s[k + 1..];
  }

  lemma MapWithout<T, U>(f: T -> U, s: seq<T>, k: nat)
    requires k < |s|
    ensures multiset(MapSeq(f, s)) == multiset(MapSeq(f, Without(s, k))) + multiset{f(s[k])}
  {
    var t := MapSeq(f, s);
    assert t == t[..k] + [t[k]] + t[k + 1..];
    assert MapSeq(f, Without(s, k)) == t[..k] + t[k + 1..];
  }

  /** Mapping permuted sequences gives permuted sequences. */
  lemma {:induction false} PermutedMap<T, U>(f: T -> U, a: seq<T>, b: seq<T>)
    requires multiset(a) == multiset(b)
    ensures multiset(MapSeq(f, a)) == multiset(MapSeq(f, b))
    decreases |a|
  {
    hide Without, MapSeq;
    SameLength(a, b);
    if a != [] {
      InOther(a, b, a[0]);
      var k :| 0 <= k < |b| && b[k] == a[0];
      WithoutOne(a, 0);
      WithoutOne(b, k);
      PermutedMap(f, Without(a, 0), Without(b, k));
      MapWithout(f, b, k);
      MapWithout(f, a, 0);
    }
  }

  /** The items behind a ranking. */
  function Items<T>(s: seq<Ranked<T>>): (r: seq<T>)
    ensures |r| == |s| && forall i :: 0 <= i < |s| ==> r[i] == s[i].item
  {
    MapSeq((x: Ranked<T>) => x.item, s)
  }

  lemma PermutedItems<T>(a: seq<Ranked<T>>, b: seq<Ranked<T>>)
    requires multiset(a) == multiset(b)
    ensures multiset(Items(a)) == multiset(Items(b))
  {
    PermutedMap((x: Ranked<T>) => x.item, a, b);
  }
}
