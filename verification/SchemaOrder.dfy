/** Dependency order of a dump's schemas (crates/auradb-cli/src/lib.rs): relationship targets
    come before the collections that refer to them, and cycles fall back to the original order. */
module SchemaOrder {
  import opened Sequences

  /** A collection and the targets of its relationships. */
  datatype Schema = Schema(name: string, targets: seq<string>)

  function NamesOf(schemas: seq<Schema>): set<string> {
    set i | 0 <= i < |schemas| :: schemas[i].name
  }

  /** Self-references and targets outside the dump cannot block. */
  predicate Ready(names: set<string>, placed: set<string>, s: Schema) {
    forall i :: 0 <= i < |s.targets| ==> s.targets[i] == s.name || s.targets[i] !in names || s.targets[i] in placed
  }

  /** Each of the first `n` schemas comes after its in-set targets. */
  ghost predicate Settled(names: set<string>, ordered: seq<Schema>, n: nat)
    requires n <= |ordered|
  {
    forall i :: 0 <= i < n ==> Ready(names, NamesOf(ordered[..i]), ordered[i])
  }

  /** `picked` are the elements of `from` at increasing indices. */
  ghost predicate PickedAt(from: seq<Schema>, picked: seq<Schema>, at: seq<nat>) {
    && |at| == |picked|
    && (forall i :: 0 <= i < |at| ==> at[i] < |from| && picked[i] == from[at[i]])
    && (forall i, j :: 0 <= i < j < |at| ==> at[i] < at[j])
  }

  lemma PickedEmpty()
    ensures PickedAt([], [], [])
  {
  }

  lemma PickedOne(from: seq<Schema>, picked: seq<Schema>, at: seq<nat>, s: Schema)
    requires PickedAt(from, picked, at)
    ensures PickedAt(from + [s], picked + [s], at + [|from|])
  {
  }

  lemma PickedNone(from: seq<Schema>, picked: seq<Schema>, at: seq<nat>, s: Schema)
    requires PickedAt(from, picked, at)
    ensures PickedAt(from + [s], picked, at)
  {
  }

  /** One pass over the remaining schemas. */
  method Pass(names: set<string>, remaining: seq<Schema>, placed: set<string>, ordered: seq<Schema>)
    returns (next: seq<Schema>, placed': set<string>, ordered': seq<Schema>, progress: bool, ghost at: seq<nat>)
    requires placed == NamesOf(ordered) && Settled(names, ordered, |ordered|)
    ensures placed' == NamesOf(ordered') && Settled(names, ordered', |ordered'|)
    ensures multiset(ordered') + multiset(next) == multiset(ordered) + multiset(remaining)
    ensures PickedAt(remaining, next, at)
    ensures if progress then |next| < |remaining|
            else next == remaining && ordered' == ordered && forall s :: s in remaining ==> !Ready(names, placed, s)
  {
    hide Ready, Settled, NamesOf, PickedAt;
    next, placed', ordered', progress, at := [], placed, ordered, false, [];
    var i := 0;
    assert PickedAt([], [], []) by { PickedEmpty(); }
    assert remaining[..0] == [];
    while i < |remaining|
      invariant 0 <= i <= |remaining|
      invariant placed' == NamesOf(ordered') && Settled(names, ordered', |ordered'|)
      invariant multiset(ordered') + multiset(next) == multiset(ordered) + multiset(remaining[..i])
      invariant PickedAt(remaining[..i], next, at)
      invariant |next| <= i
      invariant if progress then |next| < i
                else next == remaining[..i] && ordered' == ordered && placed' == placed
                     && forall s :: s in remaining[..i] ==> !Ready(names, placed, s)
    {
      var s := remaining[i];
      assert remaining[..i + 1] == remaining[..i] + [s];
      assert multiset(ordered) + multiset(remaining[..i + 1]) == (multiset(ordered) + multiset(remaining[..i])) + multiset{s};
      if Ready(names, placed', s) {
        PlacedOne(names, ordered', s);
        PickedNone(remaining[..i], next, at, s);
        MovedOne(multiset(ordered'), multiset(next), multiset(ordered) + multiset(remaining[..i]), s);
        placed' := placed' + {s.name};
        ordered' := ordered' + [s];
        progress := true;
      } else {
        MovedOne(multiset(next), multiset(ordered'), multiset(ordered) + multiset(remaining[..i]), s);
        PickedOne(remaining[..i], next, at, s);
        next := next + [s];
        at := at + [i];
      }
      i := i + 1;
    }
    assert remaining[..i] == remaining;
  }

  lemma MovedOne(a: multiset<Schema>, b: multiset<Schema>, all: multiset<Schema>, s: Schema)
    requires a + b == all
    ensures a + multiset{s} + b == all + multiset{s} && b + (a + multiset{s}) == all + multiset{s}
  {
  }

  lemma PlacedOne(names: set<string>, ordered: seq<Schema>, s: Schema)
    requires Settled(names, ordered, |ordered|) && Ready(names, NamesOf(ordered), s)
    ensures Settled(names, ordered + [s], |ordered| + 1) && NamesOf(ordered + [s]) == NamesOf(ordered) + {s.name}
  {
    hide Ready;
    var all := ordered + [s];
    forall i | 0 <= i < |all| ensures Ready(names, NamesOf(all[..i]), all[i]) {
      assert all[..i] == ordered[..i];
      assert i == |ordered| ==> ordered[..i] == ordered;
    }
    forall n | n in NamesOf(ordered) + {s.name} ensures n in NamesOf(all) {
      if n in NamesOf(ordered) {
        var i :| 0 <= i < |ordered| && ordered[i].name == n;
        assert all[i].name == n;
      } else {
        assert all[|ordered|].name == n;
      }
    }
  }

  // ---- cycles ----

  /** A schema of that name refers to `t`, another schema of the dump. */
  ghost predicate DependsOn(schemas: seq<Schema>, s: string, t: string) {
    t != s && t in NamesOf(schemas) && exists i :: 0 <= i < |schemas| && schemas[i].name == s && t in schemas[i].targets
  }

  ghost predicate Path(schemas: seq<Schema>, p: seq<string>) {
    forall i :: 0 <= i < |p| - 1 ==> DependsOn(schemas, p[i], p[i + 1])
  }

  ghost predicate HasCycle(schemas: seq<Schema>) {
    exists p :: IsCycle(schemas, p)
  }

  ghost predicate IsCycle(schemas: seq<Schema>, p: seq<string>) {
    |p| >= 2 && p[0] == p[|p| - 1] && Path(schemas, p)
  }

  /** Every name in the set depends on another name in it. */
  ghost predicate Stuck(schemas: seq<Schema>, names: set<string>) {
    forall s :: s in names ==> exists t :: t in names && DependsOn(schemas, s, t)
  }

  /** A walk of any length inside a stuck set. */
  lemma {:induction false} Walk(schemas: seq<Schema>, names: set<string>, start: string, n: nat) returns (p: seq<string>)
    requires Stuck(schemas, names) && start in names
    ensures |p| == n + 1 && Path(schemas, p) && forall i :: 0 <= i < |p| ==> p[i] in names
  {
    hide DependsOn, Path, Stuck;
    if n == 0 {
      p := [start];
      PathOne(schemas, start);
    } else {
      var q := Walk(schemas, names, start, n - 1);
      var t := StepOn(schemas, names, q[n - 1]);
      p := q + [t];
      PathOn(schemas, q, t);
    }
  }

  lemma PathOne(schemas: seq<Schema>, s: string)
    ensures Path(schemas, [s])
  {
  }

  lemma PathOn(schemas: seq<Schema>, p: seq<string>, t: string)
    requires Path(schemas, p) && p != [] && DependsOn(schemas, p[|p| - 1], t)
    ensures Path(schemas, p + [t])
  {
    hide DependsOn;
  }

  lemma StepOn(schemas: seq<Schema>, names: set<string>, s: string) returns (t: string)
    requires Stuck(schemas, names) && s in names
    ensures t in names && DependsOn(schemas, s, t)
  {
    hide DependsOn;
    t :| t in names && DependsOn(schemas, s, t);
  }

  lemma {:induction false} Pigeonhole(p: seq<string>, names: set<string>) returns (i: nat, j: nat)
    requires |p| > |names| && forall k :: 0 <= k < |p| ==> p[k] in names
    ensures i < j < |p| && p[i] == p[j]
    decreases |p|
  {
    var last := |p| - 1;
    if k :| 0 <= k < last && p[k] == p[last] {
      i, j := k, last;
    } else {
      i, j := Pigeonhole(p[..last], names - {p[last]});
    }
  }

  /** A cycle that runs through these names only. */
  ghost predicate HasCycleIn(schemas: seq<Schema>, names: set<string>) {
    exists p :: IsCycle(schemas, p) && Inside(p, names)
  }

  ghost predicate Inside(p: seq<string>, names: set<string>) {
    forall k :: 0 <= k < |p| ==> p[k] in names
  }

  /** A non-empty stuck set holds a real cycle, running through its own names. */
  lemma StuckHasCycle(schemas: seq<Schema>, names: set<string>)
    requires Stuck(schemas, names) && names != {}
    ensures HasCycleIn(schemas, names)
  {
    hide DependsOn, Path, Stuck, HasCycleIn;
    var start :| start in names;
    var p := Walk(schemas, names, start, |names|);
    var i, j := Pigeonhole(p, names);
    RepeatIsCycle(schemas, names, p, i, j);
  }

  lemma RepeatIsCycle(schemas: seq<Schema>, names: set<string>, p: seq<string>, i: nat, j: nat)
    requires Path(schemas, p) && Inside(p, names) && i < j < |p| && p[i] == p[j]
    ensures HasCycleIn(schemas, names)
  {
    hide Path;
    PathSlice(schemas, p, i, j + 1);
    var c := p[i..j + 1];
    assert c[0] == c[|c| - 1];
    assert IsCycle(schemas, c) && Inside(c, names);
  }

  lemma PathSlice(schemas: seq<Schema>, p: seq<string>, i: nat, j: nat)
    requires Path(schemas, p) && i <= j <= |p|
    ensures Path(schemas, p[i..j])
  {
    hide DependsOn;
    var c := p[i..j];
    forall k | 0 <= k < |c| - 1 ensures DependsOn(schemas, c[k], c[k + 1]) {
      assert c[k] == p[i + k] && c[k + 1] == p[i + k + 1];
    }
  }

  /** A schema that is not ready waits for a schema that is not placed. */
  lemma UnreadyIsStuck(schemas: seq<Schema>, placed: seq<Schema>, rest: seq<Schema>)
    requires multiset(placed) + multiset(rest) == multiset(schemas)
    requires forall s :: s in rest ==> !Ready(NamesOf(schemas), NamesOf(placed), s)
    ensures Stuck(schemas, NamesOf(rest))
  {
    forall s | s in NamesOf(rest) ensures exists t :: t in NamesOf(rest) && DependsOn(schemas, s, t) {
      var i :| 0 <= i < |rest| && rest[i].name == s;
      assert rest[i] in rest && rest[i] in multiset(schemas);
      var k :| 0 <= k < |rest[i].targets|
        && !(rest[i].targets[k] == s || rest[i].targets[k] !in NamesOf(schemas) || rest[i].targets[k] in NamesOf(placed));
      var t := rest[i].targets[k];
      assert t in NamesOf(rest) by { UnplacedRemains(schemas, placed, rest, t); }
      var j :| 0 <= j < |schemas| && schemas[j] == rest[i];
      assert DependsOn(schemas, s, t);
    }
  }

  lemma UnplacedRemains(schemas: seq<Schema>, placed: seq<Schema>, rest: seq<Schema>, t: string)
    requires multiset(placed) + multiset(rest) == multiset(schemas)
    requires t in NamesOf(schemas) && t !in NamesOf(placed)
    ensures t in NamesOf(rest)
  {
    var i :| 0 <= i < |schemas| && schemas[i].name == t;
    assert schemas[i] in multiset(schemas);
    forall j | 0 <= j < |placed| ensures placed[j] != schemas[i] {
      assert placed[j].name in NamesOf(placed);
    }
    assert schemas[i] in multiset(rest);
    var j :| 0 <= j < |rest| && rest[j] == schemas[i];
  }

  // ---- a settled order leaves no cycle ----

  ghost predicate UniqueNames(schemas: seq<Schema>) {
    forall i, j :: 0 <= i < j < |schemas| ==> schemas[i].name != schemas[j].name
  }

  ghost function PositionOf(ordered: seq<Schema>, name: string): nat
    requires name in NamesOf(ordered)
    ensures PositionOf(ordered, name) < |ordered| && ordered[PositionOf(ordered, name)].name == name
  {
    var i: nat :| i < |ordered| && ordered[i].name == name;
    i
  }

  /** In a settled order every dependency points backwards. */
  lemma DependencyPointsBack(ordered: seq<Schema>, s: string, t: string)
    requires UniqueNames(ordered) && Settled(NamesOf(ordered), ordered, |ordered|) && DependsOn(ordered, s, t)
    ensures s in NamesOf(ordered) && PositionOf(ordered, t) < PositionOf(ordered, s)
  {
    var i :| 0 <= i < |ordered| && ordered[i].name == s && t in ordered[i].targets;
    assert Ready(NamesOf(ordered), NamesOf(ordered[..i]), ordered[i]);
    var j :| 0 <= j < i && ordered[..i][j].name == t;
  }

  lemma {:induction false} PathsPointBack(ordered: seq<Schema>, p: seq<string>)
    requires UniqueNames(ordered) && Settled(NamesOf(ordered), ordered, |ordered|) && Path(ordered, p) && |p| >= 2
    ensures p[0] in NamesOf(ordered) && p[|p| - 1] in NamesOf(ordered)
    ensures PositionOf(ordered, p[|p| - 1]) < PositionOf(ordered, p[0])
  {
    hide Settled, UniqueNames, NamesOf, PositionOf;
    var last := |p| - 1;
    assert DependsOn(ordered, p[last - 1], p[last]);
    DependencyPointsBack(ordered, p[last - 1], p[last]);
    if last > 1 {
      PathsPointBack(ordered, p[..last]);
    }
  }

  lemma SettledHasNoCycle(ordered: seq<Schema>)
    requires UniqueNames(ordered) && Settled(NamesOf(ordered), ordered, |ordered|)
    ensures !HasCycle(ordered)
  {
    hide Path, Settled, UniqueNames, PositionOf;
    forall p | |p| >= 2 && Path(ordered, p) ensures !IsCycle(ordered, p) {
      PathsPointBack(ordered, p);
    }
  }

  // ---- permutations ----

  lemma PermutedMembers(a: seq<Schema>, b: seq<Schema>)
    requires multiset(a) == multiset(b)
    ensures NamesOf(a) == NamesOf(b)
    ensures forall s :: s in a <==> s in b
  {
    forall s ensures s in a <==> s in b {
      assert s in multiset(a) <==> s in multiset(b);
    }
    forall n ensures n in NamesOf(a) <==> n in NamesOf(b) {
      if n in NamesOf(a) {
        var i :| 0 <= i < |a| && a[i].name == n;
        assert a[i] in b;
      }
      if n in NamesOf(b) {
        var i :| 0 <= i < |b| && b[i].name == n;
        assert b[i] in a;
      }
    }
  }

  lemma PermutedDepends(a: seq<Schema>, b: seq<Schema>, s: string, t: string)
    requires multiset(a) == multiset(b) && DependsOn(a, s, t)
    ensures DependsOn(b, s, t)
  {
    PermutedMembers(a, b);
    var i :| 0 <= i < |a| && a[i].name == s && t in a[i].targets;
    assert a[i] in b;
  }

  lemma PermutedCycle(a: seq<Schema>, b: seq<Schema>)
    requires multiset(a) == multiset(b) && HasCycle(a)
    ensures HasCycle(b)
  {
    hide DependsOn;
    var p :| IsCycle(a, p);
    forall i | 0 <= i < |p| - 1 ensures DependsOn(b, p[i], p[i + 1]) {
      PermutedDepends(a, b, p[i], p[i + 1]);
    }
    assert IsCycle(b, p);
  }

  lemma PermutedUnique(a: seq<Schema>, b: seq<Schema>)
    requires multiset(a) == multiset(b) && UniqueNames(a)
    ensures UniqueNames(b)
  {
    DistinctPermuted((s: Schema) => s.name, a, b);
  }

  lemma PickedThrough(a: seq<Schema>, b: seq<Schema>, c: seq<Schema>, ab: seq<nat>, bc: seq<nat>) returns (ac: seq<nat>)
    requires PickedAt(a, b, ab) && PickedAt(b, c, bc)
    ensures PickedAt(a, c, ac)
  {
    ac := seq(|bc|, i requires 0 <= i < |bc| => ab[bc[i]]);
  }

  /** `order_schemas_by_dependency`: a permutation whose first `settled` schemas come after their
      targets and whose tail, in original order, is what a dependency cycle holds back; nothing is
      held back exactly when there is no cycle. */
  method OrderSchemas(schemas: seq<Schema>) returns (ordered: seq<Schema>, ghost settled: nat, ghost kept: seq<nat>)
    ensures multiset(ordered) == multiset(schemas)
    ensures settled <= |ordered| && Settled(NamesOf(schemas), ordered, settled)
    ensures PickedAt(schemas, ordered[settled..], kept)
    ensures Stuck(schemas, NamesOf(ordered[settled..]))
    ensures settled < |ordered| ==> HasCycleIn(schemas, NamesOf(ordered[settled..])) && HasCycle(schemas)
    ensures UniqueNames(schemas) && settled == |ordered| ==> !HasCycle(schemas)
  {
    hide Stuck, HasCycle, HasCycleIn, Ready, UniqueNames;
    var names := NamesOf(schemas);
    var placed: set<string> := {};
    ordered := [];
    var remaining := schemas;
    kept := seq(|schemas|, i => i);
    while true
      invariant placed == NamesOf(ordered) && Settled(names, ordered, |ordered|)
      invariant multiset(ordered) + multiset(remaining) == multiset(schemas)
      invariant PickedAt(schemas, remaining, kept)
      decreases |remaining|
    {
      var progress;
      ghost var before, at := remaining, [];
      remaining, placed, ordered, progress, at := Pass(names, remaining, placed, ordered);
      kept := PickedThrough(schemas, before, remaining, kept, at);
      if remaining == [] {
        settled := |ordered|;
        assert ordered[settled..] == [];
        Complete(schemas, ordered);
        return;
      }
      if !progress {
        settled := |ordered|;
        UnreadyIsStuck(schemas, ordered, remaining);
        assert remaining[0].name in NamesOf(remaining);
        StuckHasCycle(schemas, NamesOf(remaining));
        CycleInIsCycle(schemas, NamesOf(remaining));
        TailKeepsSettled(names, ordered, remaining);
        ordered := ordered + remaining;
        assert ordered[settled..] == remaining;
        return;
      }
    }
  }

  lemma CycleInIsCycle(schemas: seq<Schema>, names: set<string>)
    requires HasCycleIn(schemas, names)
    ensures HasCycle(schemas)
  {
    hide IsCycle;
  }

  lemma TailKeepsSettled(names: set<string>, ordered: seq<Schema>, rest: seq<Schema>)
    requires Settled(names, ordered, |ordered|)
    ensures Settled(names, ordered + rest, |ordered|)
  {
    hide Ready, NamesOf;
    forall i | 0 <= i < |ordered| ensures Ready(names, NamesOf((ordered + rest)[..i]), (ordered + rest)[i]) {
      assert (ordered + rest)[..i] == ordered[..i];
    }
  }

  lemma Complete(schemas: seq<Schema>, ordered: seq<Schema>)
    requires multiset(ordered) == multiset(schemas) && Settled(NamesOf(schemas), ordered, |ordered|)
    ensures Stuck(schemas, NamesOf([]))
    ensures UniqueNames(schemas) ==> !HasCycle(schemas)
  {
    hide Settled, HasCycle, UniqueNames;
    PermutedMembers(schemas, ordered);
    if UniqueNames(schemas) {
      PermutedUnique(schemas, ordered);
      SettledHasNoCycle(ordered);
      if HasCycle(schemas) {
        PermutedCycle(schemas, ordered);
      }
    }
  }
}
