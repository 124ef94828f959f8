/** The engine behind a Raft node (crates/auradb-replication): writes are applied at timestamps
    derived from their log index, and a write at or below the engine's watermark is ignored. */
module Engines {
  import opened RaftNode

  /** Durable: the commit watermark and the write entries applied so far. */
  datatype Engine = Engine(watermark: nat, applied: seq<Entry>)

  /** `apply_command` over `apply_replicated_batch`: a no-op applies to nothing. */
  function ApplyEntry(base: nat, e: Engine, entry: Entry): Engine {
    if entry.command == NOOP || base + entry.index <= e.watermark then e
    else Engine(base + entry.index, e.applied + [entry])
  }

  /** Applying the entries of a log in order. */
  function Replay(base: nat, e: Engine, log: seq<Entry>): Engine {
    if log == [] then e else ApplyEntry(base, Replay(base, e, log[..|log| - 1]), log[|log| - 1])
  }

  /** `recover`: replay the log from its start up to the commit index. */
  method ReplayCommitted(base: nat, engine: Engine, log: seq<Entry>, commit: LogIndex) returns (e: Engine)
    ensures e == Replay(base, engine, log[..Min(commit, |log|)])
  {
    e := engine;
    var idx := 1;
    ghost var top := Min(commit, |log|);
    assert log[..0] == [];
    while idx <= commit
      invariant 1 <= idx <= commit + 1
      invariant e == Replay(base, engine, log[..Min(idx - 1, |log|)])
    {
      if idx <= |log| {
        assert log[..idx][..idx - 1] == log[..idx - 1];
        e := ApplyEntry(base, e, log[idx - 1]);
      }
      idx := idx + 1;
    }
    assert commit == 0 ==> log[..top] == log[..0];
  }

  /** The write entries of a log. */
  function Writes(log: seq<Entry>): seq<Entry> {
    if log == [] then []
    else Writes(log[..|log| - 1]) + (if log[|log| - 1].command == NOOP then [] else [log[|log| - 1]])
  }

  ghost predicate Indexed(log: seq<Entry>) {
    forall j :: 0 <= j < |log| ==> log[j].index == j + 1
  }

  /** The engine holds exactly the writes of the log up to its watermark. */
  ghost predicate Holds(base: nat, e: Engine, log: seq<Entry>) {
    base <= e.watermark <= base + |log| && e.applied == Writes(log[..e.watermark - base])
  }

  /** It holds all writes among the first `c` entries, and nothing past them. */
  ghost predicate HoldsTo(base: nat, e: Engine, log: seq<Entry>, c: nat) {
    Holds(base, e, log) && e.watermark - base <= c <= |log| && e.applied == Writes(log[..c])
  }

  lemma WritesSnoc(log: seq<Entry>, k: nat)
    requires k < |log|
    ensures Writes(log[..k + 1]) == Writes(log[..k]) + (if log[k].command == NOOP then [] else [log[k]])
  {
    assert log[..k + 1][..k] == log[..k];
  }

  lemma {:induction false} WritesGrow(log: seq<Entry>, a: nat, b: nat)
    requires a <= b <= |log|
    ensures Writes(log[..b]) == Writes(log[..a]) + Writes(log[a..b])
    decreases b
  {
    if a == b {
      assert log[a..b] == [];
    } else {
      WritesGrow(log, a, b - 1);
      WritesSnoc(log, b - 1);
      assert log[a..b][..|log[a..b]| - 1] == log[a..b - 1];
    }
  }

  /** Applying the entry right after everything applied keeps the engine a prefix. */
  lemma ApplyNext(base: nat, e: Engine, log: seq<Entry>, k: nat)
    requires Indexed(log) && HoldsTo(base, e, log, k) && k < |log|
    ensures HoldsTo(base, ApplyEntry(base, e, log[k]), log, k + 1)
  {
    WritesSnoc(log, k);
  }

  /** Entries at or below the watermark are ignored. */
  lemma ApplyOld(base: nat, e: Engine, log: seq<Entry>, k: nat)
    requires Indexed(log) && Holds(base, e, log) && k < |log| && k + 1 <= e.watermark - base
    ensures ApplyEntry(base, e, log[k]) == e
  {
  }

  /** Replay from the start of the log, whatever the engine had applied, leaves it with every write up
      to the commit index, once and in order. */
  lemma {:induction false} ReplayCompletes(base: nat, e: Engine, log: seq<Entry>, c: nat)
    requires Indexed(log) && Holds(base, e, log) && c <= |log|
    ensures var r := Replay(base, e, log[..c]);
            if c <= e.watermark - base then r == e else HoldsTo(base, r, log, c)
    decreases c
  {
    hide Holds, ApplyEntry;
    if c > 0 {
      ReplayCompletes(base, e, log, c - 1);
      assert log[..c][..c - 1] == log[..c - 1];
      var r := Replay(base, e, log[..c - 1]);
      if c <= e.watermark - base {
        ApplyOld(base, e, log, c - 1);
      } else {
        assert c - 1 == e.watermark - base ==> HoldsTo(base, e, log, c - 1) by { HoldsHere(base, e, log); }
        ApplyNext(base, r, log, c - 1);
      }
    } else {
      assert log[..c] == [];
      assert e.watermark >= base by { HoldsHere(base, e, log); }
    }
  }

  lemma HoldsHere(base: nat, e: Engine, log: seq<Entry>)
    requires Holds(base, e, log)
    ensures e.watermark >= base && HoldsTo(base, e, log, e.watermark - base)
  {
  }

  /** The committed log of an engine may grow under it. */
  lemma HoldsGrows(base: nat, e: Engine, log: seq<Entry>, log': seq<Entry>)
    requires Holds(base, e, log) && log <= log'
    ensures Holds(base, e, log')
  {
    assert log'[..e.watermark - base] == log[..e.watermark - base];
  }

  // ---- applying out of turn ----

  /** No write between the watermark and index `i` is still missing. */
  ghost predicate NothingBefore(base: nat, e: Engine, log: seq<Entry>, i: LogIndex)
    requires 1 <= i <= |log|
  {
    base <= e.watermark < base + i ==> Writes(log[e.watermark - base..i - 1]) == []
  }

  /** An inline write at or below the watermark is ignored; above it, it has to be the committed entry
      of its index, with no earlier committed write missing. */
  ghost predicate InTurn(base: nat, e: Engine, log: seq<Entry>, entry: Entry)
    requires 1 <= entry.index <= |log|
  {
    base + entry.index <= e.watermark || (NothingBefore(base, e, log, entry.index) && log[entry.index - 1] == entry)
  }

  lemma {:induction false} WritesAreEntries(log: seq<Entry>, x: Entry)
    requires x in Writes(log)
    ensures x in log
  {
    if log != [] {
      var last := |log| - 1;
      if x in Writes(log[..last]) {
        WritesAreEntries(log[..last], x);
      }
    }
  }

  /** Nothing in a slice of the log carries the index right after it. */
  lemma SliceIsBefore(log: seq<Entry>, a: nat, i: LogIndex, x: Entry)
    requires Indexed(log) && a <= i - 1 < |log| && x in Writes(log[a..i - 1])
    ensures x.index < i
  {
    hide Writes;
    WritesAreEntries(log[a..i - 1], x);
    var j :| 0 <= j < i - 1 - a && log[a..i - 1][j] == x;
    assert log[a + j] == x;
  }

  /** One entry extends `front` as the log does exactly when the log adds that entry and nothing else. */
  lemma OneEntryAdds(front: seq<Entry>, missing: seq<Entry>, last: seq<Entry>, x: Entry)
    requires |last| <= 1 && x !in missing
    ensures front + [x] == front + missing + last <==> missing == [] && last == [x]
  {
    assert (front + [x])[|front|..] == [x];
    assert (front + missing + last)[|front|..] == missing + last;
    assert missing == [] || ((missing + last)[0] == missing[0] && missing[0] in missing);
    if missing == [] && last == [x] {
      assert front + missing == front;
    }
  }

  /** A leader applies its own write inline, at the index it was proposed at.  That keeps the engine a
      prefix of the committed writes if and only if the write comes in turn: otherwise the watermark
      moves past a committed write, which is then ignored for good. */
  lemma InlineExactly(base: nat, e: Engine, log: seq<Entry>, entry: Entry)
    requires Indexed(log) && Holds(base, e, log) && 1 <= entry.index <= |log| && entry.command != NOOP
    ensures Holds(base, ApplyEntry(base, e, entry), log) <==> InTurn(base, e, log, entry)
  {
    hide Writes;
    var w, i := e.watermark - base, entry.index;
    if w < i {
      var last := if log[i - 1].command == NOOP then [] else [log[i - 1]];
      var missing := Writes(log[w..i - 1]);
      WritesSnoc(log, i - 1);
      WritesGrow(log, w, i - 1);
      assert entry !in missing by {
        if entry in missing {
          SliceIsBefore(log, w, i, entry);
        }
      }
      OneEntryAdds(e.applied, missing, last, entry);
    }
  }
}
