/** The lock-free logical clock (crates/auradb-core/src/clock.rs) under every interleaving of
    its atomic steps. */
module Clock {

  const LIMIT := 0x1_0000_0000_0000_0000

  type Thread = nat

  /** A thread inside `observe`: the value to pass, what it loaded first, what it holds now, and
      how often its exchange failed. */
  datatype Activity = Idle | Observing(observed: nat, first: nat, current: nat, failed: nat)

  /** Finished calls, in the order of their last atomic step. */
  datatype Event = Ticked(value: nat) | Observed(value: nat, attempts: nat, first: nat)

  datatype State = State(next: nat, threads: map<Thread, Activity>, log: seq<Event>)

  /** One atomic step of a thread: a fetch-add, the load that starts `observe`, or its next
      loop test with the compare-exchange behind it. */
  datatype Step = Tick | Load(thread: Thread, observed: nat) | Attempt(thread: Thread)

  /** Addition of 64-bit words. */
  function Inc(n: nat): nat {
    (n + 1) % LIMIT
  }

  function At(s: State, t: Thread): Activity {
    if t in s.threads then s.threads[t] else Idle
  }

  function Next(s: State, step: Step): State {
    match step
    case Tick => s.(next := Inc(s.next), log := s.log + [Ticked(s.next)])
    case Load(t, x) =>
      if At(s, t).Idle? then s.(threads := s.threads[t := Observing(x, s.next, s.next, 0)]) else s
    case Attempt(t) =>
      match At(s, t)
      case Idle => s
      case Observing(x, first, current, failed) =>
        if current > x then
          s.(threads := s.threads[t := Idle], log := s.log + [Observed(x, failed, first)])
        else if s.next == current then
          s.(next := Inc(x), threads := s.threads[t := Idle], log := s.log + [Observed(x, failed + 1, first)])
        else
          s.(threads := s.threads[t := Observing(x, first, s.next, failed + 1)])
  }

  function Run(start: nat, steps: seq<Step>): State {
    if steps == [] then State(start, map[], []) else Next(Run(start, steps[..|steps| - 1]), steps[|steps| - 1])
  }

  /** The largest word: passing it wraps. */
  const TOP := LIMIT - 1

  /** Every value a caller passes is a 64-bit word. */
  ghost predicate Words(start: nat, steps: seq<Step>) {
    start < LIMIT && forall s :: s in steps && s.Load? ==> s.observed < LIMIT
  }

  /** Before event `j`, the largest word has been neither ticked nor observed. */
  ghost predicate Unspent(log: seq<Event>, j: nat)
    requires j <= |log|
  {
    forall i :: 0 <= i < j ==> log[i].value != TOP
  }

  /** Event `j` exceeds everything ticked or observed before it. */
  ghost predicate Exceeds(log: seq<Event>, j: nat)
    requires j < |log|
  {
    forall i :: 0 <= i < j ==> log[i].value < log[j].value
  }

  /** Attempts allowed before `current` must exceed the observed value. */
  function MaxAttempts(observed: nat, first: nat): nat {
    if first <= observed then observed - first + 1 else 0
  }

  // ---- the invariant ----

  ghost predicate InRange(s: State) {
    && s.next < LIMIT
    && (forall i :: 0 <= i < |s.log| ==> s.log[i].value < LIMIT)
    && (forall t :: t in s.threads && s.threads[t].Observing? ==> s.threads[t].observed < LIMIT)
  }

  ghost predicate ThreadOk(s: State, a: Activity) {
    a.Observing? ==> a.first <= a.current <= s.next && a.failed <= a.current - a.first && a.failed <= MaxAttempts(a.observed, a.first)
  }

  /** The counter is past everything logged and at or past everything threads hold. */
  ghost predicate Ahead(s: State) {
    && (forall i :: 0 <= i < |s.log| ==> s.log[i].value < s.next)
    && (forall t :: t in s.threads ==> ThreadOk(s, s.threads[t]))
  }

  ghost predicate EventOk(log: seq<Event>, j: nat)
    requires j < |log|
  {
    if log[j].Ticked? then Exceeds(log, j) else log[j].attempts <= MaxAttempts(log[j].value, log[j].first)
  }

  ghost predicate LogOk(log: seq<Event>) {
    forall j :: 0 <= j < |log| && Unspent(log, j) ==> EventOk(log, j)
  }

  ghost predicate Inv(s: State) {
    InRange(s) && LogOk(s.log) && (Unspent(s.log, |s.log|) ==> Ahead(s))
  }

  lemma RangeKeeps(s: State, step: Step)
    requires InRange(s) && (step.Load? ==> step.observed < LIMIT)
    ensures InRange(Next(s, step))
  {
  }

  /** A step that spends no largest word leaves the counter ahead. */
  lemma AheadKeeps(s: State, step: Step)
    requires InRange(s) && Ahead(s)
    requires var s' := Next(s, step); s'.log == s.log || s'.log[|s.log|].value != TOP
    ensures s.next <= Next(s, step).next && Ahead(Next(s, step))
  {
    var s' := Next(s, step);
    assert step.Attempt? && step.thread in s.threads ==> ThreadOk(s, s.threads[step.thread]);
    forall t | t in s'.threads ensures ThreadOk(s', s'.threads[t]) {
      assert t in s.threads ==> ThreadOk(s, s.threads[t]);
    }
  }

  /** What a step logs while the counter is ahead. */
  lemma LoggedIsOk(s: State, step: Step)
    requires Ahead(s) && Next(s, step).log != s.log
    ensures EventOk(Next(s, step).log, |s.log|)
  {
    assert step.Attempt? && step.thread in s.threads ==> ThreadOk(s, s.threads[step.thread]);
  }

  lemma LogGrows(log: seq<Event>, e: Event)
    requires LogOk(log) && (Unspent(log, |log|) ==> EventOk(log + [e], |log|))
    ensures LogOk(log + [e])
    ensures Unspent(log + [e], |log| + 1) <==> Unspent(log, |log|) && e.value != TOP
  {
    var log' := log + [e];
    forall j | 0 <= j < |log'| && Unspent(log', j) ensures EventOk(log', j) {
      assert forall i :: 0 <= i < j ==> log'[i] == log[i];
      assert j < |log| ==> Unspent(log, j) && EventOk(log, j);
    }
    assert forall i :: 0 <= i < |log| ==> log'[i] == log[i];
    assert log'[|log|] == e;
  }

  lemma OneEvent(s: State, step: Step)
    ensures Next(s, step).log == s.log || (|Next(s, step).log| == |s.log| + 1 && Next(s, step).log == s.log + [Next(s, step).log[|s.log|]])
  {
  }

  lemma StepKeeps(s: State, step: Step)
    requires Inv(s) && (step.Load? ==> step.observed < LIMIT)
    ensures Inv(Next(s, step))
  {
    hide InRange, Ahead, LogOk, EventOk, Unspent, Next;
    var s' := Next(s, step);
    OneEvent(s, step);
    RangeKeeps(s, step);
    if s'.log == s.log {
      if Ahead(s) {
        AheadKeeps(s, step);
      }
    } else {
      if Ahead(s) {
        LoggedIsOk(s, step);
      }
      LogGrows(s.log, s'.log[|s.log|]);
      if Ahead(s) && s'.log[|s.log|].value != TOP {
        AheadKeeps(s, step);
      }
    }
  }

  lemma {:induction false} RunKeeps(start: nat, steps: seq<Step>)
    requires Words(start, steps)
    ensures Inv(Run(start, steps))
  {
    hide Next;
    if steps != [] {
      var front := steps[..|steps| - 1];
      RunKeeps(start, front);
      StepKeeps(Run(start, front), steps[|steps| - 1]);
    }
  }

  // ---- one caller ----

  /** An `observe` that no one interrupts loads, makes one attempt, and leaves the clock past the value
      and no lower than it was. */
  lemma ObserveAlone(s: State, t: Thread, x: nat)
    requires At(s, t).Idle? && s.next < LIMIT && x < TOP
    ensures var s' := Next(Next(s, Load(t, x)), Attempt(t));
            && At(s', t).Idle? && s'.next > x && s'.next >= s.next && (s'.next == s.next || s'.next == x + 1)
            && |s'.log| == |s.log| + 1 && s'.log[..|s.log|] == s.log
            && s'.log[|s.log|].Observed? && s'.log[|s.log|].value == x
  {
  }

  // ---- the theorems ----

  /** In every interleaving a tick returns more than everything ticked or observed before it, if and
      only if the largest word has not been ticked or observed before it. */
  lemma TickIsNew(start: nat, steps: seq<Step>, j: nat)
    requires Words(start, steps)
    requires var log := Run(start, steps).log; j < |log| && log[j].Ticked?
    ensures Exceeds(Run(start, steps).log, j) <==> Unspent(Run(start, steps).log, j)
  {
    hide Run, Words;
    RunKeeps(start, steps);
  }

  /** Over a whole run: all ticks increase and pass every observed value exactly when no tick follows
      the largest word. */
  lemma ClockIsMonotone(start: nat, steps: seq<Step>)
    requires Words(start, steps)
    ensures var log := Run(start, steps).log;
            (forall i, j :: 0 <= i < j < |log| && log[j].Ticked? ==> log[i].value < log[j].value)
            <==> (forall i, j :: 0 <= i < j < |log| && log[j].Ticked? ==> log[i].value != TOP)
  {
    hide Run, Words;
    var log := Run(start, steps).log;
    forall j | 0 <= j < |log| && log[j].Ticked? ensures Exceeds(log, j) <==> Unspent(log, j) {
      TickIsNew(start, steps, j);
    }
  }

  /** Ticks come out strictly increasing while the largest word is unspent. */
  lemma TicksIncrease(start: nat, steps: seq<Step>, i: nat, j: nat)
    requires Words(start, steps)
    requires var log := Run(start, steps).log; i < j < |log| && log[i].Ticked? && log[j].Ticked? && Unspent(log, j)
    ensures var log := Run(start, steps).log; log[i].value < log[j].value
  {
    hide Run, Words;
    TickIsNew(start, steps, j);
  }

  /** Once `observe(x)` has returned, every tick returns more than `x` while the largest word is unspent. */
  lemma ObservedIsPassed(start: nat, steps: seq<Step>, i: nat, j: nat)
    requires Words(start, steps)
    requires var log := Run(start, steps).log; i < j < |log| && log[i].Observed? && log[j].Ticked? && Unspent(log, j)
    ensures var log := Run(start, steps).log; log[i].value < log[j].value
  {
    hide Run, Words;
    TickIsNew(start, steps, j);
  }

  /** `observe` returns within one attempt for each value from its first load to the observed one. */
  lemma ObserveIsBounded(start: nat, steps: seq<Step>, i: nat)
    requires Words(start, steps)
    requires var log := Run(start, steps).log; i < |log| && log[i].Observed? && Unspent(log, i)
    ensures var log := Run(start, steps).log; log[i].attempts <= MaxAttempts(log[i].value, log[i].first)
  {
    hide Run, Words;
    RunKeeps(start, steps);
  }

  /** A thread still inside `observe` ends with its next attempt or holds a strictly larger value after it. */
  lemma FailureRaisesCurrent(start: nat, steps: seq<Step>, t: Thread)
    requires Words(start, steps) && At(Run(start, steps), t).Observing?
    requires var log := Run(start, steps).log; Unspent(log, |log|)
    ensures var a, b := At(Run(start, steps), t), At(Next(Run(start, steps), Attempt(t)), t);
            b.Idle? || (b.current > a.current && b.failed == a.failed + 1)
  {
    hide Run, Words;
    RunKeeps(start, steps);
    assert ThreadOk(Run(start, steps), At(Run(start, steps), t));
  }

  /** At the top of the word the counter wraps, and a tick repeats a value below it. */
  lemma WordsRunOut()
    ensures var log := Run(LIMIT - 1, [Tick, Tick]).log; log == [Ticked(LIMIT - 1), Ticked(0)]
  {
    var steps: seq<Step> := [Tick, Tick];
    assert steps[..1] == [Tick] && steps[..1][..0] == [];
    assert Run(LIMIT - 1, []) == State(LIMIT - 1, map[], []);
    assert Run(LIMIT - 1, [Tick]) == Next(Run(LIMIT - 1, []), Tick);
    assert Inc(LIMIT - 1) == 0;
  }
}
