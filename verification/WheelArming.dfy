/**
 How often a timer fires over any run that leaves it alone (`rusty_box/src/pc_system.rs`,
 lines 743-862), and that its owner hears of exactly those fires.
 */
module WheelArming {
  import opened Base
  import opened Arith
  import opened TimerTypes
  import opened Wheel
  import opened WheelRefinement
  import opened WheelRuns
  import opened WheelAccounts

  // ---- One timer, tick by tick ----

  /** The timer `n` ticks after `now`. */
  function Evolved(t: Timer, now: nat, n: nat): Timer
    decreases n, now
  {
    if n == 0 then t else Evolved(NaiveFire(t, now + 1), now + 1, n - 1)
  }

  /** How many of those ticks reach its deadline. */
  function Hits(t: Timer, now: nat, n: nat): nat
    decreases n, now
  {
    if n == 0 then 0 else Bit(Reached(t, now + 1)) + Hits(NaiveFire(t, now + 1), now + 1, n - 1)
  }

  // ---- What that comes to ----

  /** An active timer is ahead of the clock and has a period. */
  predicate Ahead(t: Timer, now: nat) {
    t.active ==> now < t.deadline && t.period >= 1
  }

  /** Ticks up to and including `end` that a timer armed for tick `first` fires on: none, one, or one a period. */
  function Beats(first: nat, period: nat, continuous: bool, end: nat): nat
    requires period >= 1
  {
    if end < first then 0 else if !continuous then 1 else (end - first) / period + 1
  }

  function Fires(t: Timer, end: nat): nat
    requires t.active ==> t.period >= 1
  {
    if t.active then Beats(t.deadline, t.period, t.continuous, end) else 0
  }

  /** The timer once tick `end` is past. */
  function Left(t: Timer, end: nat): Timer
    requires t.active ==> t.period >= 1
  {
    if !t.active || end < t.deadline then t
    else if !t.continuous then t.(active := false)
    else t.(deadline := Phase(t.deadline, t.period, end))
  }

  lemma OneMorePeriod(x: nat, period: nat)
    requires 1 <= period <= x
    ensures x / period == (x - period) / period + 1
  {
    var q, r := Split(x - period, period);
    assert period * (q + 1) == period * q + period;
    DivIs(x, period, q + 1, r);
  }

  /** A period later, the same beat. */
  lemma NextBeat(d: nat, period: nat, end: nat)
    requires period >= 1 && d <= end
    ensures end < d + period ==> Phase(d, period, end) == d + period && (end - d) / period == 0
    ensures d + period <= end ==> Phase(d, period, end) == Phase(d + period, period, end)
    ensures d + period <= end ==> (end - d) / period == (end - (d + period)) / period + 1
  {
    if end < d + period {
      DivIs(end - d, period, 0, end - d);
    } else {
      OneMorePeriod(end - d, period);
      ProductStep(period, (end - d) / period);
    }
  }

  lemma FirstTick(t: Timer, now: nat, end: nat)
    requires Ahead(t, now) && now < end
    ensures var t' := NaiveFire(t, now + 1);
            && Ahead(t', now + 1) && Left(t', end) == Left(t, end)
            && Fires(t, end) == Bit(Reached(t, now + 1)) + Fires(t', end)
  {
    if Reached(t, now + 1) && t.continuous {
      NextBeat(t.deadline, t.period, end);
    }
  }

  lemma {:induction false} TimerLife(t: Timer, now: nat, n: nat)
    requires Ahead(t, now)
    ensures Hits(t, now, n) == Fires(t, now + n) && Evolved(t, now, n) == Left(t, now + n)
    decreases n
  {
    if n > 0 {
      FirstTick(t, now, now + n);
      TimerLife(NaiveFire(t, now + 1), now + 1, n - 1);
    }
  }

  lemma {:induction false} LivesJoin(t: Timer, now: nat, m: nat, n: nat)
    ensures Evolved(t, now, m + n) == Evolved(Evolved(t, now, m), now + m, n)
    ensures Hits(t, now, m + n) == Hits(t, now, m) + Hits(Evolved(t, now, m), now + m, n)
    decreases m
  {
    if m > 0 {
      LivesJoin(NaiveFire(t, now + 1), now + 1, m - 1, n);
    }
  }

  // ---- A slot of the wheel over a run ----

  lemma {:induction false} SlotEvolves(v: Naive, n: nat, i: nat)
    requires i < |v.timers|
    ensures i < |NaiveTicks(v, n).timers| && NaiveTicks(v, n).timers[i] == Evolved(v.timers[i], v.now, n)
    decreases n
  {
    if n > 0 {
      SlotEvolves(NaiveTick(v), n - 1, i);
    }
  }

  function StepHits(w: State, op: Op, i: nat): nat
    requires WellFormed(w) && i < MAX_TIMERS
  {
    if op.OpTick? then Hits(w.timers[i], Now(w), op.n) else 0
  }

  /** How many ticks of a run reach slot `i`. */
  ghost function RunHits(w: State, ops: seq<Op>, i: nat): nat
    requires Running(w) && RunEnabled(w, ops) && i < MAX_TIMERS
    decreases |ops|
  {
    if ops == [] then 0
    else
      StepRuns(w, ops[0]);
      StepHits(w, ops[0], i) + RunHits(Step(w, ops[0]).state, ops[1..], i)
  }

  predicate Unnamed(ops: seq<Op>, i: nat) {
    forall k :: 0 <= k < |ops| ==> !Names(ops[k], i)
  }

  /** A step that does not name a slot in use leaves its timer to the ticks. */
  lemma StepEvolves(w: State, op: Op, i: nat) returns (n: nat, w': State)
    requires Running(w) && Enabled(w, op) && i < MAX_TIMERS && w.timers[i].inUse && !Names(op, i)
    ensures w' == Step(w, op).state && Running(w') && Now(w') == Now(w) + n
    ensures w'.timers[i] == Evolved(w.timers[i], Now(w), n) && w'.timers[i].inUse
    ensures StepHits(w, op, i) == Hits(w.timers[i], Now(w), n)
  {
    w', n := Step(w, op).state, if op.OpTick? then op.n else 0;
    StepRuns(w, op);
    if op.OpTick? {
      TicksRefine(w, n);
      SlotEvolves(View(w), n, i);
      assert w'.timers == View(Ticks(w, n)).timers;
    } else {
      StepSpares(w, op, i);
    }
    EvolvedKeeps(w.timers[i], Now(w), n);
  }

  lemma {:induction false} EvolvedKeeps(t: Timer, now: nat, n: nat)
    ensures var e := Evolved(t, now, n); e.inUse == t.inUse && e.owner == t.owner && e.id == t.id
    decreases n
  {
    if n > 0 {
      EvolvedKeeps(NaiveFire(t, now + 1), now + 1, n - 1);
    }
  }

  /** The first step of a run, what it does to the slot, and the rest. */
  lemma RunStarts(w: State, ops: seq<Op>, i: nat) returns (n: nat, w': State, rest: seq<Op>)
    requires Running(w) && RunEnabled(w, ops) && i < MAX_TIMERS && w.timers[i].inUse && Unnamed(ops, i) && ops != []
    ensures Running(w') && Now(w') == Now(w) + n && w'.timers[i].inUse && w'.timers[i] == Evolved(w.timers[i], Now(w), n)
    ensures rest == ops[1..] && RunEnabled(w', rest) && Unnamed(rest, i)
    ensures Run(w, ops) == Run(w', rest) && RunHits(w, ops, i) == Hits(w.timers[i], Now(w), n) + RunHits(w', rest, i)
  {
    n, w' := StepEvolves(w, ops[0], i);
    rest := ops[1..];
  }

  /** Two stretches of a timer's life, one after the other. */
  lemma Stretches(t: Timer, now: nat, m: nat, t': Timer, now': nat, k: nat) returns (n: nat)
    requires t' == Evolved(t, now, m) && now' == now + m
    ensures n == m + k
    ensures Evolved(t', now', k) == Evolved(t, now, n) && Hits(t, now, m) + Hits(t', now', k) == Hits(t, now, n)
  {
    n := m + k;
    LivesJoin(t, now, m, k);
  }

  lemma {:induction false} RunEvolves(w: State, ops: seq<Op>, i: nat) returns (r: State, n: nat)
    requires Running(w) && RunEnabled(w, ops) && i < MAX_TIMERS && w.timers[i].inUse && Unnamed(ops, i)
    ensures r == Run(w, ops) && Running(r) && Now(r) == Now(w) + n
    ensures r.timers[i] == Evolved(w.timers[i], Now(w), n) && RunHits(w, ops, i) == Hits(w.timers[i], Now(w), n)
    decreases |ops|
  {
    if ops == [] {
      r, n := w, 0;
    } else {
      var m, w', rest := RunStarts(w, ops, i);
      var k: nat;
      r, k := RunEvolves(w', rest, i);
      n := Stretches(w.timers[i], Now(w), m, w'.timers[i], Now(w'), k);
    }
  }

  /**
   Over any run that leaves it alone, a timer is reached by as many ticks as it is armed
   for: none if it is not armed, one if it is armed once and its deadline is passed, and
   one at the deadline and each whole period after it if it is continuous.
   */
  lemma TimerFiresWhenDue(w: State, ops: seq<Op>, i: nat) returns (r: State)
    requires Running(w) && RunEnabled(w, ops) && i < MAX_TIMERS && w.timers[i].inUse && Unnamed(ops, i)
    ensures r == Run(w, ops) && w.timers[i].period >= 1
    ensures RunHits(w, ops, i) == Fires(w.timers[i], Now(r)) && r.timers[i] == Left(w.timers[i], Now(r))
  {
    var n: nat;
    r, n := RunEvolves(w, ops, i);
    assert NothingSkipped(w);
    TimerLife(w.timers[i], Now(w), n);
  }

  // ---- What the owner hears ----

  /** No other armed timer has the owner of slot `i`. */
  ghost predicate Sole(ts: seq<Timer>, i: nat) {
    i < |ts| && forall j :: 0 <= j < |ts| && j != i && ts[j].active ==> ts[j].owner != ts[i].owner
  }

  lemma {:induction false} NoneReached(ts: seq<Timer>, at: nat, o: Owner)
    requires forall j :: 0 <= j < |ts| && ts[j].active ==> ts[j].owner != o
    ensures ReachedNow(ts, at, o) == 0
    decreases |ts|
  {
    if ts != [] {
      NoneReached(ts[..|ts| - 1], at, o);
    }
  }

  lemma {:induction false} SoleReached(ts: seq<Timer>, at: nat, i: nat)
    requires Sole(ts, i)
    ensures ReachedNow(ts, at, ts[i].owner) == Bit(Reached(ts[i], at))
    decreases |ts|
  {
    var m := |ts| - 1;
    if i < m {
      assert ts[..m][i] == ts[i];
      SoleReached(ts[..m], at, i);
    } else {
      NoneReached(ts[..m], at, ts[i].owner);
    }
  }

  lemma {:induction false} SoleReaches(v: Naive, n: nat, i: nat)
    requires Sole(v.timers, i)
    ensures Reaches(v, n, v.timers[i].owner) == Hits(v.timers[i], v.now, n)
    decreases n
  {
    if n > 0 {
      SoleReached(v.timers, v.now + 1, i);
      SoleReaches(NaiveTick(v), n - 1, i);
    }
  }

  lemma StepReachesSlot(w: State, op: Op, i: nat)
    requires Running(w) && Tidy(w) && i < MAX_TIMERS && w.timers[i].inUse
    ensures StepReached(w, op, w.timers[i].owner) == StepHits(w, op, i)
  {
    if op.OpTick? {
      assert Sole(w.timers, i);
      SoleReaches(View(w), op.n, i);
    }
  }

  lemma OwnerStarts(w: State, ops: seq<Op>, i: nat) returns (w': State, rest: seq<Op>)
    requires Running(w) && Tidy(w) && RunEnabled(w, ops) && RunDisciplined(w, ops) && ops != []
    requires i < MAX_TIMERS && w.timers[i].inUse && Unnamed(ops, i)
    ensures Running(w') && Tidy(w') && w'.timers[i].inUse && w'.timers[i].owner == w.timers[i].owner
    ensures rest == ops[1..] && RunEnabled(w', rest) && RunDisciplined(w', rest) && Unnamed(rest, i)
    ensures var o := w.timers[i].owner;
            RunReached(w, ops, o) - RunHits(w, ops, i) == RunReached(w', rest, o) - RunHits(w', rest, i)
  {
    var n: nat;
    n, w' := StepEvolves(w, ops[0], i);
    EvolvedKeeps(w.timers[i], Now(w), n);
    rest := ops[1..];
    StepTidy(w, ops[0]);
    StepReachesSlot(w, ops[0], i);
  }

  /** Under the discipline, what an owner's timers reach is what its one timer reaches. */
  lemma {:induction false} OwnerHearsSlot(w: State, ops: seq<Op>, i: nat)
    requires Running(w) && Tidy(w) && RunEnabled(w, ops) && RunDisciplined(w, ops)
    requires i < MAX_TIMERS && w.timers[i].inUse && Unnamed(ops, i)
    ensures RunReached(w, ops, w.timers[i].owner) == RunHits(w, ops, i)
    decreases |ops|
  {
    if ops != [] {
      var w', rest := OwnerStarts(w, ops, i);
      OwnerHearsSlot(w', rest, i);
    }
  }

  /**
   So the owner of a timer nobody disturbs is dispatched, or has queued, exactly the
   fires the timer is armed for, on top of what was queued, as long as they can be counted.
   */
  lemma OwnerGetsItsFires(w: State, ops: seq<Op>, i: nat) returns (r: State, fires: nat)
    requires Running(w) && Tidy(w) && RunEnabled(w, ops) && RunDisciplined(w, ops)
    requires forall k :: 0 <= k < |ops| ==> !ops[k].OpReset?
    requires 1 <= i < MAX_TIMERS && w.timers[i].inUse && Unnamed(ops, i)
    ensures r == Run(w, ops) && w.timers[i].period >= 1 && fires == Fires(w.timers[i], Now(r))
    ensures var o := w.timers[i].owner;
            RunDrained(w, ops, o) + Total(r.fired, o) == Total(w.fired, o) + fires <==> Countable(w, ops, o)
  {
    r := TimerFiresWhenDue(w, ops, i);
    fires := Fires(w.timers[i], Now(r));
    OwnerHearsSlot(w, ops, i);
    FiresAreConserved(w, ops, w.timers[i].owner);
  }
}
