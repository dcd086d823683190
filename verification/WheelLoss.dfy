/**
 How a fire is lost (`rusty_box/src/pc_system.rs`, lines 843-862): a timer that fires
 on every tick outgrows its 32-bit count when nobody drains the queue.
 */
module WheelLoss {
  import opened Base
  import opened TimerTypes
  import opened TimerWire
  import opened Wheel
  import opened WheelRefinement
  import opened WheelRuns
  import opened WheelAccounts

  /** Slot `i` is armed for the next tick, and every one after it. */
  predicate FiresEachTick(v: Naive, i: nat, o: Owner) {
    && i < |v.timers| && v.timers[i].owner == o
    && v.timers[i].active && v.timers[i].continuous && v.timers[i].period == 1 && v.timers[i].deadline == v.now + 1
  }

  lemma {:induction false} ReachedAtLeastOnce(ts: seq<Timer>, at: nat, i: nat)
    requires i < |ts| && Reached(ts[i], at)
    ensures ReachedNow(ts, at, ts[i].owner) >= 1
    decreases |ts|
  {
    var m := |ts| - 1;
    if i < m {
      assert ts[..m][i] == ts[i];
      ReachedAtLeastOnce(ts[..m], at, i);
    }
  }

  lemma {:induction false} ReachesEachTick(v: Naive, n: nat, i: nat, o: Owner)
    requires FiresEachTick(v, i, o)
    ensures FiresEachTick(NaiveTicks(v, n), i, o) && Reaches(v, n, o) >= n
    decreases n
  {
    if n > 0 {
      ReachedAtLeastOnce(v.timers, v.now + 1, i);
      ReachesEachTick(NaiveTick(v), n - 1, i, o);
    }
  }

  /** After `n` ticks at least as many fires are queued, unless the count is full. */
  lemma TicksQueue(w: State, i: nat, o: Owner, n: u32) returns (w': State)
    requires Running(w) && Tidy(w) && Headroom(w, n) && o != NullTimer && FiresEachTick(View(w), i, o)
    ensures w' == Step(w, OpTick(n)).state && Running(w') && FiresEachTick(View(w'), i, o)
    ensures StepReached(w, OpTick(n), o) >= n && Total(w'.fired, o) >= n
  {
    w' := Step(w, OpTick(n)).state;
    StepRuns(w, OpTick(n));
    TicksRefine(w, n);
    ReachesEachTick(View(w), n, i, o);
    var fired, reached := TicksCount(w, n, o);
  }

  /** Two ticks of together 2^32 or more, with no drain between, are too many for the count. */
  lemma TwoTicksOverflow(w: State, i: nat, o: Owner, n: u32, m: u32)
    requires Running(w) && Tidy(w) && RunEnabled(w, [OpTick(n), OpTick(m)])
    requires o != NullTimer && FiresEachTick(View(w), i, o) && n + m > U32_MAX
    ensures !Countable(w, [OpTick(n), OpTick(m)], o)
  {
    var ops := [OpTick(n), OpTick(m)];
    RunUnfolds(w, ops, o);
    var w' := TicksQueue(w, i, o, n);
    StepTidy(w, OpTick(n));
    assert ops[1..] == [OpTick(m)];
    RunUnfolds(w', [OpTick(m)], o);
    var w'' := TicksQueue(w', i, o, m);
  }

  lemma {:induction false} TicksSpendHeadroom(w: State, n: nat, m: nat)
    requires Inv(w) && Fits(w) && Headroom(w, n + m)
    ensures Headroom(w, n) && Inv(Ticks(w, n)) && Fits(Ticks(w, n)) && Headroom(Ticks(w, n), m)
    decreases n
  {
    if n > 0 {
      Tick1SpendsHeadroom(w, n + m);
      Tick1Refines(w);
      TicksSpendHeadroom(Tick1(w), n - 1, m);
      TicksRefine(w, n);
    }
  }

  lemma TwoTicksEnabled(w: State, n: u32, m: u32)
    requires Running(w) && Headroom(w, n + m)
    ensures RunEnabled(w, [OpTick(n), OpTick(m)]) && RunDisciplined(w, [OpTick(n), OpTick(m)])
  {
    TicksSpendHeadroom(w, n, m);
    StepRuns(w, OpTick(n));
    assert [OpTick(n), OpTick(m)][1..] == [OpTick(m)];
    var w' := Step(w, OpTick(n)).state;
    assert RunEnabled(w', [OpTick(m)]) && RunDisciplined(w', [OpTick(m)]);
  }

  // ---- From power-on ----

  /** A new wheel's books are in order, and it knows no device. */
  lemma NewTidy(ips: u32, o: Owner)
    ensures Tidy(Initialize(New(), ips)) && Initialize(New(), ips).fired == []
    ensures o != NullTimer ==> !Registered(Initialize(New(), ips).timers, o)
  {
    var w := Initialize(New(), ips);
    forall i | 0 <= i < MAX_TIMERS && w.timers[i].inUse ensures i == 0 {
      assert w.timers[i] == if i == 0 then NullSlot() else EmptySlot();
    }
    assert w.timers[0] == NullSlot();
  }

  /** The first registration takes slot 1. */
  lemma FirstSlot(ips: u32, owner: Owner, id: seq<byte>) returns (w0: State, w: State)
    ensures w0 == Initialize(New(), ips) && Running(w0)
    ensures w == Step(w0, OpRegister(owner, 1, true, true, id)).state
    ensures Now(w) == 0 && |w.timers| == MAX_TIMERS && w.fired == []
    ensures w.timers[1] == Timer(true, true, true, 1, 1, owner, PadId(id))
    ensures forall i :: 0 <= i < MAX_TIMERS ==> w.timers[i].period <= NULL_INTERVAL
  {
    w0 := Initialize(New(), ips);
    NewRuns(ips);
    assert w0.timers[1] == EmptySlot();
    assert FreeSlot(w0.timers, 1) == 1;
    w := Step(w0, OpRegister(owner, 1, true, true, id)).state;
    forall i | 0 <= i < MAX_TIMERS ensures w.timers[i].period <= NULL_INTERVAL {
      assert i != 1 ==> w.timers[i] == w0.timers[i] == if i == 0 then NullSlot() else EmptySlot();
    }
  }

  /** Registering a timer of period one on a new wheel arms it for every tick. */
  lemma FirstTimer(ips: u32, owner: Owner, id: seq<byte>) returns (w0: State, w: State)
    requires owner != NullTimer && OnWire(owner) && CleanId(PadId(id))
    ensures w0 == Initialize(New(), ips) && Running(w0) && Tidy(w0)
    ensures var op := OpRegister(owner, 1, true, true, id); w == Step(w0, op).state && Disciplined(w0, op)
    ensures Running(w) && Tidy(w) && FiresEachTick(View(w), 1, owner)
    ensures forall n: nat :: n <= 2 * U32_MAX ==> Headroom(w, n)
  {
    w0, w := FirstSlot(ips, owner, id);
    NewTidy(ips, owner);
    StepRuns(w0, OpRegister(owner, 1, true, true, id));
    StepTidy(w0, OpRegister(owner, 1, true, true, id));
  }

  /** One more step in front of a run that loses a fire. */
  lemma StepBefore(w: State, op: Op, ops: seq<Op>, o: Owner)
    requires Running(w) && Enabled(w, op) && Disciplined(w, op)
    requires Running(Step(w, op).state) && RunEnabled(Step(w, op).state, ops) && RunDisciplined(Step(w, op).state, ops)
    requires !Countable(Step(w, op).state, ops, o)
    ensures RunEnabled(w, [op] + ops) && RunDisciplined(w, [op] + ops) && !Countable(w, [op] + ops, o)
  {
    var all := [op] + ops;
    assert all[0] == op && all[1..] == ops;
    assert RunEnabled(w, all);
    RunUnfolds(w, all, o);
  }

  /** A device that registers a timer for every tick, then ticks of together 2^32 or more: a fire is lost. */
  lemma FireLostReachably(ips: u32, owner: Owner, id: seq<byte>, n: u32, m: u32) returns (w: State)
    requires owner != NullTimer && OnWire(owner) && CleanId(PadId(id)) && n + m > U32_MAX
    ensures w == Initialize(New(), ips) && Running(w) && Tidy(w)
    ensures var ops := [OpRegister(owner, 1, true, true, id)] + [OpTick(n), OpTick(m)];
            && RunEnabled(w, ops) && RunDisciplined(w, ops)
            && RunDrained(w, ops, owner) + Total(Run(w, ops).fired, owner) < Total(w.fired, owner) + RunReached(w, ops, owner)
  {
    var w1: State;
    w, w1 := FirstTimer(ips, owner, id);
    TwoTicksEnabled(w1, n, m);
    TwoTicksOverflow(w1, 1, owner, n, m);
    StepBefore(w, OpRegister(owner, 1, true, true, id), [OpTick(n), OpTick(m)], owner);
    FiresAreConserved(w, [OpRegister(owner, 1, true, true, id)] + [OpTick(n), OpTick(m)], owner);
  }
}
