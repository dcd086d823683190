/**
 Whole runs of the timer wheel: any mix of registering, arming, disarming,
 ticking and draining.
 */
module WheelRuns {
  import opened Base
  import opened TimerTypes
  import opened Wheel
  import opened WheelRefinement

  datatype Op =
    | OpRegister(owner: Owner, period: u64, continuous: bool, active: bool, id: seq<byte>)
    | OpRegisterUsec(owner: Owner, usec: u32, continuous: bool, active: bool, id: seq<byte>)
    | OpActivateAt(slot: nat, deadline: u64, continuous: bool)
    | OpActivateAtWithPeriod(slot: nat, deadline: u64, period: u64, continuous: bool)
    | OpActivate(slot: nat, period: u64, continuous: bool)
    | OpActivateUsec(slot: nat, usec: u32, continuous: bool)
    | OpActivateNsec(slot: nat, nsec: u64, continuous: bool)
    | OpReactivate(slot: nat, period: u64)
    | OpDeactivate(slot: nat)
    | OpUnregister(slot: nat)
    | OpTick(n: u32)
    | OpDrain
    | OpSetA20(on: bool)
    | OpReset

  const NANOS: nat := 1_000_000_000

  function RegisterUsec(w: State, owner: Owner, usec: nat, continuous: bool, active: bool, id: seq<byte>): Reply
    requires |w.timers| == MAX_TIMERS && w.countdown <= w.period
  {
    var ticks := usec * w.ips / MICROS;
    if ticks >= U64_LIMIT then Reply(w, Some(TimeConversionOverflow))
    else Register(w, owner, ticks, continuous, active, id)
  }

  /** What one operation does; a failed operation answers with its error. */
  function Step(w: State, op: Op): Reply
    requires WellFormed(w)
  {
    match op
    case OpRegister(owner, period, c, a, id) => Register(w, owner, period, c, a, id)
    case OpRegisterUsec(owner, usec, c, a, id) => RegisterUsec(w, owner, usec, c, a, id)
    case OpActivateAt(i, d, c) => ActivateAt(w, i, d, c)
    case OpActivateAtWithPeriod(i, d, p, c) => ActivateAtWithPeriod(w, i, d, p, c)
    case OpActivate(i, p, c) => Activate(w, i, p, c)
    case OpActivateUsec(i, usec, c) => ActivateIn(w, i, usec, MICROS, c)
    case OpActivateNsec(i, nsec, c) => ActivateIn(w, i, nsec, NANOS, c)
    case OpReactivate(i, p) => Reactivate(w, i, p)
    case OpDeactivate(i) => Deactivate(w, i)
    case OpUnregister(i) => Unregister(w, i)
    case OpTick(n) => Reply(Ticks(w, n), None)
    case OpDrain => Reply(Drain(w), None)
    case OpSetA20(on) => Reply(SetA20(w, on), None)
    case OpReset => Reply(Reset(w), None)
  }

  /** A wheel in working order, every tick value of it in 64 bits. */
  ghost predicate Running(w: State) {
    Inv(w) && Fits(w)
  }

  /** The one demand on a run: time stays below 2^64. */
  ghost predicate Enabled(w: State, op: Op)
    requires WellFormed(w)
  {
    op.OpTick? ==> Headroom(w, op.n)
  }

  // ---- Every operation keeps the wheel running ----

  lemma ActivateAtRuns(w: State, i: nat, deadline: u64, continuous: bool)
    requires Running(w)
    ensures Running(ActivateAt(w, i, deadline, continuous).state)
    ensures Now(ActivateAt(w, i, deadline, continuous).state) == Now(w)
    ensures IndexError(w, i).None? ==> ActivateAt(w, i, deadline, continuous).error.None?
  {
    assert w.timers[0].active;
  }

  lemma SetPeriodRuns(w: State, i: nat, period: u64)
    requires Running(w) && IndexError(w, i).None? && period >= 1
    ensures Running(SetSlot(w, i, w.timers[i].(period := period)))
  {
  }

  lemma ActivateRuns(w: State, i: nat, period: u64, continuous: bool)
    requires Running(w)
    ensures Running(Activate(w, i, period, continuous).state)
    ensures Now(Activate(w, i, period, continuous).state) == Now(w)
  {
    var p := AtLeastOne(period);
    if IndexError(w, i).None? && Now(w) + p < U64_LIMIT {
      var w' := SetSlot(w, i, w.timers[i].(period := p));
      SetPeriodRuns(w, i, p);
      ActivateAtRuns(w', i, Now(w) + p, continuous);
      assert Activate(w, i, period, continuous) == ActivateAt(w', i, Now(w) + p, continuous);
    } else {
      assert Activate(w, i, period, continuous).state == w;
    }
  }

  lemma ActivateAtWithPeriodRuns(w: State, i: nat, deadline: u64, period: u64, continuous: bool)
    requires Running(w)
    ensures Running(ActivateAtWithPeriod(w, i, deadline, period, continuous).state)
    ensures Now(ActivateAtWithPeriod(w, i, deadline, period, continuous).state) == Now(w)
  {
    if IndexError(w, i).None? {
      SetPeriodRuns(w, i, AtLeastOne(period));
      ActivateAtRuns(SetSlot(w, i, w.timers[i].(period := AtLeastOne(period))), i, deadline, continuous);
    }
  }

  lemma ActivateInRuns(w: State, i: nat, span: nat, perSecond: nat, continuous: bool)
    requires Running(w) && perSecond > 0
    ensures Running(ActivateIn(w, i, span, perSecond, continuous).state)
    ensures Now(ActivateIn(w, i, span, perSecond, continuous).state) == Now(w)
  {
    if IndexError(w, i).None? {
      var ticks := span * w.ips / perSecond;
      if span == 0 {
        ActivateRuns(w, i, w.timers[i].period, continuous);
      } else if ticks < U64_LIMIT {
        ActivateRuns(w, i, AtLeastOne(ticks), continuous);
      }
    }
  }

  lemma ReactivateRuns(w: State, i: nat, period: u64)
    requires Running(w)
    ensures Running(Reactivate(w, i, period).state)
    ensures Now(Reactivate(w, i, period).state) == Now(w)
  {
    var p := AtLeastOne(period);
    if IndexError(w, i).None? && w.timers[i].deadline + p < U64_LIMIT {
      var w' := SetSlot(w, i, w.timers[i].(period := p));
      SetPeriodRuns(w, i, p);
      ActivateAtRuns(w', i, w.timers[i].deadline + p, false);
      assert Reactivate(w, i, period) == ActivateAt(w', i, w.timers[i].deadline + p, false);
    } else {
      assert Reactivate(w, i, period).state == w;
    }
  }

  lemma OccupyRuns(w: State, i: nat, t: Timer)
    requires Running(w) && 1 <= i < MAX_TIMERS && !w.timers[i].inUse
    requires t.inUse && !t.active && 1 <= t.period < U64_LIMIT && t.deadline < U64_LIMIT
    ensures Running(Occupy(w, i, t)) && Now(Occupy(w, i, t)) == Now(w)
  {
  }

  lemma RegisterInRuns(w: State, i: nat, t: Timer, active: bool)
    requires Running(w) && 1 <= i < MAX_TIMERS && !w.timers[i].inUse
    requires t.inUse && !t.active && 1 <= t.period < U64_LIMIT && t.deadline < U64_LIMIT
    ensures Running(RegisterIn(w, i, t, active).state)
    ensures Now(RegisterIn(w, i, t, active).state) == Now(w)
  {
    OccupyRuns(w, i, t);
    if active {
      ActivateAtRuns(Occupy(w, i, t), i, t.deadline, t.continuous);
    }
  }

  lemma RegisterRuns(w: State, owner: Owner, period: u64, continuous: bool, active: bool, id: seq<byte>)
    requires Running(w)
    ensures Running(Register(w, owner, period, continuous, active, id).state)
    ensures Now(Register(w, owner, period, continuous, active, id).state) == Now(w)
  {
    var p := AtLeastOne(period);
    var i := FreeSlot(w.timers, 1);
    if i < MAX_TIMERS && Now(w) + p < U64_LIMIT {
      var t := Timer(true, false, continuous, p, Now(w) + p, owner, PadId(id));
      RegisterInRuns(w, i, t, active);
      assert Register(w, owner, period, continuous, active, id) == RegisterIn(w, i, t, active);
    } else {
      assert Register(w, owner, period, continuous, active, id).state == w;
    }
  }

  lemma RegisterUsecRuns(w: State, owner: Owner, usec: nat, continuous: bool, active: bool, id: seq<byte>)
    requires Running(w)
    ensures Running(RegisterUsec(w, owner, usec, continuous, active, id).state)
    ensures Now(RegisterUsec(w, owner, usec, continuous, active, id).state) == Now(w)
  {
    var ticks := usec * w.ips / MICROS;
    if ticks < U64_LIMIT {
      RegisterRuns(w, owner, ticks, continuous, active, id);
    }
  }

  lemma UnregisterRuns(w: State, i: nat)
    requires Running(w)
    ensures Running(Unregister(w, i).state)
    ensures Now(Unregister(w, i).state) == Now(w)
  {
  }

  lemma TickRuns(w: State, n: nat)
    requires Running(w) && Headroom(w, n)
    ensures Running(Ticks(w, n)) && Now(Ticks(w, n)) == Now(w) + n
  {
    TicksRefine(w, n);
    NaiveClock(View(w), n);
  }

  /** Only ticking moves the clock, and every operation leaves a running wheel running. */
  lemma StepRuns(w: State, op: Op)
    requires Running(w) && Enabled(w, op)
    ensures Running(Step(w, op).state)
    ensures Now(Step(w, op).state) == Now(w) + (if op.OpTick? then op.n else 0)
  {
    match op
    case OpRegister(owner, period, c, a, id) => RegisterRuns(w, owner, period, c, a, id);
    case OpRegisterUsec(owner, usec, c, a, id) => RegisterUsecRuns(w, owner, usec, c, a, id);
    case OpActivateAt(i, d, c) => ActivateAtRuns(w, i, d, c);
    case OpActivateAtWithPeriod(i, d, p, c) => ActivateAtWithPeriodRuns(w, i, d, p, c);
    case OpActivate(i, p, c) => ActivateRuns(w, i, p, c);
    case OpActivateUsec(i, usec, c) => ActivateInRuns(w, i, usec, MICROS, c);
    case OpActivateNsec(i, nsec, c) => ActivateInRuns(w, i, nsec, NANOS, c);
    case OpReactivate(i, p) => ReactivateRuns(w, i, p);
    case OpDeactivate(i) =>
    case OpUnregister(i) => UnregisterRuns(w, i);
    case OpTick(n) => TickRuns(w, n);
    case OpDrain =>
    case OpSetA20(on) =>
    case OpReset =>
  }

  lemma {:induction false} NaiveClock(o: Naive, n: nat)
    ensures NaiveTicks(o, n).now == o.now + n
    decreases n
  {
    if n > 0 {
      NaiveClock(NaiveTick(o), n - 1);
    }
  }

  // ---- What an operation leaves alone ----

  /** Only slot `i` moved, and not its identity; nothing was queued, freed or claimed. */
  ghost predicate Rearmed(w: State, r: State, i: nat) {
    && |r.timers| == |w.timers| && r.fired == w.fired && r.ips == w.ips && r.board == w.board
    && (forall j :: 0 <= j < |w.timers| && j != i ==> r.timers[j] == w.timers[j])
    && (i < |w.timers| ==>
          && r.timers[i].inUse == w.timers[i].inUse
          && r.timers[i].owner == w.timers[i].owner
          && r.timers[i].id == w.timers[i].id)
  }

  lemma ActivateAtRearms(w: State, i: nat, deadline: nat, continuous: bool)
    requires |w.timers| == MAX_TIMERS && w.countdown <= w.period
    ensures Rearmed(w, ActivateAt(w, i, deadline, continuous).state, i)
  {
  }

  lemma SetPeriodRearms(w: State, i: nat, period: nat, deadline: nat, continuous: bool)
    requires |w.timers| == MAX_TIMERS && w.countdown <= w.period && IndexError(w, i).None?
    ensures Rearmed(w, ActivateAt(SetSlot(w, i, w.timers[i].(period := period)), i, deadline, continuous).state, i)
  {
    ActivateAtRearms(SetSlot(w, i, w.timers[i].(period := period)), i, deadline, continuous);
  }

  lemma ActivateRearms(w: State, i: nat, period: nat, continuous: bool)
    requires |w.timers| == MAX_TIMERS && w.countdown <= w.period
    ensures Rearmed(w, Activate(w, i, period, continuous).state, i)
  {
    if IndexError(w, i).None? {
      SetPeriodRearms(w, i, AtLeastOne(period), Now(w) + AtLeastOne(period), continuous);
    }
  }

  lemma ActivateAtWithPeriodRearms(w: State, i: nat, deadline: nat, period: nat, continuous: bool)
    requires |w.timers| == MAX_TIMERS && w.countdown <= w.period
    ensures Rearmed(w, ActivateAtWithPeriod(w, i, deadline, period, continuous).state, i)
  {
    if IndexError(w, i).None? {
      SetPeriodRearms(w, i, AtLeastOne(period), deadline, continuous);
    }
  }

  lemma ReactivateRearms(w: State, i: nat, period: nat)
    requires |w.timers| == MAX_TIMERS && w.countdown <= w.period
    ensures Rearmed(w, Reactivate(w, i, period).state, i)
  {
    if IndexError(w, i).None? {
      SetPeriodRearms(w, i, AtLeastOne(period), w.timers[i].deadline + AtLeastOne(period), false);
    }
  }

  predicate Rearms(op: Op) {
    op.OpActivateAt? || op.OpActivateAtWithPeriod? || op.OpActivate? || op.OpActivateUsec? || op.OpActivateNsec? ||
    op.OpReactivate? || op.OpDeactivate?
  }

  lemma StepRearms(w: State, op: Op)
    requires WellFormed(w) && Rearms(op)
    ensures Rearmed(w, Step(w, op).state, op.slot)
  {
    match op
    case OpActivateAt(i, d, c) => ActivateAtRearms(w, i, d, c);
    case OpActivateAtWithPeriod(i, d, p, c) => ActivateAtWithPeriodRearms(w, i, d, p, c);
    case OpActivate(i, p, c) => ActivateRearms(w, i, p, c);
    case OpActivateUsec(i, usec, c) => ActivateInRearms(w, i, usec, MICROS, c);
    case OpActivateNsec(i, nsec, c) => ActivateInRearms(w, i, nsec, NANOS, c);
    case OpReactivate(i, p) => ReactivateRearms(w, i, p);
    case OpDeactivate(i) =>
  }

  lemma ActivateInRearms(w: State, i: nat, span: nat, perSecond: nat, continuous: bool)
    requires WellFormed(w) && perSecond > 0
    ensures Rearmed(w, ActivateIn(w, i, span, perSecond, continuous).state, i)
  {
    if IndexError(w, i).None? {
      ActivateRearms(w, i, w.timers[i].period, continuous);
      ActivateRearms(w, i, AtLeastOne(span * w.ips / perSecond), continuous);
    }
  }

  // ---- Runs ----

  ghost predicate RunEnabled(w: State, ops: seq<Op>)
    requires Running(w)
    decreases |ops|
  {
    ops == [] || (
      && Enabled(w, ops[0])
      && (StepRuns(w, ops[0]); RunEnabled(Step(w, ops[0]).state, ops[1..])))
  }

  ghost function Run(w: State, ops: seq<Op>): (r: State)
    requires Running(w) && RunEnabled(w, ops)
    ensures Running(r)
    decreases |ops|
  {
    if ops == [] then w
    else
      StepRuns(w, ops[0]);
      Run(Step(w, ops[0]).state, ops[1..])
  }

  lemma NewRuns(ips: nat)
    ensures Running(New()) && Running(Initialize(New(), ips))
  {
    var w := New();
    forall i | 0 <= i < MAX_TIMERS
      ensures SlotWellFormed(w.timers[i], i, w.numTimers)
      ensures w.timers[i].deadline <= NULL_INTERVAL && w.timers[i].period <= NULL_INTERVAL
    {
      assert w.timers[i] == if i == 0 then NullSlot() else EmptySlot();
    }
    assert w.timers[0] == NullSlot();
    forall i | 0 <= i < MAX_TIMERS && w.timers[i].active ensures i == 0 {
      assert w.timers[i] == if i == 0 then NullSlot() else EmptySlot();
    }
  }

  /**
   In every run the countdown is between 1 and its period and no active timer is
   overdue or due before the next event.
   */
  lemma NeverOverdue(ops: seq<Op>, ips: nat, i: nat)
    requires Running(Initialize(New(), ips)) && RunEnabled(Initialize(New(), ips), ops)
    requires i < MAX_TIMERS
    ensures var w := Run(Initialize(New(), ips), ops);
            && 1 <= w.countdown <= w.period
            && (w.timers[i].active ==> Now(w) < NextEvent(w) <= w.timers[i].deadline)
  {
    var w := Run(Initialize(New(), ips), ops);
    assert NothingSkipped(w);
  }

  /**
   `initialize` on a wheel already in use is another matter: it moves the next
   event without looking at the timers, so it leaves a working wheel exactly when
   no device timer is armed before the null timer's first deadline.
   */
  lemma InitializeMidRun(w: State, ips: nat)
    requires Running(w)
    ensures Running(Initialize(w, ips)) <==>
            forall i :: 1 <= i < MAX_TIMERS && w.timers[i].active ==> NULL_INTERVAL <= w.timers[i].deadline
  {
    var w' := Initialize(w, ips);
    if forall i :: 1 <= i < MAX_TIMERS && w.timers[i].active ==> NULL_INTERVAL <= w.timers[i].deadline {
      assert NothingSkipped(w');
    }
    forall i | 1 <= i < MAX_TIMERS ensures w'.timers[i] == w.timers[i] {
    }
  }

  lemma FirstRegistration(w: State, ips: nat, owner: Owner, period: u64, id: seq<byte>)
    requires w == Initialize(New(), ips) && 0 < period < NULL_INTERVAL
    ensures var r := Register(w, owner, period, false, true, id).state;
            |r.timers| == MAX_TIMERS && r.timers[1].active && r.timers[1].deadline == period
  {
    assert w.timers[1] == EmptySlot();
    assert FreeSlot(w.timers, 1) == 1;
  }

  /** One registration is enough for it: initializing again with any timer armed sooner breaks the invariant. */
  lemma InitializeMidRunIsReachable(ips: nat, owner: Owner, period: u64, id: seq<byte>)
    requires 0 < period < NULL_INTERVAL
    ensures Running(Initialize(New(), ips))
    ensures var w := Step(Initialize(New(), ips), OpRegister(owner, period, false, true, id)).state;
            Running(w) && !Running(Initialize(w, ips))
  {
    NewRuns(ips);
    var op := OpRegister(owner, period, false, true, id);
    StepRuns(Initialize(New(), ips), op);
    FirstRegistration(Initialize(New(), ips), ips, owner, period, id);
    InitializeMidRun(Step(Initialize(New(), ips), op).state, ips);
  }

  // ---- A timer nobody disturbs ----

  predicate Names(op: Op, i: nat) {
    (Rearms(op) || op.OpUnregister?) && op.slot == i
  }

  lemma RegisterSpares(w: State, owner: Owner, period: nat, continuous: bool, active: bool, id: seq<byte>, i: nat)
    requires WellFormed(w) && i < MAX_TIMERS && w.timers[i].inUse
    ensures Register(w, owner, period, continuous, active, id).state.timers[i] == w.timers[i]
  {
  }

  lemma StepSpares(w: State, op: Op, i: nat)
    requires WellFormed(w) && i < MAX_TIMERS && w.timers[i].inUse && !Names(op, i) && !op.OpTick?
    ensures |Step(w, op).state.timers| == MAX_TIMERS && Step(w, op).state.timers[i] == w.timers[i]
  {
    if Rearms(op) {
      StepRearms(w, op);
    } else if op.OpRegister? {
      RegisterSpares(w, op.owner, op.period, op.continuous, op.active, op.id, i);
    } else if op.OpRegisterUsec? {
      RegisterSpares(w, op.owner, op.usec * w.ips / MICROS, op.continuous, op.active, op.id, i);
    }
  }

  lemma StepKeepsPhase(w: State, op: Op, i: nat, first: nat)
    requires Running(w) && Enabled(w, op) && i < MAX_TIMERS && !Names(op, i)
    requires w.timers[i].active && w.timers[i].continuous
    requires w.timers[i].deadline == Phase(first, w.timers[i].period, Now(w))
    ensures Running(Step(w, op).state)
    ensures Step(w, op).state.timers[i] ==
            w.timers[i].(deadline := Phase(first, w.timers[i].period, Now(Step(w, op).state)))
  {
    StepRuns(w, op);
    if op.OpTick? {
      TicksRefine(w, op.n);
      ContinuousTimerKeepsPhase(View(w), op.n, i, first);
      assert Step(w, op).state.timers == View(Ticks(w, op.n)).timers;
    } else {
      StepSpares(w, op, i);
    }
  }

  /**
   Whatever the rest of the machine does to other timers, a continuous timer that
   no operation names keeps firing at its first deadline plus whole periods.
   */
  lemma {:induction false} UndisturbedTimerKeepsPhase(w: State, ops: seq<Op>, i: nat, first: nat)
    requires Running(w) && RunEnabled(w, ops) && i < MAX_TIMERS
    requires forall k :: 0 <= k < |ops| ==> !Names(ops[k], i)
    requires w.timers[i].active && w.timers[i].continuous
    requires w.timers[i].deadline == Phase(first, w.timers[i].period, Now(w))
    ensures Run(w, ops).timers[i] == w.timers[i].(deadline := Phase(first, w.timers[i].period, Now(Run(w, ops))))
    decreases |ops|
  {
    if ops != [] {
      var w' := Step(w, ops[0]).state;
      StepKeepsPhase(w, ops[0], i, first);
      UndisturbedTimerKeepsPhase(w', ops[1..], i, first);
    }
  }

  lemma InPhaseAfter(w: State, ops: seq<Op>, i: nat, first: nat) returns (t: Timer, now: nat)
    requires Running(w) && RunEnabled(w, ops) && i < MAX_TIMERS
    requires forall k :: 0 <= k < |ops| ==> !Names(ops[k], i)
    requires w.timers[i].active && w.timers[i].continuous
    requires w.timers[i].deadline == Phase(first, w.timers[i].period, Now(w))
    ensures t == Run(w, ops).timers[i] && now == Now(Run(w, ops))
    ensures t.active && t.period == w.timers[i].period >= 1 && t.deadline == Phase(first, t.period, now)
  {
    UndisturbedTimerKeepsPhase(w, ops, i, first);
    t, now := Run(w, ops).timers[i], Now(Run(w, ops));
  }

  /** So after any such run the next tick fires it exactly when that tick is on its beat. */
  lemma UndisturbedTimerFires(w: State, ops: seq<Op>, i: nat, first: nat) returns (t: Timer, now: nat)
    requires Running(w) && RunEnabled(w, ops) && i < MAX_TIMERS
    requires forall k :: 0 <= k < |ops| ==> !Names(ops[k], i)
    requires w.timers[i].active && w.timers[i].continuous
    requires w.timers[i].deadline == Phase(first, w.timers[i].period, Now(w))
    ensures t == Run(w, ops).timers[i] && now == Now(Run(w, ops)) && t.period == w.timers[i].period
    ensures Reached(t, now + 1) <==> BeatNext(first, t.period, now)
  {
    t, now := InPhaseAfter(w, ops, i, first);
    FiresOnPhase(t, first, now);
  }
}
