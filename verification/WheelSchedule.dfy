/**
 The tick each arming operation arms a timer for (`rusty_box/src/pc_system.rs`, lines
 1096-1332), stated by what it means and not by how it is computed, and what comes of it
 over any run that then leaves the timer alone.
 */
module WheelSchedule {
  import opened Base
  import opened Arith
  import opened TimerTypes
  import opened TimerWire
  import opened Wheel
  import opened WheelRefinement
  import opened WheelRuns
  import opened WheelAccounts
  import opened WheelArming

  /** `t` whole ticks fit into `span` units of which `perSecond` make a second, and no more. */
  predicate WholeTicks(t: nat, span: nat, ips: nat, perSecond: nat) {
    t * perSecond <= span * ips < (t + 1) * perSecond
  }

  /** A period of `p` ticks, or of one if `p` is none. */
  predicate PeriodOf(period: nat, p: nat) {
    period >= 1 && period >= p && (period == p || period == 1)
  }

  /** The deadline itself, or the next tick if it is not ahead. */
  predicate FirstAt(first: nat, deadline: nat, now: nat) {
    if now < deadline then first == deadline else first == now + 1
  }

  predicate Arms(op: Op) {
    Rearms(op) && !op.OpDeactivate?
  }

  /** A span of zero keeps the period the timer `t` has. */
  predicate SpanOf(period: nat, t: Timer, span: nat, ticks: nat, ips: nat, perSecond: nat) {
    if span == 0 then period == t.period else WholeTicks(ticks, span, ips, perSecond) && PeriodOf(period, ticks)
  }

  /** The first tick and the period a timer `t` is armed for; `ticks` is a span in whole ticks. */
  ghost predicate Schedules(w: State, op: Op, t: Timer, ticks: nat, first: nat, period: nat)
    requires WellFormed(w) && Arms(op)
  {
    match op
    case OpActivateAt(_, d, _) => period == t.period && FirstAt(first, d, Now(w))
    case OpActivateAtWithPeriod(_, d, p, _) => PeriodOf(period, p) && FirstAt(first, d, Now(w))
    case OpActivate(_, p, _) => PeriodOf(period, p) && first == Now(w) + period
    case OpActivateUsec(_, usec, _) => SpanOf(period, t, usec, ticks, w.ips, MICROS) && first == Now(w) + period
    case OpActivateNsec(_, nsec, _) => SpanOf(period, t, nsec, ticks, w.ips, NANOS) && first == Now(w) + period
    case OpReactivate(_, p) => PeriodOf(period, p) && FirstAt(first, t.deadline + period, Now(w))
  }

  predicate Continuously(op: Op)
    requires Arms(op)
  {
    !op.OpReactivate? && op.continuous
  }

  /** What has to fit in 64 bits for the operation to be taken. */
  ghost predicate Representable(w: State, op: Op, t: Timer, ticks: nat, period: nat)
    requires WellFormed(w) && Arms(op)
  {
    match op
    case OpActivateAt(_, _, _) => true
    case OpActivateAtWithPeriod(_, _, _, _) => true
    case OpActivate(_, _, _) => Now(w) + period < U64_LIMIT
    case OpActivateUsec(_, usec, _) => (usec != 0 ==> ticks < U64_LIMIT) && Now(w) + period < U64_LIMIT
    case OpActivateNsec(_, nsec, _) => (nsec != 0 ==> ticks < U64_LIMIT) && Now(w) + period < U64_LIMIT
    case OpReactivate(_, _) => t.deadline + period < U64_LIMIT
  }

  // ---- Operation by operation ----

  /** Slot `i` runs from tick `first` with `period`; the clock and the other slots are as they were. */
  ghost predicate ArmedAs(w: State, r: State, i: nat, first: nat, period: nat, continuous: bool) {
    && |w.timers| == |r.timers| == MAX_TIMERS && i < MAX_TIMERS && w.countdown <= w.period && r.countdown <= r.period
    && Now(r) == Now(w) < first
    && r.timers == w.timers[i := w.timers[i].(active := true, deadline := first, period := period, continuous := continuous)]
  }

  lemma FloorTicks(span: nat, ips: nat, perSecond: nat) returns (ticks: nat)
    requires perSecond > 0
    ensures ticks == span * ips / perSecond && WholeTicks(ticks, span, ips, perSecond)
  {
    var r: nat;
    ticks, r := Split(span * ips, perSecond);
    assert (ticks + 1) * perSecond == ticks * perSecond + perSecond;
  }

  lemma ActivateAtArms(w: State, i: nat, d: nat, continuous: bool) returns (first: nat)
    requires Running(w) && IndexError(w, i).None?
    ensures FirstAt(first, d, Now(w)) && ActivateAt(w, i, d, continuous).error.None?
    ensures ArmedAs(w, ActivateAt(w, i, d, continuous).state, i, first, w.timers[i].period, continuous)
  {
    first := if d <= Now(w) then Now(w) + 1 else d;
    assert w.timers[0].active;
  }

  /** Arming a slot whose period was set first. */
  lemma PeriodThenArms(w: State, i: nat, p: nat, d: nat, continuous: bool) returns (first: nat, period: nat)
    requires Running(w) && IndexError(w, i).None? && p < U64_LIMIT
    ensures PeriodOf(period, p) && FirstAt(first, d, Now(w))
    ensures var r := ActivateAt(SetSlot(w, i, w.timers[i].(period := AtLeastOne(p))), i, d, continuous);
            r.error.None? && ArmedAs(w, r.state, i, first, period, continuous)
  {
    period := AtLeastOne(p);
    var w' := SetSlot(w, i, w.timers[i].(period := period));
    SetPeriodRuns(w, i, period);
    first := ActivateAtArms(w', i, d, continuous);
    var t := w.timers[i];
    assert w.timers[i := t.(period := period)][i := t.(active := true, deadline := first, period := period, continuous := continuous)] ==
           w.timers[i := t.(active := true, deadline := first, period := period, continuous := continuous)];
  }

  lemma ActivateArms(w: State, i: nat, p: nat, continuous: bool) returns (first: nat, period: nat)
    requires Running(w) && IndexError(w, i).None? && p < U64_LIMIT
    ensures PeriodOf(period, p) && first == Now(w) + period
    ensures Activate(w, i, p, continuous).error.None? <==> Now(w) + period < U64_LIMIT
    ensures Activate(w, i, p, continuous).error.None? ==>
              ArmedAs(w, Activate(w, i, p, continuous).state, i, first, period, continuous)
    ensures Activate(w, i, p, continuous).error.Some? ==> Activate(w, i, p, continuous) == Reply(w, Some(TimerDeadlineOverflow))
  {
    var d := Now(w) + AtLeastOne(p);
    first, period := PeriodThenArms(w, i, p, d, continuous);
    assert period == AtLeastOne(p);
  }

  lemma ReactivateArms(w: State, i: nat, p: nat) returns (first: nat, period: nat)
    requires Running(w) && IndexError(w, i).None? && p < U64_LIMIT
    ensures PeriodOf(period, p) && FirstAt(first, w.timers[i].deadline + period, Now(w))
    ensures Reactivate(w, i, p).error.None? <==> w.timers[i].deadline + period < U64_LIMIT
    ensures Reactivate(w, i, p).error.None? ==> ArmedAs(w, Reactivate(w, i, p).state, i, first, period, false)
    ensures Reactivate(w, i, p).error.Some? ==> Reactivate(w, i, p) == Reply(w, Some(TimerDeadlineOverflow))
  {
    var d := w.timers[i].deadline + AtLeastOne(p);
    first, period := PeriodThenArms(w, i, p, d, false);
    assert period == AtLeastOne(p);
  }

  lemma ActivateInArms(w: State, i: nat, span: nat, perSecond: nat, continuous: bool)
    returns (ticks: nat, first: nat, period: nat)
    requires Running(w) && IndexError(w, i).None? && perSecond > 0
    ensures SpanOf(period, w.timers[i], span, ticks, w.ips, perSecond) && first == Now(w) + period
    ensures var r := ActivateIn(w, i, span, perSecond, continuous);
            && (r.error.None? <==> (span != 0 ==> ticks < U64_LIMIT) && Now(w) + period < U64_LIMIT)
            && (r.error.None? ==> ArmedAs(w, r.state, i, first, period, continuous))
            && (r.error.Some? ==> r.state == w)
  {
    ticks := FloorTicks(span, w.ips, perSecond);
    if span == 0 {
      first, period := ActivateArms(w, i, w.timers[i].period, continuous);
    } else if ticks < U64_LIMIT {
      first, period := ActivateArms(w, i, AtLeastOne(ticks), continuous);
    } else {
      period := ticks;
      first := Now(w) + period;
    }
  }

  /**
   Each arming operation on a slot in use arms it for the tick its arguments mean, or is
   refused and changes nothing, exactly when that tick or the span does not fit in 64 bits.
   */
  lemma ArmingSchedules(w: State, op: Op) returns (ticks: nat, first: nat, period: nat)
    requires Running(w) && Arms(op) && IndexError(w, op.slot).None?
    ensures Schedules(w, op, w.timers[op.slot], ticks, first, period)
    ensures Step(w, op).error.None? <==> Representable(w, op, w.timers[op.slot], ticks, period)
    ensures Step(w, op).error.None? ==> ArmedAs(w, Step(w, op).state, op.slot, first, period, Continuously(op))
    ensures Step(w, op).error.Some? ==> Step(w, op).state == w
  {
    ticks := 0;
    match op
    case OpActivateAt(i, d, c) =>
      period := w.timers[i].period;
      first := ActivateAtArms(w, i, d, c);
    case OpActivateAtWithPeriod(i, d, p, c) =>
      first, period := PeriodThenArms(w, i, p, d, c);
    case OpActivate(i, p, c) =>
      first, period := ActivateArms(w, i, p, c);
    case OpActivateUsec(i, usec, c) =>
      ticks, first, period := ActivateInArms(w, i, usec, MICROS, c);
    case OpActivateNsec(i, nsec, c) =>
      ticks, first, period := ActivateInArms(w, i, nsec, NANOS, c);
    case OpReactivate(i, p) =>
      first, period := ReactivateArms(w, i, p);
  }

  /** Which slots an operation may name, and what it answers otherwise, changing nothing. */
  lemma NamesOnlySlotsInUse(w: State, op: Op)
    requires WellFormed(w) && (Rearms(op) || op.OpUnregister?)
    ensures IndexError(w, op.slot).None? <==> 1 <= op.slot < MAX_TIMERS && w.timers[op.slot].inUse
    ensures IndexError(w, op.slot).Some? ==> Step(w, op) == Reply(w, IndexError(w, op.slot))
    ensures op.slot >= MAX_TIMERS ==> IndexError(w, op.slot) == Some(TimerIndexOutOfBounds(op.slot))
    ensures op.slot == 0 ==> IndexError(w, op.slot) == Some(NullTimerModification)
    ensures 1 <= op.slot < MAX_TIMERS && !w.timers[op.slot].inUse ==> IndexError(w, op.slot) == Some(TimerNotInUse(op.slot))
  {
  }

  /**
   So after any arming operation that is taken, and over any run that then leaves the slot
   alone, the timer fires first on that tick, once, or again every period.
   */
  lemma ArmedTimerFires(w: State, op: Op, ops: seq<Op>) returns (ticks: nat, first: nat, period: nat, r: State)
    requires Running(w) && Arms(op) && Step(w, op).error.None?
    requires Running(Step(w, op).state) && RunEnabled(Step(w, op).state, ops) && Unnamed(ops, op.slot)
    ensures 1 <= op.slot < MAX_TIMERS && Schedules(w, op, w.timers[op.slot], ticks, first, period) && period >= 1
    ensures r == Run(Step(w, op).state, ops)
    ensures RunHits(Step(w, op).state, ops, op.slot) == Beats(first, period, Continuously(op), Now(r))
  {
    NamesOnlySlotsInUse(w, op);
    ticks, first, period := ArmingSchedules(w, op);
    r := TimerFiresWhenDue(Step(w, op).state, ops, op.slot);
  }

  /** And a continuous one keeps the phase of its first tick. */
  lemma ArmedTimerKeepsPhase(w: State, op: Op, ops: seq<Op>) returns (ticks: nat, first: nat, period: nat)
    requires Running(w) && Arms(op) && Continuously(op) && Step(w, op).error.None?
    requires Running(Step(w, op).state) && RunEnabled(Step(w, op).state, ops) && Unnamed(ops, op.slot)
    ensures 1 <= op.slot < MAX_TIMERS && Schedules(w, op, w.timers[op.slot], ticks, first, period) && period >= 1
    ensures var r := Run(Step(w, op).state, ops); r.timers[op.slot].deadline == Phase(first, period, Now(r))
  {
    NamesOnlySlotsInUse(w, op);
    ticks, first, period := ArmingSchedules(w, op);
    UndisturbedTimerKeepsPhase(Step(w, op).state, ops, op.slot, first);
  }

  // ---- Registering ----

  predicate Registers(op: Op) {
    op.OpRegister? || op.OpRegisterUsec?
  }

  /** The period a registration asks for, its span in whole ticks if it is given in microseconds. */
  ghost predicate Asks(w: State, op: Op, ticks: nat, period: nat)
    requires Registers(op)
  {
    match op
    case OpRegister(_, p, _, _, _) => ticks == 0 && PeriodOf(period, p)
    case OpRegisterUsec(_, usec, _, _, _) => WholeTicks(ticks, usec, w.ips, MICROS) && PeriodOf(period, ticks)
  }

  /** The lowest slot from 1 on that is not in use, or the number of slots. */
  ghost predicate LowestFree(ts: seq<Timer>, slot: nat) {
    && 1 <= slot <= |ts| && (forall j :: 1 <= j < slot ==> ts[j].inUse)
    && (slot < |ts| ==> !ts[slot].inUse)
  }

  lemma RegisterInTakes(w: State, slot: nat, t: Timer, active: bool)
    requires Running(w) && 1 <= slot < MAX_TIMERS && !w.timers[slot].inUse
    requires t.inUse && !t.active && 1 <= t.period < U64_LIMIT && Now(w) < t.deadline < U64_LIMIT
    ensures var r := RegisterIn(w, slot, t, active);
            && r.error.None? && r.state.countdown <= r.state.period && Now(r.state) == Now(w) && r.state.fired == w.fired
            && r.state.timers == w.timers[slot := t.(active := active)]
  {
    OccupyRuns(w, slot, t);
    if active {
      var first := ActivateAtArms(Occupy(w, slot, t), slot, t.deadline, t.continuous);
      assert w.timers[slot := t][slot := t.(active := true)] == w.timers[slot := t.(active := true)];
    }
  }

  lemma RegisterTakes(w: State, owner: Owner, p: nat, continuous: bool, active: bool, id: seq<byte>)
    returns (slot: nat, period: nat)
    requires Running(w) && p < U64_LIMIT
    ensures LowestFree(w.timers, slot) && PeriodOf(period, p)
    ensures var r := Register(w, owner, p, continuous, active, id);
            && (slot == MAX_TIMERS ==> r == Reply(w, Some(NoFreeTimerSlots)))
            && (slot < MAX_TIMERS && Now(w) + period >= U64_LIMIT ==> r == Reply(w, Some(TimerDeadlineOverflow)))
            && (slot < MAX_TIMERS && Now(w) + period < U64_LIMIT ==>
                  && r.error.None? && r.state.countdown <= r.state.period && Now(r.state) == Now(w) && r.state.fired == w.fired
                  && r.state.timers == w.timers[slot := Timer(true, active, continuous, period, Now(w) + period, owner, PadId(id))])
  {
    slot, period := FreeSlot(w.timers, 1), AtLeastOne(p);
    if slot < MAX_TIMERS && Now(w) + period < U64_LIMIT {
      var t := Timer(true, false, continuous, period, Now(w) + period, owner, PadId(id));
      RegisterInTakes(w, slot, t, active);
    }
  }

  /**
   A registration takes the lowest free slot for its owner, the first tick one period from
   now. It is refused, and changes nothing, exactly when no slot is free or a time does not
   fit in 64 bits.
   */
  lemma RegistrationSchedules(w: State, op: Op) returns (slot: nat, ticks: nat, period: nat)
    requires Running(w) && Registers(op)
    ensures LowestFree(w.timers, slot) && Asks(w, op, ticks, period)
    ensures Step(w, op).error.None? <==> slot < MAX_TIMERS && ticks < U64_LIMIT && Now(w) + period < U64_LIMIT
    ensures Step(w, op).error.Some? ==> Step(w, op).state == w
    ensures Step(w, op).error.None? ==>
              var r := Step(w, op).state;
              && r.countdown <= r.period && Now(r) == Now(w) && r.fired == w.fired
              && r.timers == w.timers[slot := Timer(true, op.active, op.continuous, period, Now(w) + period, op.owner, PadId(op.id))]
  {
    if op.OpRegister? {
      ticks := 0;
      slot, period := RegisterTakes(w, op.owner, op.period, op.continuous, op.active, op.id);
    } else {
      ticks := FloorTicks(op.usec, w.ips, MICROS);
      if ticks < U64_LIMIT {
        slot, period := RegisterTakes(w, op.owner, ticks, op.continuous, op.active, op.id);
      } else {
        slot, period := FreeSlot(w.timers, 1), ticks;
      }
    }
  }

  /** The name kept: up to 31 bytes of it, then zeros. */
  lemma NameKept(id: seq<byte>, k: nat)
    requires k < ID_LEN
    ensures PadId(id)[k] == if k < |id| && k < ID_LEN - 1 then id[k] else 0
  {
  }

  /** So a timer registered armed fires first one period after its registration, and one that is not is silent. */
  lemma RegisteredTimerFires(w: State, op: Op, ops: seq<Op>) returns (slot: nat, ticks: nat, period: nat, r: State)
    requires Running(w) && Registers(op) && Step(w, op).error.None?
    requires Running(Step(w, op).state) && RunEnabled(Step(w, op).state, ops) && Unnamed(ops, FreeSlot(w.timers, 1))
    ensures LowestFree(w.timers, slot) && slot < MAX_TIMERS && Asks(w, op, ticks, period) && period >= 1
    ensures r == Run(Step(w, op).state, ops)
    ensures RunHits(Step(w, op).state, ops, slot) ==
            if op.active then Beats(Now(w) + period, period, op.continuous, Now(r)) else 0
  {
    slot, ticks, period := RegistrationSchedules(w, op);
    OneLowestFree(w.timers, slot, FreeSlot(w.timers, 1));
    r := TimerFiresWhenDue(Step(w, op).state, ops, slot);
    FiresOf(Step(w, op).state.timers[slot], op.active, op.continuous, period, Now(w) + period, Now(r));
  }

  lemma FiresOf(t: Timer, active: bool, continuous: bool, period: nat, first: nat, end: nat)
    requires period >= 1 && t.active == active && t.continuous == continuous && t.period == period && t.deadline == first
    ensures Fires(t, end) == if active then Beats(first, period, continuous, end) else 0
  {
  }

  lemma OneLowestFree(ts: seq<Timer>, a: nat, b: nat)
    requires LowestFree(ts, a) && LowestFree(ts, b)
    ensures a == b
  {
  }

  // ---- Disarming and withdrawing ----

  /** Disarming is taken exactly on a slot in use, and changes nothing but that slot's arming. */
  lemma DisarmsSlot(w: State, i: nat)
    requires Running(w)
    ensures var r := Step(w, OpDeactivate(i));
            && (r.error.None? <==> 1 <= i < MAX_TIMERS && w.timers[i].inUse)
            && (r.error.None? ==> r.state == w.(timers := w.timers[i := w.timers[i].(active := false)]))
            && (r.error.Some? ==> r.state == w)
  {
  }

  /** A disarmed timer stays silent over any run that leaves it alone, and can be withdrawn at any point of it. */
  lemma DisarmedStaysSilent(w: State, i: nat, ops: seq<Op>) returns (r: State)
    requires Running(w) && Step(w, OpDeactivate(i)).error.None?
    requires Running(Step(w, OpDeactivate(i)).state) && RunEnabled(Step(w, OpDeactivate(i)).state, ops) && Unnamed(ops, i)
    ensures i < MAX_TIMERS && r == Run(Step(w, OpDeactivate(i)).state, ops)
    ensures RunHits(Step(w, OpDeactivate(i)).state, ops, i) == 0 && !r.timers[i].active
    ensures Step(r, OpUnregister(i)).error.None?
  {
    DisarmsSlot(w, i);
    r := TimerFiresWhenDue(Step(w, OpDeactivate(i)).state, ops, i);
    WithdrawsSlot(r, i);
  }

  /** Its owner then hears nothing at all. */
  lemma DisarmedOwnerHearsNothing(w: State, i: nat, ops: seq<Op>)
    requires Running(w) && Tidy(w) && Step(w, OpDeactivate(i)).error.None?
    requires Running(Step(w, OpDeactivate(i)).state) && RunEnabled(Step(w, OpDeactivate(i)).state, ops) && Unnamed(ops, i)
    requires RunDisciplined(Step(w, OpDeactivate(i)).state, ops)
    ensures i < MAX_TIMERS && RunReached(Step(w, OpDeactivate(i)).state, ops, w.timers[i].owner) == 0
  {
    DisarmsSlot(w, i);
    StepTidy(w, OpDeactivate(i));
    var r := DisarmedStaysSilent(w, i, ops);
    OwnerHearsSlot(Step(w, OpDeactivate(i)).state, ops, i);
  }

  /** Withdrawing is taken exactly on a slot in use that is not armed; the slot is free, and the next registration finds it. */
  lemma WithdrawsSlot(w: State, i: nat)
    requires Running(w)
    ensures var r := Step(w, OpUnregister(i));
            && (r.error.None? <==> 1 <= i < MAX_TIMERS && w.timers[i].inUse && !w.timers[i].active)
            && (1 <= i < MAX_TIMERS && w.timers[i].inUse && w.timers[i].active ==> r == Reply(w, Some(TimerStillActive(i))))
            && (r.error.None? ==>
                  && |r.state.timers| == MAX_TIMERS && !r.state.timers[i].inUse && !r.state.timers[i].active
                  && (forall j :: 0 <= j < MAX_TIMERS && j != i ==> r.state.timers[j] == w.timers[j])
                  && FreeSlot(r.state.timers, 1) == (if FreeSlot(w.timers, 1) < i then FreeSlot(w.timers, 1) else i)
                  && r.state.numTimers == (if i + 1 == w.numTimers then i else w.numTimers)
                  && r.state.fired == w.fired && r.state.countdown <= r.state.period && Now(r.state) == Now(w))
  {
    var r := Step(w, OpUnregister(i));
    if r.error.None? {
      var a := if FreeSlot(w.timers, 1) < i then FreeSlot(w.timers, 1) else i;
      assert LowestFree(r.state.timers, a);
      OneLowestFree(r.state.timers, a, FreeSlot(r.state.timers, 1));
    }
  }
}
