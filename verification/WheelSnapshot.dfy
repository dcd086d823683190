/**
 The hand-written validator of the PC-system section of a snapshot
 (`rusty_box/src/pc_system.rs`, lines 371-530), and why it is exact.
 */
module WheelSnapshot {
  import opened Base
  import opened TimerTypes
  import opened TimerWire
  import opened Wheel
  import opened WheelRuns
  import opened WheelAccounts

  // ---- The validator ----

  predicate IdleSlot(t: Timer) {
    !t.inUse && !t.active && !t.continuous && t.owner == NullTimer && t.id == ZeroId()
  }

  predicate SlotValidates(w: State, i: nat)
    requires i < |w.timers| && w.countdown <= w.period
  {
    var t := w.timers[i];
    if i >= w.numTimers then IdleSlot(t)
    else
      && (i == 0 ==> t.inUse && t.active && t.continuous && t.period == NULL_INTERVAL &&
                     t.owner == NullTimer && t.id == ZeroId())
      && if !t.inUse then IdleSlot(t)
         else
           && CleanId(t.id)
           && OnWire(t.owner)
           && (i != 0 ==> t.owner != NullTimer)
           && (i != 0 ==> !exists j :: 0 <= j < i && w.timers[j].inUse && w.timers[j].owner == t.owner)
           && t.period >= MIN_PERIOD
           && (t.active ==> Now(w) < t.deadline && NextEvent(w) <= t.deadline)
  }

  predicate FireValidates(w: State, k: nat)
    requires k < |w.fired|
  {
    var f := w.fired[k];
    && OnWire(f.owner)
    && f.owner != NullTimer
    && f.count != 0
    && !(exists j :: 0 <= j < k && w.fired[j].owner == f.owner)
    && Registered(w.timers, f.owner)
  }

  /** `validate_snapshot_state_fields`, check for check. */
  predicate Validates(w: State) {
    && w.ips != 0
    && 1 <= w.numTimers <= MAX_TIMERS
    && |w.fired| <= MAX_TIMERS
    && w.countdown != 0 && w.period != 0 && w.countdown <= w.period
    && Now(w) < U64_LIMIT && NextEvent(w) < U64_LIMIT
    && w.board.a20Mask == (if w.board.enableA20 then A20_ON else A20_OFF)
    && |w.timers| == MAX_TIMERS
    && (forall i :: 0 <= i < MAX_TIMERS ==> SlotValidates(w, i))
    && w.triggered < w.numTimers && w.timers[w.triggered].inUse
    && (forall k :: 0 <= k < |w.fired| ==> FireValidates(w, k))
  }

  /** The state is made of the integers the original holds it in. */
  ghost predicate Typed(w: State) {
    && |w.timers| == MAX_TIMERS && w.ips < U64_LIMIT && w.ticksTotal < U64_LIMIT
    && w.countdown < U32_LIMIT && w.period < U32_LIMIT
    && (forall i :: 0 <= i < MAX_TIMERS ==>
          w.timers[i].period < U64_LIMIT && w.timers[i].deadline < U64_LIMIT && |w.timers[i].id| == ID_LEN)
    && (forall k :: 0 <= k < |w.fired| ==> w.fired[k].count < U32_LIMIT)
  }

  lemma RunningSlotValidates(w: State, i: nat)
    requires Running(w) && Tidy(w) && i < MAX_TIMERS
    ensures SlotValidates(w, i)
  {
    var t := w.timers[i];
    if i < w.numTimers && t.inUse && i != 0 {
      forall j | 0 <= j < i && w.timers[j].inUse ensures w.timers[j].owner != t.owner {
      }
    }
  }

  lemma RunningFireValidates(w: State, k: nat)
    requires Running(w) && Tidy(w) && k < |w.fired|
    ensures FireValidates(w, k)
  {
    var f := w.fired[k];
    assert Registered(w.timers, f.owner);
    forall j | 0 <= j < k ensures w.fired[j].owner != f.owner {
    }
  }

  lemma ValidatedRegistryTidy(w: State)
    requires Typed(w) && Validates(w)
    ensures RegistryTidy(w.timers)
  {
    forall i | 0 <= i < MAX_TIMERS && w.timers[i].inUse
      ensures OnWire(w.timers[i].owner) && CleanId(w.timers[i].id) && (w.timers[i].owner == NullTimer ==> i == 0)
    {
      assert SlotValidates(w, i);
    }
    forall i, j | 0 <= i < j < MAX_TIMERS && w.timers[i].inUse && w.timers[j].inUse
      ensures w.timers[i].owner != w.timers[j].owner
    {
      assert SlotValidates(w, j);
    }
  }

  lemma ValidatedQueueTidy(w: State)
    requires Typed(w) && Validates(w)
    ensures QueueTidy(w.fired, w.timers)
  {
    forall k | 0 <= k < |w.fired|
      ensures w.fired[k].owner != NullTimer && 1 <= w.fired[k].count <= U32_MAX && Registered(w.timers, w.fired[k].owner)
    {
      assert FireValidates(w, k);
    }
    forall j, k | 0 <= j < k < |w.fired| ensures w.fired[j].owner != w.fired[k].owner {
      assert FireValidates(w, k);
    }
  }

  lemma ValidatedRunning(w: State)
    requires Typed(w) && Validates(w) && w.triggered == 0
    ensures Running(w)
  {
    assert SlotValidates(w, 0);
    forall i | 0 <= i < MAX_TIMERS
      ensures SlotWellFormed(w.timers[i], i, w.numTimers)
      ensures w.timers[i].active ==> NextEvent(w) <= w.timers[i].deadline
    {
      assert SlotValidates(w, i);
    }
  }

  /**
   The validator is exact. It accepts a state with no timer mid-dispatch exactly
   when that state satisfies everything runs preserve: so every reachable state can
   be saved, the stale countdown of a disarmed timer included, and every accepted
   payload is a state from which all that is proved of runs holds again.
   */
  lemma ValidatorIsExact(w: State)
    requires Typed(w)
    ensures Validates(w) && w.triggered == 0 <==> Running(w) && Tidy(w)
  {
    if Running(w) && Tidy(w) {
      assert w.timers[0].active && w.timers[0].inUse;
      forall i | 0 <= i < MAX_TIMERS ensures SlotValidates(w, i) {
        RunningSlotValidates(w, i);
      }
      forall k | 0 <= k < |w.fired| ensures FireValidates(w, k) {
        RunningFireValidates(w, k);
      }
      QueueNeverFull(w.fired, w.timers);
    }
    if Validates(w) && w.triggered == 0 {
      ValidatedRegistryTidy(w);
      ValidatedQueueTidy(w);
      ValidatedRunning(w);
    }
  }

  lemma RunningIsTyped(w: State)
    requires Running(w) && Tidy(w)
    ensures Typed(w)
  {
    forall i | 0 <= i < MAX_TIMERS ensures |w.timers[i].id| == ID_LEN {
      assert SlotWellFormed(w.timers[i], i, w.numTimers);
    }
  }

  /** Every state a disciplined run reaches passes the validator. */
  lemma ReachableStatesValidate(ops: seq<Op>, ips: u32)
    requires Running(Initialize(New(), ips)) && RunEnabled(Initialize(New(), ips), ops)
    requires RunDisciplined(Initialize(New(), ips), ops)
    ensures Validates(Run(Initialize(New(), ips), ops)) && Typed(Run(Initialize(New(), ips), ops))
  {
    var w := Initialize(New(), ips);
    forall i | 0 <= i < MAX_TIMERS && w.timers[i].inUse ensures i == 0 {
    }
    RunTidy(w, ops);
    RunningIsTyped(Run(w, ops));
    ValidatorIsExact(Run(w, ops));
  }
}
