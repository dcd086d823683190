/**
 The timer half of `BxPcSystemC` (`rusty_box/src/pc_system.rs`): the object, its
 arrays, and the loops over them, each method proved to do what the corresponding
 function of `Wheel` says.
 */
module PcSystem {
  import opened Base
  import opened TimerTypes
  import opened Wheel
  import WheelRefinement
  import WheelRuns
  import WheelAccounts
  import WheelSnapshot
  import WheelCodec
  import opened Wire

  function Zip(owners: seq<Owner>, counts: seq<nat>): (q: seq<Fire>)
    requires |owners| == |counts|
    ensures |q| == |owners|
  {
    seq(|owners|, k requires 0 <= k < |owners| => Fire(owners[k], counts[k]))
  }

  lemma {:induction false} EarliestSkipsIdle(ts: seq<Timer>, n: nat, m: nat)
    requires n <= m <= |ts| && forall i :: n <= i < m ==> !ts[i].active
    ensures Earliest(ts, m) == Earliest(ts, n)
    decreases m
  {
    if n < m {
      EarliestSkipsIdle(ts, n, m - 1);
    }
  }

  lemma {:induction false} RecordSkipsIdle(fired: seq<Fire>, ts: seq<Timer>, at: nat, n: nat, m: nat)
    requires n <= m <= |ts| && forall i :: n <= i < m ==> !Due(ts[i], at)
    ensures RecordDue(fired, ts, at, m) == RecordDue(fired, ts, at, n)
    decreases m
  {
    if n < m {
      RecordSkipsIdle(fired, ts, at, n, m - 1);
    }
  }

  class PcSystem {
    const timers: array<Timer>
    var numTimers: nat
    var triggeredTimer: nat
    var currCountdown: nat
    var currCountdownPeriod: nat
    var ticksTotal: nat
    const firedOwners: array<Owner>
    const firedOwnerCounts: array<nat>
    var numFired: nat
    var ips: nat
    var board: Board

    /** The arrays have their fixed sizes and the counts stay inside them. */
    ghost predicate Shaped()
      reads this
    {
      && timers.Length == MAX_TIMERS
      && firedOwners.Length == MAX_TIMERS
      && firedOwnerCounts.Length == MAX_TIMERS
      && numTimers <= MAX_TIMERS
      && numFired <= MAX_TIMERS
    }

    /** The state as a value; entries past `numFired` are stale and not part of it. */
    ghost function Value(): State
      requires Shaped()
      reads this, timers, firedOwners, firedOwnerCounts
    {
      State(timers[..], numTimers, triggeredTimer, currCountdown, currCountdownPeriod, ticksTotal,
            Zip(firedOwners[..numFired], firedOwnerCounts[..numFired]), ips, board)
    }

    ghost predicate Valid()
      reads this, timers, firedOwners, firedOwnerCounts
    {
      Shaped() && WellFormed(Value())
    }

    constructor ()
      ensures Valid() && fresh(timers) && fresh(firedOwners) && fresh(firedOwnerCounts)
      ensures Value() == New()
    {
      timers := new Timer[MAX_TIMERS](i => if i == 0 then NullSlot() else EmptySlot());
      numTimers, triggeredTimer := 1, 0;
      currCountdown, currCountdownPeriod, ticksTotal := NULL_INTERVAL, NULL_INTERVAL, 0;
      firedOwners := new Owner[MAX_TIMERS](_ => NullTimer);
      firedOwnerCounts := new nat[MAX_TIMERS](_ => 0);
      numFired := 0;
      ips := 1_000_000;
      board := Board(0, 0, false, A20_OFF, false, false, false, false, false, false, None);
      new;
      WheelRuns.NewRuns(1);
      assert timers[..] == New().timers;
      assert Value().fired == [];
    }

    // ---- Ticking ----

    method RecordFiredOwner(owner: Owner)
      requires Shaped()
      modifies this`numFired, firedOwners, firedOwnerCounts
      ensures Shaped()
      ensures Value() == old(Value()).(fired := Record(old(Value()).fired, owner))
    {
      if owner == NullTimer {
        return;
      }
      ghost var q := Value().fired;
      var entry := 0;
      while entry < numFired
        invariant 0 <= entry <= numFired == old(numFired)
        invariant Shaped() && Value() == old(Value())
        invariant RecordFrom(q, owner, 0) == RecordFrom(q, owner, entry)
      {
        if firedOwners[entry] == owner {
          firedOwnerCounts[entry] := if firedOwnerCounts[entry] >= U32_MAX then U32_MAX
                                     else firedOwnerCounts[entry] + 1;
          assert Value().fired == q[entry := Bump(q[entry])];
          return;
        }
        entry := entry + 1;
      }
      if numFired < MAX_TIMERS {
        firedOwners[numFired] := owner;
        firedOwnerCounts[numFired] := 1;
        numFired := numFired + 1;
        assert Value().fired == q + [Fire(owner, 1)];
      }
    }

    /** The source's catch-up loop for a continuous timer that is due. */
    method AdvanceDeadline(i: nat)
      requires Shaped() && i < MAX_TIMERS && timers[i].period >= 1
      requires CatchUp(timers[i].deadline, timers[i].period, ticksTotal) < U64_LIMIT
      modifies timers
      ensures timers[..] == old(timers[..])[i := old(timers[i]).(deadline :=
                CatchUp(old(timers[i]).deadline, old(timers[i]).period, ticksTotal))]
    {
      ghost var t := timers[i];
      while timers[i].deadline <= ticksTotal
        invariant timers[..] == old(timers[..])[i := t.(deadline := timers[i].deadline)]
        invariant CatchUp(timers[i].deadline, t.period, ticksTotal) == CatchUp(t.deadline, t.period, ticksTotal)
        decreases ticksTotal - timers[i].deadline
      {
        assert timers[i].deadline + t.period <= CatchUp(timers[i].deadline + t.period, t.period, ticksTotal) < U64_LIMIT;
        timers[i] := timers[i].(deadline := timers[i].deadline + timers[i].period);
      }
    }

    /** A due timer: a one-shot is disarmed, a continuous one moved past the clock. */
    method FireSlot(i: nat)
      requires Shaped() && i < MAX_TIMERS && Due(timers[i], ticksTotal) && timers[i].period >= 1
      requires FireTimer(timers[i], ticksTotal).deadline < U64_LIMIT
      modifies timers
      ensures timers[i] == FireTimer(old(timers[i]), ticksTotal)
      ensures forall j :: 0 <= j < MAX_TIMERS && j != i ==> timers[j] == old(timers[j])
    {
      if !timers[i].continuous {
        timers[i] := timers[i].(active := false);
      } else {
        AdvanceDeadline(i);
        forall j | 0 <= j < MAX_TIMERS ensures timers[j] == timers[..][j] {
        }
      }
    }

    /** One slot of the scan. */
    method ScanSlot(i: nat, triggered: array<bool>, first: nat, last: nat, min: nat)
      returns (first': nat, last': nat, min': nat)
      requires Shaped() && triggered.Length == MAX_TIMERS && i < MAX_TIMERS && !triggered[i]
      requires timers[i].active ==> timers[i].period >= 1
      requires FireTimer(timers[i], ticksTotal).deadline < U64_LIMIT
      modifies timers, triggered
      ensures timers[i] == FireTimer(old(timers[i]), ticksTotal) && triggered[i] == Due(old(timers[i]), ticksTotal)
      ensures forall j :: 0 <= j < MAX_TIMERS && j != i ==> timers[j] == old(timers[j]) && triggered[j] == old(triggered[j])
      ensures min' == if timers[i].active then Min(min, timers[i].deadline) else min
      ensures first' == (if triggered[i] then Min(first, i) else first) && last' == if triggered[i] then i else last
    {
      first', last', min' := first, last, min;
      if timers[i].active {
        if ticksTotal >= timers[i].deadline {
          triggered[i] := true;
          FireSlot(i);
          if timers[i].active && timers[i].deadline < min' {
            min' := timers[i].deadline;
          }
          if i < first' {
            first' := i;
          }
          last' := i;
        } else if timers[i].deadline < min' {
          min' := timers[i].deadline;
        }
      }
    }

    /** Steps 2 and 3 of `countdown_event`: fire what is due, remember which, find the next deadline. */
    method ScanTimers(triggered: array<bool>) returns (first: nat, last: nat, minTimeToFire: nat)
      requires Shaped() && triggered.Length == MAX_TIMERS
      requires forall i :: 0 <= i < MAX_TIMERS && timers[i].active ==> i < numTimers && timers[i].period >= 1
      requires forall i :: 0 <= i < MAX_TIMERS ==> Scan(timers[..], ticksTotal)[i].deadline < U64_LIMIT
      requires forall i :: 0 <= i < MAX_TIMERS ==> !triggered[i]
      modifies timers, triggered
      ensures timers[..] == Scan(old(timers[..]), ticksTotal)
      ensures minTimeToFire == Earliest(timers[..], MAX_TIMERS)
      ensures forall i :: 0 <= i < MAX_TIMERS ==> triggered[i] == Due(old(timers[..])[i], ticksTotal)
      ensures forall i :: 0 <= i < MAX_TIMERS && triggered[i] ==> first <= i <= last
      ensures first <= MAX_TIMERS && last < MAX_TIMERS
    {
      ghost var ts, at := timers[..], ticksTotal;
      ghost var done := Scan(ts, at);
      first, last, minTimeToFire := numTimers, 0, U64_MAX;
      var i := 0;
      while i < numTimers
        invariant i <= numTimers && first <= numTimers && last < MAX_TIMERS
        invariant forall j :: 0 <= j < MAX_TIMERS ==> timers[j] == if j < i then done[j] else ts[j]
        invariant forall j :: 0 <= j < MAX_TIMERS ==> triggered[j] == (j < i && Due(ts[j], at))
        invariant forall j :: 0 <= j < i && triggered[j] ==> first <= j <= last
        invariant minTimeToFire == Earliest(done, i)
      {
        assert timers[i] == ts[i] && done[i] == FireTimer(ts[i], at);
        first, last, minTimeToFire := ScanSlot(i, triggered, first, last, minTimeToFire);
        i := i + 1;
      }
      assert timers[..] == done;
      EarliestSkipsIdle(done, numTimers, MAX_TIMERS);
    }

    /** Step 4 of `countdown_event`: queue the fires, in slot order. */
    method RecordTriggered(triggered: array<bool>, first: nat, last: nat, ghost ts: seq<Timer>)
      requires Shaped() && triggeredTimer == 0 && triggered.Length == MAX_TIMERS == |ts|
      requires forall i :: 0 <= i < MAX_TIMERS ==> triggered[i] == Due(ts[i], ticksTotal) && timers[i].owner == ts[i].owner
      requires forall i :: 0 <= i < MAX_TIMERS && triggered[i] ==> first <= i <= last
      requires first <= MAX_TIMERS && last < MAX_TIMERS
      modifies this`triggeredTimer, this`numFired, firedOwners, firedOwnerCounts
      ensures Shaped()
      ensures Value() == old(Value()).(fired := RecordDue(old(Value()).fired, ts, ticksTotal, MAX_TIMERS))
    {
      ghost var w := Value();
      RecordSkipsIdle(w.fired, ts, ticksTotal, 0, first);
      if first <= last {
        var i := first;
        while i <= last
          invariant first <= i <= last + 1 && triggeredTimer == 0 && Shaped()
          invariant Value() == w.(fired := RecordDue(w.fired, ts, ticksTotal, i))
        {
          if triggered[i] {
            triggeredTimer := i;
            var owner := timers[i].owner;
            RecordFiredOwner(owner);
            triggeredTimer := 0;
          }
          i := i + 1;
        }
        RecordSkipsIdle(w.fired, ts, ticksTotal, last + 1, MAX_TIMERS);
      } else {
        RecordSkipsIdle(w.fired, ts, ticksTotal, first, MAX_TIMERS);
      }
    }

    method CountdownEvent()
      requires Shaped() && triggeredTimer == 0
      requires forall i :: 0 <= i < MAX_TIMERS && timers[i].active ==> i < numTimers && timers[i].period >= 1
      requires Fits(Wheel.CountdownEvent(Value()))
      modifies this, timers, firedOwners, firedOwnerCounts
      ensures Shaped() && Value() == Wheel.CountdownEvent(old(Value()))
    {
      ghost var w := Value();
      var triggered := new bool[MAX_TIMERS](_ => false);
      assert ticksTotal + currCountdownPeriod < U64_LIMIT;
      ticksTotal := ticksTotal + currCountdownPeriod;
      var first, last, minTimeToFire := ScanTimers(triggered);
      var nextPeriod := NextPeriod(minTimeToFire, ticksTotal);
      currCountdown := nextPeriod;
      currCountdownPeriod := nextPeriod;
      RecordTriggered(triggered, first, last, w.timers);
    }

    /** Advance one tick. */
    method Tick1()
      requires Valid() && Inv(Value()) && Fits(Value()) && Headroom(Value(), 1)
      modifies this, timers, firedOwners, firedOwnerCounts
      ensures Valid() && Inv(Value()) && Fits(Value())
      ensures Value() == Wheel.Tick1(old(Value()))
    {
      ghost var w := Value();
      WheelRefinement.Tick1Refines(w);
      currCountdown := currCountdown - 1;
      if currCountdown == 0 {
        WheelRefinement.EventIgnoresCountdown(w, 0);
        CountdownEvent();
      }
    }

    /**
     Advance `n` ticks in countdown-sized jumps. The result is the state `n` single
     ticks leave, and what the machine sees of it is what the reference wheel shows.
     */
    method TickN(n: u32)
      requires Valid() && Inv(Value()) && Fits(Value()) && Headroom(Value(), n)
      modifies this, timers, firedOwners, firedOwnerCounts
      ensures Valid() && Inv(Value()) && Fits(Value())
      ensures Value() == Ticks(old(Value()), n)
      ensures WheelRefinement.View(Value()) == WheelRefinement.NaiveTicks(WheelRefinement.View(old(Value())), n)
    {
      ghost var w := Value();
      var remaining := n;
      while remaining >= currCountdown
        invariant 0 <= remaining <= n && Valid()
        invariant Value() == Ticks(w, n - remaining)
        decreases remaining
      {
        ghost var v := Value();
        JumpIsTicks(w, v, n, remaining);
        remaining := remaining - currCountdown;
        currCountdown := 0;
        CountdownEvent();
      }
      CoastIsTicks(w, Value(), n, remaining);
      currCountdown := currCountdown - remaining;
    }

    static lemma CoastIsTicks(w: State, v: State, n: nat, remaining: nat)
      requires Inv(w) && Fits(w) && Headroom(w, n) && remaining <= n
      requires v == Ticks(w, n - remaining) && remaining < v.countdown
      ensures v.(countdown := v.countdown - remaining) == Ticks(w, n)
      ensures Inv(Ticks(w, n)) && Fits(Ticks(w, n))
      ensures WheelRefinement.View(Ticks(w, n)) == WheelRefinement.NaiveTicks(WheelRefinement.View(w), n)
    {
      WheelRefinement.TicksCoast(v, remaining);
      WheelRefinement.TicksAdd(w, n - remaining, remaining);
      WheelRefinement.TicksRefine(w, n);
    }

    static lemma JumpIsTicks(w: State, v: State, n: nat, remaining: nat)
      requires Inv(w) && Fits(w) && Headroom(w, n) && remaining <= n
      requires v == Ticks(w, n - remaining) && v.countdown <= remaining
      ensures Wheel.CountdownEvent(v.(countdown := 0)) == Ticks(w, n - (remaining - v.countdown))
      ensures Fits(Wheel.CountdownEvent(v.(countdown := 0)))
    {
      WheelRefinement.EventIgnoresCountdown(v, 0);
      WheelRefinement.TicksToEvent(v);
      WheelRefinement.TicksAdd(w, n - remaining, v.countdown);
      WheelRefinement.TicksRefine(w, n - (remaining - v.countdown));
    }

    /** Hand over the queued fires and leave the queue empty. */
    method TakeFiredTimers() returns (owners: seq<Owner>, counts: seq<nat>, count: nat)
      requires Valid()
      modifies this`numFired, firedOwnerCounts
      ensures Valid() && Value() == Drain(old(Value()))
      ensures |owners| == |counts| == MAX_TIMERS && count <= MAX_TIMERS
      ensures Zip(owners[..count], counts[..count]) == old(Value()).fired
    {
      owners, counts, count := firedOwners[..], firedOwnerCounts[..], numFired;
      var entry := 0;
      while entry < count
        invariant entry <= count && Valid() && numFired == count
        invariant Value().(fired := []) == old(Value()).(fired := [])
      {
        firedOwnerCounts[entry] := 0;
        entry := entry + 1;
      }
      numFired := 0;
      assert Value().fired == [];
    }

    // ---- Arming and disarming ----

    method ValidateTimerIndex(index: nat) returns (error: Option<TimerError>)
      requires Shaped()
      ensures error == IndexError(Value(), index)
    {
      if index >= MAX_TIMERS {
        return Some(TimerIndexOutOfBounds(index));
      }
      if index == 0 {
        return Some(NullTimerModification);
      }
      if !timers[index].inUse {
        return Some(TimerNotInUse(index));
      }
      return None;
    }

    method TimeTicks() returns (now: nat)
      requires Shaped() && currCountdown <= currCountdownPeriod
      ensures now == Now(Value())
    {
      return ticksTotal + (currCountdownPeriod - currCountdown);
    }

    method ShortenCountdownTo(deadline: nat)
      requires Shaped() && currCountdown <= currCountdownPeriod
      modifies this`currCountdown, this`currCountdownPeriod
      ensures Shaped() && Value() == Shorten(old(Value()), deadline)
    {
      var now := TimeTicks();
      if deadline < now {
        return;
      }
      var ticksUntilFire := deadline - now;
      if ticksUntilFire == 0 || ticksUntilFire >= currCountdown {
        return;
      }
      var elapsed := currCountdownPeriod - currCountdown;
      currCountdown := ticksUntilFire;
      currCountdownPeriod := elapsed + ticksUntilFire;
    }

    method ActivateTimerAtTicks(index: nat, deadline: u64, continuous: bool) returns (error: Option<TimerError>)
      requires Valid()
      modifies this`currCountdown, this`currCountdownPeriod, timers
      ensures Valid()
      ensures Reply(Value(), error) == ActivateAt(old(Value()), index, deadline, continuous)
    {
      error := ValidateTimerIndex(index);
      if error.Some? {
        return;
      }
      var now := TimeTicks();
      if deadline <= now && now + MIN_PERIOD >= U64_LIMIT {
        return Some(TimerDeadlineOverflow);
      }
      var due := if deadline <= now then now + MIN_PERIOD else deadline;
      Arm(index, due, continuous);
      ShortenCountdownTo(due);
    }

    method Arm(index: nat, due: nat, continuous: bool)
      requires Valid() && IndexError(Value(), index).None?
      modifies timers
      ensures Valid()
      ensures Value() == SetSlot(old(Value()), index,
                old(timers[index]).(deadline := due, active := true, continuous := continuous))
    {
      timers[index] := timers[index].(deadline := due);
      timers[index] := timers[index].(active := true);
      timers[index] := timers[index].(continuous := continuous);
      assert timers[..] == old(timers[..])[index := timers[index]];
    }

    method ActivateTimerAtTicksWithPeriod(index: nat, deadline: u64, period: u64, continuous: bool)
      returns (error: Option<TimerError>)
      requires Valid()
      modifies this`currCountdown, this`currCountdownPeriod, timers
      ensures Valid()
      ensures Reply(Value(), error) == ActivateAtWithPeriod(old(Value()), index, deadline, period, continuous)
    {
      error := ValidateTimerIndex(index);
      if error.Some? {
        return;
      }
      SetPeriod(index, AtLeastOne(period));
      error := ActivateTimerAtTicks(index, deadline, continuous);
    }

    method SetPeriod(index: nat, period: nat)
      requires Valid() && IndexError(Value(), index).None? && period >= 1
      modifies timers
      ensures Valid() && Value() == SetSlot(old(Value()), index, old(timers[index]).(period := period))
    {
      timers[index] := timers[index].(period := period);
      assert timers[..] == old(timers[..])[index := timers[index]];
    }

    method ActivateTimer(index: nat, period: u64, continuous: bool) returns (error: Option<TimerError>)
      requires Valid()
      modifies this`currCountdown, this`currCountdownPeriod, timers
      ensures Valid()
      ensures Reply(Value(), error) == Activate(old(Value()), index, period, continuous)
    {
      error := ValidateTimerIndex(index);
      if error.Some? {
        return;
      }
      var p := AtLeastOne(period);
      var now := TimeTicks();
      if now + p >= U64_LIMIT {
        return Some(TimerDeadlineOverflow);
      }
      SetPeriod(index, p);
      error := ActivateTimerAtTicks(index, now + p, continuous);
    }

    /** `activate_timer_usec` and `activate_timer_nsec`, which differ in the unit alone. */
    method ActivateTimerIn(index: nat, span: u64, perSecond: nat, continuous: bool)
      returns (error: Option<TimerError>)
      requires Valid() && Fits(Value()) && perSecond > 0
      modifies this`currCountdown, this`currCountdownPeriod, timers
      ensures Valid()
      ensures Reply(Value(), error) == ActivateIn(old(Value()), index, span, perSecond, continuous)
    {
      error := ValidateTimerIndex(index);
      if error.Some? {
        return;
      }
      if span == 0 {
        error := ActivateTimer(index, timers[index].period, continuous);
        return;
      }
      var ticks := span * ips / perSecond;
      if ticks >= U64_LIMIT {
        return Some(TimeConversionOverflow);
      }
      error := ActivateTimer(index, AtLeastOne(ticks), continuous);
    }

    method ReactivateTimerRelative(index: nat, period: u64) returns (error: Option<TimerError>)
      requires Valid()
      modifies this`currCountdown, this`currCountdownPeriod, timers
      ensures Valid()
      ensures Reply(Value(), error) == Reactivate(old(Value()), index, period)
    {
      error := ValidateTimerIndex(index);
      if error.Some? {
        return;
      }
      var p := AtLeastOne(period);
      var deadline := timers[index].deadline + p;
      if deadline >= U64_LIMIT {
        return Some(TimerDeadlineOverflow);
      }
      SetPeriod(index, p);
      error := ActivateTimerAtTicks(index, deadline, false);
    }

    /** Disarming leaves the countdown where it was, pointing at a deadline that may be gone. */
    method DeactivateTimer(index: nat) returns (error: Option<TimerError>)
      requires Valid()
      modifies timers
      ensures Valid() && Reply(Value(), error) == Deactivate(old(Value()), index)
    {
      error := ValidateTimerIndex(index);
      if error.Some? {
        return;
      }
      timers[index] := timers[index].(active := false);
      assert timers[..] == old(timers[..])[index := timers[index]];
    }

    method UnregisterTimer(index: nat) returns (error: Option<TimerError>)
      requires Valid()
      modifies this`numTimers, timers
      ensures Valid() && Reply(Value(), error) == Unregister(old(Value()), index)
    {
      error := ValidateTimerIndex(index);
      if error.Some? {
        return;
      }
      if timers[index].active {
        return Some(TimerStillActive(index));
      }
      timers[index] := Timer(false, false, false, U64_MAX, U64_MAX, NullTimer, ZeroId());
      assert timers[..] == old(timers[..])[index := timers[index]];
      if index == numTimers - 1 {
        numTimers := numTimers - 1;
      }
    }

    method OccupySlot(slot: nat, t: Timer)
      requires Valid() && 1 <= slot < MAX_TIMERS && t.inUse && t.period >= 1
      modifies this`numTimers, timers
      ensures Valid() && Value() == Occupy(old(Value()), slot, t)
    {
      timers[slot] := t;
      if slot >= numTimers {
        numTimers := slot + 1;
      }
      assert timers[..] == old(timers[..])[slot := t];
    }

    method FindFreeSlot() returns (slot: nat)
      requires Shaped()
      ensures slot == FreeSlot(timers[..], 1) && 1 <= slot <= MAX_TIMERS
    {
      slot := 1;
      while slot < MAX_TIMERS && timers[slot].inUse
        invariant 1 <= slot <= MAX_TIMERS
        invariant FreeSlot(timers[..], 1) == FreeSlot(timers[..], slot)
      {
        slot := slot + 1;
      }
    }

    method RegisterInSlot(slot: nat, t: Timer, active: bool) returns (error: Option<TimerError>)
      requires Valid() && 1 <= slot < MAX_TIMERS && t.inUse && 1 <= t.period && t.deadline < U64_LIMIT
      modifies this`numTimers, this`currCountdown, this`currCountdownPeriod, timers
      ensures Valid() && Reply(Value(), error) == RegisterIn(old(Value()), slot, t, active)
    {
      OccupySlot(slot, t);
      error := None;
      if active {
        error := ActivateTimerAtTicks(slot, t.deadline, t.continuous);
      }
    }

    method RegisterTimer(owner: Owner, period: u64, continuous: bool, active: bool, id: seq<byte>)
      returns (slot: nat, error: Option<TimerError>)
      requires Valid()
      modifies this`numTimers, this`currCountdown, this`currCountdownPeriod, timers
      ensures Valid()
      ensures Reply(Value(), error) == Register(old(Value()), owner, period, continuous, active, id)
      ensures error.None? ==> slot == FreeSlot(old(timers[..]), 1) < MAX_TIMERS
    {
      var p := AtLeastOne(period);
      slot := FindFreeSlot();
      if slot == MAX_TIMERS {
        return slot, Some(NoFreeTimerSlots);
      }
      var now := TimeTicks();
      if now + p >= U64_LIMIT {
        return slot, Some(TimerDeadlineOverflow);
      }
      error := RegisterInSlot(slot, Timer(true, false, continuous, p, now + p, owner, PadId(id)), active);
    }

    // ---- Snapshots ----

    /** `save`: nothing unless the state validates, and then exactly `snapshot_len` bytes. */
    method Save() returns (payload: Option<bytes>)
      requires Shaped() && WheelSnapshot.Typed(Value())
      ensures payload.Some? <==> WheelSnapshot.Validates(Value())
      ensures payload.Some? ==>
                && |payload.value| == WheelCodec.SnapshotLen(numFired)
                && WheelCodec.Decode(ips, payload.value) == Some(Parsed(Value(), []))
    {
      var w := State(timers[..], numTimers, triggeredTimer, currCountdown, currCountdownPeriod, ticksTotal,
                     Zip(firedOwners[..numFired], firedOwnerCounts[..numFired]), ips, board);
      if !WheelSnapshot.Validates(w) {
        return None;
      }
      WheelCodec.SaveThenRestore(w, []);
      WheelCodec.PayloadLength(w);
      payload := Some(WheelCodec.Encode(w));
      assert payload.value + [] == payload.value;
    }

    method InstallTimers(saved: seq<Timer>)
      requires Shaped() && |saved| == MAX_TIMERS
      modifies timers
      ensures timers[..] == saved
    {
      var i := 0;
      while i < MAX_TIMERS
        invariant i <= MAX_TIMERS && timers[..i] == saved[..i]
      {
        timers[i] := saved[i];
        i := i + 1;
      }
    }

    method InstallQueue(saved: seq<Fire>)
      requires Shaped() && |saved| <= MAX_TIMERS
      modifies this`numFired, firedOwners, firedOwnerCounts
      ensures Shaped() && Zip(firedOwners[..numFired], firedOwnerCounts[..numFired]) == saved
    {
      var i := 0;
      while i < |saved|
        invariant i <= |saved|
        invariant forall j :: 0 <= j < i ==> Fire(firedOwners[j], firedOwnerCounts[j]) == saved[j]
      {
        firedOwners[i] := saved[i].owner;
        firedOwnerCounts[i] := saved[i].count;
        i := i + 1;
      }
      numFired := |saved|;
    }

    /**
     `restore`: a payload is taken whole or not at all. What is accepted is a
     validated state; with no timer mid-dispatch it is a state from which every
     property of runs holds again.
     */
    method Restore(payload: bytes) returns (rest: Option<bytes>)
      requires Shaped()
      modifies this, timers, firedOwners, firedOwnerCounts
      ensures Shaped()
      ensures rest.None? ==> Value() == old(Value()) && WheelCodec.Decode(old(ips), payload).None?
      ensures rest.Some? ==> WheelCodec.Decode(old(ips), payload) == Some(Parsed(Value(), rest.value))
      ensures rest.Some? && triggeredTimer == 0 ==>
                Valid() && WheelRuns.Running(Value()) && WheelAccounts.Tidy(Value())
    {
      var decoded := WheelCodec.Decode(ips, payload);
      if decoded.None? {
        return None;
      }
      WheelCodec.RestoreThenSave(ips, payload);
      var w := decoded.value.value;
      WheelSnapshot.ValidatorIsExact(w);
      Install(w);
      return Some(decoded.value.rest);
    }

    method Install(w: State)
      requires Shaped() && |w.timers| == MAX_TIMERS && |w.fired| <= MAX_TIMERS && w.numTimers <= MAX_TIMERS
      modifies this, timers, firedOwners, firedOwnerCounts
      ensures Shaped() && Value() == w
    {
      InstallTimers(w.timers);
      InstallQueue(w.fired);
      numTimers, triggeredTimer := w.numTimers, w.triggered;
      currCountdown, currCountdownPeriod, ticksTotal := w.countdown, w.period, w.ticksTotal;
      ips, board := w.ips, w.board;
    }
  }
}
