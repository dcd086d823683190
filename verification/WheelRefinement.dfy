/**
 What the countdown wheel means: it is a fast form of a wheel that looks at every
 timer on every tick.

 `Naive` is that reference. It has no countdown; it advances one tick at a time
 and fires a timer exactly when the clock equals its deadline.
 */
module WheelRefinement {
  import opened Base
  import opened Arith
  import opened TimerTypes
  import opened Wheel

  datatype Naive = Naive(now: nat, timers: seq<Timer>, fired: seq<Fire>)

  predicate Reached(t: Timer, at: nat) {
    t.active && t.deadline == at
  }

  function NaiveFire(t: Timer, at: nat): Timer {
    if !Reached(t, at) then t
    else if t.continuous then t.(deadline := t.deadline + t.period)
    else t.(active := false)
  }

  function NaiveRecord(fired: seq<Fire>, ts: seq<Timer>, at: nat): seq<Fire> {
    if ts == [] then fired
    else
      var f, t := NaiveRecord(fired, ts[..|ts| - 1], at), ts[|ts| - 1];
      if Reached(t, at) then Record(f, t.owner) else f
  }

  function NaiveTick(o: Naive): Naive {
    var at := o.now + 1;
    Naive(at,
          seq(|o.timers|, i requires 0 <= i < |o.timers| => NaiveFire(o.timers[i], at)),
          NaiveRecord(o.fired, o.timers, at))
  }

  function NaiveTicks(o: Naive, n: nat): Naive
    decreases n
  {
    if n == 0 then o else NaiveTicks(NaiveTick(o), n - 1)
  }

  /** What a wheel lets its machine see. */
  function View(w: State): Naive
    requires w.countdown <= w.period
  {
    Naive(Now(w), w.timers, w.fired)
  }

  // ---- One tick ----

  lemma EarliestIsLeast(ts: seq<Timer>, n: nat, i: nat)
    requires i < n <= |ts| && ts[i].active
    ensures Earliest(ts, n) <= ts[i].deadline
  {
    if i < n - 1 {
      EarliestIsLeast(ts, n - 1, i);
    }
  }

  lemma EarliestIsAfter(ts: seq<Timer>, n: nat, at: nat)
    requires n <= |ts| && at < U64_MAX
    requires forall i :: 0 <= i < n && ts[i].active ==> at < ts[i].deadline
    ensures at < Earliest(ts, n)
  {
  }

  lemma {:induction false} QuietRecord(fired: seq<Fire>, ts: seq<Timer>, at: nat)
    requires forall i :: 0 <= i < |ts| && ts[i].active ==> at < ts[i].deadline
    ensures NaiveRecord(fired, ts, at) == fired
  {
    if ts != [] {
      QuietRecord(fired, ts[..|ts| - 1], at);
    }
  }

  lemma {:induction false} RecordsAgree(fired: seq<Fire>, ts: seq<Timer>, at: nat, n: nat)
    requires n <= |ts|
    requires forall i :: 0 <= i < n && ts[i].active ==> at <= ts[i].deadline
    ensures RecordDue(fired, ts, at, n) == NaiveRecord(fired, ts[..n], at)
  {
    if n > 0 {
      RecordsAgree(fired, ts, at, n - 1);
      assert ts[..n][..n - 1] == ts[..n - 1] && ts[..n][n - 1] == ts[n - 1];
    }
  }

  /** With no timer overdue, `>=` is `==` and the catch-up loop runs once. */
  lemma FiresAgree(t: Timer, at: nat)
    requires t.active ==> t.period >= 1 && at <= t.deadline
    ensures Due(t, at) <==> Reached(t, at)
    ensures FireTimer(t, at) == NaiveFire(t, at)
  {
    if Due(t, at) && t.continuous {
      assert CatchUp(t.deadline + t.period, t.period, at) == t.deadline + t.period;
    }
  }

  lemma EventKeepsInv(w: State)
    requires Inv(w) && NextEvent(w) < U64_MAX
    ensures Inv(CountdownEvent(w))
  {
    var w' := CountdownEvent(w);
    var at := NextEvent(w);
    EarliestIsAfter(w'.timers, MAX_TIMERS, at);
    forall i | 0 <= i < MAX_TIMERS && w'.timers[i].active
      ensures NextEvent(w') <= w'.timers[i].deadline
    {
      EarliestIsLeast(w'.timers, MAX_TIMERS, i);
    }
  }

  lemma Tick1Refines(w: State)
    requires Inv(w) && Fits(w) && Headroom(w, 1)
    ensures Inv(Tick1(w)) && Fits(Tick1(w)) && View(Tick1(w)) == NaiveTick(View(w))
  {
    assert w.timers[0].active;
    if w.countdown == 1 {
      EventKeepsInv(w);
      RecordsAgree(w.fired, w.timers, NextEvent(w), MAX_TIMERS);
      assert w.timers[..MAX_TIMERS] == w.timers;
      forall i | 0 <= i < MAX_TIMERS {
        FiresAgree(w.timers[i], NextEvent(w));
      }
    } else {
      QuietRecord(w.fired, w.timers, Now(w) + 1);
      assert NaiveTick(View(w)).timers == w.timers;
    }
  }

  /** Ticking one at a time spends exactly one tick of the headroom. */
  lemma Tick1SpendsHeadroom(w: State, n: nat)
    requires Inv(w) && Fits(w) && n >= 1 && Headroom(w, n)
    ensures Headroom(w, 1) && Inv(Tick1(w)) && Now(Tick1(w)) == Now(w) + 1 && Headroom(Tick1(w), n - 1)
  {
    Tick1Refines(w);
    var w' := Tick1(w);
    forall i | 0 <= i < MAX_TIMERS && w'.timers[i].active && w'.timers[i].continuous && w'.timers[i].deadline <= Now(w') + (n - 1)
      ensures Now(w') + (n - 1) + w'.timers[i].period < U64_LIMIT
    {
      assert w.timers[i].active;
    }
  }

  // ---- Any number of ticks ----

  /** `n` ticks of the countdown wheel are `n` ticks of the reference. */
  lemma {:induction false} TicksRefine(w: State, n: nat)
    requires Inv(w) && Fits(w) && Headroom(w, n)
    ensures Inv(Ticks(w, n)) && Fits(Ticks(w, n))
    ensures View(Ticks(w, n)) == NaiveTicks(View(w), n)
    decreases n
  {
    if n > 0 {
      Tick1SpendsHeadroom(w, n);
      Tick1Refines(w);
      TicksRefine(Tick1(w), n - 1);
    }
  }

  lemma {:induction false} TicksAdd(w: State, m: nat, n: nat)
    requires WellFormed(w)
    ensures Ticks(w, m + n) == Ticks(Ticks(w, m), n)
    decreases m
  {
    if m > 0 {
      Tick1WellFormed(w);
      TicksAdd(Tick1(w), m - 1, n);
    }
  }

  /** Short of the next event, ticking only counts down. */
  lemma {:induction false} TicksCoast(w: State, n: nat)
    requires WellFormed(w) && n < w.countdown
    ensures Ticks(w, n) == w.(countdown := w.countdown - n)
    decreases n
  {
    if n > 0 {
      Tick1WellFormed(w);
      TicksCoast(Tick1(w), n - 1);
    }
  }

  lemma EventIgnoresCountdown(w: State, countdown: nat)
    requires WellFormed(w)
    ensures CountdownEvent(w.(countdown := countdown)) == CountdownEvent(w)
  {
  }

  /** Ticking as far as the next event is the event. */
  lemma {:induction false} TicksToEvent(w: State)
    requires WellFormed(w)
    ensures Ticks(w, w.countdown) == CountdownEvent(w)
    decreases w.countdown
  {
    if w.countdown == 1 {
      assert Ticks(w, 1) == Ticks(Tick1(w), 0);
    } else {
      Tick1WellFormed(w);
      TicksToEvent(Tick1(w));
      EventIgnoresCountdown(w, w.countdown - 1);
    }
  }

  // ---- When a timer fires ----

  /** The deadline of an undisturbed continuous timer once the clock reads `now`. */
  function Phase(first: nat, period: nat, now: nat): nat
    requires period >= 1
  {
    if now < first then first else first + ((now - first) / period + 1) * period
  }

  lemma PhaseStep(first: nat, period: nat, now: nat)
    requires period >= 1
    ensures now < Phase(first, period, now)
    ensures Phase(first, period, now + 1) ==
            (if Phase(first, period, now) == now + 1 then now + 1 + period else Phase(first, period, now))
  {
    if first <= now {
      var q, r := SplitTime(now - first, period);
      NextTime(now - first, period, q, r);
      ProductStep(period, q);
      ProductStep(period, q + 1);
    } else if first == now + 1 {
      assert 0 / period == 0;
    }
  }

  lemma ProductStep(period: nat, q: nat)
    ensures (q + 1) * period == q * period + period
  {
  }

  lemma SplitTime(e: nat, period: nat) returns (q: nat, r: nat)
    requires period >= 1
    ensures q == e / period && r < period && e == q * period + r
  {
    q, r := e / period, e % period;
  }

  /** One tick later the quotient is the same, unless the tick completes a period. */
  lemma NextTime(e: nat, period: nat, q: nat, r: nat)
    requires period >= 1 && r < period && e == q * period + r
    ensures (e + 1) / period == (if r + 1 < period then q else q + 1)
    ensures (e + 1) % period == (if r + 1 < period then r + 1 else 0)
  {
    if r + 1 < period {
      DivIs(e + 1, period, q, r + 1);
    } else {
      ProductStep(period, q);
      DivIs(e + 1, period, q + 1, 0);
    }
  }

  /**
   An undisturbed continuous timer keeps its phase for ever: whatever the clock
   reads, its deadline is the first deadline plus a whole number of periods, the
   least one still ahead.
   */
  lemma {:induction false} ContinuousTimerKeepsPhase(o: Naive, n: nat, i: nat, first: nat)
    requires i < |o.timers| && o.timers[i].active && o.timers[i].continuous && o.timers[i].period >= 1
    requires o.timers[i].deadline == Phase(first, o.timers[i].period, o.now)
    ensures i < |NaiveTicks(o, n).timers|
    ensures NaiveTicks(o, n).timers[i] == o.timers[i].(deadline := Phase(first, o.timers[i].period, o.now + n))
    decreases n
  {
    if n > 0 {
      PhaseStep(first, o.timers[i].period, o.now);
      ContinuousTimerKeepsPhase(NaiveTick(o), n - 1, i, first);
    }
  }

  /** The tick after `now` is a whole number of periods past the first deadline. */
  predicate BeatNext(first: nat, period: nat, now: nat)
    requires period >= 1
  {
    first <= now + 1 && (now + 1 - first) % period == 0
  }

  lemma PhaseIsNext(first: nat, period: nat, now: nat)
    requires period >= 1
    ensures Phase(first, period, now) == now + 1 <==> BeatNext(first, period, now)
  {
    if first <= now {
      var q, r := SplitTime(now - first, period);
      NextTime(now - first, period, q, r);
      ProductStep(period, q);
    } else if first == now + 1 {
      assert 0 % period == 0;
    }
  }

  /** So a timer in phase is reached by the next tick exactly when that tick is on its beat. */
  lemma FiresOnPhase(t: Timer, first: nat, now: nat)
    requires t.active && t.period >= 1 && t.deadline == Phase(first, t.period, now)
    ensures Reached(t, now + 1) <==> BeatNext(first, t.period, now)
  {
    PhaseIsNext(first, t.period, now);
  }
}
