/**
 Ticks and microseconds (`rusty_box_core/src/time.rs`, with `clock_reading_micros` of
 `rusty_box/src/pc_system.rs`). Arming a timer rounds up and reading a clock rounds
 down; both saturate at 64 bits. Products are taken in 128 bits, where they never wrap.
 */
module Clock {
  import opened Base
  import opened Arith

  type Rate = hz: nat | 0 < hz < U64_LIMIT witness 1

  function Saturate(v: nat): (r: u64)
    ensures r <= v && (v <= U64_MAX ==> r == v) && (v > U64_MAX ==> r == U64_MAX)
  {
    if v > U64_MAX then U64_MAX else v
  }

  /** Units elapsed at a tick, `per` of them to the second. */
  function UnitsAt(per: nat, hz: Rate, t: u64): u64 {
    Saturate(Floor(t * per, hz))
  }

  /** Ticks spanning `u` units, rounded up and never zero, before saturation. */
  function SpanUp(per: nat, hz: Rate, u: u64): (n: nat)
    requires per > 0
    ensures n > 0
  {
    if CeilDiv(u * hz, per) == 0 then 1 else CeilDiv(u * hz, per)
  }

  function TicksUp(per: nat, hz: Rate, u: u64): u64
    requires per > 0
  {
    Saturate(SpanUp(per, hz, u))
  }

  function TicksDown(per: nat, hz: Rate, u: u64): u64
    requires per > 0
  {
    Saturate(Floor(u * hz, per))
  }

  function MicrosAt(hz: Rate, t: u64): u64 {
    UnitsAt(MICROS, hz, t)
  }

  // ---- Arming and reading are adjoint ----

  lemma SpanUpGalois(per: nat, hz: Rate, u: u64, t: u64)
    requires per > 0 && u > 0
    ensures SpanUp(per, hz, u) <= t <==> u * hz <= t * per
  {
    CeilGalois(u * hz, per, t);
    CeilGalois(u * hz, per, 0);
    Monotone(1, u, hz);
  }

  lemma ReadGalois(per: nat, hz: Rate, u: u64, t: u64)
    ensures u <= UnitsAt(per, hz, t) <==> u * hz <= t * per
  {
    FloorGalois(t * per, hz, u);
  }

  /**
   A span of `u >= 1` has passed exactly when the clock reads at least `u`. At the last
   tick, which saturation makes the end of every longer span, the two agree exactly when
   the span does not really end later.
   */
  lemma ArmingReadsBack(per: nat, hz: Rate, u: u64, t: u64)
    requires per > 0 && u > 0
    ensures t < U64_MAX ==> (TicksUp(per, hz, u) <= t <==> u <= UnitsAt(per, hz, t))
    ensures t == U64_MAX ==>
              ((TicksUp(per, hz, u) <= t <==> u <= UnitsAt(per, hz, t)) <==> SpanUp(per, hz, u) <= U64_MAX)
  {
    SpanUpGalois(per, hz, u, t);
    ReadGalois(per, hz, u, t);
  }

  // ---- Deadlines ----

  function AfterMicros(hz: Rate, now: u64, u: u64): u64 {
    Saturate(now + TicksUp(MICROS, hz, u))
  }

  /** A deadline is strictly later, and by the clock no less than `u` microseconds have passed when it comes. */
  lemma DeadlineNeverEarly(hz: Rate, now: u64, u: u64)
    requires now + SpanUp(MICROS, hz, u) <= U64_MAX
    ensures var d := AfterMicros(hz, now, u);
            now < d && MicrosAt(hz, d - now) >= u && Saturate(MicrosAt(hz, now) + u) <= MicrosAt(hz, d)
  {
    var n := SpanUp(MICROS, hz, u);
    SpanCovers(MICROS, hz, u);
    ReadGalois(MICROS, hz, u, n);
    FloorSuperadditive(now * MICROS, n * MICROS, hz, u);
    assert now * MICROS + n * MICROS == (now + n) * MICROS;
  }

  lemma SpanCovers(per: nat, hz: Rate, u: u64)
    requires per > 0
    ensures u * hz <= SpanUp(per, hz, u) * per
  {
    CeilGalois(u * hz, per, SpanUp(per, hz, u));
  }

  /** And it is the first such tick: at any earlier one less than `u` has been read. */
  lemma DeadlineIsFirst(hz: Rate, now: u64, u: u64, t: u64)
    requires u > 0 && now + SpanUp(MICROS, hz, u) <= U64_MAX && now <= t < AfterMicros(hz, now, u)
    ensures MicrosAt(hz, t - now) < u
  {
    ArmingReadsBack(MICROS, hz, u, t - now);
  }

  /** A deadline rounded down instead is never late by the clock, and one tick more would overshoot. */
  lemma FloorNeverLate(per: nat, hz: Rate, u: u64)
    requires per > 0
    ensures var t := TicksDown(per, hz, u);
            UnitsAt(per, hz, t) <= u && t * per <= u * hz && (t < U64_MAX ==> u * hz < (t + 1) * per)
  {
    var t := TicksDown(per, hz, u);
    FloorGalois(u * hz, per, t);
    FloorGalois(u * hz, per, t + 1);
    assert (u + 1) * hz == u * hz + hz;
    FloorAtMost(t * per, hz, u);
  }

  // ---- The carried phase ----

  datatype Phase = Phase(micros: nat, remainder: nat)

  /** The reading as `micros_phase_at` gives it. */
  function PhaseAt(hz: Rate, t: u64): Phase {
    Phase(Saturate(Floor(t * MICROS, hz)), t * MICROS % hz)
  }

  /** What division drops is exactly what the phase keeps, until the reading no longer fits. */
  lemma PhaseIsExact(hz: Rate, t: u64)
    ensures var p := PhaseAt(hz, t);
            p.remainder < hz && (p.micros * hz + p.remainder == t * MICROS <==> t * MICROS / hz <= U64_MAX)
  {
    var q := t * MICROS / hz;
    assert t * MICROS == q * hz + t * MICROS % hz;
    if q > U64_MAX {
      Monotone(U64_MAX + 1, q, hz);
      assert (U64_MAX + 1) * hz == U64_MAX * hz + hz;
    }
  }

  /** Later ticks read no less. */
  lemma ReadingIsMonotone(hz: Rate, t: u64, later: u64)
    requires t <= later
    ensures MicrosAt(hz, t) <= MicrosAt(hz, later)
  {
    var m := MicrosAt(hz, t);
    ReadGalois(MICROS, hz, m, t);
    Monotone(t, later, MICROS);
    ReadGalois(MICROS, hz, m, later);
  }

  /** The timer chip's cursor: brought up to the absolute reading at every access and callback, never back. */
  function Sync(hz: Rate, cursor: u64, t: u64): u64 {
    if MicrosAt(hz, t) > cursor then cursor + (MicrosAt(hz, t) - cursor) else cursor
  }

  function Syncs(hz: Rate, cursor: u64, ts: seq<u64>): u64
    decreases |ts|
  {
    if ts == [] then cursor else Syncs(hz, Sync(hz, cursor, ts[0]), ts[1..])
  }

  /** However often and whenever it is synchronized on the way, at the last tick the cursor reads what the clock reads. */
  lemma {:induction false} SyncsLoseNothing(hz: Rate, cursor: u64, ts: seq<u64>)
    requires ts != [] && cursor <= MicrosAt(hz, ts[0]) && forall i, j :: 0 <= i < j < |ts| ==> ts[i] <= ts[j]
    ensures Syncs(hz, cursor, ts) == MicrosAt(hz, ts[|ts| - 1])
    decreases |ts|
  {
    var next := Sync(hz, cursor, ts[0]);
    if |ts| == 1 {
      assert Syncs(hz, next, ts[1..]) == next;
    } else {
      ReadingIsMonotone(hz, ts[0], ts[1]);
      SyncsLoseNothing(hz, next, ts[1..]);
    }
  }

  // ---- A clock set to read a given time ----

  /** What `clock_reading_micros` reads. */
  function ReadingMicros(hz: Rate, u: u64): u64 {
    MicrosAt(hz, TicksUp(MICROS, hz, u))
  }

  /** How far the tick lies past the time asked for, in parts of a tick. */
  function Excess(hz: Rate, u: u64): nat {
    if u == 0 then MICROS else (MICROS - (u * hz) % MICROS) % MICROS
  }

  lemma ExcessIsRounding(hz: Rate, u: u64)
    ensures SpanUp(MICROS, hz, u) * MICROS == u * hz + Excess(hz, u)
  {
    var x := u * hz;
    assert x == MICROS * (x / MICROS) + x % MICROS;
    if u > 0 {
      Monotone(1, u, hz);
      CeilGalois(x, MICROS, 0);
    }
  }

  /** It reads back as asked exactly when the rounding is less than a microsecond (the last reading saturates). */
  lemma ReadsBackExactly(hz: Rate, u: u64)
    requires SpanUp(MICROS, hz, u) <= U64_MAX
    ensures ReadingMicros(hz, u) == u <==> Excess(hz, u) < hz || u == U64_MAX
  {
    var n := SpanUp(MICROS, hz, u);
    ExcessIsRounding(hz, u);
    FloorGalois(n * MICROS, hz, u);
    FloorGalois(n * MICROS, hz, u + 1);
    assert (u + 1) * hz == u * hz + hz;
  }

  /** So it reads back every time it can hold exactly on machines faster than 1 MHz. */
  lemma ReadsBackAlways(hz: Rate)
    ensures (forall u: u64 :: SpanUp(MICROS, hz, u) <= U64_MAX ==> ReadingMicros(hz, u) == u) <==> hz > MICROS
  {
    if hz > MICROS {
      forall u: u64 | SpanUp(MICROS, hz, u) <= U64_MAX ensures ReadingMicros(hz, u) == u {
        ReadsBackExactly(hz, u);
      }
    } else {
      ReadsBackExactly(hz, 0);
      assert ReadingMicros(hz, 0) != 0;
    }
  }
}
