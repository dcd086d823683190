/**
 The countdown wheel of `rusty_box/src/pc_system.rs`, as functions on values.

 The wheel does not look at its timers on every tick: it counts down to the next
 event, jumps there, fires what is due and picks the next distance. These
 functions say what each operation does to the state; `PcSystem.dfy` holds the
 object that does it in place, and `WheelRefinement.dfy` what the jumps mean.
 */
module Wheel {
  import opened Base
  import opened TimerTypes

  datatype State = State(
    timers: seq<Timer>,
    numTimers: nat,
    triggered: nat,
    countdown: nat,
    period: nat,
    ticksTotal: nat,
    fired: seq<Fire>,
    ips: nat,
    board: Board)

  // ---- What every state satisfies ----

  ghost predicate WellFormed(w: State) {
    && |w.timers| == MAX_TIMERS
    && 1 <= w.numTimers <= MAX_TIMERS
    && w.triggered == 0
    && 1 <= w.countdown <= w.period <= NULL_INTERVAL
    && (forall i :: 0 <= i < MAX_TIMERS ==> SlotWellFormed(w.timers[i], i, w.numTimers))
    && w.timers[0].active && w.timers[0].continuous && w.timers[0].period == NULL_INTERVAL
    && w.timers[0].owner == NullTimer && w.timers[0].id == ZeroId()
  }

  ghost predicate SlotWellFormed(t: Timer, i: nat, numTimers: nat) {
    && (t.inUse ==> i < numTimers && t.period >= MIN_PERIOD)
    && (!t.inUse ==> !t.active && !t.continuous && t.owner == NullTimer && t.id == ZeroId())
  }

  function NextEvent(w: State): nat {
    w.ticksTotal + w.period
  }

  /** `time_ticks`: the precise time, partial countdown included. */
  function Now(w: State): nat
    requires w.countdown <= w.period
  {
    w.ticksTotal + (w.period - w.countdown)
  }

  /** No active deadline comes before the next event: nothing can be jumped over. */
  ghost predicate NothingSkipped(w: State)
    requires |w.timers| == MAX_TIMERS
  {
    forall i :: 0 <= i < MAX_TIMERS && w.timers[i].active ==> NextEvent(w) <= w.timers[i].deadline
  }

  ghost predicate Inv(w: State) {
    WellFormed(w) && NothingSkipped(w)
  }

  /** Every tick value held is representable in 64 bits. */
  ghost predicate Fits(w: State) {
    && NextEvent(w) < U64_LIMIT
    && (forall i :: 0 <= i < |w.timers| ==> w.timers[i].deadline < U64_LIMIT && w.timers[i].period < U64_LIMIT)
  }

  /**
   Time stays below 2^64 for `n` more ticks: the clock with the longest jump it can
   make, and the next deadline of every continuous timer that comes due meanwhile.
   */
  ghost predicate Headroom(w: State, n: nat)
    requires w.countdown <= w.period
  {
    && Now(w) + n + NULL_INTERVAL < U64_LIMIT
    && forall i :: 0 <= i < |w.timers| && w.timers[i].active && w.timers[i].continuous && w.timers[i].deadline <= Now(w) + n ==>
                     Now(w) + n + w.timers[i].period < U64_LIMIT
  }

  // ---- Ticking ----

  function CatchUp(deadline: nat, period: nat, at: nat): (r: nat)
    requires period >= 1
    ensures r > at && r >= deadline
    decreases if deadline <= at then at - deadline + 1 else 0
  {
    if deadline <= at then CatchUp(deadline + period, period, at) else deadline
  }

  predicate Due(t: Timer, at: nat) {
    t.active && t.deadline <= at
  }

  function FireTimer(t: Timer, at: nat): Timer
    requires t.active ==> t.period >= 1
  {
    if !Due(t, at) then t
    else if !t.continuous then t.(active := false)
    else t.(deadline := CatchUp(t.deadline, t.period, at))
  }

  function Scan(ts: seq<Timer>, at: nat): (r: seq<Timer>)
    requires forall i :: 0 <= i < |ts| && ts[i].active ==> ts[i].period >= 1
    ensures |r| == |ts|
  {
    seq(|ts|, i requires 0 <= i < |ts| => FireTimer(ts[i], at))
  }

  function Min(a: nat, b: nat): nat { if b < a then b else a }

  /** The least active deadline among the first `n` slots, or the largest tick. */
  function Earliest(ts: seq<Timer>, n: nat): nat
    requires n <= |ts|
  {
    if n == 0 then U64_MAX
    else if ts[n - 1].active then Min(Earliest(ts, n - 1), ts[n - 1].deadline)
    else Earliest(ts, n - 1)
  }

  function Clamp(distance: nat): nat {
    if distance < MIN_PERIOD then MIN_PERIOD
    else if distance > NULL_INTERVAL then NULL_INTERVAL
    else distance
  }

  function NextPeriod(earliest: nat, at: nat): (p: nat)
    ensures 1 <= p <= NULL_INTERVAL
    ensures at < earliest ==> at + p <= earliest
  {
    if earliest < at then MIN_PERIOD else Clamp(earliest - at)
  }

  predicate Queued(fired: seq<Fire>, owner: Owner) {
    exists k :: 0 <= k < |fired| && fired[k].owner == owner
  }

  function Bump(f: Fire): Fire {
    f.(count := if f.count >= U32_MAX then U32_MAX else f.count + 1)
  }

  /** `record_fired_owner`: one more fire of `owner`, coalesced with those queued. */
  function Record(fired: seq<Fire>, owner: Owner): seq<Fire> {
    if owner == NullTimer then fired
    else RecordFrom(fired, owner, 0)
  }

  function RecordFrom(fired: seq<Fire>, owner: Owner, k: nat): seq<Fire>
    requires k <= |fired|
    decreases |fired| - k
  {
    if k == |fired| then
      if |fired| < MAX_TIMERS then fired + [Fire(owner, 1)] else fired
    else if fired[k].owner == owner then fired[k := Bump(fired[k])]
    else RecordFrom(fired, owner, k + 1)
  }

  /** The fires of the first `n` slots at time `at`, in slot order. */
  function RecordDue(fired: seq<Fire>, ts: seq<Timer>, at: nat, n: nat): seq<Fire>
    requires n <= |ts|
  {
    if n == 0 then fired
    else
      var f := RecordDue(fired, ts, at, n - 1);
      if Due(ts[n - 1], at) then Record(f, ts[n - 1].owner) else f
  }

  function CountdownEvent(w: State): State
    requires forall i :: 0 <= i < |w.timers| && w.timers[i].active ==> w.timers[i].period >= 1
  {
    var at := w.ticksTotal + w.period;
    var ts := Scan(w.timers, at);
    var next := NextPeriod(Earliest(ts, |ts|), at);
    w.(timers := ts, ticksTotal := at, countdown := next, period := next,
       fired := RecordDue(w.fired, w.timers, at, |w.timers|))
  }

  function Tick1(w: State): State
    requires WellFormed(w)
  {
    if w.countdown == 1 then CountdownEvent(w) else w.(countdown := w.countdown - 1)
  }

  /** `n` single ticks. */
  function Ticks(w: State, n: nat): (r: State)
    requires WellFormed(w)
    ensures WellFormed(r)
    decreases n
  {
    if n == 0 then w
    else
      Tick1WellFormed(w);
      Ticks(Tick1(w), n - 1)
  }

  lemma Tick1WellFormed(w: State)
    requires WellFormed(w)
    ensures WellFormed(Tick1(w))
  {
  }

  // ---- Arming and disarming ----

  datatype Reply = Reply(state: State, error: Option<TimerError>)

  function IndexError(w: State, i: nat): Option<TimerError>
    requires |w.timers| == MAX_TIMERS
  {
    if i >= MAX_TIMERS then Some(TimerIndexOutOfBounds(i))
    else if i == 0 then Some(NullTimerModification)
    else if !w.timers[i].inUse then Some(TimerNotInUse(i))
    else None
  }

  /** `shorten_countdown_to`: bring the next event forward, never the clock. */
  function Shorten(w: State, deadline: nat): State
    requires w.countdown <= w.period
  {
    var now := Now(w);
    if deadline <= now || deadline - now >= w.countdown then w
    else
      var until := deadline - now;
      w.(countdown := until, period := w.period - w.countdown + until)
  }

  function SetSlot(w: State, i: nat, t: Timer): State
    requires i < |w.timers|
  {
    w.(timers := w.timers[i := t])
  }

  function ActivateAt(w: State, i: nat, deadline: nat, continuous: bool): Reply
    requires |w.timers| == MAX_TIMERS && w.countdown <= w.period
  {
    if IndexError(w, i).Some? then Reply(w, IndexError(w, i))
    else
      var now := Now(w);
      if deadline <= now && now + MIN_PERIOD >= U64_LIMIT then Reply(w, Some(TimerDeadlineOverflow))
      else
        var d := if deadline <= now then now + MIN_PERIOD else deadline;
        var t := w.timers[i].(deadline := d, active := true, continuous := continuous);
        Reply(Shorten(SetSlot(w, i, t), d), None)
  }

  function AtLeastOne(period: nat): nat {
    if period < MIN_PERIOD then MIN_PERIOD else period
  }

  function ActivateAtWithPeriod(w: State, i: nat, deadline: nat, period: nat, continuous: bool): Reply
    requires |w.timers| == MAX_TIMERS && w.countdown <= w.period
  {
    if IndexError(w, i).Some? then Reply(w, IndexError(w, i))
    else ActivateAt(SetSlot(w, i, w.timers[i].(period := AtLeastOne(period))), i, deadline, continuous)
  }

  function Activate(w: State, i: nat, period: nat, continuous: bool): Reply
    requires |w.timers| == MAX_TIMERS && w.countdown <= w.period
  {
    if IndexError(w, i).Some? then Reply(w, IndexError(w, i))
    else
      var p := AtLeastOne(period);
      if Now(w) + p >= U64_LIMIT then Reply(w, Some(TimerDeadlineOverflow))
      else ActivateAt(SetSlot(w, i, w.timers[i].(period := p)), i, Now(w) + p, continuous)
  }

  /** Activation in a unit of which `perSecond` make a second; zero means the old period. */
  function ActivateIn(w: State, i: nat, span: nat, perSecond: nat, continuous: bool): Reply
    requires |w.timers| == MAX_TIMERS && w.countdown <= w.period && perSecond > 0
  {
    if IndexError(w, i).Some? then Reply(w, IndexError(w, i))
    else if span == 0 then Activate(w, i, w.timers[i].period, continuous)
    else
      var ticks := span * w.ips / perSecond;
      if ticks >= U64_LIMIT then Reply(w, Some(TimeConversionOverflow))
      else Activate(w, i, AtLeastOne(ticks), continuous)
  }

  function Reactivate(w: State, i: nat, period: nat): Reply
    requires |w.timers| == MAX_TIMERS && w.countdown <= w.period
  {
    if IndexError(w, i).Some? then Reply(w, IndexError(w, i))
    else
      var p := AtLeastOne(period);
      var d := w.timers[i].deadline + p;
      if d >= U64_LIMIT then Reply(w, Some(TimerDeadlineOverflow))
      else ActivateAt(SetSlot(w, i, w.timers[i].(period := p)), i, d, false)
  }

  function Deactivate(w: State, i: nat): Reply
    requires |w.timers| == MAX_TIMERS
  {
    if IndexError(w, i).Some? then Reply(w, IndexError(w, i))
    else Reply(SetSlot(w, i, w.timers[i].(active := false)), None)
  }

  function Unregister(w: State, i: nat): Reply
    requires |w.timers| == MAX_TIMERS
  {
    if IndexError(w, i).Some? then Reply(w, IndexError(w, i))
    else if w.timers[i].active then Reply(w, Some(TimerStillActive(i)))
    else
      var cleared := SetSlot(w, i, Timer(false, false, false, U64_MAX, U64_MAX, NullTimer, ZeroId()));
      Reply(if i + 1 == w.numTimers then cleared.(numTimers := i) else cleared, None)
  }

  /** The first unused slot at or after `i`, or the number of slots. */
  function FreeSlot(ts: seq<Timer>, i: nat): (r: nat)
    requires i <= |ts|
    ensures i <= r <= |ts|
    ensures r < |ts| ==> !ts[r].inUse
    ensures forall j :: i <= j < r ==> ts[j].inUse
    decreases |ts| - i
  {
    if i == |ts| || !ts[i].inUse then i else FreeSlot(ts, i + 1)
  }

  /** The identifier truncated to leave a terminating zero. */
  function PadId(id: seq<byte>): (r: seq<byte>)
    ensures |r| == ID_LEN
  {
    var kept := if |id| < ID_LEN then |id| else ID_LEN - 1;
    id[..kept] + ZeroId()[kept..]
  }

  /** A timer in slot `i`, the high-water count raised to cover it. */
  function Occupy(w: State, i: nat, t: Timer): State
    requires i < |w.timers|
  {
    var w' := SetSlot(w, i, t);
    if i >= w.numTimers then w'.(numTimers := i + 1) else w'
  }

  function RegisterIn(w: State, i: nat, t: Timer, active: bool): Reply
    requires |w.timers| == MAX_TIMERS && i < MAX_TIMERS && w.countdown <= w.period
  {
    var w' := Occupy(w, i, t);
    if active then ActivateAt(w', i, t.deadline, t.continuous) else Reply(w', None)
  }

  function Register(w: State, owner: Owner, period: nat, continuous: bool, active: bool, id: seq<byte>): Reply
    requires |w.timers| == MAX_TIMERS && w.countdown <= w.period
  {
    var p := AtLeastOne(period);
    var i := FreeSlot(w.timers, 1);
    if i == MAX_TIMERS then Reply(w, Some(NoFreeTimerSlots))
    else if Now(w) + p >= U64_LIMIT then Reply(w, Some(TimerDeadlineOverflow))
    else
      RegisterIn(w, i, Timer(true, false, continuous, p, Now(w) + p, owner, PadId(id)), active)
  }

  // ---- Construction ----

  function NullSlot(): Timer {
    Timer(true, true, true, NULL_INTERVAL, NULL_INTERVAL, NullTimer, ZeroId())
  }

  const A20_ON: u64 := 0xFFFF_FFFF_FFFF_FFFF
  const A20_OFF: u64 := 0xFFFF_FFFF_FFEF_FFFF

  function New(): State {
    State(seq(MAX_TIMERS, i => if i == 0 then NullSlot() else EmptySlot()),
          1, 0, NULL_INTERVAL, NULL_INTERVAL, 0, [], 1_000_000,
          Board(0, 0, false, A20_OFF, false, false, false, false, false, false, None))
  }

  /** `initialize`: rewinds the clock and the null timer, and no other timer. */
  function Initialize(w: State, ips: nat): State
    requires |w.timers| == MAX_TIMERS
  {
    w.(timers := w.timers[0 := w.timers[0].(deadline := NULL_INTERVAL)],
       triggered := 0, countdown := NULL_INTERVAL, period := NULL_INTERVAL, ticksTotal := 0,
       ips := if ips < 1 then 1 else ips,
       board := w.board.(lastTimeUsec := 0, usecSinceLast := 0, hrq := false, hrqPending := false,
                         killRequest := false, resetRequest := None))
  }

  function SetA20(w: State, on: bool): State {
    w.(board := w.board.(enableA20 := on, a20Mask := if on then A20_ON else A20_OFF))
  }

  /** `reset`: A20 on, and fires nobody dispatched are forgotten. */
  function Reset(w: State): State {
    var a := SetA20(w, true);
    a.(fired := [], board := a.board.(hrqPending := false, resetRequest := None))
  }

  /** `take_fired_timers`: the queue is handed over whole and left empty. */
  function Drain(w: State): State {
    w.(fired := [])
  }
}
