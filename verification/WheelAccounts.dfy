/**
 What the wheel owes its devices: under the registration discipline the machine
 follows, the queue of undispatched fires never overflows, and no fire is lost,
 invented or credited to the wrong owner.
 */
module WheelAccounts {
  import opened Base
  import opened Sets
  import opened TimerTypes
  import opened TimerWire
  import opened Wheel
  import opened WheelRefinement
  import opened WheelRuns

  predicate Registered(ts: seq<Timer>, owner: Owner) {
    exists i :: 0 <= i < |ts| && ts[i].inUse && ts[i].owner == owner
  }

  ghost predicate QueueTidy(fired: seq<Fire>, ts: seq<Timer>) {
    && (forall k :: 0 <= k < |fired| ==>
          fired[k].owner != NullTimer && 1 <= fired[k].count <= U32_MAX && Registered(ts, fired[k].owner))
    && (forall j, k :: 0 <= j < k < |fired| ==> fired[j].owner != fired[k].owner)
  }

  ghost predicate RegistryTidy(ts: seq<Timer>) {
    && (forall i :: 0 <= i < |ts| && ts[i].inUse ==>
          OnWire(ts[i].owner) && CleanId(ts[i].id) && (ts[i].owner == NullTimer ==> i == 0))
    && (forall i, j :: 0 <= i < j < |ts| && ts[i].inUse && ts[j].inUse ==> ts[i].owner != ts[j].owner)
  }

  ghost predicate Tidy(w: State) {
    && 1 <= w.ips < U64_LIMIT
    && w.board.a20Mask == (if w.board.enableA20 then A20_ON else A20_OFF)
    && RegistryTidy(w.timers)
    && QueueTidy(w.fired, w.timers)
  }

  /**
   The discipline: a device registers an owner of its own, once, under a name with
   no interior zero byte, and withdraws it only with no fire of its own undispatched.
   */
  ghost predicate Disciplined(w: State, op: Op) {
    match op
    case OpRegister(owner, _, _, _, id) => NewOwner(w.timers, owner, id)
    case OpRegisterUsec(owner, _, _, _, id) => NewOwner(w.timers, owner, id)
    case OpUnregister(i) => i < |w.timers| ==> !Queued(w.fired, w.timers[i].owner)
    case _ => true
  }

  ghost predicate NewOwner(ts: seq<Timer>, owner: Owner, id: seq<byte>) {
    owner != NullTimer && OnWire(owner) && !Registered(ts, owner) && CleanId(PadId(id))
  }

  // ---- The queue cannot overflow ----

  ghost function QueuedOwners(fired: seq<Fire>, n: nat): set<Owner>
    requires n <= |fired|
  {
    if n == 0 then {} else QueuedOwners(fired, n - 1) + {fired[n - 1].owner}
  }

  lemma {:induction false} NotAmongQueued(fired: seq<Fire>, n: nat, o: Owner)
    requires n <= |fired| && forall k :: 0 <= k < n ==> fired[k].owner != o
    ensures o !in QueuedOwners(fired, n)
  {
    if n > 0 {
      NotAmongQueued(fired, n - 1, o);
    }
  }

  lemma {:induction false} QueuedOwnersCount(fired: seq<Fire>, n: nat)
    requires n <= |fired|
    requires forall j, k :: 0 <= j < k < |fired| ==> fired[j].owner != fired[k].owner
    ensures |QueuedOwners(fired, n)| == n
  {
    if n > 0 {
      QueuedOwnersCount(fired, n - 1);
      NotAmongQueued(fired, n - 1, fired[n - 1].owner);
    }
  }

  ghost function SlotOwners(ts: seq<Timer>, n: nat): set<Owner>
    requires 1 <= n <= |ts|
  {
    if n == 1 then {} else SlotOwners(ts, n - 1) + {ts[n - 1].owner}
  }

  lemma {:induction false} SlotOwnersCount(ts: seq<Timer>, n: nat)
    requires 1 <= n <= |ts|
    ensures |SlotOwners(ts, n)| <= n - 1
    ensures forall i :: 1 <= i < n ==> ts[i].owner in SlotOwners(ts, n)
  {
    if n > 1 {
      SlotOwnersCount(ts, n - 1);
    }
  }

  lemma {:induction false} QueuedOwnersHoldSlots(fired: seq<Fire>, ts: seq<Timer>, n: nat)
    requires n <= |fired| && |ts| == MAX_TIMERS && ts[0].owner == NullTimer && QueueTidy(fired, ts)
    ensures QueuedOwners(fired, n) <= SlotOwners(ts, MAX_TIMERS)
  {
    if n > 0 {
      QueuedOwnersHoldSlots(fired, ts, n - 1);
      SlotOwnersCount(ts, MAX_TIMERS);
      assert Registered(ts, fired[n - 1].owner);
    }
  }

  /** Each queued owner holds a slot of its own besides the null timer's, so one place is always free. */
  lemma QueueNeverFull(fired: seq<Fire>, ts: seq<Timer>)
    requires |ts| == MAX_TIMERS && ts[0].owner == NullTimer && QueueTidy(fired, ts)
    ensures |fired| < MAX_TIMERS
  {
    QueuedOwnersCount(fired, |fired|);
    SlotOwnersCount(ts, MAX_TIMERS);
    QueuedOwnersHoldSlots(fired, ts, |fired|);
    SubsetIsNoLarger(QueuedOwners(fired, |fired|), SlotOwners(ts, MAX_TIMERS));
  }

  // ---- Every operation keeps the books ----

  lemma {:induction false} RecordFromTidy(fired: seq<Fire>, ts: seq<Timer>, owner: Owner, k: nat)
    requires QueueTidy(fired, ts) && owner != NullTimer && Registered(ts, owner) && k <= |fired|
    requires forall j :: 0 <= j < k ==> fired[j].owner != owner
    ensures QueueTidy(RecordFrom(fired, owner, k), ts)
    decreases |fired| - k
  {
    if k < |fired| && fired[k].owner != owner {
      RecordFromTidy(fired, ts, owner, k + 1);
    }
  }

  lemma {:induction false} RecordDueTidy(fired: seq<Fire>, ts: seq<Timer>, at: nat, n: nat)
    requires n <= |ts| && QueueTidy(fired, ts)
    requires forall i :: 0 <= i < |ts| && ts[i].active ==> ts[i].inUse
    ensures QueueTidy(RecordDue(fired, ts, at, n), ts)
  {
    if n > 0 {
      RecordDueTidy(fired, ts, at, n - 1);
      var t := ts[n - 1];
      if Due(t, at) && t.owner != NullTimer {
        assert Registered(ts, t.owner);
        RecordFromTidy(RecordDue(fired, ts, at, n - 1), ts, t.owner, 0);
      }
    }
  }

  /** Same devices in the same slots, whatever their deadlines. */
  ghost predicate SameRegistry(a: seq<Timer>, b: seq<Timer>) {
    && |a| == |b|
    && forall i :: 0 <= i < |a| ==> a[i].inUse == b[i].inUse && a[i].owner == b[i].owner && a[i].id == b[i].id
  }

  lemma SameRegistryTidy(fired: seq<Fire>, a: seq<Timer>, b: seq<Timer>)
    requires SameRegistry(a, b) && RegistryTidy(a) && QueueTidy(fired, a)
    ensures RegistryTidy(b) && QueueTidy(fired, b)
  {
    forall k | 0 <= k < |fired| ensures Registered(b, fired[k].owner) {
      assert Registered(a, fired[k].owner);
    }
  }

  lemma Tick1Tidy(w: State)
    requires WellFormed(w) && Tidy(w)
    ensures Tidy(Tick1(w)) && SameRegistry(w.timers, Tick1(w).timers)
  {
    if w.countdown == 1 {
      RecordDueTidy(w.fired, w.timers, NextEvent(w), MAX_TIMERS);
      SameRegistryTidy(CountdownEvent(w).fired, w.timers, CountdownEvent(w).timers);
    }
  }

  lemma {:induction false} TicksTidy(w: State, n: nat)
    requires WellFormed(w) && Tidy(w)
    ensures Tidy(Ticks(w, n))
    decreases n
  {
    if n > 0 {
      Tick1Tidy(w);
      Tick1WellFormed(w);
      TicksTidy(Tick1(w), n - 1);
    }
  }

  lemma OccupyTidy(w: State, i: nat, t: Timer)
    requires WellFormed(w) && Tidy(w) && 1 <= i < MAX_TIMERS && !w.timers[i].inUse
    requires t.owner != NullTimer && OnWire(t.owner) && !Registered(w.timers, t.owner) && CleanId(t.id)
    ensures Tidy(Occupy(w, i, t))
  {
    var w' := Occupy(w, i, t);
    forall k | 0 <= k < |w.fired| ensures Registered(w'.timers, w.fired[k].owner) {
      var j :| 0 <= j < |w.timers| && w.timers[j].inUse && w.timers[j].owner == w.fired[k].owner;
      assert w'.timers[j] == w.timers[j];
    }
  }

  lemma RegisterInRegistry(w: State, i: nat, t: Timer, active: bool)
    requires |w.timers| == MAX_TIMERS && i < MAX_TIMERS && w.countdown <= w.period
    ensures SameRegistry(Occupy(w, i, t).timers, RegisterIn(w, i, t, active).state.timers)
  {
    ActivateAtRearms(Occupy(w, i, t), i, t.deadline, t.continuous);
  }

  lemma RegisterInTidy(w: State, i: nat, t: Timer, active: bool)
    requires WellFormed(w) && Tidy(w) && 1 <= i < MAX_TIMERS && !w.timers[i].inUse
    requires t.owner != NullTimer && OnWire(t.owner) && !Registered(w.timers, t.owner) && CleanId(t.id)
    ensures Tidy(RegisterIn(w, i, t, active).state)
  {
    OccupyTidy(w, i, t);
    if active {
      RegisterInRegistry(w, i, t, active);
      SameRegistryTidy(w.fired, Occupy(w, i, t).timers, RegisterIn(w, i, t, active).state.timers);
      ActivateAtRearms(Occupy(w, i, t), i, t.deadline, t.continuous);
    }
  }

  lemma RegisterTidy(w: State, owner: Owner, period: nat, continuous: bool, active: bool, id: seq<byte>)
    requires WellFormed(w) && Tidy(w) && NewOwner(w.timers, owner, id)
    ensures Tidy(Register(w, owner, period, continuous, active, id).state)
  {
    var p := AtLeastOne(period);
    var i := FreeSlot(w.timers, 1);
    if i < MAX_TIMERS && Now(w) + p < U64_LIMIT {
      var t := Timer(true, false, continuous, p, Now(w) + p, owner, PadId(id));
      RegisterInTidy(w, i, t, active);
      assert Register(w, owner, period, continuous, active, id) == RegisterIn(w, i, t, active);
    } else {
      assert Register(w, owner, period, continuous, active, id).state == w;
    }
  }

  lemma UnregisterTidy(w: State, i: nat)
    requires WellFormed(w) && Tidy(w) && (i < MAX_TIMERS ==> !Queued(w.fired, w.timers[i].owner))
    ensures Tidy(Unregister(w, i).state)
  {
    var r := Unregister(w, i).state;
    forall k | 0 <= k < |w.fired| ensures Registered(r.timers, w.fired[k].owner) {
      var j :| 0 <= j < |w.timers| && w.timers[j].inUse && w.timers[j].owner == w.fired[k].owner;
      assert r.timers[j] == w.timers[j];
    }
  }

  lemma StepTidy(w: State, op: Op)
    requires WellFormed(w) && Tidy(w) && Disciplined(w, op)
    ensures Tidy(Step(w, op).state)
  {
    if Rearms(op) {
      StepRearms(w, op);
      SameRegistryTidy(w.fired, w.timers, Step(w, op).state.timers);
    } else if op.OpTick? {
      TicksTidy(w, op.n);
    } else if op.OpRegister? {
      RegisterTidy(w, op.owner, op.period, op.continuous, op.active, op.id);
    } else if op.OpRegisterUsec? {
      RegisterTidy(w, op.owner, op.usec * w.ips / MICROS, op.continuous, op.active, op.id);
    } else if op.OpUnregister? {
      UnregisterTidy(w, op.slot);
    }
  }

  lemma NewcomerIsNew(w: State, i: nat, t: Timer, ts: seq<Timer>)
    requires i < |w.timers| && !w.timers[i].inUse && t.inUse && i != 0
    requires SameRegistry(Occupy(w, i, t).timers, ts) && RegistryTidy(ts)
    ensures t.owner != NullTimer && OnWire(t.owner) && CleanId(t.id) && !Registered(w.timers, t.owner)
  {
    var w' := Occupy(w, i, t);
    assert w'.timers[i] == t;
    forall j | 0 <= j < |w.timers| && w.timers[j].inUse ensures w.timers[j].owner != t.owner {
      assert w'.timers[j] == w.timers[j];
    }
  }

  lemma RegisterNeedsNewOwner(w: State, owner: Owner, period: nat, continuous: bool, active: bool, id: seq<byte>)
    requires WellFormed(w)
    requires Register(w, owner, period, continuous, active, id).error.None?
    requires RegistryTidy(Register(w, owner, period, continuous, active, id).state.timers)
    ensures NewOwner(w.timers, owner, id)
  {
    var i := FreeSlot(w.timers, 1);
    var p := AtLeastOne(period);
    var t := Timer(true, false, continuous, p, Now(w) + p, owner, PadId(id));
    RegisterInRegistry(w, i, t, active);
    NewcomerIsNew(w, i, t, RegisterIn(w, i, t, active).state.timers);
  }

  lemma UnregisterNeedsNoFire(w: State, i: nat)
    requires WellFormed(w) && RegistryTidy(w.timers) && Unregister(w, i).error.None?
    requires QueueTidy(w.fired, Unregister(w, i).state.timers)
    ensures !Queued(w.fired, w.timers[i].owner)
  {
    var r := Unregister(w, i).state;
    forall k | 0 <= k < |w.fired| ensures w.fired[k].owner != w.timers[i].owner {
      assert Registered(r.timers, w.fired[k].owner);
      var j :| 0 <= j < |r.timers| && r.timers[j].inUse && r.timers[j].owner == w.fired[k].owner;
      assert w.timers[j] == r.timers[j];
    }
  }

  /** The discipline asks for no more than the books need. */
  lemma DisciplineIsExact(w: State, op: Op)
    requires Running(w) && Tidy(w) && Step(w, op).error.None?
    ensures Tidy(Step(w, op).state) <==> Disciplined(w, op)
  {
    if Disciplined(w, op) {
      StepTidy(w, op);
    }
    if Tidy(Step(w, op).state) {
      if op.OpRegister? {
        RegisterNeedsNewOwner(w, op.owner, op.period, op.continuous, op.active, op.id);
      } else if op.OpRegisterUsec? {
        RegisterNeedsNewOwner(w, op.owner, op.usec * w.ips / MICROS, op.continuous, op.active, op.id);
      } else if op.OpUnregister? {
        assert Step(w, op).state.fired == w.fired;
        UnregisterNeedsNoFire(w, op.slot);
      }
    }
  }

  /** A name is clean exactly when no byte of it that is kept follows a zero byte, unless it is zero too. */
  lemma CleanNames(id: seq<byte>)
    ensures CleanId(PadId(id)) <==>
            forall i, j :: 0 <= i < j < ID_LEN - 1 && j < |id| && id[i] == 0 ==> id[j] == 0
  {
    var p := PadId(id);
    forall i | 0 <= i < ID_LEN ensures p[i] == if i < |id| && i < ID_LEN - 1 then id[i] else 0 {
    }
  }

  ghost predicate RunDisciplined(w: State, ops: seq<Op>)
    requires Running(w) && RunEnabled(w, ops)
    decreases |ops|
  {
    ops == [] || (
      && Disciplined(w, ops[0])
      && (StepRuns(w, ops[0]); RunDisciplined(Step(w, ops[0]).state, ops[1..])))
  }

  lemma {:induction false} RunTidy(w: State, ops: seq<Op>)
    requires Running(w) && Tidy(w) && RunEnabled(w, ops) && RunDisciplined(w, ops)
    ensures Tidy(Run(w, ops)) && |Run(w, ops).fired| < MAX_TIMERS
    decreases |ops|
  {
    if ops == [] {
      QueueNeverFull(w.fired, w.timers);
    } else {
      StepRuns(w, ops[0]);
      StepTidy(w, ops[0]);
      RunTidy(Step(w, ops[0]).state, ops[1..]);
    }
  }

  // ---- Conservation of fires ----

  /** The fires queued for `owner`. */
  function Total(fired: seq<Fire>, owner: Owner): nat {
    if fired == [] then 0
    else
      var f := fired[|fired| - 1];
      Total(fired[..|fired| - 1], owner) + (if f.owner == owner then f.count else 0)
  }

  lemma {:induction false} TotalUpdate(fired: seq<Fire>, k: nat, f: Fire, owner: Owner)
    requires k < |fired| && f.owner == fired[k].owner
    ensures Total(fired[k := f], owner) ==
            Total(fired, owner) + (if f.owner == owner then f.count - fired[k].count else 0)
    ensures fired[k].owner == owner ==> fired[k].count <= Total(fired, owner)
  {
    var m := |fired| - 1;
    if k == m {
      assert fired[k := f][..m] == fired[..m];
    } else {
      assert fired[k := f][..m] == fired[..m][k := f];
      TotalUpdate(fired[..m], k, f, owner);
    }
  }

  /** What a 32-bit count keeps of a number of fires. */
  function Capped(n: nat): nat {
    if n > U32_MAX then U32_MAX else n
  }

  /** One entry per owner, each a 32-bit count. */
  ghost predicate OneEach(fired: seq<Fire>) {
    && (forall k :: 0 <= k < |fired| ==> fired[k].count <= U32_MAX)
    && (forall j, k :: 0 <= j < k < |fired| ==> fired[j].owner != fired[k].owner)
  }

  /** With one entry per owner, the entry is the total. */
  lemma {:induction false} TotalIsEntry(fired: seq<Fire>, o: Owner)
    requires OneEach(fired)
    ensures forall k :: 0 <= k < |fired| && fired[k].owner == o ==> Total(fired, o) == fired[k].count
    ensures (forall k :: 0 <= k < |fired| ==> fired[k].owner != o) ==> Total(fired, o) == 0
    ensures Total(fired, o) <= U32_MAX
    decreases |fired|
  {
    if fired != [] {
      var m := |fired| - 1;
      TotalIsEntry(fired[..m], o);
      forall k | 0 <= k < m ensures fired[..m][k] == fired[k] && fired[k].owner != fired[m].owner {
      }
    }
  }

  /** Recording a fire is the search for the owner's entry. */
  lemma {:induction false} RecordFromCounts(fired: seq<Fire>, owner: Owner, k: nat, o: Owner)
    requires OneEach(fired) && k <= |fired| < MAX_TIMERS
    requires forall j :: 0 <= j < k ==> fired[j].owner != owner
    ensures Total(RecordFrom(fired, owner, k), o) == if owner == o then Capped(Total(fired, o) + 1) else Total(fired, o)
    decreases |fired| - k
  {
    if k == |fired| {
      TotalIsEntry(fired, owner);
      assert (fired + [Fire(owner, 1)])[..|fired|] == fired;
    } else if fired[k].owner == owner {
      TotalIsEntry(fired, owner);
      TotalUpdate(fired, k, Bump(fired[k]), o);
    } else {
      RecordFromCounts(fired, owner, k + 1, o);
    }
  }

  /** How many of the timers are `owner`'s and reach their deadline at `at`. */
  function ReachedNow(ts: seq<Timer>, at: nat, owner: Owner): nat {
    if ts == [] then 0
    else
      var t := ts[|ts| - 1];
      ReachedNow(ts[..|ts| - 1], at, owner) + Bit(Reached(t, at) && t.owner == owner)
  }

  /** One more slot: its fire, if it has one, is counted for its owner. */
  lemma SlotCounts(f: seq<Fire>, t: Timer, at: nat, o: Owner)
    requires OneEach(f) && |f| < MAX_TIMERS && o != NullTimer
    ensures Total(if Reached(t, at) then Record(f, t.owner) else f, o) ==
            Capped(Total(f, o) + Bit(Reached(t, at) && t.owner == o))
  {
    TotalIsEntry(f, o);
    RecordFromCounts(f, t.owner, 0, o);
  }

  lemma CappedTwice(a: nat, b: nat)
    ensures Capped(Capped(a) + b) == Capped(a + b)
  {
  }

  /** What the reference wheel's timers and queue have in common with a tidy wheel's. */
  ghost predicate Orderly(v: Naive) {
    && |v.timers| == MAX_TIMERS && v.timers[0].owner == NullTimer && QueueTidy(v.fired, v.timers)
    && forall i :: 0 <= i < MAX_TIMERS && v.timers[i].active ==>
                     v.timers[i].inUse && v.timers[i].period >= 1 && v.now < v.timers[i].deadline
  }

  lemma NaiveRecordTidy(v: Naive, n: nat)
    requires Orderly(v) && n <= MAX_TIMERS
    ensures var f := NaiveRecord(v.fired, v.timers[..n], v.now + 1);
            QueueTidy(f, v.timers) && OneEach(f) && |f| < MAX_TIMERS
  {
    RecordsAgree(v.fired, v.timers, v.now + 1, n);
    RecordDueTidy(v.fired, v.timers, v.now + 1, n);
    QueueNeverFull(NaiveRecord(v.fired, v.timers[..n], v.now + 1), v.timers);
  }

  lemma NextSlotCounts(v: Naive, n: nat, o: Owner)
    requires Orderly(v) && 0 < n <= MAX_TIMERS && o != NullTimer
    ensures var at, t := v.now + 1, v.timers[n - 1];
            Total(NaiveRecord(v.fired, v.timers[..n], at), o) ==
            Capped(Total(NaiveRecord(v.fired, v.timers[..n - 1], at), o) + Bit(Reached(t, at) && t.owner == o))
  {
    assert v.timers[..n][..n - 1] == v.timers[..n - 1] && v.timers[..n][n - 1] == v.timers[n - 1];
    NaiveRecordTidy(v, n - 1);
    SlotCounts(NaiveRecord(v.fired, v.timers[..n - 1], v.now + 1), v.timers[n - 1], v.now + 1, o);
  }

  lemma NextSlotReached(ts: seq<Timer>, at: nat, n: nat, o: Owner)
    requires 0 < n <= |ts|
    ensures ReachedNow(ts[..n], at, o) == ReachedNow(ts[..n - 1], at, o) + Bit(Reached(ts[n - 1], at) && ts[n - 1].owner == o)
  {
    assert ts[..n][..n - 1] == ts[..n - 1] && ts[..n][n - 1] == ts[n - 1];
  }

  lemma {:induction false} NaiveRecordCounts(v: Naive, n: nat, o: Owner)
    requires Orderly(v) && n <= MAX_TIMERS && o != NullTimer
    ensures Total(NaiveRecord(v.fired, v.timers[..n], v.now + 1), o) == Capped(Total(v.fired, o) + ReachedNow(v.timers[..n], v.now + 1, o))
    decreases n
  {
    if n == 0 {
      TotalIsEntry(v.fired, o);
    } else {
      var at, t := v.now + 1, v.timers[n - 1];
      NaiveRecordCounts(v, n - 1, o);
      NextSlotCounts(v, n, o);
      NextSlotReached(v.timers, at, n, o);
      CappedTwice(Total(v.fired, o) + ReachedNow(v.timers[..n - 1], at, o), Bit(Reached(t, at) && t.owner == o));
    }
  }

  lemma NaiveTickOrderly(v: Naive)
    requires Orderly(v)
    ensures Orderly(NaiveTick(v))
  {
    var v' := NaiveTick(v);
    assert v.timers[..MAX_TIMERS] == v.timers;
    NaiveRecordTidy(v, MAX_TIMERS);
    forall k | 0 <= k < |v'.fired| ensures Registered(v'.timers, v'.fired[k].owner) {
      assert Registered(v.timers, v'.fired[k].owner);
      var i :| 0 <= i < |v.timers| && v.timers[i].inUse && v.timers[i].owner == v'.fired[k].owner;
      assert v'.timers[i] == NaiveFire(v.timers[i], v.now + 1);
    }
  }

  /** How many deadlines of `owner` the next `n` ticks reach. */
  function Reaches(v: Naive, n: nat, owner: Owner): nat
    decreases n
  {
    if n == 0 then 0 else ReachedNow(v.timers, v.now + 1, owner) + Reaches(NaiveTick(v), n - 1, owner)
  }

  lemma NaiveTickCounts(v: Naive, o: Owner)
    requires Orderly(v) && o != NullTimer
    ensures Total(NaiveTick(v).fired, o) == Capped(Total(v.fired, o) + ReachedNow(v.timers, v.now + 1, o))
  {
    assert v.timers[..MAX_TIMERS] == v.timers;
    NaiveRecordCounts(v, MAX_TIMERS, o);
  }

  /** On the reference wheel an owner's queued fires grow by the deadlines its timers reach, up to the cap. */
  lemma {:induction false} NaiveTicksCount(v: Naive, n: nat, o: Owner)
    requires Orderly(v) && o != NullTimer
    ensures Total(NaiveTicks(v, n).fired, o) == Capped(Total(v.fired, o) + Reaches(v, n, o))
    decreases n
  {
    if n == 0 {
      TotalIsEntry(v.fired, o);
    } else {
      NaiveTickCounts(v, o);
      NaiveTickOrderly(v);
      NaiveTicksCount(NaiveTick(v), n - 1, o);
      CappedTwice(Total(v.fired, o) + ReachedNow(v.timers, v.now + 1, o), Reaches(NaiveTick(v), n - 1, o));
    }
  }

  lemma TidyIsOrderly(w: State) returns (v: Naive)
    requires Running(w) && Tidy(w)
    ensures v == View(w) && v.fired == w.fired && Orderly(v)
  {
    v := View(w);
  }

  lemma TicksFire(w: State, n: nat, v: Naive) returns (fired: seq<Fire>)
    requires Running(w) && Headroom(w, n) && v == View(w)
    ensures fired == Ticks(w, n).fired == NaiveTicks(v, n).fired
  {
    TicksRefine(w, n);
    fired := Ticks(w, n).fired;
  }

  lemma NaiveTally(v: Naive, n: nat, o: Owner, fired: seq<Fire>) returns (reached: nat)
    requires Orderly(v) && o != NullTimer && fired == NaiveTicks(v, n).fired
    ensures reached == Reaches(v, n, o) && Total(fired, o) == Capped(Total(v.fired, o) + reached)
  {
    NaiveTicksCount(v, n, o);
    reached := Reaches(v, n, o);
  }

  lemma TicksCount(w: State, n: nat, o: Owner) returns (fired: seq<Fire>, reached: nat)
    requires Running(w) && Tidy(w) && Headroom(w, n) && o != NullTimer
    ensures fired == Ticks(w, n).fired && reached == Reaches(View(w), n, o)
    ensures Total(fired, o) == Capped(Total(w.fired, o) + reached)
  {
    var v := TidyIsOrderly(w);
    fired := TicksFire(w, n, v);
    reached := NaiveTally(v, n, o, fired);
  }

  function StepReached(w: State, op: Op, owner: Owner): nat
    requires WellFormed(w)
  {
    if op.OpTick? then Reaches(View(w), op.n, owner) else 0
  }

  function StepDrained(w: State, op: Op, owner: Owner): nat {
    if op.OpDrain? then Total(w.fired, owner) else 0
  }

  lemma TicksConserve(w: State, n: u32, o: Owner) returns (fired: seq<Fire>, reached: nat)
    requires Running(w) && Tidy(w) && Headroom(w, n) && o != NullTimer
    ensures fired == Ticks(w, n).fired && reached == Reaches(View(w), n, o)
    ensures var before, after := Total(w.fired, o) + reached, Total(fired, o);
            after <= before && (after == before <==> before <= U32_MAX)
  {
    fired, reached := TicksCount(w, n, o);
    CappedLoses(Total(w.fired, o) + reached);
  }

  /** A step conserves an owner's fires exactly when their count still fits. */
  lemma StepConserves(w: State, op: Op, o: Owner)
    requires Running(w) && Tidy(w) && Enabled(w, op) && !op.OpReset? && o != NullTimer
    ensures var before, after := Total(w.fired, o) + StepReached(w, op, o), StepDrained(w, op, o) + Total(Step(w, op).state.fired, o);
            after <= before && (after == before <==> before <= U32_MAX)
  {
    TotalIsEntry(w.fired, o);
    if op.OpTick? {
      var fired, reached := TicksConserve(w, op.n, o);
    } else if op.OpDrain? {
      assert Step(w, op).state.fired == [];
    } else {
      OtherOpsKeepQueue(w, op);
    }
  }

  lemma CappedLoses(n: nat)
    ensures Capped(n) <= n && (Capped(n) == n <==> n <= U32_MAX)
  {
  }

  ghost function RunReached(w: State, ops: seq<Op>, owner: Owner): nat
    requires Running(w) && RunEnabled(w, ops)
    decreases |ops|
  {
    if ops == [] then 0
    else
      StepRuns(w, ops[0]);
      StepReached(w, ops[0], owner) + RunReached(Step(w, ops[0]).state, ops[1..], owner)
  }

  ghost function RunDrained(w: State, ops: seq<Op>, owner: Owner): nat
    requires Running(w) && RunEnabled(w, ops)
    decreases |ops|
  {
    if ops == [] then 0
    else
      StepRuns(w, ops[0]);
      StepDrained(w, ops[0], owner) + RunDrained(Step(w, ops[0]).state, ops[1..], owner)
  }

  lemma OtherOpsKeepQueue(w: State, op: Op)
    requires WellFormed(w) && !op.OpTick? && !op.OpDrain? && !op.OpReset?
    ensures Step(w, op).state.fired == w.fired
  {
    if Rearms(op) {
      StepRearms(w, op);
    }
  }

  /** No step brings an owner more fires than its 32-bit count can still take; draining starts the count again. */
  ghost predicate Countable(w: State, ops: seq<Op>, owner: Owner)
    requires Running(w) && RunEnabled(w, ops)
    decreases |ops|
  {
    ops == [] || (
      && Total(w.fired, owner) + StepReached(w, ops[0], owner) <= U32_MAX
      && (StepRuns(w, ops[0]); Countable(Step(w, ops[0]).state, ops[1..], owner)))
  }

  /** The first step of a run and the rest of it. */
  lemma RunUnfolds(w: State, ops: seq<Op>, o: Owner)
    requires Running(w) && RunEnabled(w, ops) && ops != []
    ensures Running(Step(w, ops[0]).state) && RunEnabled(Step(w, ops[0]).state, ops[1..])
    ensures var w', rest := Step(w, ops[0]).state, ops[1..];
            && Run(w, ops) == Run(w', rest)
            && RunReached(w, ops, o) == StepReached(w, ops[0], o) + RunReached(w', rest, o)
            && RunDrained(w, ops, o) == StepDrained(w, ops[0], o) + RunDrained(w', rest, o)
            && (Countable(w, ops, o) <==>
                Total(w.fired, o) + StepReached(w, ops[0], o) <= U32_MAX && Countable(w', rest, o))
  {
    StepRuns(w, ops[0]);
  }

  lemma DisciplineUnfolds(w: State, ops: seq<Op>)
    requires Running(w) && Tidy(w) && RunEnabled(w, ops) && RunDisciplined(w, ops) && ops != []
    ensures Enabled(w, ops[0])
    ensures var w' := Step(w, ops[0]).state;
            Running(w') && Tidy(w') && RunEnabled(w', ops[1..]) && RunDisciplined(w', ops[1..])
  {
    StepRuns(w, ops[0]);
    StepTidy(w, ops[0]);
  }

  /**
   Over any disciplined run without a reset, what was dispatched to an owner plus
   what is still queued for it never exceeds what was queued at the start plus the
   deadlines its timers reached, and equals it exactly when no count between two
   drains outgrows 32 bits.
   */
  lemma {:induction false} FiresAreConserved(w: State, ops: seq<Op>, o: Owner)
    requires Running(w) && Tidy(w) && RunEnabled(w, ops) && RunDisciplined(w, ops)
    requires forall k :: 0 <= k < |ops| ==> !ops[k].OpReset?
    requires o != NullTimer
    ensures RunDrained(w, ops, o) + Total(Run(w, ops).fired, o) <= Total(w.fired, o) + RunReached(w, ops, o)
    ensures RunDrained(w, ops, o) + Total(Run(w, ops).fired, o) == Total(w.fired, o) + RunReached(w, ops, o) <==>
            Countable(w, ops, o)
    decreases |ops|
  {
    if ops != [] {
      DisciplineUnfolds(w, ops);
      RunUnfolds(w, ops, o);
      StepConserves(w, ops[0], o);
      FiresAreConserved(Step(w, ops[0]).state, ops[1..], o);
    }
  }

  // ---- Order ----

  /** The queue `b` is the queue `a` with counts grown in place and owners added at the end. */
  predicate GrownFrom(a: seq<Fire>, b: seq<Fire>) {
    |a| <= |b| && forall k :: 0 <= k < |a| ==> b[k].owner == a[k].owner && Capped(a[k].count) <= b[k].count
  }

  lemma {:induction false} RecordGrows(fired: seq<Fire>, owner: Owner, k: nat)
    requires k <= |fired|
    ensures GrownFrom(fired, RecordFrom(fired, owner, k))
    ensures var r := RecordFrom(fired, owner, k); |r| > |fired| ==> r == fired + [Fire(owner, 1)]
    decreases |fired| - k
  {
    if k < |fired| && fired[k].owner != owner {
      RecordGrows(fired, owner, k + 1);
    }
  }

  lemma {:induction false} NaiveRecordGrows(fired: seq<Fire>, ts: seq<Timer>, at: nat)
    ensures GrownFrom(fired, NaiveRecord(fired, ts, at))
    decreases |ts|
  {
    if ts != [] {
      var f, t := NaiveRecord(fired, ts[..|ts| - 1], at), ts[|ts| - 1];
      NaiveRecordGrows(fired, ts[..|ts| - 1], at);
      RecordGrows(f, t.owner, 0);
    }
  }

  lemma {:induction false} NaiveTicksGrow(v: Naive, n: nat)
    ensures GrownFrom(v.fired, NaiveTicks(v, n).fired)
    decreases n
  {
    if n > 0 {
      NaiveRecordGrows(v.fired, v.timers, v.now + 1);
      NaiveTicksGrow(NaiveTick(v), n - 1);
    }
  }

  /** Ticking never reorders the fires that wait: who fired first is dispatched first. */
  lemma QueueKeepsOrder(w: State, n: nat)
    requires Running(w) && Headroom(w, n)
    ensures GrownFrom(w.fired, Ticks(w, n).fired)
  {
    TicksRefine(w, n);
    NaiveTicksGrow(View(w), n);
  }
}
