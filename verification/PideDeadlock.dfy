/** Exactly which sessions can always finish. */
module PideDeadlock {
  import opened Sums
  import opened RingQueue
  import opened PideShop
  import opened PideInvariants
  import opened PideScripts
  import opened PideRace
  import opened PideTermination
  import opened PideProgress
  import opened PideLeftover

  /** In every state that a run reaches before all orders are counted as received,
      an order can move. */
  ghost predicate DeadlockFree(calm: bool, orders: seq<Pide>, cooks: nat, couriers: nat) {
    forall t :: Reach(calm, Init(orders, cooks, couriers), t) && !Done(t) ==> CanAdvance(calm, t)
  }

  // ------------------------------------------------------------ doomed sessions

  /** Three cooks wait at the full oven with all three apparatus. */
  ghost predicate Jam(s: State) {
    && |s.cooks| >= 3 && s.cooks[0].Blocked? && s.cooks[1].Blocked? && s.cooks[2].Blocked?
    && s.aparatus == 0 && |s.ovenQ| == OVEN_CAPACITY && OvenFree(s)
  }

  /** No cook, no courier, a submitter that waits for ever, a jam at the oven, or an
      outstanding order that a phantom took the place of. */
  ghost predicate Doomed(s: State) {
    || (|s.cooks| == 0 && |s.timers| == 0 && |s.orderQ| == s.submitted && |s.orders| > 0)
    || (|s.couriers| == 0 && |s.counted| == 0 && |s.orders| > 0)
    || s.stuck
    || Jam(s)
    || s.phantoms > 0
  }

  lemma DoomedNotDone(s: State)
    requires Inv(s) && RealInShop(s) && Doomed(s)
    ensures !Done(s)
  {
    Bounds(s);
    SumNonneg(CookCarries, s.cooks);
    if |s.couriers| == 0 && |s.counted| == 0 && |s.orders| > 0 {
      assert s.orders[0] in s.orders;
    } else if s.submitted < |s.orders| {
      UnsubmittedNotDone(s);
    } else {
      OutstandingNotDone(s);
    }
  }

  /** While three cooks sit in a jam nobody else holds an apparatus. */
  lemma JamHoldsAll(s: State)
    requires ApparatusBalance(s) && Jam(s)
    ensures forall i :: 3 <= i < |s.cooks| ==> CookHolds(s.cooks[i]) == 0
    ensures forall t :: 0 <= t < |s.timers| ==> TimerHolds(s.timers[t]) == 0
  {
    var a := s.cooks[0 := Idle];
    var b := a[1 := Idle];
    var c := b[2 := Idle];
    SumUpdate(CookHolds, s.cooks, 0, Idle);
    SumUpdate(CookHolds, a, 1, Idle);
    SumUpdate(CookHolds, b, 2, Idle);
    SumNonneg(CookHolds, c);
    SumNonneg(TimerHolds, s.timers);
    assert forall i :: 3 <= i < |s.cooks| ==> c[i] == s.cooks[i];
  }

  lemma JamCook(s: State, i: nat, step: CookStep)
    requires ApparatusBalance(s) && Jam(s) && CookCan(s, i, step)
    ensures Jam(CookDoes(s, i, step))
  {
    JamHoldsAll(s);
    if i >= 3 {
      assert CookHolds(s.cooks[i]) == 0;
    }
  }

  lemma JamTimer(s: State, t: nat, step: TimerStep)
    requires ApparatusBalance(s) && Jam(s) && TimerCan(s, t, step)
    ensures Jam(TimerDoes(s, t, step))
  {
    JamHoldsAll(s);
    assert TimerHolds(s.timers[t]) == 0;
  }

  lemma DoomedCook(s: State, i: nat, step: CookStep)
    requires Inv(s) && Doomed(s) && CookCan(s, i, step)
    ensures Doomed(CookDoes(s, i, step))
  {
    if Jam(s) {
      JamCook(s, i, step);
    }
  }

  lemma DoomedTimer(s: State, t: nat, step: TimerStep)
    requires Inv(s) && Doomed(s) && TimerCan(s, t, step)
    ensures Doomed(TimerDoes(s, t, step))
  {
    if Jam(s) {
      JamTimer(s, t, step);
    }
  }

  lemma DoomedCourier(s: State, j: nat, step: CourierStep)
    requires Doomed(s) && CourierCan(s, j, step)
    ensures Doomed(CourierDoes(s, j, step))
  {
  }

  /** Once doomed, for ever doomed. */
  lemma DoomedStep(s: State, a: Action)
    requires Inv(s) && Doomed(s) && Enabled(s, a)
    ensures Doomed(Apply(s, a))
  {
    match a
    case Submitter(step) =>
    case ByCook(i, step) => DoomedCook(s, i, step);
    case ByTimer(t, step) => DoomedTimer(s, t, step);
    case ByCourier(j, step) => DoomedCourier(s, j, step);
  }

  ghost predicate DoomedInv(s: State) {
    Inv(s) && RealInShop(s) && Doomed(s)
  }

  lemma {:induction false} DoomedRun(calm: bool, s: State, acts: seq<Action>)
    requires DoomedInv(s) && Runs(calm, s, acts)
    ensures DoomedInv(Exec(calm, s, acts)) && Measure(Exec(calm, s, acts)) <= Measure(s)
    decreases |acts|
  {
    if |acts| > 0 {
      StepInv(s, acts[0]);
      RealStep(s, acts[0]);
      DoomedStep(s, acts[0]);
      StepMeasure(s, acts[0]);
      DoomedRun(calm, Apply(s, acts[0]), acts[1..]);
    }
  }

  /** Advancing as long as that is possible, a doomed session comes to a halt before
      all its orders are counted. */
  lemma {:induction false} RunDown(calm: bool, z: State, s: State) returns (t: State)
    requires Reach(calm, z, s) && DoomedInv(s)
    ensures Reach(calm, z, t) && !CanAdvance(calm, t) && !Done(t)
    decreases Measure(s)
  {
    MeasureNonneg(s);
    if CanAdvance(calm, s) {
      var u, a :| Settles(calm, s, u) && Allowed(calm, u, a) && Advancing(a);
      var acts :| Runs(calm, s, acts) && Exec(calm, s, acts) == u;
      DoomedRun(calm, s, acts);
      ReachReach(calm, z, s, u);
      ReachStep(calm, z, u, a);
      StepMeasure(u, a);
      StepInv(u, a);
      RealStep(u, a);
      DoomedStep(u, a);
      t := RunDown(calm, z, Apply(u, a));
    } else {
      t := s;
      DoomedNotDone(s);
    }
  }

  /** A session that can reach a doomed state is not free of deadlock. */
  lemma DoomMeansDeadlock(calm: bool, orders: seq<Pide>, cooks: nat, couriers: nat, s: State)
    requires Session(orders) && Reach(calm, Init(orders, cooks, couriers), s) && Doomed(s)
    ensures !DeadlockFree(calm, orders, cooks, couriers)
  {
    ReachReal(calm, orders, cooks, couriers, s);
    var t := RunDown(calm, Init(orders, cooks, couriers), s);
  }

  // ------------------------------------------------------------ the ways to doom

  /** The session after `f` orders were queued and `b` of them put into the oven. */
  ghost function Baked(z: State, f: nat, b: nat): State
    requires b <= f <= |z.orders|
  {
    z.(submitted := f, totalOrder := f, orderQ := z.orders[b..f], ovenQ := z.orders[..b],
       timers := seq(b, _ => Expired))
  }

  lemma {:induction false} FeedMany(calm: bool, z: State, f: nat)
    requires z == Init(z.orders, |z.cooks|, |z.couriers|) && f <= |z.orders| && f <= ORDER_CAPACITY
    ensures Reach(calm, z, Baked(z, f, 0))
  {
    if f == 0 {
      ReachSelf(calm, z);
      assert Baked(z, 0, 0) == z;
    } else {
      FeedMany(calm, z, f - 1);
      var s := Baked(z, f - 1, 0);
      Feed(calm, z, s);
      assert s.orderQ + [s.orders[f - 1]] == z.orders[..f];
      assert Baked(z, f, 0) == s.(orderQ := s.orderQ + [s.orders[f - 1]], submitted := f, pending := false, totalOrder := f);
    }
  }

  lemma {:induction false} BakeMany(calm: bool, z: State, f: nat, b: nat)
    requires z == Init(z.orders, |z.cooks|, |z.couriers|) && |z.cooks| > 0
    requires b <= f <= |z.orders| && f <= ORDER_CAPACITY && b <= OVEN_CAPACITY
    ensures Reach(calm, z, Baked(z, f, b))
  {
    if b == 0 {
      FeedMany(calm, z, f);
    } else {
      BakeMany(calm, z, f, b - 1);
      var s := Baked(z, f, b - 1);
      Bake(calm, z, s);
      assert s.orderQ[1..] == z.orders[b..f] && s.ovenQ + [s.orderQ[0]] == z.orders[..b];
      assert s.timers + [Expired] == seq(b, _ => Expired);
      assert Baked(z, f, b) == s.(orderQ := s.orderQ[1..], ovenQ := s.ovenQ + [s.orderQ[0]], timers := s.timers + [Expired]);
    }
  }

  /** Cook `i` takes an order and an apparatus, finds the oven full and waits. */
  lemma BlockCook(calm: bool, z: State, s: State, i: nat)
    requires Reach(calm, z, s) && CookCan(s, i, TakeOrder) && s.aparatus != 0 && OvenFree(s)
    requires |s.ovenQ| == OVEN_CAPACITY
    ensures Reach(calm, z, s.(orderQ := s.orderQ[1..], aparatus := s.aparatus - 1,
                              cooks := s.cooks[i := Blocked(s.orderQ[0])]))
  {
    ReachCook(calm, z, s, i, TakeOrder);
    var s1 := CookDoes(s, i, TakeOrder);
    ReachCook(calm, z, s1, i, TakeApparatus);
    var s2 := CookDoes(s1, i, TakeApparatus);
    ReachCook(calm, z, s2, i, Yield);
    var s3 := CookDoes(s2, i, Yield);
    ReachCook(calm, z, s3, i, Retake);
    assert CookDoes(s3, i, Retake) == s.(orderQ := s.orderQ[1..], aparatus := s.aparatus - 1,
                              cooks := s.cooks[i := Blocked(s.orderQ[0])]);
  }

  lemma ReachJam(calm: bool, z: State) returns (t: State)
    requires z == Init(z.orders, |z.cooks|, |z.couriers|) && |z.cooks| >= 3 && |z.orders| >= 9
    ensures Reach(calm, z, t) && Jam(t)
  {
    BakeMany(calm, z, 9, OVEN_CAPACITY);
    t := Baked(z, 9, OVEN_CAPACITY);
    BlockCook(calm, z, t, 0);
    t := t.(orderQ := t.orderQ[1..], aparatus := t.aparatus - 1, cooks := t.cooks[0 := Blocked(t.orderQ[0])]);
    BlockCook(calm, z, t, 1);
    t := t.(orderQ := t.orderQ[1..], aparatus := t.aparatus - 1, cooks := t.cooks[1 := Blocked(t.orderQ[0])]);
    BlockCook(calm, z, t, 2);
    t := t.(orderQ := t.orderQ[1..], aparatus := t.aparatus - 1, cooks := t.cooks[2 := Blocked(t.orderQ[0])]);
  }

  lemma ReachStuck(calm: bool, z: State) returns (t: State)
    requires z == Init(z.orders, |z.cooks|, |z.couriers|) && |z.orders| > ORDER_CAPACITY
    ensures Reach(calm, z, t) && t.stuck
  {
    FeedMany(calm, z, ORDER_CAPACITY);
    var s := Baked(z, ORDER_CAPACITY, 0);
    assert PreparedFree(s);
    ReachSubmitter(calm, z, s, Block);
    t := SubmitterDoes(s, Block);
  }

  lemma UnsoundDooms(calm: bool, orders: seq<Pide>, cooks: nat, couriers: nat) returns (t: State)
    requires Session(orders) && |orders| > 0 && !Sound(|orders|, cooks, couriers)
    ensures Reach(calm, Init(orders, cooks, couriers), t) && Doomed(t)
  {
    var z := Init(orders, cooks, couriers);
    ReachSelf(calm, z);
    t := z;
    if cooks > 0 && couriers > 0 {
      if |orders| > ORDER_CAPACITY {
        t := ReachStuck(calm, z);
      } else {
        t := ReachJam(calm, z);
      }
    }
  }

  lemma UnsoundDeadlocks(calm: bool, orders: seq<Pide>, cooks: nat, couriers: nat)
    requires Session(orders) && |orders| > 0 && !Sound(|orders|, cooks, couriers)
    ensures !DeadlockFree(calm, orders, cooks, couriers)
  {
    var t := UnsoundDooms(calm, orders, cooks, couriers);
    DoomMeansDeadlock(calm, orders, cooks, couriers, t);
  }

  // ------------------------------------------------------------ the theorems

  lemma CalmAdvanceIsAdvance(s: State)
    requires CanAdvance(true, s)
    ensures CanAdvance(false, s)
  {
    var t, a :| Settles(true, s, t) && Allowed(true, t, a) && Advancing(a);
    var acts :| && Runs(true, s, acts) && Exec(true, s, acts) == t
                && forall k :: 0 <= k < |acts| ==> !Advancing(acts[k]);
    CalmRunsAreRuns(s, acts);
    assert Settles(false, s, t) && Allowed(false, t, a);
  }

  /** Calm runs: an order can always move until all are received if and only if
      there are a cook and a courier, at most 200 orders, and either at most two
      cooks or at most eight orders.  More orders than the queue holds leave the
      submitter in a wait that nobody ends; three cooks with nine orders can lock
      all three apparatus up at the full oven. */
  lemma CalmDeadlockFreeExactly(orders: seq<Pide>, cooks: nat, couriers: nat)
    requires Session(orders) && |orders| > 0
    ensures DeadlockFree(true, orders, cooks, couriers) <==> Sound(|orders|, cooks, couriers)
  {
    var z := Init(orders, cooks, couriers);
    if Sound(|orders|, cooks, couriers) {
      forall t | Reach(true, z, t) && !Done(t) ensures CanAdvance(true, t) {
        CalmReach(orders, cooks, couriers, t);
        Progress(true, t);
        if !CanAdvance(true, t) {
          CountedMeansDone(t);
        }
      }
    } else {
      UnsoundDeadlocks(true, orders, cooks, couriers);
    }
  }

  /** All runs: in addition there must be no race for the counter, which leaves one
      courier or one order. */
  lemma DeadlockFreeExactly(orders: seq<Pide>, cooks: nat, couriers: nat)
    requires Session(orders) && |orders| > 0
    ensures DeadlockFree(false, orders, cooks, couriers)
            <==> Sound(|orders|, cooks, couriers) && Small(|orders|, cooks, couriers)
  {
    var z := Init(orders, cooks, couriers);
    if !Sound(|orders|, cooks, couriers) {
      UnsoundDeadlocks(false, orders, cooks, couriers);
    } else if !Small(|orders|, cooks, couriers) {
      var s := GetReady(orders, cooks, couriers);
      var t := Race(z, s);
      DoomMeansDeadlock(false, orders, cooks, couriers, t);
    } else {
      CalmDeadlockFreeExactly(orders, cooks, couriers);
      forall t | Reach(false, z, t) && !Done(t) ensures CanAdvance(false, t) {
        var acts :| Runs(false, z, acts) && Exec(false, z, acts) == t;
        SmallRunsAreCalm(z, acts);
        assert Reach(true, z, t);
        CalmAdvanceIsAdvance(t);
      }
    }
  }

  // ------------------------------------------------------------ counting up, race or not

  /** In every state that a run reaches before as many are counted as there are
      orders, something can move. */
  ghost predicate CountsUp(orders: seq<Pide>, cooks: nat, couriers: nat) {
    forall t :: Reach(false, Init(orders, cooks, couriers), t) && t.totalReceived < |orders| ==> CanAdvance(false, t)
  }

  /** The steps that do not advance do not count orders either, so they are allowed in
      calm runs. */
  lemma {:induction false} SettlingIsCalm(s: State, acts: seq<Action>)
    requires Runs(false, s, acts) && forall k :: 0 <= k < |acts| ==> !Advancing(acts[k])
    ensures Runs(true, s, acts) && Exec(true, s, acts) == Exec(false, s, acts)
    decreases |acts|
  {
    if |acts| > 0 {
      assert acts[0] != Submitter(Bump);
      forall k | 0 <= k < |acts[1..]| ensures !Advancing(acts[1..][k]) {
        assert acts[1..][k] == acts[k + 1];
      }
      SettlingIsCalm(Apply(s, acts[0]), acts[1..]);
    }
  }

  /** A courier between its two reads makes the second one, and the submitter counts. */
  lemma BumpAfterRecheck(s: State, u: State, j: nat)
    requires Settles(true, s, u) && Mutexes(u) && CalmInv(u) && u.pending
    requires j < |u.couriers| == |u.received| && u.couriers[j].Woken?
    ensures CanAdvance(true, s)
  {
    assert !PreparedFree(u);
    SettlesStep(true, s, u, ByCourier(j, Recheck));
    var v := CourierDoes(u, j, Recheck);
    assert PreparedFree(v);
    assert Allowed(true, v, Submitter(Bump));
  }

  /** After a calm run, what can advance can do so calmly. */
  lemma AdvanceIsCalm(s: State)
    requires Inv(s) && CalmInv(s) && CanAdvance(false, s)
    ensures CanAdvance(true, s)
  {
    var u, a :| Settles(false, s, u) && Allowed(false, u, a) && Advancing(a);
    var acts :| && Runs(false, s, acts) && Exec(false, s, acts) == u
                && forall k :: 0 <= k < |acts| ==> !Advancing(acts[k]);
    SettlingIsCalm(s, acts);
    CalmRunInv(s, acts);
    RunInv(true, s, acts);
    assert Settles(true, s, u);
    if j: nat :| a == Submitter(Bump) && j < |u.couriers| && u.couriers[j].Woken? {
      BumpAfterRecheck(s, u, j);
    } else {
      assert Allowed(true, u, a);
    }
  }

  /** Something can always move until as many are counted as there are orders, in all
      runs and in spite of the race, if and only if the session is sound. */
  lemma CountsUpExactly(orders: seq<Pide>, cooks: nat, couriers: nat)
    requires Session(orders) && |orders| > 0
    ensures CountsUp(orders, cooks, couriers) <==> Sound(|orders|, cooks, couriers)
  {
    var z := Init(orders, cooks, couriers);
    if Sound(|orders|, cooks, couriers) {
      forall t | Reach(false, z, t) && t.totalReceived < |orders| ensures CanAdvance(false, t) {
        ReachReal(false, orders, cooks, couriers, t);
        Progress(false, t);
      }
    } else {
      var s := UnsoundDooms(true, orders, cooks, couriers);
      ReachReal(true, orders, cooks, couriers, s);
      var t := RunDown(true, z, s);
      StopsShort(orders, cooks, couriers, t);
    }
  }

  lemma StopsShort(orders: seq<Pide>, cooks: nat, couriers: nat, t: State)
    requires Session(orders) && Reach(true, Init(orders, cooks, couriers), t)
    requires !CanAdvance(true, t) && !Done(t)
    ensures !CountsUp(orders, cooks, couriers)
  {
    var z := Init(orders, cooks, couriers);
    CalmReach(orders, cooks, couriers, t);
    AllCounted(t);
    if t.totalReceived == |orders| {
      CountedMeansDone(t);
    }
    if CanAdvance(false, t) {
      AdvanceIsCalm(t);
    }
    var acts :| Runs(true, z, acts) && Exec(true, z, acts) == t;
    CalmRunsAreRuns(z, acts);
    assert Reach(false, z, t);
  }
}
