/** What every session comes to when it is run to its end. */
module PideCompletion {
  import opened RingQueue
  import opened PideShop
  import opened PideInvariants
  import opened PideRace
  import opened PideTermination
  import opened PideProgress
  import opened PideLeftover
  import opened PideDelivered
  import opened PideDeadlock

  /** No thread can make a step. */
  ghost predicate Over(calm: bool, s: State) {
    forall a :: !Allowed(calm, s, a)
  }

  /** Every run can be continued to an end. */
  lemma {:induction false} RunToEnd(calm: bool, z: State, s: State) returns (t: State, acts: seq<Action>)
    requires Reach(calm, z, s) && Inv(s)
    ensures Reach(calm, z, t) && Over(calm, t) && Runs(calm, s, acts) && Exec(calm, s, acts) == t
    decreases Remaining(s)
  {
    RemainingNonneg(s);
    if a :| Allowed(calm, s, a) {
      StepInv(s, a);
      StepRemaining(s, a);
      ReachStep(calm, z, s, a);
      var rest;
      t, rest := RunToEnd(calm, z, Apply(s, a));
      acts := [a] + rest;
      assert acts[1..] == rest;
    } else {
      t, acts := s, [];
    }
  }

  lemma OverStays(calm: bool, s: State, acts: seq<Action>)
    requires Over(calm, s) && Runs(calm, s, acts)
    ensures Exec(calm, s, acts) == s
  {
  }

  lemma OverCannotAdvance(calm: bool, s: State)
    requires Over(calm, s)
    ensures !CanAdvance(calm, s)
  {
    forall t | Settles(calm, s, t) ensures t == s {
      var acts :| Runs(calm, s, acts) && Exec(calm, s, acts) == t;
      OverStays(calm, s, acts);
    }
  }

  /** Every run of a sound session, run to its end, has counted as many as there are
      orders, has no outstanding order and has sent DELIVERED exactly once; and every
      order was counted if and only if no phantom was. */
  lemma EveryEndIsComplete(orders: seq<Pide>, cooks: nat, couriers: nat, calm: bool, t: State)
    requires Session(orders) && |orders| > 0 && Sound(|orders|, cooks, couriers)
    requires Reach(calm, Init(orders, cooks, couriers), t) && Over(calm, t)
    ensures t.totalReceived == |orders| && t.totalOrder == 0 && t.sent == 1
    ensures Done(t) <==> t.phantoms == 0
  {
    OverCannotAdvance(calm, t);
    CompletedExactlyOnce(orders, cooks, couriers, calm, t);
  }

  /** When a calm run is over, what calm runs rule out is over too: a courier between
      its two reads could still make the second one. */
  lemma CalmEnd(s: State)
    requires CalmInv(s) && |s.couriers| == |s.received| && Over(true, s)
    ensures Over(false, s)
  {
    forall a ensures !Allowed(false, s, a) {
      assert !Allowed(true, s, a);
      if j: nat :| j < |s.couriers| && s.couriers[j].Woken? {
        assert !PreparedFree(s);
        assert !Allowed(true, s, ByCourier(j, Recheck));
      }
    }
  }

  /** A doomed run ends before every order is counted. */
  lemma DoomedEnd(calm: bool, orders: seq<Pide>, cooks: nat, couriers: nat, s: State) returns (t: State)
    requires Session(orders) && Reach(calm, Init(orders, cooks, couriers), s) && Doomed(s)
    ensures Reach(calm, Init(orders, cooks, couriers), t) && Over(calm, t) && !Done(t)
  {
    ReachReal(calm, orders, cooks, couriers, s);
    var acts;
    t, acts := RunToEnd(calm, Init(orders, cooks, couriers), s);
    DoomedRun(calm, s, acts);
    DoomedNotDone(t);
  }

  /** Every run, run to its end, has counted as many as there are orders and has sent
      DELIVERED once. */
  ghost predicate AlwaysCompletes(orders: seq<Pide>, cooks: nat, couriers: nat) {
    forall t :: Reach(false, Init(orders, cooks, couriers), t) && Over(false, t) ==>
                  t.totalReceived == |orders| && t.sent == 1
  }

  /** A session always completes, whatever the scheduling, if and only if it is sound. */
  lemma AlwaysCompletesExactly(orders: seq<Pide>, cooks: nat, couriers: nat)
    requires Session(orders) && |orders| > 0
    ensures AlwaysCompletes(orders, cooks, couriers) <==> Sound(|orders|, cooks, couriers)
  {
    if Sound(|orders|, cooks, couriers) {
      forall t | Reach(false, Init(orders, cooks, couriers), t) && Over(false, t)
        ensures t.totalReceived == |orders| && t.sent == 1
      {
        EveryEndIsComplete(orders, cooks, couriers, false, t);
      }
    } else {
      var s := UnsoundDooms(true, orders, cooks, couriers);
      var t := DoomedEnd(true, orders, cooks, couriers, s);
      EndsShort(orders, cooks, couriers, t);
    }
  }

  lemma EndsShort(orders: seq<Pide>, cooks: nat, couriers: nat, t: State)
    requires Session(orders) && Reach(true, Init(orders, cooks, couriers), t) && Over(true, t) && !Done(t)
    ensures !AlwaysCompletes(orders, cooks, couriers)
  {
    var z := Init(orders, cooks, couriers);
    CalmReach(orders, cooks, couriers, t);
    CalmEnd(t);
    if t.totalReceived == |t.orders| {
      CountedMeansDone(t);
    }
    var acts :| Runs(true, z, acts) && Exec(true, z, acts) == t;
    CalmRunsAreRuns(z, acts);
    assert Reach(false, z, t);
  }

  /** Every run, run to its end, has counted every order of the session and has sent
      DELIVERED once. */
  ghost predicate AlwaysDelivers(orders: seq<Pide>, cooks: nat, couriers: nat) {
    forall t :: Reach(false, Init(orders, cooks, couriers), t) && Over(false, t) ==> Done(t) && t.sent == 1
  }

  /** A session always delivers every order, whatever the scheduling, if and only if
      it is sound and too small for the race. */
  lemma AlwaysDeliversExactly(orders: seq<Pide>, cooks: nat, couriers: nat)
    requires Session(orders) && |orders| > 0
    ensures AlwaysDelivers(orders, cooks, couriers)
            <==> Sound(|orders|, cooks, couriers) && Small(|orders|, cooks, couriers)
  {
    var z := Init(orders, cooks, couriers);
    if !Small(|orders|, cooks, couriers) {
      var s := GetReady(orders, cooks, couriers);
      s := Race(z, s);
      var t := DoomedEnd(false, orders, cooks, couriers, s);
    } else if !Sound(|orders|, cooks, couriers) {
      var s := UnsoundDooms(false, orders, cooks, couriers);
      var t := DoomedEnd(false, orders, cooks, couriers, s);
    } else {
      PhantomFreeExactly(orders, cooks, couriers);
      forall t | Reach(false, z, t) && Over(false, t) ensures Done(t) && t.sent == 1 {
        EveryEndIsComplete(orders, cooks, couriers, false, t);
      }
    }
  }
}
