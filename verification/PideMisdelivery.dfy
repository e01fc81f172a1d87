/** DELIVERED although an order never left the shop. */
module PideMisdelivery {
  import opened RingQueue
  import opened PideShop
  import opened PideScripts
  import opened PideRace
  import opened PideProgress
  import opened PideLeftover
  import opened PideDelivered

  /** Whenever DELIVERED was sent, every order of the session was counted. */
  ghost predicate DeliveredMeansDone(orders: seq<Pide>, cooks: nat, couriers: nat) {
    forall t :: Reach(false, Init(orders, cooks, couriers), t) && t.sent == 1 ==> Done(t)
  }

  /** A courier with one order in its bag makes its tour. */
  lemma Tour(z: State, s: State, j: nat) returns (t: State)
    requires Reach(false, z, s) && j < |s.couriers| == |s.received| && PreparedFree(s) && s.totalOrder == 0
    requires s.couriers[j].Loading? && |s.couriers[j].bag| == 1
    ensures Reach(false, z, t) && PreparedFree(t) && t.onlySend == (s.onlySend && t.totalReceived != |s.orders|)
    ensures t == s.(couriers := s.couriers[j := Loading([])], received := t.received, totalReceived := s.totalReceived + 1,
                    counted := t.counted, onlySend := t.onlySend, sent := t.sent) && |t.received| == |s.received|
  {
    ReachCourier(false, z, s, j, Depart);
    t := CourierDoes(s, j, Depart);
    ReachCourier(false, z, t, j, Count);
    t := CourierDoes(t, j, Count);
    ReachCourier(false, z, t, j, Check);
    t := CourierDoes(t, j, Check);
  }

  /** All orders submitted so far but the last are on their way or counted, and so is
      the phantom: as many are counted as were submitted. */
  ghost predicate Round(s: State) {
    && s.submitted <= |s.orders| && !s.pending && !s.stuck && |s.orderQ| == 1
    && |s.preparedQ| == 0 && s.totalOrder == 0 && s.phantoms == 1
    && |s.couriers| == |s.received| > 0 && PreparedFree(s) && s.couriers[0] == Loading([])
    && KitchenIdle(s) && s.totalReceived == s.submitted && s.onlySend == (s.submitted < |s.orders|)
  }

  lemma FirstRound(z: State, s: State) returns (t: State)
    requires Reach(false, z, s) && Raced(s)
    ensures Reach(false, z, t) && Round(t) && t.orders == s.orders
  {
    var u := Tour(z, s, 0);
    assert u.couriers[1] == s.couriers[1];
    t := Tour(z, u, 1);
    assert t.couriers[0] == u.couriers[0];
  }

  /** One more order is submitted, the one before it is baked and delivered. */
  lemma NextRound(z: State, s: State) returns (t: State)
    requires Reach(false, z, s) && Round(s) && s.submitted < |s.orders|
    ensures Reach(false, z, t) && Round(t) && t.orders == s.orders && t.submitted == s.submitted + 1
  {
    Feed(false, z, s);
    t := s.(orderQ := s.orderQ + [s.orders[s.submitted]], submitted := s.submitted + 1,
            pending := false, totalOrder := s.totalOrder + 1);
    Bake(false, z, t);
    t := t.(orderQ := t.orderQ[1..], ovenQ := t.ovenQ + [t.orderQ[0]], timers := t.timers + [Expired]);
    var k := |s.timers|;
    Fetch(false, z, t, k);
    t := t.(ovenQ := t.ovenQ[1..], preparedQ := t.preparedQ + [t.ovenQ[0]], timers := t.timers[k := Finished]);
    ReachCourier(false, z, t, 0, Take);
    t := CourierDoes(t, 0, Take);
    t := Tour(z, t, 0);
  }

  lemma {:induction false} LastRound(z: State, s: State) returns (t: State)
    requires Reach(false, z, s) && Round(s)
    ensures Reach(false, z, t) && Round(t) && t.orders == s.orders && t.submitted == |s.orders|
    decreases |s.orders| - s.submitted
  {
    if s.submitted == |s.orders| {
      t := s;
    } else {
      t := NextRound(z, s);
      t := LastRound(z, t);
    }
  }

  /** With a cook, two couriers and two orders, however many more of each: a run in
      which DELIVERED is sent and an order is still with the cooks. */
  lemma DeliveredTooEarly(orders: seq<Pide>, cooks: nat, couriers: nat) returns (t: State)
    requires Session(orders) && !Small(|orders|, cooks, couriers)
    ensures Reach(false, Init(orders, cooks, couriers), t) && t.sent == 1 && !Done(t)
    ensures t.totalReceived == |orders| && |t.orderQ| == 1
  {
    var z := Init(orders, cooks, couriers);
    t := GetReady(orders, cooks, couriers);
    t := Race(z, t);
    t := FirstRound(z, t);
    t := LastRound(z, t);
    ReachReal(false, orders, cooks, couriers, t);
    DoneWithoutPhantoms(t);
  }

  /** DELIVERED means that every order was counted, in every state of every run, if
      and only if there are no cooks, or at most one courier, or at most one order. */
  lemma DeliveredMeansDoneExactly(orders: seq<Pide>, cooks: nat, couriers: nat)
    requires Session(orders)
    ensures DeliveredMeansDone(orders, cooks, couriers) <==> Small(|orders|, cooks, couriers)
  {
    if Small(|orders|, cooks, couriers) {
      PhantomFreeExactly(orders, cooks, couriers);
      forall t | Reach(false, Init(orders, cooks, couriers), t) && t.sent == 1 ensures Done(t) {
        DeliveredAtMostOnce(orders, cooks, couriers, false, t);
      }
    } else {
      var t := DeliveredTooEarly(orders, cooks, couriers);
    }
  }
}
