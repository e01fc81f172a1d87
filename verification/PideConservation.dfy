/** Where the orders of a session are, in any run. */
module PideConservation {
  import opened Sums
  import opened RingQueue
  import opened PideShop
  import opened PideInvariants
  import opened PideRace
  import opened PideLeftover

  /** The eight places of an order, in the order it passes through them. */
  ghost function Places(s: State, p: Pide): seq<int> {
    [Unsubmitted(s, p), Tally(One, s.orderQ, p), Tally(CookHas, s.cooks, p), Tally(One, s.ovenQ, p),
     Tally(TimerHas, s.timers, p), Tally(One, s.preparedQ, p), Tally(CourierHas, s.couriers, p), Tally(One, s.counted, p)]
  }

  /** In every run, calm or not, an order of the session is in exactly one of the
      eight places, once. */
  lemma EveryOrderInOnePlace(orders: seq<Pide>, cooks: nat, couriers: nat, t: State, p: Pide)
    requires Session(orders) && Reach(false, Init(orders, cooks, couriers), t) && p in orders
    ensures exists k :: 0 <= k < 8 && Places(t, p)[k] == 1
                        && forall l :: 0 <= l < 8 && l != k ==> Places(t, p)[l] == 0
  {
    InitInv(orders, cooks, couriers);
    ReachInv(false, Init(orders, cooks, couriers), t);
    assert t.orders == orders;
    LocatedOnce(t, p);
    NonnegPlaces(t, p);
    var k := OneOfEight(Places(t, p));
  }

  lemma NonnegPlaces(s: State, p: Pide)
    ensures forall k :: 0 <= k < 8 ==> Places(s, p)[k] >= 0
  {
    PlacesNonneg(s, p);
    RoadNonneg(s, p);
  }

  lemma LocatedOnce(t: State, p: Pide)
    requires Conserved(t) && Session(t.orders) && p in t.orders
    ensures var q := Places(t, p); q[0] + q[1] + q[2] + q[3] + q[4] + q[5] + q[6] + q[7] == 1
  {
    assert Located(t, p) == Expected(t, p);
    SessionOnce(t.orders, p);
  }

  lemma RoadNonneg(s: State, p: Pide)
    ensures Tally(CourierHas, s.couriers, p) >= 0 && Tally(One, s.counted, p) >= 0
  {
    forall j | 0 <= j < |s.couriers| ensures CourierHas(s.couriers[j], p) >= 0 {
      TallyPositive(One, Load(s.couriers[j]), p);
    }
    TallyPositive(CourierHas, s.couriers, p);
    TallyPositive(One, s.counted, p);
  }

  lemma OneOfEight(q: seq<int>) returns (k: nat)
    requires |q| == 8 && forall k :: 0 <= k < 8 ==> q[k] >= 0
    requires q[0] + q[1] + q[2] + q[3] + q[4] + q[5] + q[6] + q[7] == 1
    ensures k < 8 && q[k] == 1 && forall l :: 0 <= l < 8 && l != k ==> q[l] == 0
  {
    k :| k < 8 && q[k] != 0;
    assert k == 0 || k == 1 || k == 2 || k == 3 || k == 4 || k == 5 || k == 6 || k == 7;
    forall l | 0 <= l < 8 && l != k ensures q[k] == 1 && q[l] == 0 {
      assert l == 0 || l == 1 || l == 2 || l == 3 || l == 4 || l == 5 || l == 6 || l == 7;
    }
  }

  /** What is not an order of the session is nowhere, except for one all-zero order
      per dequeue from the empty prepared queue. */
  lemma NothingElse(orders: seq<Pide>, cooks: nat, couriers: nat, t: State, p: Pide)
    requires Session(orders) && Reach(false, Init(orders, cooks, couriers), t) && p !in orders
    ensures Located(t, p) == if p == ZERO_PIDE then t.phantoms else 0
  {
    InitInv(orders, cooks, couriers);
    ReachInv(false, Init(orders, cooks, couriers), t);
    SessionOnce(orders, p);
    assert Located(t, p) == Expected(t, p);
  }

  /** The places hold the orders of the session and nothing else in every state of
      every run if and only if there are no cooks, or at most one courier, or at most
      one order. */
  lemma ConservedExactly(orders: seq<Pide>, cooks: nat, couriers: nat)
    requires Session(orders)
    ensures (forall t, p :: Reach(false, Init(orders, cooks, couriers), t) ==>
                              Located(t, p) == if p in orders then 1 else 0)
            <==> Small(|orders|, cooks, couriers)
  {
    var z := Init(orders, cooks, couriers);
    PhantomFreeExactly(orders, cooks, couriers);
    InitInv(orders, cooks, couriers);
    assert ZERO_PIDE !in orders;
    forall t | Reach(false, z, t)
      ensures (forall p :: Located(t, p) == if p in orders then 1 else 0) <==> t.phantoms == 0
    {
      ReachInv(false, z, t);
      forall p ensures Located(t, p) == (if p in orders then 1 else 0) + if p == ZERO_PIDE then t.phantoms else 0 {
        SessionOnce(orders, p);
        assert Located(t, p) == Expected(t, p);
      }
    }
  }

  /** The balances that hold in every state of every run: the oven holds an order for
      every timer that will come for it and never more than six, so a timer that
      holds an apparatus finds an order; `totalOrder` is never negative and lags the
      orders in the shop by the submitter's uncounted one and by the phantoms. */
  lemma Balances(orders: seq<Pide>, cooks: nat, couriers: nat, t: State)
    requires Session(orders) && Reach(false, Init(orders, cooks, couriers), t)
    ensures |t.ovenQ| == Sum(TimerBaking, t.timers) + Sum(CookOwesTimer, t.cooks) <= 6
    ensures |t.orderQ| <= 200 && |t.preparedQ| <= 200
    ensures forall k :: 0 <= k < |t.timers| && t.timers[k].Holding? ==> |t.ovenQ| > 0
    ensures t.aparatus + Sum(CookHolds, t.cooks) + Sum(TimerHolds, t.timers) == 3
    ensures t.totalOrder >= 0
    ensures Outstanding(t) == t.totalOrder + (if t.pending then 1 else 0) + t.phantoms
  {
    InitInv(orders, cooks, couriers);
    ReachInv(false, Init(orders, cooks, couriers), t);
    SumNonneg(TimerBaking, t.timers);
    SumNonneg(CookOwesTimer, t.cooks);
  }
}
