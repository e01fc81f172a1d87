/** Orders that have not left the shop were not counted. */
module PideLeftover {
  import opened Sums
  import opened RingQueue
  import opened PideShop
  import opened PideInvariants
  import opened PideProgress

  /** The orders in the shop are orders of the session. */
  ghost predicate RealInShop(s: State) {
    forall p :: Unsubmitted(s, p) + InShop(s, p) <= Tally(One, s.orders, p)
  }

  lemma ShopShrinks(s: State, j: nat, step: CourierStep, p: Pide)
    requires CourierCan(s, j, step)
    ensures InShop(CourierDoes(s, j, step), p) <= InShop(s, p)
  {
    if |s.preparedQ| > 0 {
      TallyHead(One, s.preparedQ, p);
    }
  }

  lemma RealStep(s: State, a: Action)
    requires Shape(s) && RealInShop(s) && Enabled(s, a)
    ensures RealInShop(Apply(s, a))
  {
    var t := Apply(s, a);
    forall p ensures Unsubmitted(t, p) + InShop(t, p) <= Tally(One, t.orders, p) {
      assert Unsubmitted(s, p) + InShop(s, p) <= Tally(One, s.orders, p);
      match a
      case Submitter(step) => SubmitterOrders(s, step, p);
      case ByCook(i, step) => CookOrders(s, i, step, p);
      case ByTimer(i, step) => TimerOrders(s, i, step, p);
      case ByCourier(j, step) => ShopShrinks(s, j, step, p);
    }
  }

  /** An order that is still in the shop, or not yet in it, was not counted. */
  lemma StillHere(s: State, p: Pide)
    requires Inv(s) && RealInShop(s) && Unsubmitted(s, p) + InShop(s, p) > 0
    ensures !Done(s)
  {
    SessionOnce(s.orders, p);
    assert p in s.orders && p != ZERO_PIDE by {
      assert Unsubmitted(s, p) + InShop(s, p) <= Tally(One, s.orders, p);
    }
    assert Located(s, p) == Expected(s, p);
    forall j | 0 <= j < |s.couriers| ensures CourierHas(s.couriers[j], p) >= 0 {
      TallyPositive(One, Load(s.couriers[j]), p);
    }
    TallyPositive(CourierHas, s.couriers, p);
    TallyOne(s.counted, p);
    assert p !in s.counted;
  }

  lemma PlacesNonneg(s: State, p: Pide)
    ensures Unsubmitted(s, p) >= 0 && Tally(One, s.orderQ, p) >= 0 && Tally(CookHas, s.cooks, p) >= 0
    ensures Tally(One, s.ovenQ, p) >= 0 && Tally(TimerHas, s.timers, p) >= 0 && Tally(One, s.preparedQ, p) >= 0
  {
    if s.submitted <= |s.orders| {
      TallyPositive(One, s.orders[s.submitted..], p);
    }
    TallyPositive(One, s.orderQ, p);
    TallyPositive(CookHas, s.cooks, p);
    TallyPositive(One, s.ovenQ, p);
    TallyPositive(TimerHas, s.timers, p);
    TallyPositive(One, s.preparedQ, p);
  }

  lemma InQueue(q: seq<Pide>)
    requires |q| > 0
    ensures Tally(One, q, q[0]) > 0
  {
    TallyPositive(One, q, q[0]);
    assert Tally(One, q, q[0]) >= One(q[0], q[0]);
  }

  lemma UnsubmittedNotDone(s: State)
    requires Inv(s) && RealInShop(s) && s.submitted < |s.orders|
    ensures !Done(s)
  {
    var q := s.orders[s.submitted..];
    InQueue(q);
    PlacesNonneg(s, q[0]);
    StillHere(s, q[0]);
  }

  /** As long as an order is outstanding not all are done. */
  lemma OutstandingNotDone(s: State)
    requires Inv(s) && RealInShop(s) && Outstanding(s) > 0
    ensures !Done(s)
  {
    var p;
    if |s.orderQ| > 0 {
      p := s.orderQ[0];
      InQueue(s.orderQ);
    } else if |s.ovenQ| > 0 {
      p := s.ovenQ[0];
      InQueue(s.ovenQ);
    } else if |s.preparedQ| > 0 {
      p := s.preparedQ[0];
      InQueue(s.preparedQ);
    } else if i :| 0 <= i < |s.cooks| && CookCarries(s.cooks[i]) == 1 {
      p := s.cooks[i].p;
      TallyPositive(CookHas, s.cooks, p);
      assert Tally(CookHas, s.cooks, p) >= CookHas(s.cooks[i], p);
    } else {
      SumZero(CookCarries, s.cooks);
      var t := SomeTimerCarries(s);
      p := s.timers[t].p;
      TallyPositive(TimerHas, s.timers, p);
      assert Tally(TimerHas, s.timers, p) >= TimerHas(s.timers[t], p);
    }
    PlacesNonneg(s, p);
    StillHere(s, p);
  }

  lemma SomeTimerCarries(s: State) returns (t: nat)
    requires Sum(TimerCarries, s.timers) > 0
    ensures t < |s.timers| && TimerCarries(s.timers[t]) == 1
  {
    if k: nat :| k < |s.timers| && TimerCarries(s.timers[k]) == 1 {
      t := k;
    } else {
      SumZero(TimerCarries, s.timers);
      assert false;
    }
  }

  lemma {:induction false} RealRun(calm: bool, s: State, acts: seq<Action>)
    requires Inv(s) && RealInShop(s) && Runs(calm, s, acts)
    ensures RealInShop(Exec(calm, s, acts))
    decreases |acts|
  {
    if |acts| > 0 {
      StepInv(s, acts[0]);
      RealStep(s, acts[0]);
      RealRun(calm, Apply(s, acts[0]), acts[1..]);
    }
  }

  /** What holds of every state that a run reaches. */
  lemma ReachReal(calm: bool, orders: seq<Pide>, cooks: nat, couriers: nat, t: State)
    requires Session(orders) && Reach(calm, Init(orders, cooks, couriers), t)
    ensures Inv(t) && RealInShop(t) && SameCrew(Init(orders, cooks, couriers), t)
  {
    var z := Init(orders, cooks, couriers);
    InitInv(orders, cooks, couriers);
    forall p ensures Unsubmitted(z, p) + InShop(z, p) <= Tally(One, orders, p) {
      TallyZero(CookHas, z.cooks, p);
      assert z.orders[0..] == z.orders;
    }
    var acts :| Runs(calm, z, acts) && Exec(calm, z, acts) == t;
    RunInv(calm, z, acts);
    RealRun(calm, z, acts);
  }

  /** When as many are counted as there are orders, every order was counted if and
      only if no phantom was. */
  lemma DoneWithoutPhantoms(s: State)
    requires Inv(s) && RealInShop(s) && s.totalReceived == |s.orders|
    ensures Done(s) <==> s.phantoms == 0
  {
    AllCounted(s);
    if s.phantoms == 0 {
      CountedMeansDone(s);
    } else {
      OutstandingNotDone(s);
    }
  }
}
