/** In any run of at most 200 orders, with a cook and a courier, and with at most
    two cooks or at most eight orders, something can always move until as many are
    counted as received as there are orders. */
module PideProgress {
  import opened Sums
  import opened PideShop
  import opened PideInvariants
  import opened PideTermination

  /** Every order of the session was counted as received. */
  ghost predicate Done(s: State) {
    forall p :: p in s.orders ==> p in s.counted
  }

  /** From `s` to `t` by steps that do not advance. */
  ghost predicate Settles(calm: bool, s: State, t: State) {
    exists acts :: && Runs(calm, s, acts) && Exec(calm, s, acts) == t
                   && forall k :: 0 <= k < |acts| ==> !Advancing(acts[k])
  }

  /** Some step that advances can be taken, after steps that do not. */
  ghost predicate CanAdvance(calm: bool, s: State) {
    exists t, a :: Settles(calm, s, t) && Allowed(calm, t, a) && Advancing(a)
  }

  lemma SettlesSelf(calm: bool, s: State)
    ensures Settles(calm, s, s)
  {
    assert Runs(calm, s, []) && Exec(calm, s, []) == s;
  }

  lemma SettlesStep(calm: bool, s: State, t: State, a: Action)
    requires Settles(calm, s, t) && Allowed(calm, t, a) && !Advancing(a)
    ensures Settles(calm, s, Apply(t, a))
  {
    var acts :| && Runs(calm, s, acts) && Exec(calm, s, acts) == t
                && forall k :: 0 <= k < |acts| ==> !Advancing(acts[k]);
    RunsThen(calm, s, acts, a);
  }

  /** The steps that do not advance change no counter and no order's place. */
  ghost predicate SameProgress(s: State, t: State) {
    && t.orders == s.orders && t.counted == s.counted && t.totalReceived == s.totalReceived
    && t.totalOrder == s.totalOrder && t.sent == s.sent && t.pending == s.pending
  }

  // ------------------------------------------------------------ a state in which nothing advances

  /** No step that advances is enabled, and no section is held open. */
  ghost predicate Quiet(s: State) {
    && OvenFree(s) && PreparedFree(s)
    && forall a :: Advancing(a) ==> !Enabled(s, a)
  }

  lemma QuietSubmitter(s: State)
    requires Inv(s) && Quiet(s) && |s.orders| <= ORDER_CAPACITY
    ensures !s.pending && s.submitted == |s.orders|
  {
    Bounds(s);
    assert !Enabled(s, Submitter(Submit)) && !Enabled(s, Submitter(Bump));
  }

  lemma QuietTimer(s: State, t: nat)
    requires Inv(s) && Quiet(s) && |s.orders| <= PREPARED_CAPACITY && t < |s.timers|
    ensures s.timers[t].Expired? || s.timers[t].Finished?
    ensures s.timers[t].Expired? ==> s.aparatus == 0
  {
    assert !Enabled(s, ByTimer(t, TimerTake)) && !Enabled(s, ByTimer(t, OvenTake));
    assert !Enabled(s, ByTimer(t, TimerRelease)) && !Enabled(s, ByTimer(t, PutPrepared));
    if s.timers[t].Holding? {
      SumPositive(TimerBaking, s.timers, t);
      SumNonneg(CookOwesTimer, s.cooks);
    } else if s.timers[t].Sending? {
      SumPositive(TimerCarries, s.timers, t);
      Bounds(s);
    }
  }

  lemma SumPositive<T>(f: T -> int, xs: seq<T>, i: nat)
    requires forall k :: 0 <= k < |xs| ==> f(xs[k]) >= 0
    requires i < |xs| && f(xs[i]) > 0
    ensures Sum(f, xs) > 0
  {
    SumNonneg(f, xs);
  }

  lemma QuietCook(s: State, i: nat)
    requires Inv(s) && Quiet(s) && i < |s.cooks|
    ensures s.cooks[i].Idle? || s.cooks[i].Preparing? || s.cooks[i].AtOven? || s.cooks[i].Blocked?
    ensures s.cooks[i].Idle? ==> |s.orderQ| == 0
    ensures s.cooks[i].Preparing? ==> s.aparatus == 0
    ensures s.cooks[i].AtOven? || s.cooks[i].Blocked? ==> |s.ovenQ| == OVEN_CAPACITY
  {
    assert !Enabled(s, ByCook(i, TakeOrder)) && !Enabled(s, ByCook(i, TakeApparatus));
    assert !Enabled(s, ByCook(i, PutInOven)) && !Enabled(s, ByCook(i, Release)) && !Enabled(s, ByCook(i, StartTimer));
  }

  lemma QuietCourier(s: State, j: nat)
    requires Inv(s) && Quiet(s) && j < |s.couriers|
    ensures s.couriers[j].Loading? || s.couriers[j].Waiting?
    ensures s.totalOrder == 0 || |s.preparedQ| == 0
    ensures s.totalOrder == 0 && s.couriers[j].Loading? ==> s.couriers[j].bag == []
  {
    assert !Enabled(s, ByCourier(j, Take)) && !Enabled(s, ByCourier(j, Depart));
    assert !Enabled(s, ByCourier(j, Count)) && !Enabled(s, ByCourier(j, Check));
  }

  /** With two cooks, or eight orders, the three apparatus cannot all be held at a
      full oven: two cooks hold two at most, and three cooks carry nine orders
      together with the oven. */
  lemma ApparatusLeft(s: State)
    requires Inv(s) && Quiet(s) && |s.orders| <= PREPARED_CAPACITY
    requires |s.cooks| <= 2 || |s.orders| <= 8
    ensures s.aparatus != 0
  {
    if s.aparatus == 0 {
      forall t | 0 <= t < |s.timers| ensures TimerHolds(s.timers[t]) == 0 { QuietTimer(s, t); }
      SumZero(TimerHolds, s.timers);
      forall i | 0 <= i < |s.cooks|
        ensures CookHolds(s.cooks[i]) <= CookCarries(s.cooks[i])
        ensures CookHolds(s.cooks[i]) == 1 ==> |s.ovenQ| == OVEN_CAPACITY
      {
        QuietCook(s, i);
      }
      SumMonotone(CookHolds, CookCarries, s.cooks);
      SumAtMost(CookHolds, 1, s.cooks);
      if |s.ovenQ| != OVEN_CAPACITY {
        SumZero(CookHolds, s.cooks);
      }
      Bounds(s);
    }
  }

  /** Nothing is outstanding, although the prepared queue may hold what phantoms left behind. */
  lemma ShopEmpty(s: State)
    requires Inv(s) && Quiet(s) && |s.orders| <= ORDER_CAPACITY
    requires |s.cooks| > 0 && |s.couriers| > 0 && s.aparatus != 0
    ensures s.totalOrder == 0
  {
    QuietSubmitter(s);
    forall t | 0 <= t < |s.timers| ensures s.timers[t].Finished? { QuietTimer(s, t); }
    SumZero(TimerBaking, s.timers);
    SumZero(TimerCarries, s.timers);
    forall i | 0 <= i < |s.cooks| ensures CookOwesTimer(s.cooks[i]) == 0 { QuietCook(s, i); }
    SumZero(CookOwesTimer, s.cooks);
    forall i | 0 <= i < |s.cooks| ensures s.cooks[i].Idle? { QuietCook(s, i); }
    SumZero(CookCarries, s.cooks);
    QuietCook(s, 0);
    QuietCourier(s, 0);
  }

  /** A courier waits with something in its bag. */
  ghost predicate BagWaits(s: State, j: nat) {
    j < |s.couriers| && s.couriers[j].Waiting? && s.couriers[j].bag != []
  }

  lemma AllReceived(s: State)
    requires Inv(s) && Quiet(s) && s.totalOrder == 0
    requires |s.orders| <= ORDER_CAPACITY && forall j :: !BagWaits(s, j)
    ensures s.totalReceived == |s.orders|
  {
    QuietSubmitter(s);
    forall j | 0 <= j < |s.couriers|
      ensures LoadSize(s.couriers[j]) == 0 && !s.couriers[j].Delivering?
    {
      QuietCourier(s, j);
      assert !BagWaits(s, j);
    }
    SumZero(LoadSize, s.couriers);
  }

  // ------------------------------------------------------------ all counted means all done

  /** No more are counted than there are orders, and when as many are, nothing is
      outstanding or on the road; only what phantoms took the place of is left. */
  lemma AllCounted(s: State)
    requires Inv(s)
    ensures s.totalReceived <= |s.orders|
    ensures s.totalReceived == |s.orders| ==>
              && s.submitted == |s.orders| && s.totalOrder == 0 && !s.pending && Outstanding(s) == s.phantoms
              && forall j :: 0 <= j < |s.couriers| ==> |Load(s.couriers[j])| == 0
  {
    SumNonneg(LoadSize, s.couriers);
    if s.totalReceived == |s.orders| {
      forall j | 0 <= j < |s.couriers| ensures |Load(s.couriers[j])| == 0 {
        assert LoadSize(s.couriers[j]) == 0;
      }
    }
  }

  /** When as many orders were counted as there are, and no phantom was, each of
      them was. */
  lemma CountedMeansDone(s: State)
    requires Inv(s) && s.phantoms == 0 && s.totalReceived == |s.orders|
    ensures Done(s)
  {
    AllCounted(s);
    SumNonneg(CookCarries, s.cooks);
    SumNonneg(TimerCarries, s.timers);
    forall p | p in s.orders ensures p in s.counted {
      assert forall i :: 0 <= i < |s.cooks| ==> CookCarries(s.cooks[i]) == 0;
      TallyZero(CookHas, s.cooks, p);
      assert forall t :: 0 <= t < |s.timers| ==> TimerCarries(s.timers[t]) == 0;
      TallyZero(TimerHas, s.timers, p);
      TallyZero(CourierHas, s.couriers, p);
      assert Located(s, p) == Expected(s, p);
      TallyOne(s.orders, p);
      TallyOne(s.counted, p);
      assert p in multiset(s.orders);
    }
  }

  // ------------------------------------------------------------ progress

  lemma SettleOven(calm: bool, s: State) returns (t: State)
    requires Inv(s)
    ensures Settles(calm, s, t) && SameProgress(s, t) && SameCrew(s, t)
    ensures Inv(t) && OvenFree(t)
  {
    SettlesSelf(calm, s);
    t := s;
    if i: nat :| i < |s.cooks| && s.cooks[i].Yielded? {
      SettlesStep(calm, s, t, ByCook(i, Retake));
      CookInv(t, i, Retake);
      t := CookDoes(s, i, Retake);
      assert OvenFree(t);
    }
  }

  /** When nothing can advance, whoever holds a section open can leave it without
      changing any progress. */
  lemma Settle(calm: bool, s: State) returns (t: State)
    requires Inv(s) && !CanAdvance(calm, s)
    ensures Settles(calm, s, t) && SameProgress(s, t) && SameCrew(s, t)
    ensures Inv(t) && OvenFree(t) && PreparedFree(t)
  {
    t := SettleOven(calm, s);
    if j: nat :| j < |t.couriers| && t.couriers[j].Woken? {
      if t.totalOrder != 0 {
        assert Allowed(calm, t, ByCourier(j, LateTake));
        assert false;
      }
      SettlesStep(calm, s, t, ByCourier(j, Recheck));
      SettleCourier(t, j);
      t := CourierDoes(t, j, Recheck);
    }
  }

  lemma SettleCourier(s: State, j: nat)
    requires Inv(s) && OvenFree(s) && j < |s.couriers| && s.couriers[j].Woken? && s.totalOrder == 0
    ensures CourierCan(s, j, Recheck) && SameProgress(s, CourierDoes(s, j, Recheck))
    ensures var t := CourierDoes(s, j, Recheck); Inv(t) && OvenFree(t) && PreparedFree(t)
  {
    CourierInv(s, j, Recheck);
  }

  /** A courier that waits with a bag while nothing is outstanding wakes up and departs. */
  lemma BagDeparts(calm: bool, s: State, t: State, j: nat)
    requires Settles(calm, s, t) && Inv(t) && PreparedFree(t) && t.totalOrder == 0 && BagWaits(t, j)
    ensures CanAdvance(calm, s)
  {
    SettlesStep(calm, s, t, ByCourier(j, Break));
    var u := CourierDoes(t, j, Break);
    SettlesStep(calm, s, u, ByCourier(j, Recheck));
    var v := CourierDoes(u, j, Recheck);
    assert PreparedFree(v);
    assert Allowed(calm, v, ByCourier(j, Depart));
  }

  /** A session that can finish. */
  ghost predicate Sound(n: nat, cooks: nat, couriers: nat) {
    cooks > 0 && couriers > 0 && n <= 200 && (cooks <= 2 || n <= 8)
  }

  /** In any run, calm or not: either something can move, or as many are counted as
      there are orders and none is outstanding. */
  lemma Progress(calm: bool, s: State)
    requires Inv(s) && Sound(|s.orders|, |s.cooks|, |s.couriers|)
    ensures CanAdvance(calm, s) || (s.totalReceived == |s.orders| && s.totalOrder == 0)
  {
    if !CanAdvance(calm, s) {
      var t := Settle(calm, s);
      forall a | Advancing(a) ensures !Enabled(t, a) {
        assert Allowed(calm, t, a) || !Enabled(t, a);
      }
      ApparatusLeft(t);
      ShopEmpty(t);
      forall j ensures !BagWaits(t, j) {
        if BagWaits(t, j) {
          BagDeparts(calm, s, t, j);
        }
      }
      AllReceived(t);
    }
  }
}
