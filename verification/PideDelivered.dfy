/** The DELIVERED message of a session. */
module PideDelivered {
  import opened RingQueue
  import opened PideShop
  import opened PideInvariants
  import opened PideProgress
  import opened PideLeftover

  /** Some courier lies between its last count and its check of the flag. */
  ghost predicate SomebodyWillCheck(s: State) {
    exists j :: 0 <= j < |s.couriers| && s.couriers[j].Delivering? && s.couriers[j].k == |s.couriers[j].bag|
  }

  /** When everything is counted and nothing was sent, somebody will look. */
  ghost predicate CheckPending(s: State) {
    s.totalReceived == |s.orders| > 0 && s.onlySend ==> SomebodyWillCheck(s)
  }

  /** The courier that counts the last order has counted its whole bag. */
  lemma CountCheck(s: State, j: nat)
    requires Inv(s) && CourierCan(s, j, Count)
    ensures CheckPending(CourierDoes(s, j, Count))
  {
    var t := CourierDoes(s, j, Count);
    CourierInv(s, j, Count);
    AllCounted(t);
    if t.totalReceived == |t.orders| {
      assert |Load(t.couriers[j])| == 0;
      assert t.couriers[j].k == |t.couriers[j].bag|;
    }
  }

  lemma CourierCheck(s: State, j: nat, step: CourierStep)
    requires Inv(s) && CheckPending(s) && CourierCan(s, j, step)
    ensures CheckPending(CourierDoes(s, j, step))
  {
    var t := CourierDoes(s, j, step);
    if step.Count? {
      CountCheck(s, j);
    } else if t.totalReceived == |t.orders| > 0 && t.onlySend {
      var i :| 0 <= i < |s.couriers| && s.couriers[i].Delivering? && s.couriers[i].k == |s.couriers[i].bag|;
      assert t.couriers[i] == s.couriers[i];
    }
  }

  /** Nobody else touches a courier or the counters. */
  lemma OtherCheck(s: State, a: Action)
    requires CheckPending(s) && Enabled(s, a) && !a.ByCourier?
    ensures CheckPending(Apply(s, a))
  {
    assert Apply(s, a).couriers == s.couriers;
  }

  lemma CheckPendingStep(s: State, a: Action)
    requires Inv(s) && CheckPending(s) && Enabled(s, a)
    ensures CheckPending(Apply(s, a))
  {
    if a.ByCourier? {
      CourierCheck(s, a.j, a.courier);
    } else {
      OtherCheck(s, a);
    }
  }

  lemma {:induction false} CheckPendingRun(calm: bool, s: State, acts: seq<Action>)
    requires Inv(s) && CheckPending(s) && Runs(calm, s, acts)
    ensures CheckPending(Exec(calm, s, acts))
    decreases |acts|
  {
    if |acts| > 0 {
      CheckPendingStep(s, acts[0]);
      StepInv(s, acts[0]);
      CheckPendingRun(calm, Apply(s, acts[0]), acts[1..]);
    }
  }

  lemma ReachCheck(orders: seq<Pide>, cooks: nat, couriers: nat, calm: bool, t: State)
    requires Session(orders) && Reach(calm, Init(orders, cooks, couriers), t)
    ensures CheckPending(t)
  {
    var z := Init(orders, cooks, couriers);
    InitInv(orders, cooks, couriers);
    var acts :| Runs(calm, z, acts) && Exec(calm, z, acts) == t;
    CheckPendingRun(calm, z, acts);
  }

  /** In every state of every run: DELIVERED was sent at most once; it was sent only
      when as many were counted as there are orders, no more than which are ever
      counted; then every order of the session was counted if and only if no phantom
      was; and as long as it is missing although all are counted, some courier is on
      its way to send it. */
  lemma DeliveredAtMostOnce(orders: seq<Pide>, cooks: nat, couriers: nat, calm: bool, t: State)
    requires Session(orders) && Reach(calm, Init(orders, cooks, couriers), t)
    ensures t.sent <= 1 && t.totalReceived <= |orders|
    ensures t.sent == 1 ==> t.totalReceived == |orders| && t.totalOrder == 0 && (Done(t) <==> t.phantoms == 0)
    ensures |orders| > 0 && t.totalReceived == |orders| && t.sent == 0 ==> SomebodyWillCheck(t)
  {
    ReachReal(calm, orders, cooks, couriers, t);
    ReachCheck(orders, cooks, couriers, calm, t);
    AllCounted(t);
    if t.totalReceived == |orders| {
      DoneWithoutPhantoms(t);
    }
  }

  /** A run, of any session, that has counted as many as there are orders and cannot
      advance any further has sent DELIVERED exactly once. */
  lemma CountedThenSent(orders: seq<Pide>, cooks: nat, couriers: nat, calm: bool, t: State)
    requires Session(orders) && |orders| > 0 && Reach(calm, Init(orders, cooks, couriers), t)
    requires t.totalReceived == |orders| && !CanAdvance(calm, t)
    ensures t.sent == 1
  {
    ReachReal(calm, orders, cooks, couriers, t);
    DeliveredAtMostOnce(orders, cooks, couriers, calm, t);
    if t.sent == 0 {
      var j :| 0 <= j < |t.couriers| && t.couriers[j].Delivering? && t.couriers[j].k == |t.couriers[j].bag|;
      SettlesSelf(calm, t);
      assert Allowed(calm, t, ByCourier(j, Check));
      assert false;
    }
  }

  /** Any run of a sound session that cannot advance any further has counted as many
      as there are orders, has no outstanding order and has sent DELIVERED exactly
      once; and every order was counted if and only if no phantom was. */
  lemma CompletedExactlyOnce(orders: seq<Pide>, cooks: nat, couriers: nat, calm: bool, t: State)
    requires Session(orders) && |orders| > 0 && Sound(|orders|, cooks, couriers)
    requires Reach(calm, Init(orders, cooks, couriers), t) && !CanAdvance(calm, t)
    ensures t.totalReceived == |orders| && t.totalOrder == 0 && t.sent == 1
    ensures Done(t) <==> t.phantoms == 0
  {
    ReachReal(calm, orders, cooks, couriers, t);
    Progress(calm, t);
    CountedThenSent(orders, cooks, couriers, calm, t);
    DoneWithoutPhantoms(t);
  }
}
