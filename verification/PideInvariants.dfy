/** What every step of a session keeps, calm or not. */
module PideInvariants {
  import opened Sums
  import opened RingQueue
  import opened PideShop

  // ------------------------------------------------------------ what threads hold

  ghost function CookHas(c: Cook, p: Pide): int {
    if (c.Preparing? || c.AtOven? || c.Yielded? || c.Blocked?) && c.p == p then 1 else 0
  }

  ghost function TimerHas(t: Timer, p: Pide): int {
    if (t.Unloading? || t.Sending?) && t.p == p then 1 else 0
  }

  /** The part of a bag that is not yet counted as received. */
  ghost function Load(c: Courier): seq<Pide> {
    if c.Delivering? && c.k <= |c.bag| then c.bag[c.k..] else c.bag
  }

  ghost function CourierHas(c: Courier, p: Pide): int {
    Tally(One, Load(c), p)
  }

  ghost function LoadSize(c: Courier): int {
    |Load(c)|
  }

  ghost function CookHolds(c: Cook): int {
    if c.AtOven? || c.Blocked? || c.Placed? then 1 else 0
  }

  ghost function TimerHolds(t: Timer): int {
    if t.Holding? || t.Unloading? then 1 else 0
  }

  /** A cook that put an order into the oven and has not started its timer. */
  ghost function CookOwesTimer(c: Cook): int {
    if c.Placed? || c.Left? then 1 else 0
  }

  /** A timer that has not yet taken an order from the oven. */
  ghost function TimerBaking(t: Timer): int {
    if t.Expired? || t.Holding? then 1 else 0
  }

  ghost function CookCarries(c: Cook): int {
    if c.Preparing? || c.AtOven? || c.Yielded? || c.Blocked? then 1 else 0
  }

  ghost function TimerCarries(t: Timer): int {
    if t.Unloading? || t.Sending? then 1 else 0
  }

  // ------------------------------------------------------------ the eight places of an order

  ghost function Unsubmitted(s: State, p: Pide): int {
    if s.submitted <= |s.orders| then Tally(One, s.orders[s.submitted..], p) else 0
  }

  /** How often `p` occurs among the orders submitted that no courier has taken. */
  ghost function InShop(s: State, p: Pide): int {
    Tally(One, s.orderQ, p) + Tally(CookHas, s.cooks, p) + Tally(One, s.ovenQ, p)
    + Tally(TimerHas, s.timers, p) + Tally(One, s.preparedQ, p)
  }

  /** How often `p` occurs in the bags and among what was counted. */
  ghost function OnRoad(s: State, p: Pide): int {
    Tally(CourierHas, s.couriers, p) + Tally(One, s.counted, p)
  }

  /** The number of orders submitted that no courier has taken. */
  ghost function Outstanding(s: State): int {
    |s.orderQ| + Sum(CookCarries, s.cooks) + |s.ovenQ| + Sum(TimerCarries, s.timers) + |s.preparedQ|
  }

  ghost function Located(s: State, p: Pide): int {
    Unsubmitted(s, p) + InShop(s, p) + OnRoad(s, p)
  }

  ghost function Expected(s: State, p: Pide): int {
    Tally(One, s.orders, p) + if p == ZERO_PIDE then s.phantoms else 0
  }

  lemma {:induction false} SessionOnce(orders: seq<Pide>, p: Pide)
    requires Session(orders)
    ensures Tally(One, orders, p) == if p in orders then 1 else 0
  {
    if |orders| > 0 {
      SessionOnce(orders[..|orders| - 1], p);
      assert orders == orders[..|orders| - 1] + [orders[|orders| - 1]];
    }
  }

  // ------------------------------------------------------------ the invariant

  ghost predicate Shape(s: State) {
    && Session(s.orders)
    && s.submitted <= |s.orders|
    && (s.pending ==> 0 < s.submitted)
    && (s.stuck ==> ORDER_CAPACITY <= s.submitted < |s.orders|)
    && |s.orderQ| <= ORDER_CAPACITY && |s.ovenQ| <= OVEN_CAPACITY && |s.preparedQ| <= PREPARED_CAPACITY
    && |s.received| == |s.couriers|
    && (forall j :: 0 <= j < |s.couriers| ==> GoodCourier(s.couriers[j]))
  }

  ghost predicate GoodCourier(c: Courier) {
    match c
    case Loading(bag) => |bag| <= BAG_CAPACITY
    case Waiting(bag) => |bag| < BAG_CAPACITY
    case Woken(bag) => |bag| < BAG_CAPACITY
    case Delivering(bag, k) => 0 < |bag| <= BAG_CAPACITY && k <= |bag|
  }

  /** The two sections that are split hold their mutex: one cook at most waits to
      retake its apparatus, and one courier at most sits between its two reads.
      The oven is full while a cook retakes its apparatus or waits for room. */
  ghost predicate Mutexes(s: State) {
    && (forall i, k :: 0 <= i < k < |s.cooks| ==> !(s.cooks[i].Yielded? && s.cooks[k].Yielded?))
    && (!OvenFree(s) ==> |s.ovenQ| == OVEN_CAPACITY)
    && (forall i :: 0 <= i < |s.cooks| && s.cooks[i].Blocked? ==> |s.ovenQ| == OVEN_CAPACITY)
    && (forall i, k :: 0 <= i < k < |s.couriers| ==> !(s.couriers[i].Woken? && s.couriers[k].Woken?))
  }

  /** The eight places together hold the orders of the session, and one all-zero
      order per phantom. */
  ghost predicate Conserved(s: State) {
    forall p :: Located(s, p) == Expected(s, p)
  }

  /** The apparatus on the shelf and those held, counted with sign, are three. */
  ghost predicate ApparatusBalance(s: State) {
    s.aparatus + Sum(CookHolds, s.cooks) + Sum(TimerHolds, s.timers) == APPARATUS
  }

  /** The oven holds one order per timer that will come for it. */
  ghost predicate OvenBalance(s: State) {
    |s.ovenQ| == Sum(TimerBaking, s.timers) + Sum(CookOwesTimer, s.cooks)
  }

  /** `totalOrder` lags the orders in the shop by the one that the submitter has
      queued and not counted, and by one per phantom. */
  ghost predicate OutstandingBalance(s: State) {
    && s.totalOrder >= 0
    && Outstanding(s) == s.totalOrder + (if s.pending then 1 else 0) + s.phantoms
  }

  /** Every order submitted, and every phantom, is outstanding, in a bag or counted. */
  ghost predicate SizeBalance(s: State) {
    && Outstanding(s) <= s.submitted
    && Outstanding(s) + Sum(LoadSize, s.couriers) + |s.counted| == s.submitted + s.phantoms
  }

  ghost function Identity(x: nat): int { x }

  /** The counters of the couriers add up, and DELIVERED was sent at most once. */
  ghost predicate DeliveryBalance(s: State) {
    && |s.counted| == s.totalReceived == Sum(Identity, s.received)
    && s.sent == (if s.onlySend then 0 else 1)
    && (s.sent > 0 ==> s.totalReceived >= |s.orders|)
  }

  ghost predicate Inv(s: State) {
    && Shape(s) && Mutexes(s) && Conserved(s) && ApparatusBalance(s)
    && OvenBalance(s) && OutstandingBalance(s) && SizeBalance(s) && DeliveryBalance(s)
  }

  // ------------------------------------------------------------ it holds at first

  lemma InitInv(orders: seq<Pide>, cooks: nat, couriers: nat)
    requires Session(orders)
    ensures Inv(Init(orders, cooks, couriers))
  {
    var s := Init(orders, cooks, couriers);
    assert Shape(s) && Mutexes(s);
    SumZero(CookHolds, s.cooks);
    SumZero(CookOwesTimer, s.cooks);
    SumZero(Identity, s.received);
    SumZero(CookCarries, s.cooks);
    SumZero(LoadSize, s.couriers);
    forall p {
      InitLocated(orders, cooks, couriers, p);
    }
  }

  lemma InitLocated(orders: seq<Pide>, cooks: nat, couriers: nat, p: Pide)
    ensures Located(Init(orders, cooks, couriers), p) == Tally(One, orders, p)
  {
    var s := Init(orders, cooks, couriers);
    TallyZero(CookHas, s.cooks, p);
    TallyZero(CourierHas, s.couriers, p);
    assert s.orders[0..] == s.orders;
  }

  // ------------------------------------------------------------ and every step keeps it

  lemma CookShape(s: State, i: nat, step: CookStep)
    requires Shape(s) && Mutexes(s) && CookCan(s, i, step)
    ensures Shape(CookDoes(s, i, step)) && Mutexes(CookDoes(s, i, step))
  {
  }

  lemma CookApparatus(s: State, i: nat, step: CookStep)
    requires ApparatusBalance(s) && CookCan(s, i, step)
    ensures ApparatusBalance(CookDoes(s, i, step))
  {
    SumUpdate(CookHolds, s.cooks, i, CookDoes(s, i, step).cooks[i]);
    SumAppend(TimerHolds, s.timers, Expired);
  }

  lemma CookOven(s: State, i: nat, step: CookStep)
    requires OvenBalance(s) && CookCan(s, i, step)
    ensures OvenBalance(CookDoes(s, i, step))
  {
    SumUpdate(CookOwesTimer, s.cooks, i, CookDoes(s, i, step).cooks[i]);
    SumAppend(TimerBaking, s.timers, Expired);
  }

  /** A cook moves its order within the shop. */
  lemma CookOrders(s: State, i: nat, step: CookStep, p: Pide)
    requires CookCan(s, i, step)
    ensures InShop(CookDoes(s, i, step), p) == InShop(s, p)
  {
    var t := CookDoes(s, i, step);
    TallyUpdate(CookHas, s.cooks, i, t.cooks[i], p);
    match step
    case TakeOrder => TallyHead(One, s.orderQ, p);
    case PutInOven => TallyAppend(One, s.ovenQ, s.cooks[i].p, p);
    case StartTimer => TallyAppend(TimerHas, s.timers, Expired, p);
    case _ =>
  }

  lemma CookOutstanding(s: State, i: nat, step: CookStep)
    requires CookCan(s, i, step)
    ensures Outstanding(CookDoes(s, i, step)) == Outstanding(s)
  {
    SumUpdate(CookCarries, s.cooks, i, CookDoes(s, i, step).cooks[i]);
    SumAppend(TimerCarries, s.timers, Expired);
  }

  lemma CookConserved(s: State, i: nat, step: CookStep)
    requires Conserved(s) && CookCan(s, i, step)
    ensures Conserved(CookDoes(s, i, step))
  {
    forall p ensures Located(CookDoes(s, i, step), p) == Expected(CookDoes(s, i, step), p) {
      CookOrders(s, i, step, p);
      assert Located(s, p) == Expected(s, p);
    }
  }

  lemma CookInv(s: State, i: nat, step: CookStep)
    requires Inv(s) && CookCan(s, i, step)
    ensures Inv(CookDoes(s, i, step))
  {
    CookShape(s, i, step);
    CookApparatus(s, i, step);
    CookOven(s, i, step);
    CookOutstanding(s, i, step);
    CookConserved(s, i, step);
  }

  lemma TimerShape(s: State, t: nat, step: TimerStep)
    requires Shape(s) && Mutexes(s) && TimerCan(s, t, step)
    ensures Shape(TimerDoes(s, t, step)) && Mutexes(TimerDoes(s, t, step))
  {
  }

  lemma TimerBalances(s: State, t: nat, step: TimerStep)
    requires ApparatusBalance(s) && OvenBalance(s) && TimerCan(s, t, step)
    ensures ApparatusBalance(TimerDoes(s, t, step)) && OvenBalance(TimerDoes(s, t, step))
  {
    SumUpdate(TimerHolds, s.timers, t, TimerDoes(s, t, step).timers[t]);
    SumUpdate(TimerBaking, s.timers, t, TimerDoes(s, t, step).timers[t]);
    SumSame(CookHolds, WakeAll(s.cooks), s.cooks);
    SumSame(CookOwesTimer, WakeAll(s.cooks), s.cooks);
  }

  /** A timer moves its order within the shop. */
  lemma TimerOrders(s: State, t: nat, step: TimerStep, p: Pide)
    requires TimerCan(s, t, step)
    ensures InShop(TimerDoes(s, t, step), p) == InShop(s, p)
  {
    match step
    case OvenTake => OvenOrders(s, t, p);
    case PutPrepared => PreparedOrders(s, t, p);
    case _ => TallyUpdate(TimerHas, s.timers, t, TimerDoes(s, t, step).timers[t], p);
  }

  lemma PreparedOrders(s: State, t: nat, p: Pide)
    requires TimerCan(s, t, PutPrepared)
    ensures InShop(TimerDoes(s, t, PutPrepared), p) == InShop(s, p)
  {
    TallyUpdate(TimerHas, s.timers, t, Finished, p);
    TallyAppend(One, s.preparedQ, s.timers[t].p, p);
  }

  lemma OvenOrders(s: State, t: nat, p: Pide)
    requires TimerCan(s, t, OvenTake)
    ensures InShop(TimerDoes(s, t, OvenTake), p) == InShop(s, p)
  {
    TallyUpdate(TimerHas, s.timers, t, TimerDoes(s, t, OvenTake).timers[t], p);
    TallyHead(One, s.ovenQ, p);
    TallySame(CookHas, WakeAll(s.cooks), s.cooks, p);
  }

  lemma TimerOutstanding(s: State, t: nat, step: TimerStep)
    requires TimerCan(s, t, step)
    ensures Outstanding(TimerDoes(s, t, step)) == Outstanding(s)
  {
    SumUpdate(TimerCarries, s.timers, t, TimerDoes(s, t, step).timers[t]);
    SumSame(CookCarries, WakeAll(s.cooks), s.cooks);
  }

  lemma TimerConserved(s: State, t: nat, step: TimerStep)
    requires Conserved(s) && TimerCan(s, t, step)
    ensures Conserved(TimerDoes(s, t, step))
    ensures Outstanding(TimerDoes(s, t, step)) == Outstanding(s)
  {
    TimerOutstanding(s, t, step);
    forall p ensures Located(TimerDoes(s, t, step), p) == Expected(TimerDoes(s, t, step), p) {
      TimerOrders(s, t, step, p);
      assert Located(s, p) == Expected(s, p);
    }
  }

  lemma TimerInv(s: State, t: nat, step: TimerStep)
    requires Inv(s) && TimerCan(s, t, step)
    ensures Inv(TimerDoes(s, t, step))
  {
    TimerShape(s, t, step);
    TimerBalances(s, t, step);
    TimerConserved(s, t, step);
  }

  lemma SubmitterOrders(s: State, step: SubmitterStep, p: Pide)
    requires Shape(s) && SubmitterCan(s, step)
    ensures Located(SubmitterDoes(s, step), p) == Located(s, p)
  {
    if step.Submit? {
      TallyHead(One, s.orders[s.submitted..], p);
      assert s.orders[s.submitted..][1..] == s.orders[s.submitted + 1..];
      TallyAppend(One, s.orderQ, s.orders[s.submitted], p);
    }
  }

  /** The orders in one place are no more than all that were submitted. */
  lemma Bounds(s: State)
    requires Inv(s)
    ensures |s.orderQ| <= Outstanding(s) && |s.preparedQ| + Sum(TimerCarries, s.timers) <= Outstanding(s)
    ensures |s.ovenQ| + Sum(CookCarries, s.cooks) <= Outstanding(s)
  {
    SumNonneg(CookCarries, s.cooks);
    SumNonneg(TimerCarries, s.timers);
  }

  lemma SubmitterInv(s: State, step: SubmitterStep)
    requires Inv(s) && SubmitterCan(s, step)
    ensures Inv(SubmitterDoes(s, step))
  {
    Bounds(s);
    SubmitterConserved(s, step);
  }

  lemma SubmitterConserved(s: State, step: SubmitterStep)
    requires Shape(s) && Conserved(s) && SubmitterCan(s, step)
    ensures Conserved(SubmitterDoes(s, step))
  {
    forall p ensures Located(SubmitterDoes(s, step), p) == Expected(SubmitterDoes(s, step), p) {
      SubmitterOrders(s, step, p);
      assert Located(s, p) == Expected(s, p);
    }
  }

  lemma CourierShape(s: State, j: nat, step: CourierStep)
    requires Shape(s) && Mutexes(s) && CourierCan(s, j, step)
    ensures Shape(CourierDoes(s, j, step)) && Mutexes(CourierDoes(s, j, step))
  {
    CourierForm(s, j, step);
    CourierMutexes(s, j, step);
  }

  lemma CourierForm(s: State, j: nat, step: CourierStep)
    requires Shape(s) && CourierCan(s, j, step)
    ensures Shape(CourierDoes(s, j, step))
  {
  }

  lemma CourierMutexes(s: State, j: nat, step: CourierStep)
    requires Mutexes(s) && CourierCan(s, j, step)
    ensures Mutexes(CourierDoes(s, j, step))
  {
    var t := CourierDoes(s, j, step);
    assert t.cooks == s.cooks && t.ovenQ == s.ovenQ;
    assert forall i :: 0 <= i < |s.couriers| && i != j ==> t.couriers[i] == s.couriers[i];
  }

  /** What a courier takes comes from the shop, or out of nothing. */
  lemma TakeOrders(s: State, j: nat, p: Pide)
    requires j < |s.couriers| && !s.couriers[j].Delivering?
    ensures var t := TakePrepared(s, j);
            Located(t, p) - Located(s, p) == if p == ZERO_PIDE then t.phantoms - s.phantoms else 0
  {
    var t, c := TakePrepared(s, j), s.couriers[j];
    TallyUpdate(CourierHas, s.couriers, j, t.couriers[j], p);
    if |s.preparedQ| > 0 {
      TallyHead(One, s.preparedQ, p);
      TallyAppend(One, c.bag, s.preparedQ[0], p);
    } else {
      TallyAppend(One, c.bag, ZERO_PIDE, p);
    }
  }

  /** What a courier counts comes from its bag. */
  lemma CourierOrders(s: State, j: nat, step: CourierStep, p: Pide)
    requires Shape(s) && CourierCan(s, j, step)
    ensures var t := CourierDoes(s, j, step);
            Located(t, p) - Located(s, p) == if p == ZERO_PIDE then t.phantoms - s.phantoms else 0
  {
    if step.Take? || step.LateTake? {
      TakeOrders(s, j, p);
    } else {
      var t, c := CourierDoes(s, j, step), s.couriers[j];
      TallyUpdate(CourierHas, s.couriers, j, t.couriers[j], p);
      if step.Depart? {
        assert c.bag[0..] == c.bag;
      } else if step.Count? {
        TallyHead(One, c.bag[c.k..], p);
        assert c.bag[c.k..][1..] == c.bag[c.k + 1..];
        TallyAppend(One, s.counted, c.bag[c.k], p);
      } else if step.Check? {
        assert c.bag[c.k..] == [];
      }
    }
  }

  lemma CourierConserved(s: State, j: nat, step: CourierStep)
    requires Shape(s) && Conserved(s) && CourierCan(s, j, step)
    ensures Conserved(CourierDoes(s, j, step))
  {
    forall p ensures Located(CourierDoes(s, j, step), p) == Expected(CourierDoes(s, j, step), p) {
      CourierOrders(s, j, step, p);
      assert Located(s, p) == Expected(s, p);
    }
  }

  lemma CourierSizes(s: State, j: nat, step: CourierStep)
    requires Shape(s) && SizeBalance(s) && CourierCan(s, j, step)
    ensures SizeBalance(CourierDoes(s, j, step))
  {
    if step.Take? || step.LateTake? {
      TakeSizes(s, j);
    } else {
      SumUpdate(LoadSize, s.couriers, j, CourierDoes(s, j, step).couriers[j]);
    }
  }

  lemma TakeSizes(s: State, j: nat)
    requires SizeBalance(s) && j < |s.couriers| && (s.couriers[j].Loading? || s.couriers[j].Waiting? || s.couriers[j].Woken?)
    ensures SizeBalance(TakePrepared(s, j))
  {
    var t := TakePrepared(s, j);
    SumUpdate(LoadSize, s.couriers, j, t.couriers[j]);
    assert |Load(t.couriers[j])| == |Load(s.couriers[j])| + 1;
  }

  lemma CourierDelivery(s: State, j: nat, step: CourierStep)
    requires Shape(s) && DeliveryBalance(s) && CourierCan(s, j, step)
    ensures DeliveryBalance(CourierDoes(s, j, step))
  {
    if step.Count? {
      SumUpdate(Identity, s.received, j, s.received[j] + 1);
    }
  }

  lemma CourierInv(s: State, j: nat, step: CourierStep)
    requires Inv(s) && CourierCan(s, j, step)
    ensures Inv(CourierDoes(s, j, step))
  {
    CourierShape(s, j, step);
    CourierConserved(s, j, step);
    CourierSizes(s, j, step);
    CourierDelivery(s, j, step);
  }

  lemma StepInv(s: State, a: Action)
    requires Inv(s) && Enabled(s, a)
    ensures Inv(Apply(s, a))
  {
    match a
    case Submitter(step) => SubmitterInv(s, step);
    case ByCook(i, step) => CookInv(s, i, step);
    case ByTimer(t, step) => TimerInv(s, t, step);
    case ByCourier(j, step) => CourierInv(s, j, step);
  }

  /** The invariant holds along every run. */
  lemma {:induction false} RunInv(calm: bool, s: State, acts: seq<Action>)
    requires Inv(s) && Runs(calm, s, acts)
    ensures Inv(Exec(calm, s, acts))
    decreases |acts|
  {
    if |acts| > 0 {
      StepInv(s, acts[0]);
      RunInv(calm, Apply(s, acts[0]), acts[1..]);
    }
  }

  lemma ReachInv(calm: bool, s: State, t: State)
    requires Inv(s) && Reach(calm, s, t)
    ensures Inv(t) && SameCrew(s, t)
  {
    var acts :| Runs(calm, s, acts) && Exec(calm, s, acts) == t;
    RunInv(calm, s, acts);
  }
}
