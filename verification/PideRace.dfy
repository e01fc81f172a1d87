/** The counter of outstanding orders is read twice by a courier that wakes up,
    and the submitter may count an order in between.  Calm runs are those in
    which it does not.  This module says what calm runs keep, and for which
    numbers of orders, cooks and couriers every run is calm. */
module PideRace {
  import opened RingQueue
  import opened PideShop
  import opened PideInvariants
  import opened PideScripts

  /** A courier between its two reads still sees no outstanding order, and no
      courier ever dequeued from an empty queue. */
  ghost predicate CalmInv(s: State) {
    && s.phantoms == 0
    && (s.totalOrder == 0 || PreparedFree(s))
  }

  lemma CalmStep(s: State, a: Action)
    requires CalmInv(s) && Allowed(true, s, a)
    ensures CalmInv(Apply(s, a))
  {
    if a.ByCourier? && (a.courier.Recheck? || a.courier.LateTake?) {
      assert !PreparedFree(s);
    }
  }

  lemma {:induction false} CalmRunInv(s: State, acts: seq<Action>)
    requires CalmInv(s) && Runs(true, s, acts)
    ensures CalmInv(Exec(true, s, acts))
    decreases |acts|
  {
    if |acts| > 0 {
      CalmStep(s, acts[0]);
      CalmRunInv(Apply(s, acts[0]), acts[1..]);
    }
  }

  /** What holds of every state of a calm run. */
  lemma CalmReach(orders: seq<Pide>, cooks: nat, couriers: nat, t: State)
    requires Session(orders) && Reach(true, Init(orders, cooks, couriers), t)
    ensures Inv(t) && CalmInv(t)
  {
    var z := Init(orders, cooks, couriers);
    var acts :| Runs(true, z, acts) && Exec(true, z, acts) == t;
    InitInv(orders, cooks, couriers);
    RunInv(true, z, acts);
    CalmRunInv(z, acts);
  }

  // ------------------------------------------------------------ when every run is calm

  /** Without cooks nothing is taken; a single courier that waits for an order
      sees the counter positive; and a single order is counted before any courier
      waits. */
  ghost predicate Small(n: nat, cooks: nat, couriers: nat) {
    cooks == 0 || couriers <= 1 || n <= 1
  }

  ghost predicate NobodyRaces(s: State) {
    && Small(|s.orders|, |s.cooks|, |s.couriers|)
    && s.totalOrder + (if s.pending then 1 else 0) <= s.submitted <= |s.orders|
    && (|s.cooks| == 0 ==> |s.timers| == 0 && |s.preparedQ| == 0)
    && (|s.cooks| == 0 || |s.couriers| <= 1 ==>
          PreparedFree(s) && forall j :: 0 <= j < |s.couriers| && s.couriers[j].Waiting? ==> s.totalOrder > 0)
    && (|s.orders| <= 1 ==> forall j :: 0 <= j < |s.couriers| && (s.couriers[j].Waiting? || s.couriers[j].Woken?) ==>
                              s.submitted == |s.orders| && !s.pending)
  }

  lemma NobodyRacesCourier(s: State, j: nat, step: CourierStep)
    requires NobodyRaces(s) && CourierCan(s, j, step)
    ensures NobodyRaces(CourierDoes(s, j, step))
  {
  }

  lemma NobodyRacesTimer(s: State, t: nat, step: TimerStep)
    requires NobodyRaces(s) && TimerCan(s, t, step)
    ensures NobodyRaces(TimerDoes(s, t, step))
  {
  }

  lemma NobodyRacesStep(s: State, a: Action)
    requires NobodyRaces(s) && Enabled(s, a)
    ensures NobodyRaces(Apply(s, a))
    ensures a == Submitter(Bump) ==> PreparedFree(s)
  {
    match a
    case Submitter(step) =>
    case ByCook(i, step) =>
    case ByTimer(t, step) => NobodyRacesTimer(s, t, step);
    case ByCourier(j, step) => NobodyRacesCourier(s, j, step);
  }

  lemma {:induction false} SmallRunsAreCalm(s: State, acts: seq<Action>)
    requires NobodyRaces(s) && Runs(false, s, acts)
    ensures Runs(true, s, acts) && Exec(true, s, acts) == Exec(false, s, acts)
    decreases |acts|
  {
    if |acts| > 0 {
      NobodyRacesStep(s, acts[0]);
      SmallRunsAreCalm(Apply(s, acts[0]), acts[1..]);
    }
  }

  // ------------------------------------------------------------ and when one is not

  /** No run of a session ever dequeues a phantom order. */
  ghost predicate PhantomFree(orders: seq<Pide>, cooks: nat, couriers: nat) {
    forall t :: Reach(false, Init(orders, cooks, couriers), t) ==> t.phantoms == 0
  }

  /** One order is queued as prepared, two couriers wait for it, and the submitter
      has a second order. */
  ghost predicate Ready(s: State) {
    && s.submitted == 1 < |s.orders| && !s.pending && !s.stuck && |s.orderQ| == 0
    && |s.preparedQ| == 1 && s.totalOrder == 1 && s.phantoms == 0
    && |s.couriers| == |s.received| >= 2 && PreparedFree(s)
    && s.couriers[0] == Waiting([]) && s.couriers[1] == Waiting([])
    && KitchenIdle(s) && s.totalReceived == 0 && s.onlySend
  }

  /** No cook is at work, the oven is empty and all apparatus are on the shelf. */
  ghost predicate KitchenIdle(s: State) {
    && |s.cooks| > 0 && (forall i :: 0 <= i < |s.cooks| ==> s.cooks[i].Idle?)
    && |s.ovenQ| == 0 && s.aparatus == APPARATUS
  }

  /** A courier has taken the first order, another one a phantom, and the second order
      is still with the cooks. */
  ghost predicate Raced(s: State) {
    && s.submitted == 2 <= |s.orders| && !s.pending && !s.stuck && |s.orderQ| == 1
    && |s.preparedQ| == 0 && s.totalOrder == 0 && s.phantoms == 1
    && |s.couriers| == |s.received| >= 2 && PreparedFree(s)
    && s.couriers[0].Loading? && |s.couriers[0].bag| == 1 && s.couriers[1] == Loading([ZERO_PIDE])
    && KitchenIdle(s) && s.totalReceived == 0 && s.onlySend
  }

  lemma GetReady(orders: seq<Pide>, cooks: nat, couriers: nat) returns (t: State)
    requires Session(orders) && !Small(|orders|, cooks, couriers)
    ensures Reach(false, Init(orders, cooks, couriers), t) && Ready(t)
  {
    var z := Init(orders, cooks, couriers);
    ReachSelf(false, z);
    ReachSubmitter(false, z, z, Submit);
    var s := SubmitterDoes(z, Submit);
    ReachSubmitter(false, z, s, Bump);
    s := SubmitterDoes(s, Bump);
    ReachCourier(false, z, s, 0, Wait);
    s := CourierDoes(s, 0, Wait);
    ReachCourier(false, z, s, 1, Wait);
    s := CourierDoes(s, 1, Wait);
    Bake(false, z, s);
    s := s.(orderQ := s.orderQ[1..], ovenQ := s.ovenQ + [s.orderQ[0]], timers := s.timers + [Expired]);
    Fetch(false, z, s, 0);
    t := s.(ovenQ := s.ovenQ[1..], preparedQ := s.preparedQ + [s.ovenQ[0]], timers := s.timers[0 := Finished]);
  }

  /** One courier takes the order, so the other wakes up to a count of zero; the
      submitter counts the second order; the second read then lets the courier
      dequeue from the empty queue. */
  lemma Race(z: State, s: State) returns (t: State)
    requires Reach(false, z, s) && Ready(s)
    ensures Reach(false, z, t) && Raced(t)
  {
    ReachCourier(false, z, s, 0, Take);
    t := CourierDoes(s, 0, Take);
    assert t.totalOrder == 0 && |t.preparedQ| == 0;
    ReachCourier(false, z, t, 1, Break);
    t := CourierDoes(t, 1, Break);
    ReachSubmitter(false, z, t, Submit);
    t := SubmitterDoes(t, Submit);
    ReachSubmitter(false, z, t, Bump);
    t := SubmitterDoes(t, Bump);
    ReachCourier(false, z, t, 1, LateTake);
    t := CourierDoes(t, 1, LateTake);
  }

  /** No dequeue ever meets an empty queue if and only if there are no cooks, or at
      most one courier, or at most one order. */
  lemma PhantomFreeExactly(orders: seq<Pide>, cooks: nat, couriers: nat)
    requires Session(orders)
    ensures PhantomFree(orders, cooks, couriers) <==> Small(|orders|, cooks, couriers)
  {
    var z := Init(orders, cooks, couriers);
    if Small(|orders|, cooks, couriers) {
      forall t | Reach(false, z, t) ensures t.phantoms == 0 {
        var acts :| Runs(false, z, acts) && Exec(false, z, acts) == t;
        SmallRunsAreCalm(z, acts);
        CalmRunInv(z, acts);
      }
    } else {
      var s := GetReady(orders, cooks, couriers);
      var t := Race(z, s);
      assert !PhantomFree(orders, cooks, couriers);
    }
  }
}
