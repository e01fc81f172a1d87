/** One client session of the PideShop server, as a transition system.

    A submitter, any number of cooks, one timer thread per baked order and any
    number of couriers share three bounded queues, a pool of three oven
    apparatus, a counter of outstanding orders and a send-once flag.  A step is
    one section of code under one mutex; a condition wait is a step that is
    enabled when the guard of the loop around the wait lets the thread through.

    Where a section reads or writes state that another mutex protects, it is
    split: a cook that finds the oven full gives its apparatus back and takes it
    again in two steps while it holds the oven mutex (`Yielded`), and a courier
    that wakes up to no outstanding orders reads the counter a second time while
    it holds the mutex of the prepared queue (`Woken`).  The wait of a cook at a
    full oven is the one wait whose wake-up is modelled: a cook that wakes up
    gives its apparatus back once more if the oven is full again, so it matters
    that only the broadcast after a dequeue wakes it. */
module PideShop {
  import opened RingQueue

  const ORDER_CAPACITY := 200
  const OVEN_CAPACITY := 6
  const PREPARED_CAPACITY := 200
  const BAG_CAPACITY := 3
  const APPARATUS := 3

  /** Where a cook stands in its loop. */
  datatype Cook =
    | Idle                  // at the order queue
    | Preparing(p: Pide)    // has an order, needs an apparatus
    | AtOven(p: Pide)       // holds an apparatus, tests the oven queue
    | Yielded(p: Pide)      // gave the apparatus back, holds the oven mutex
    | Blocked(p: Pide)      // retook it, waits until an order leaves the oven
    | Placed                // order is in the oven, apparatus still held
    | Left                  // apparatus released, timer not yet started

  /** Where a timer thread stands. */
  datatype Timer =
    | Expired               // needs an apparatus
    | Holding               // holds an apparatus, takes from the oven
    | Unloading(p: Pide)    // has the order, apparatus still held
    | Sending(p: Pide)      // apparatus released, order not yet queued
    | Finished

  /** Where a courier stands; `bag` is its local bag. */
  datatype Courier =
    | Loading(bag: seq<Pide>)               // at the test of the outer loop
    | Waiting(bag: seq<Pide>)               // in the condition wait
    | Woken(bag: seq<Pide>)                 // read zero outstanding orders, holds the mutex
    | Delivering(bag: seq<Pide>, k: nat)    // on the road, `k` of the bag counted

  datatype State = State(
    orders: seq<Pide>,          // the orders of the session
    submitted: nat,             // how many of them were queued
    pending: bool,              // queued one that is not yet in totalOrder
    stuck: bool,                // submitter waits on a condition nobody signals
    orderQ: seq<Pide>,
    ovenQ: seq<Pide>,
    preparedQ: seq<Pide>,
    aparatus: int,
    totalOrder: int,
    cooks: seq<Cook>,
    timers: seq<Timer>,
    couriers: seq<Courier>,
    received: seq<nat>,         // per courier
    totalReceived: nat,
    onlySend: bool,             // no DELIVERED was sent yet
    sent: nat,                  // history: number of DELIVERED messages
    counted: seq<Pide>,         // history: what was counted in totalReceived
    phantoms: nat)              // history: dequeues from an empty prepared queue

  datatype SubmitterStep = Submit | Bump | Block
  datatype CookStep = TakeOrder | TakeApparatus | PutInOven | Yield | Retake | Release | StartTimer
  datatype TimerStep = TimerTake | OvenTake | TimerRelease | PutPrepared
  datatype CourierStep = Take | Wait | Depart | Break | Recheck | LateTake | Count | Check

  /** One step of one thread. */
  datatype Action =
    | Submitter(submitter: SubmitterStep)
    | ByCook(i: nat, cook: CookStep)
    | ByTimer(t: nat, timer: TimerStep)
    | ByCourier(j: nat, courier: CourierStep)

  ghost function Init(orders: seq<Pide>, cooks: nat, couriers: nat): State {
    State(orders, 0, false, false, [], [], [], APPARATUS, 0,
          seq(cooks, _ => Idle), [], seq(couriers, _ => Loading([])),
          seq(couriers, _ => 0), 0, true, 0, [], 0)
  }

  /** The orders of a session: `newOrder[i].id` is `i + 1`. */
  ghost predicate Session(orders: seq<Pide>) {
    forall i :: 0 <= i < |orders| ==> orders[i].id == i + 1
  }

  // ------------------------------------------------------------ locks

  /** No cook sits in the give-back window under the oven mutex. */
  ghost predicate OvenFree(s: State) {
    forall i :: 0 <= i < |s.cooks| ==> !s.cooks[i].Yielded?
  }

  /** No courier sits between its two reads under the prepared-queue mutex. */
  ghost predicate PreparedFree(s: State) {
    forall j :: 0 <= j < |s.couriers| ==> !s.couriers[j].Woken?
  }

  /** The same orders, cooks and couriers. */
  ghost predicate SameCrew(s: State, r: State) {
    r.orders == s.orders && |r.cooks| == |s.cooks| && |r.couriers| == |s.couriers|
  }

  // ------------------------------------------------------------ the submitter

  ghost predicate SubmitterCan(s: State, step: SubmitterStep) {
    match step
    case Submit => !s.pending && !s.stuck && s.submitted < |s.orders| && |s.orderQ| != ORDER_CAPACITY
    case Block => !s.pending && !s.stuck && s.submitted < |s.orders| && |s.orderQ| == ORDER_CAPACITY
    case Bump => s.pending
  }

  ghost function SubmitterDoes(s: State, step: SubmitterStep): (r: State)
    requires SubmitterCan(s, step)
    ensures SameCrew(s, r)
  {
    match step
    case Submit => s.(orderQ := s.orderQ + [s.orders[s.submitted]], submitted := s.submitted + 1, pending := true)
    case Block => s.(stuck := true)
    case Bump => s.(totalOrder := s.totalOrder + 1, pending := false)
  }

  // ------------------------------------------------------------ the cooks

  ghost predicate CookCan(s: State, i: nat, step: CookStep) {
    i < |s.cooks| &&
    match step
    case TakeOrder => s.cooks[i].Idle? && |s.orderQ| != 0
    case TakeApparatus => s.cooks[i].Preparing? && s.aparatus != 0
    case PutInOven => s.cooks[i].AtOven? && OvenFree(s) && |s.ovenQ| != OVEN_CAPACITY
    case Yield => s.cooks[i].AtOven? && OvenFree(s) && |s.ovenQ| == OVEN_CAPACITY
    case Retake => s.cooks[i].Yielded?
    case Release => s.cooks[i].Placed?
    case StartTimer => s.cooks[i].Left?
  }

  ghost function CookDoes(s: State, i: nat, step: CookStep): (r: State)
    requires CookCan(s, i, step)
    ensures SameCrew(s, r)
  {
    match step
    case TakeOrder => s.(orderQ := s.orderQ[1..], cooks := s.cooks[i := Preparing(s.orderQ[0])])
    case TakeApparatus => s.(aparatus := s.aparatus - 1, cooks := s.cooks[i := AtOven(s.cooks[i].p)])
    case PutInOven => s.(ovenQ := s.ovenQ + [s.cooks[i].p], cooks := s.cooks[i := Placed])
    case Yield => s.(aparatus := s.aparatus + 1, cooks := s.cooks[i := Yielded(s.cooks[i].p)])
    case Retake => s.(aparatus := s.aparatus - 1, cooks := s.cooks[i := Blocked(s.cooks[i].p)])
    case Release => s.(aparatus := s.aparatus + 1, cooks := s.cooks[i := Left])
    case StartTimer => s.(timers := s.timers + [Expired], cooks := s.cooks[i := Idle])
  }

  // ------------------------------------------------------------ the timers

  /** The broadcast that wakes every cook that waits at the oven. */
  ghost function WakeAll(cooks: seq<Cook>): (r: seq<Cook>)
    ensures |r| == |cooks|
  {
    seq(|cooks|, i requires 0 <= i < |cooks| => Woke(cooks[i]))
  }

  ghost function Woke(c: Cook): Cook {
    if c.Blocked? then AtOven(c.p) else c
  }

  ghost predicate TimerCan(s: State, t: nat, step: TimerStep) {
    t < |s.timers| &&
    match step
    case TimerTake => s.timers[t].Expired? && s.aparatus != 0
    case OvenTake => s.timers[t].Holding? && OvenFree(s) && |s.ovenQ| != 0
    case TimerRelease => s.timers[t].Unloading?
    case PutPrepared => s.timers[t].Sending? && PreparedFree(s) && |s.preparedQ| != PREPARED_CAPACITY
  }

  ghost function TimerDoes(s: State, t: nat, step: TimerStep): (r: State)
    requires TimerCan(s, t, step)
    ensures SameCrew(s, r)
  {
    match step
    case TimerTake => s.(aparatus := s.aparatus - 1, timers := s.timers[t := Holding])
    case OvenTake =>
      s.(ovenQ := s.ovenQ[1..], timers := s.timers[t := Unloading(s.ovenQ[0])], cooks := WakeAll(s.cooks))
    case TimerRelease => s.(aparatus := s.aparatus + 1, timers := s.timers[t := Sending(s.timers[t].p)])
    case PutPrepared => s.(preparedQ := s.preparedQ + [s.timers[t].p], timers := s.timers[t := Finished])
  }

  // ------------------------------------------------------------ the couriers

  ghost predicate CourierCan(s: State, j: nat, step: CourierStep) {
    j < |s.couriers| && j < |s.received| &&
    var c := s.couriers[j];
    match step
    case Take =>
      && PreparedFree(s) && s.totalOrder > 0 && |s.preparedQ| != 0
      && (c.Waiting? || (c.Loading? && |c.bag| < BAG_CAPACITY))
    case Wait =>
      && PreparedFree(s) && s.totalOrder > 0 && |s.preparedQ| == 0
      && c.Loading? && |c.bag| < BAG_CAPACITY
    case Depart =>
      && PreparedFree(s) && (s.totalOrder <= 0 || |c.bag| >= BAG_CAPACITY)
      && c.Loading? && |c.bag| > 0
    case Break => PreparedFree(s) && c.Waiting? && s.totalOrder == 0
    case Recheck => c.Woken? && s.totalOrder == 0
    case LateTake => c.Woken? && s.totalOrder != 0
    case Count => c.Delivering? && c.k < |c.bag|
    case Check => c.Delivering? && c.k >= |c.bag|
  }

  ghost function CourierDoes(s: State, j: nat, step: CourierStep): (r: State)
    requires CourierCan(s, j, step)
    ensures SameCrew(s, r)
  {
    var c := s.couriers[j];
    match step
    case Take => TakePrepared(s, j)
    case Wait => s.(couriers := s.couriers[j := Waiting(c.bag)])
    case Depart => s.(couriers := s.couriers[j := Delivering(c.bag, 0)])
    case Break => s.(couriers := s.couriers[j := Woken(c.bag)])
    case Recheck => s.(couriers := s.couriers[j := Loading(c.bag)])
    case LateTake => TakePrepared(s, j)
    case Count =>
      s.(received := s.received[j := s.received[j] + 1], totalReceived := s.totalReceived + 1,
         counted := s.counted + [c.bag[c.k]], couriers := s.couriers[j := Delivering(c.bag, c.k + 1)])
    case Check =>
      var last := s.onlySend && s.totalReceived == |s.orders|;
      s.(couriers := s.couriers[j := Loading([])],
         onlySend := s.onlySend && !last, sent := s.sent + if last then 1 else 0)
  }

  /** A courier dequeues into its bag.  Dequeuing from an empty queue yields the
      all-zero order, which the courier does not tell from a real one. */
  ghost function TakePrepared(s: State, j: nat): State
    requires j < |s.couriers|
  {
    if |s.preparedQ| == 0 then
      s.(couriers := s.couriers[j := Loading(s.couriers[j].bag + [ZERO_PIDE])],
         totalOrder := s.totalOrder - 1, phantoms := s.phantoms + 1)
    else
      s.(couriers := s.couriers[j := Loading(s.couriers[j].bag + [s.preparedQ[0]])],
         totalOrder := s.totalOrder - 1, preparedQ := s.preparedQ[1..])
  }

  // ------------------------------------------------------------ any thread

  ghost predicate Enabled(s: State, a: Action) {
    match a
    case Submitter(step) => SubmitterCan(s, step)
    case ByCook(i, step) => CookCan(s, i, step)
    case ByTimer(t, step) => TimerCan(s, t, step)
    case ByCourier(j, step) => CourierCan(s, j, step)
  }

  ghost function Apply(s: State, a: Action): (r: State)
    requires Enabled(s, a)
    ensures SameCrew(s, r)
  {
    match a
    case Submitter(step) => SubmitterDoes(s, step)
    case ByCook(i, step) => CookDoes(s, i, step)
    case ByTimer(t, step) => TimerDoes(s, t, step)
    case ByCourier(j, step) => CourierDoes(s, j, step)
  }

  // ------------------------------------------------------------ runs

  /** In a calm run the submitter never counts an order while a courier sits
      between its two reads of the counter. */
  ghost predicate Allowed(calm: bool, s: State, a: Action) {
    Enabled(s, a) && (calm && a == Submitter(Bump) ==> PreparedFree(s))
  }

  ghost predicate Runs(calm: bool, s: State, acts: seq<Action>)
    decreases |acts|
  {
    |acts| == 0 || (Allowed(calm, s, acts[0]) && Runs(calm, Apply(s, acts[0]), acts[1..]))
  }

  /** The state a run ends in. */
  ghost function Exec(calm: bool, s: State, acts: seq<Action>): (r: State)
    requires Runs(calm, s, acts)
    ensures SameCrew(s, r)
    decreases |acts|
  {
    if |acts| == 0 then s else Exec(calm, Apply(s, acts[0]), acts[1..])
  }

  lemma {:induction false} RunsConcat(calm: bool, s: State, a: seq<Action>, b: seq<Action>)
    requires Runs(calm, s, a) && Runs(calm, Exec(calm, s, a), b)
    ensures Runs(calm, s, a + b) && Exec(calm, s, a + b) == Exec(calm, Exec(calm, s, a), b)
    decreases |a|
  {
    if |a| == 0 {
      assert a + b == b;
    } else {
      var c := a + b;
      assert c[0] == a[0] && c[1..] == a[1..] + b;
      RunsConcat(calm, Apply(s, a[0]), a[1..], b);
      assert Runs(calm, s, c);
    }
  }

  lemma RunsThen(calm: bool, s: State, acts: seq<Action>, a: Action)
    requires Runs(calm, s, acts) && Allowed(calm, Exec(calm, s, acts), a)
    ensures Runs(calm, s, acts + [a])
    ensures Exec(calm, s, acts + [a]) == Apply(Exec(calm, s, acts), a)
  {
    var t := Exec(calm, s, acts);
    assert [a][0] == a && [a][1..] == [];
    assert Exec(calm, Apply(t, a), []) == Apply(t, a);
    assert Exec(calm, t, [a]) == Exec(calm, Apply(t, a), [a][1..]);
    RunsConcat(calm, s, acts, [a]);
  }

  /** A calm run is a run. */
  lemma {:induction false} CalmRunsAreRuns(s: State, acts: seq<Action>)
    requires Runs(true, s, acts)
    ensures Runs(false, s, acts) && Exec(false, s, acts) == Exec(true, s, acts)
    decreases |acts|
  {
    if |acts| > 0 {
      CalmRunsAreRuns(Apply(s, acts[0]), acts[1..]);
    }
  }

  ghost predicate Reach(calm: bool, s: State, t: State) {
    exists acts :: Runs(calm, s, acts) && Exec(calm, s, acts) == t
  }

  lemma ReachSelf(calm: bool, s: State)
    ensures Reach(calm, s, s)
  {
    assert Runs(calm, s, []) && Exec(calm, s, []) == s;
  }

  lemma ReachStep(calm: bool, s: State, t: State, a: Action)
    requires Reach(calm, s, t) && Allowed(calm, t, a)
    ensures Reach(calm, s, Apply(t, a))
  {
    var acts :| Runs(calm, s, acts) && Exec(calm, s, acts) == t;
    RunsThen(calm, s, acts, a);
  }

  lemma ReachCook(calm: bool, z: State, s: State, i: nat, step: CookStep)
    requires Reach(calm, z, s) && CookCan(s, i, step)
    ensures Reach(calm, z, CookDoes(s, i, step))
  {
    ReachStep(calm, z, s, ByCook(i, step));
  }

  lemma ReachTimer(calm: bool, z: State, s: State, t: nat, step: TimerStep)
    requires Reach(calm, z, s) && TimerCan(s, t, step)
    ensures Reach(calm, z, TimerDoes(s, t, step))
  {
    ReachStep(calm, z, s, ByTimer(t, step));
  }

  lemma ReachCourier(calm: bool, z: State, s: State, j: nat, step: CourierStep)
    requires Reach(calm, z, s) && CourierCan(s, j, step)
    ensures Reach(calm, z, CourierDoes(s, j, step))
  {
    ReachStep(calm, z, s, ByCourier(j, step));
  }

  lemma ReachSubmitter(calm: bool, z: State, s: State, step: SubmitterStep)
    requires Reach(calm, z, s) && SubmitterCan(s, step) && (calm ==> PreparedFree(s))
    ensures Reach(calm, z, SubmitterDoes(s, step))
  {
    ReachStep(calm, z, s, Submitter(step));
  }

  lemma ReachReach(calm: bool, s: State, t: State, u: State)
    requires Reach(calm, s, t) && Reach(calm, t, u)
    ensures Reach(calm, s, u)
  {
    var a :| Runs(calm, s, a) && Exec(calm, s, a) == t;
    var b :| Runs(calm, t, b) && Exec(calm, t, b) == u;
    RunsConcat(calm, s, a, b);
  }
}
