/** What each thread of the shop does next, and when it has to wait. */
module PideThreads {
  import opened Sums
  import opened RingQueue
  import opened PideShop
  import opened PideInvariants

  /** The two steps are of the same thread. */
  predicate SameThread(a: Action, b: Action) {
    || (a.Submitter? && b.Submitter?)
    || (a.ByCook? && b.ByCook? && a.i == b.i)
    || (a.ByTimer? && b.ByTimer? && a.t == b.t)
    || (a.ByCourier? && b.ByCourier? && a.j == b.j)
  }

  /** Every thread is sequential: never are two of its steps possible. */
  lemma OneStepAtMost(s: State, a: Action, b: Action)
    requires Inv(s) && Enabled(s, a) && Enabled(s, b) && SameThread(a, b)
    ensures a == b
  {
    match a
    case Submitter(step) =>
    case ByCook(i, step) => OneCookStep(s, i, step, b.cook);
    case ByTimer(t, step) => OneTimerStep(s, t, step, b.timer);
    case ByCourier(j, step) => OneCourierStep(s, j, step, b.courier);
  }

  lemma OneCookStep(s: State, i: nat, a: CookStep, b: CookStep)
    requires CookCan(s, i, a) && CookCan(s, i, b)
    ensures a == b
  {
  }

  lemma OneTimerStep(s: State, t: nat, a: TimerStep, b: TimerStep)
    requires TimerCan(s, t, a) && TimerCan(s, t, b)
    ensures a == b
  {
  }

  lemma OneCourierStep(s: State, j: nat, a: CourierStep, b: CourierStep)
    requires CourierCan(s, j, a) && CourierCan(s, j, b)
    ensures a == b
  {
  }

  ghost predicate CookYields(s: State) {
    exists k :: 0 <= k < |s.cooks| && s.cooks[k].Yielded?
  }

  ghost predicate CourierWakes(s: State) {
    exists k :: 0 <= k < |s.couriers| && s.couriers[k].Woken?
  }

  /** The submitter has no step exactly when it is through, or waits at a queue that
      held 200 orders; it queues an order exactly when one is left, the last one is
      counted and the queue holds fewer. */
  lemma SubmitterWaits(s: State)
    requires Inv(s)
    ensures (forall step :: !SubmitterCan(s, step)) <==> !s.pending && (s.stuck || s.submitted == |s.orders|)
    ensures SubmitterCan(s, Submit) <==> !s.pending && !s.stuck && s.submitted < |s.orders| && |s.orderQ| < 200
  {
    if forall step :: !SubmitterCan(s, step) {
      assert !SubmitterCan(s, Submit) && !SubmitterCan(s, Block) && !SubmitterCan(s, Bump);
    }
  }

  /** A cook has no step exactly when it waits: for an order, for an apparatus, for the
      oven mutex while another cook is about to retake its apparatus, or for a place in
      the oven.  It puts its order in when the oven holds fewer than six, and gives
      the apparatus back when it holds six. */
  lemma CookWaits(s: State, i: nat)
    requires Inv(s) && i < |s.cooks|
    ensures (forall step :: !CookCan(s, i, step)) <==>
            match s.cooks[i]
            case Idle => s.orderQ == []
            case Preparing(_) => s.aparatus == 0
            case AtOven(_) => CookYields(s)
            case Blocked(_) => true
            case _ => false
    ensures CookCan(s, i, PutInOven) <==> s.cooks[i].AtOven? && !CookYields(s) && |s.ovenQ| < 6
    ensures CookCan(s, i, Yield) <==> s.cooks[i].AtOven? && !CookYields(s) && |s.ovenQ| == 6
  {
    if forall step :: !CookCan(s, i, step) {
      assert !CookCan(s, i, TakeOrder) && !CookCan(s, i, TakeApparatus) && !CookCan(s, i, PutInOven);
      assert !CookCan(s, i, Yield) && !CookCan(s, i, Retake) && !CookCan(s, i, Release) && !CookCan(s, i, StartTimer);
    }
  }

  /** A timer has no step exactly when it is through or waits: for an apparatus, for the
      oven mutex, for the mutex of the prepared queue, or for a place in that queue,
      which has 200.  It never waits for an order in the oven. */
  lemma TimerWaits(s: State, t: nat)
    requires Inv(s) && t < |s.timers|
    ensures (forall step :: !TimerCan(s, t, step)) <==>
            match s.timers[t]
            case Expired => s.aparatus == 0
            case Holding => CookYields(s)
            case Sending(_) => CourierWakes(s) || |s.preparedQ| == 200
            case Finished => true
            case _ => false
  {
    if s.timers[t].Holding? {
      HoldingFinds(s, t);
    }
    if forall step :: !TimerCan(s, t, step) {
      assert !TimerCan(s, t, TimerTake) && !TimerCan(s, t, OvenTake);
      assert !TimerCan(s, t, TimerRelease) && !TimerCan(s, t, PutPrepared);
    }
  }

  lemma HoldingFinds(s: State, t: nat)
    requires OvenBalance(s) && t < |s.timers| && s.timers[t].Holding?
    ensures |s.ovenQ| > 0
  {
    SumNonneg(TimerBaking, s.timers);
    SumNonneg(CookOwesTimer, s.cooks);
    assert TimerBaking(s.timers[t]) == 1;
  }

  /** A courier at its loop has the mutex to wait for, or nothing to do; in the condition
      wait it waits for an order as long as one is outstanding. */
  lemma CourierWaits(s: State, j: nat)
    requires Inv(s) && j < |s.couriers|
    ensures (forall step :: !CourierCan(s, j, step)) <==>
            match s.couriers[j]
            case Loading(bag) => CourierWakes(s) || (s.totalOrder == 0 && bag == [])
            case Waiting(_) => CourierWakes(s) || (s.totalOrder > 0 && s.preparedQ == [])
            case _ => false
  {
    if forall step :: !CourierCan(s, j, step) {
      assert !CourierCan(s, j, Take) && !CourierCan(s, j, Wait) && !CourierCan(s, j, Depart) && !CourierCan(s, j, Break);
      assert !CourierCan(s, j, Recheck) && !CourierCan(s, j, LateTake) && !CourierCan(s, j, Count) && !CourierCan(s, j, Check);
    }
  }

  /** A courier departs exactly with a bag of three, or with a smaller one that is not
      empty when nothing is outstanding.  With room in its bag and something
      outstanding it takes an order if one is prepared, and waits if none is. */
  lemma DepartsFull(s: State, j: nat)
    requires Inv(s) && j < |s.couriers| && s.couriers[j].Loading?
    ensures var bag := s.couriers[j].bag;
            && (CourierCan(s, j, Depart) <==> !CourierWakes(s) && (|bag| == 3 || (0 < |bag| < 3 && s.totalOrder == 0)))
            && (CourierCan(s, j, Take) <==> !CourierWakes(s) && |bag| < 3 && s.totalOrder > 0 && s.preparedQ != [])
            && (CourierCan(s, j, Wait) <==> !CourierWakes(s) && |bag| < 3 && s.totalOrder > 0 && s.preparedQ == [])
  {
    assert GoodCourier(s.couriers[j]);
  }

  // ------------------------------------------------------------ over runs

  lemma {:induction false} RunsUpTo(calm: bool, s: State, acts: seq<Action>, k: nat)
    requires Runs(calm, s, acts) && k < |acts|
    ensures Runs(calm, s, acts[..k]) && Allowed(calm, Exec(calm, s, acts[..k]), acts[k])
    decreases k
  {
    if k > 0 {
      RunsUpTo(calm, Apply(s, acts[0]), acts[1..], k - 1);
      assert acts[..k][0] == acts[0] && acts[..k][1..] == acts[1..][..k - 1];
    } else {
      assert acts[..0] == [];
    }
  }

  /** In every run, every tour that a courier starts has three orders in its bag, or one
      or two and nothing is outstanding. */
  lemma ToursStartFull(orders: seq<Pide>, cooks: nat, couriers: nat, calm: bool, acts: seq<Action>, k: nat)
    requires Session(orders) && Runs(calm, Init(orders, cooks, couriers), acts)
    requires k < |acts| && acts[k].ByCourier? && acts[k].courier.Depart?
    ensures Runs(calm, Init(orders, cooks, couriers), acts[..k])
    ensures var t := Exec(calm, Init(orders, cooks, couriers), acts[..k]);
            var j := acts[k].j;
            j < |t.couriers| && t.couriers[j].Loading?
            && (|t.couriers[j].bag| == 3 || (1 <= |t.couriers[j].bag| <= 2 && t.totalOrder == 0))
  {
    var z := Init(orders, cooks, couriers);
    RunsUpTo(calm, z, acts, k);
    InitInv(orders, cooks, couriers);
    RunInv(calm, z, acts[..k]);
    DepartsFull(Exec(calm, z, acts[..k]), acts[k].j);
  }

  /** How many orders the run has courier `j` count. */
  ghost function CountsBy(acts: seq<Action>, j: nat): nat {
    if |acts| == 0 then 0
    else (if acts[0] == ByCourier(j, Count) then 1 else 0) + CountsBy(acts[1..], j)
  }

  lemma {:induction false} ReceivedGrows(calm: bool, s: State, acts: seq<Action>, j: nat)
    requires Runs(calm, s, acts) && j < |s.received|
    ensures |Exec(calm, s, acts).received| == |s.received|
    ensures Exec(calm, s, acts).received[j] == s.received[j] + CountsBy(acts, j)
    decreases |acts|
  {
    if |acts| > 0 {
      OneReceives(s, acts[0], j);
      ReceivedGrows(calm, Apply(s, acts[0]), acts[1..], j);
    }
  }

  lemma OneReceives(s: State, a: Action, j: nat)
    requires Enabled(s, a) && j < |s.received|
    ensures |Apply(s, a).received| == |s.received|
    ensures Apply(s, a).received[j] == s.received[j] + if a == ByCourier(j, Count) then 1 else 0
  {
    match a
    case Submitter(step) => assert SubmitterDoes(s, step).received == s.received;
    case ByCook(i, step) => assert CookDoes(s, i, step).received == s.received;
    case ByTimer(t, step) => assert TimerDoes(s, t, step).received == s.received;
    case ByCourier(i, step) => assert step.Count? || CourierDoes(s, i, step).received == s.received;
  }

  /** Every courier is credited with the orders that it counted itself. */
  lemma EachCountsItsOwn(orders: seq<Pide>, cooks: nat, couriers: nat, calm: bool, acts: seq<Action>, j: nat)
    requires Runs(calm, Init(orders, cooks, couriers), acts) && j < couriers
    ensures var t := Exec(calm, Init(orders, cooks, couriers), acts);
            |t.received| == couriers && t.received[j] == CountsBy(acts, j)
  {
    ReceivedGrows(calm, Init(orders, cooks, couriers), acts, j);
  }
}
