/** A session moves its orders only so often. */
module PideTermination {
  import opened Sums
  import opened RingQueue
  import opened PideShop
  import opened PideInvariants

  /** The steps that move an order or finish a section that moved one.  The others
      only wait, wake up, or pass an apparatus to and fro. */
  ghost predicate Advancing(a: Action) {
    match a
    case Submitter(step) => !step.Block?
    case ByCook(_, step) => !step.Yield? && !step.Retake?
    case ByTimer(_, _) => true
    case ByCourier(_, step) => !step.Wait? && !step.Break? && !step.Recheck?
  }

  const WEIGHT := 19

  ghost function CookWeight(c: Cook): int {
    match c
    case Idle => 0 case Preparing(_) => 12 case AtOven(_) => 11 case Yielded(_) => 11 case Blocked(_) => 11
    case Placed => 4 case Left => 3
  }

  ghost function TimerWeight(t: Timer): int {
    match t
    case Expired => 2 case Holding => 1 case Unloading(_) => 6 case Sending(_) => 5 case Finished => 0
  }

  ghost function CourierWeight(c: Courier): int {
    if c.Delivering? then 2 * |c.bag| - c.k else 3 * |c.bag|
  }

  /** An order weighs what it still has to go through; every unit of `totalOrder`
      weighs enough to pay for a phantom. */
  ghost function Measure(s: State): int {
    WEIGHT * (|s.orders| - s.submitted) + (if s.pending then 5 else 0) + 4 * s.totalOrder
    + 13 * |s.orderQ| + 6 * |s.ovenQ| + 4 * |s.preparedQ|
    + Sum(CookWeight, s.cooks) + Sum(TimerWeight, s.timers) + Sum(CourierWeight, s.couriers)
  }

  lemma MeasureNonneg(s: State)
    requires Inv(s)
    ensures Measure(s) >= 0
  {
    SumNonneg(CookWeight, s.cooks);
    SumNonneg(TimerWeight, s.timers);
    SumNonneg(CourierWeight, s.couriers);
  }

  lemma CookMeasure(s: State, i: nat, step: CookStep)
    requires CookCan(s, i, step)
    ensures Advancing(ByCook(i, step)) ==> Measure(CookDoes(s, i, step)) < Measure(s)
    ensures !Advancing(ByCook(i, step)) ==> Measure(CookDoes(s, i, step)) == Measure(s)
  {
    SumUpdate(CookWeight, s.cooks, i, CookDoes(s, i, step).cooks[i]);
    SumAppend(TimerWeight, s.timers, Expired);
  }

  lemma TimerMeasure(s: State, t: nat, step: TimerStep)
    requires TimerCan(s, t, step)
    ensures Measure(TimerDoes(s, t, step)) < Measure(s)
  {
    SumUpdate(TimerWeight, s.timers, t, TimerDoes(s, t, step).timers[t]);
    SumSame(CookWeight, WakeAll(s.cooks), s.cooks);
  }

  lemma CourierMeasure(s: State, j: nat, step: CourierStep)
    requires Shape(s) && CourierCan(s, j, step)
    ensures Advancing(ByCourier(j, step)) ==> Measure(CourierDoes(s, j, step)) < Measure(s)
    ensures !Advancing(ByCourier(j, step)) ==> Measure(CourierDoes(s, j, step)) == Measure(s)
  {
    if step.Take? || step.LateTake? {
      TakeMeasure(s, j);
    } else {
      SumUpdate(CourierWeight, s.couriers, j, CourierDoes(s, j, step).couriers[j]);
    }
  }

  lemma TakeMeasure(s: State, j: nat)
    requires j < |s.couriers| && !s.couriers[j].Delivering?
    ensures Measure(TakePrepared(s, j)) < Measure(s)
  {
    SumUpdate(CourierWeight, s.couriers, j, TakePrepared(s, j).couriers[j]);
  }

  /** An advancing step lowers the measure and no other step changes it. */
  lemma StepMeasure(s: State, a: Action)
    requires Inv(s) && Enabled(s, a)
    ensures Advancing(a) ==> Measure(Apply(s, a)) < Measure(s)
    ensures !Advancing(a) ==> Measure(Apply(s, a)) == Measure(s)
  {
    match a
    case Submitter(step) =>
    case ByCook(i, step) => CookMeasure(s, i, step);
    case ByTimer(t, step) => TimerMeasure(s, t, step);
    case ByCourier(j, step) => CourierMeasure(s, j, step);
  }

  /** How many steps of a run advance. */
  ghost function Advances(acts: seq<Action>): nat {
    if |acts| == 0 then 0 else (if Advancing(acts[0]) then 1 else 0) + Advances(acts[1..])
  }

  lemma {:induction false} AdvancesBounded(calm: bool, s: State, acts: seq<Action>)
    requires Inv(s) && Runs(calm, s, acts)
    ensures Advances(acts) + Measure(Exec(calm, s, acts)) <= Measure(s)
    decreases |acts|
  {
    if |acts| > 0 {
      StepInv(s, acts[0]);
      StepMeasure(s, acts[0]);
      AdvancesBounded(calm, Apply(s, acts[0]), acts[1..]);
    }
  }

  /** In every run of a session of `n` orders, calm or not and with any number of
      threads, at most `19 n` steps advance. */
  lemma OrdersMoveLinearlyOften(orders: seq<Pide>, cooks: nat, couriers: nat, acts: seq<Action>)
    requires Session(orders) && Runs(false, Init(orders, cooks, couriers), acts)
    ensures Advances(acts) <= 19 * |orders|
  {
    var z := Init(orders, cooks, couriers);
    InitInv(orders, cooks, couriers);
    SumZero(CookWeight, z.cooks);
    SumZero(CourierWeight, z.couriers);
    AdvancesBounded(false, z, acts);
    RunInv(false, z, acts);
    MeasureNonneg(Exec(false, z, acts));
  }

  // ------------------------------------------------------------ the steps that do not advance

  /** The steps a thread can make before it needs somebody else to advance: a cook at
      the full oven yields and retakes; a courier goes to wait while something is
      outstanding, and wakes up and looks again when nothing is. */
  ghost function CookRest(c: Cook): int {
    if c.AtOven? then 2 else if c.Yielded? then 1 else 0
  }

  ghost function EagerRest(c: Courier): int {
    if c.Loading? then 1 else 0
  }

  ghost function WakingRest(c: Courier): int {
    if c.Waiting? then 2 else if c.Woken? then 1 else 0
  }

  ghost function Rest(s: State): int {
    Sum(CookRest, s.cooks) + Sum(if s.totalOrder > 0 then EagerRest else WakingRest, s.couriers)
    + if s.stuck then 0 else 1
  }

  /** No state has more rest than that, and fewer steps than `Pauses` separate two
      steps that advance. */
  ghost function Pauses(s: State): nat {
    2 * |s.cooks| + 2 * |s.couriers| + 2
  }

  lemma RestBounded(s: State)
    ensures 0 <= Rest(s) < Pauses(s)
  {
    SumNonneg(CookRest, s.cooks);
    SumAtMost(CookRest, 2, s.cooks);
    SumNonneg(EagerRest, s.couriers);
    SumAtMost(EagerRest, 2, s.couriers);
    SumNonneg(WakingRest, s.couriers);
    SumAtMost(WakingRest, 2, s.couriers);
  }

  lemma CookRests(s: State, i: nat, step: CookStep)
    requires CookCan(s, i, step) && (step.Yield? || step.Retake?)
    ensures Rest(CookDoes(s, i, step)) < Rest(s)
  {
    SumUpdate(CookRest, s.cooks, i, CookDoes(s, i, step).cooks[i]);
  }

  lemma CourierRests(s: State, j: nat, step: CourierStep)
    requires s.totalOrder >= 0 && CourierCan(s, j, step) && (step.Wait? || step.Break? || step.Recheck?)
    ensures Rest(CourierDoes(s, j, step)) < Rest(s)
  {
    SumUpdate(EagerRest, s.couriers, j, CourierDoes(s, j, step).couriers[j]);
    SumUpdate(WakingRest, s.couriers, j, CourierDoes(s, j, step).couriers[j]);
  }

  lemma StepRests(s: State, a: Action)
    requires Inv(s) && Enabled(s, a) && !Advancing(a)
    ensures Rest(Apply(s, a)) < Rest(s)
  {
    match a
    case Submitter(step) =>
    case ByCook(i, step) => CookRests(s, i, step);
    case ByCourier(j, step) => CourierRests(s, j, step);
  }

  /** What is left of a run, at most. */
  ghost function Remaining(s: State): int {
    Pauses(s) * Measure(s) + Rest(s)
  }

  lemma StepRemaining(s: State, a: Action)
    requires Inv(s) && Enabled(s, a)
    ensures Remaining(Apply(s, a)) < Remaining(s)
  {
    var t := Apply(s, a);
    StepMeasure(s, a);
    RestBounded(s);
    RestBounded(t);
    assert Pauses(t) == Pauses(s);
    if Advancing(a) {
      Scaled(Pauses(s), Measure(t), Measure(s));
    } else {
      StepRests(s, a);
    }
  }

  lemma Scaled(p: nat, m: int, n: int)
    requires m < n
    ensures p * m + p <= p * n
  {
    assert p * (m + 1) <= p * n;
  }

  lemma {:induction false} RunRemaining(calm: bool, s: State, acts: seq<Action>)
    requires Inv(s) && Runs(calm, s, acts)
    ensures |acts| + Remaining(Exec(calm, s, acts)) <= Remaining(s)
    decreases |acts|
  {
    if |acts| > 0 {
      StepInv(s, acts[0]);
      StepRemaining(s, acts[0]);
      RunRemaining(calm, Apply(s, acts[0]), acts[1..]);
    }
  }

  lemma RemainingNonneg(s: State)
    requires Inv(s)
    ensures Remaining(s) >= 0
  {
    MeasureNonneg(s);
    RestBounded(s);
    Product(Pauses(s), Measure(s));
  }

  lemma Product(p: nat, m: nat)
    ensures p * m >= 0
  {
  }

  /** Every run ends, waits and give-backs included: it has no more steps than the
      orders, the cooks and the couriers allow. */
  lemma EveryRunEnds(orders: seq<Pide>, cooks: nat, couriers: nat, calm: bool, acts: seq<Action>)
    requires Session(orders) && Runs(calm, Init(orders, cooks, couriers), acts)
    ensures |acts| <= (2 * cooks + 2 * couriers + 2) * (19 * |orders|) + 2 * cooks + 2 * couriers + 1
  {
    var z := Init(orders, cooks, couriers);
    InitInv(orders, cooks, couriers);
    SumZero(CookWeight, z.cooks);
    SumZero(CourierWeight, z.couriers);
    assert Measure(z) == WEIGHT * |orders|;
    RunRemaining(calm, z, acts);
    RunInv(calm, z, acts);
    RemainingNonneg(Exec(calm, z, acts));
    RestBounded(z);
  }
}
