/** How far the count of free apparatus can stray. */
module PideApparatus {
  import opened Sums
  import opened RingQueue
  import opened PideShop
  import opened PideInvariants
  import opened PideDeadlock

  /** In no state of any run are there fewer than no or more than three free apparatus. */
  ghost predicate InRange(orders: seq<Pide>, cooks: nat, couriers: nat) {
    forall t :: Reach(false, Init(orders, cooks, couriers), t) ==> 0 <= t.aparatus <= 3
  }

  /** With at most six orders no cook meets a full oven, so no apparatus is retaken
      without a look at the shelf. */
  ghost predicate Shelf(s: State) {
    && 0 <= s.aparatus
    && forall i :: 0 <= i < |s.cooks| ==> !s.cooks[i].Yielded?
  }

  lemma ShelfStep(s: State, a: Action)
    requires Inv(s) && Shelf(s) && Enabled(s, a)
    requires |s.orders| <= OVEN_CAPACITY || |s.cooks| == 0
    ensures Shelf(Apply(s, a))
  {
    if a.ByCook? && a.cook.Yield? {
      NoYield(s, a.i);
    } else {
      ShelfUnlessYield(s, a);
    }
  }

  lemma NoYield(s: State, i: nat)
    requires Inv(s) && (|s.orders| <= OVEN_CAPACITY || |s.cooks| == 0)
    ensures !CookCan(s, i, Yield)
  {
    if CookCan(s, i, Yield) {
      Bounds(s);
      CarriesOne(s, i);
      assert false;
    }
  }

  lemma CarriesOne(s: State, i: nat)
    requires i < |s.cooks| && s.cooks[i].AtOven?
    ensures Sum(CookCarries, s.cooks) > 0
  {
    SumNonneg(CookCarries, s.cooks);
    assert CookCarries(s.cooks[i]) == 1;
  }

  lemma {:induction false} ShelfRun(s: State, acts: seq<Action>)
    requires Inv(s) && Shelf(s) && Runs(false, s, acts)
    requires |s.orders| <= OVEN_CAPACITY || |s.cooks| == 0
    ensures Shelf(Exec(false, s, acts))
    decreases |acts|
  {
    if |acts| > 0 {
      ShelfStep(s, acts[0]);
      StepInv(s, acts[0]);
      ShelfRun(Apply(s, acts[0]), acts[1..]);
    }
  }

  /** Six orders are in the oven, a cook with a seventh holds one apparatus and two
      timers hold the others.  The cook gives its apparatus back, a third timer takes
      it, and the cook retakes it from the empty shelf. */
  lemma Overdraw(z: State) returns (t: State)
    requires z == Init(z.orders, |z.cooks|, |z.couriers|) && |z.cooks| > 0 && |z.orders| > OVEN_CAPACITY
    ensures Reach(false, z, t) && t.aparatus == -1
  {
    BakeMany(false, z, 7, OVEN_CAPACITY);
    t := Baked(z, 7, OVEN_CAPACITY);
    ReachCook(false, z, t, 0, TakeOrder);
    t := CookDoes(t, 0, TakeOrder);
    ReachCook(false, z, t, 0, TakeApparatus);
    t := CookDoes(t, 0, TakeApparatus);
    ReachTimer(false, z, t, 0, TimerTake);
    t := TimerDoes(t, 0, TimerTake);
    ReachTimer(false, z, t, 1, TimerTake);
    t := TimerDoes(t, 1, TimerTake);
    ReachCook(false, z, t, 0, Yield);
    t := CookDoes(t, 0, Yield);
    ReachTimer(false, z, t, 2, TimerTake);
    t := TimerDoes(t, 2, TimerTake);
    ReachCook(false, z, t, 0, Retake);
    t := CookDoes(t, 0, Retake);
  }

  /** The count of free apparatus stays within 0 and 3 in every run if and only if
      there are at most six orders, or no cooks. */
  lemma InRangeExactly(orders: seq<Pide>, cooks: nat, couriers: nat)
    requires Session(orders)
    ensures InRange(orders, cooks, couriers) <==> |orders| <= 6 || cooks == 0
  {
    var z := Init(orders, cooks, couriers);
    InitInv(orders, cooks, couriers);
    if |orders| <= OVEN_CAPACITY || cooks == 0 {
      forall t | Reach(false, z, t) ensures 0 <= t.aparatus <= 3 {
        var acts :| Runs(false, z, acts) && Exec(false, z, acts) == t;
        ShelfRun(z, acts);
        RunInv(false, z, acts);
        SumNonneg(CookHolds, t.cooks);
        SumNonneg(TimerHolds, t.timers);
      }
    } else {
      var t := Overdraw(z);
    }
  }

  /** Every give-back is followed at once by the retake of the same cook. */
  ghost predicate Paired(acts: seq<Action>) {
    forall k :: 0 <= k < |acts| && acts[k].ByCook? && acts[k].cook.Yield? ==>
                  k + 1 < |acts| && acts[k + 1] == ByCook(acts[k].i, Retake)
  }

  lemma ShelfUnlessYield(s: State, a: Action)
    requires Shelf(s) && Enabled(s, a) && !(a.ByCook? && a.cook.Yield?)
    ensures Shelf(Apply(s, a))
  {
    match a
    case Submitter(_) =>
    case ByCook(i, step) => ShelfCook(s, i, step);
    case ByTimer(t, step) => ShelfTimer(s, t, step);
    case ByCourier(_, _) =>
  }

  lemma ShelfCook(s: State, i: nat, step: CookStep)
    requires Shelf(s) && CookCan(s, i, step) && !step.Yield?
    ensures Shelf(CookDoes(s, i, step))
  {
  }

  lemma ShelfTimer(s: State, t: nat, step: TimerStep)
    requires Shelf(s) && TimerCan(s, t, step)
    ensures Shelf(TimerDoes(s, t, step))
  {
  }

  lemma ShelfPair(s: State, i: nat)
    requires Shelf(s) && CookCan(s, i, Yield)
    ensures CookCan(CookDoes(s, i, Yield), i, Retake) && Shelf(CookDoes(CookDoes(s, i, Yield), i, Retake))
  {
  }

  lemma {:induction false} PairedRun(s: State, acts: seq<Action>)
    requires Inv(s) && Shelf(s) && Runs(false, s, acts) && Paired(acts)
    ensures Shelf(Exec(false, s, acts))
    decreases |acts|
  {
    if |acts| > 0 {
      var a, rest := acts[0], acts[1..];
      StepInv(s, a);
      assert forall k :: 0 <= k < |rest| ==> rest[k] == acts[k + 1];
      if a.ByCook? && a.cook.Yield? {
        var t := Apply(s, a);
        assert rest[0] == ByCook(a.i, Retake);
        ShelfPair(s, a.i);
        StepInv(t, rest[0]);
        assert forall k :: 0 <= k < |rest[1..]| ==> rest[1..][k] == acts[k + 2];
        PairedRun(Apply(t, rest[0]), rest[1..]);
      } else {
        ShelfUnlessYield(s, a);
        PairedRun(Apply(s, a), rest);
      }
    }
  }

  /** If no other thread comes between the give-back and the retake, the count of
      free apparatus stays within 0 and 3 whatever the number of orders. */
  lemma InRangeWhenPaired(orders: seq<Pide>, cooks: nat, couriers: nat, acts: seq<Action>)
    requires Session(orders) && Runs(false, Init(orders, cooks, couriers), acts) && Paired(acts)
    ensures 0 <= Exec(false, Init(orders, cooks, couriers), acts).aparatus <= 3
  {
    var z := Init(orders, cooks, couriers);
    var t := Exec(false, z, acts);
    InitInv(orders, cooks, couriers);
    PairedRun(z, acts);
    RunInv(false, z, acts);
    SumNonneg(CookHolds, t.cooks);
    SumNonneg(TimerHolds, t.timers);
  }
}
