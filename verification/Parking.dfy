/** The parking lot: an owner thread and an attendant per kind of car, with two
    semaphores per kind and no mutex. */
module Parking {

  datatype Kind = Automobile | Pickup

  function Capacity(kind: Kind): nat {
    match kind
    case Automobile => 8
    case Pickup => 4
  }

  datatype Attendant =
    | Head          // at the loop test
    | Asleep        // waits for a new car
    | Busy          // woken, has not touched the counter yet
    | Parked        // car parked, owner not yet told
    | Gone

  /** The globals of one kind of car. */
  datatype Lot = Lot(
    newCar: int,            // semaphore: a car arrived
    inCharge: int,          // semaphore: the car is parked
    free: int,
    attendant: Attendant,
    admitted: seq<nat>,     // history: cars the owner announced
    parked: seq<nat>,       // history: cars the attendant parked
    departed: nat)          // history

  datatype Owner =
    | AtTest
    | Arriving              // has a new car, looks at the counter
    | Waits(kind: Kind)     // for the attendant
    | Leaving               // may let a car leave
    | Left                  // out of the loop

  datatype State = State(owner: Owner, carID: nat, running: bool, autos: Lot, pickups: Lot)

  datatype Action =
    | Interrupt
    | TestRun | Arrive(kind: Kind) | WakeOwner | Depart(kind: Kind) | Stay
    | TestAttendant(kind: Kind) | WakeAttendant(kind: Kind) | Park(kind: Kind) | Tell(kind: Kind)

  function LotOf(s: State, kind: Kind): Lot {
    match kind
    case Automobile => s.autos
    case Pickup => s.pickups
  }

  function With(s: State, kind: Kind, lot: Lot): State {
    match kind
    case Automobile => s.(autos := lot)
    case Pickup => s.(pickups := lot)
  }

  const INIT := State(AtTest, 0, true, Empty(Automobile), Empty(Pickup))

  function Empty(kind: Kind): Lot {
    Lot(0, 0, Capacity(kind), Head, [], [], 0)
  }

  ghost predicate Enabled(s: State, a: Action) {
    match a
    case Interrupt => s.running
    case TestRun => s.owner.AtTest?
    case Arrive(_) => s.owner.Arriving?
    case WakeOwner => s.owner.Waits? && LotOf(s, s.owner.kind).inCharge > 0
    case Depart(_) => s.owner.Leaving?
    case Stay => s.owner.Leaving?
    case TestAttendant(kind) => LotOf(s, kind).attendant.Head?
    case WakeAttendant(kind) => LotOf(s, kind).attendant.Asleep? && LotOf(s, kind).newCar > 0
    case Park(kind) => LotOf(s, kind).attendant.Busy?
    case Tell(kind) => LotOf(s, kind).attendant.Parked?
  }

  ghost function Apply(s: State, a: Action): State
    requires Enabled(s, a)
  {
    match a
    case Interrupt => s.(running := false)
    case TestRun =>
      if s.running then s.(owner := Arriving, carID := s.carID + 1)
      else
        var p := With(s, Pickup, s.pickups.(newCar := s.pickups.newCar + 1));
        With(p, Automobile, p.autos.(newCar := p.autos.newCar + 1)).(owner := Left)
    case Arrive(kind) =>
      var lot := LotOf(s, kind);
      if lot.free > 0 then
        With(s, kind, lot.(newCar := lot.newCar + 1, admitted := lot.admitted + [s.carID])).(owner := Waits(kind))
      else s.(owner := Leaving)
    case WakeOwner =>
      var kind := s.owner.kind;
      With(s, kind, LotOf(s, kind).(inCharge := LotOf(s, kind).inCharge - 1)).(owner := Leaving)
    case Depart(kind) =>
      var lot := LotOf(s, kind);
      (if lot.free < Capacity(kind) then With(s, kind, lot.(free := lot.free + 1, departed := lot.departed + 1)) else s)
      .(owner := AtTest)
    case Stay => s.(owner := AtTest)
    case TestAttendant(kind) => With(s, kind, LotOf(s, kind).(attendant := if s.running then Asleep else Gone))
    case WakeAttendant(kind) =>
      With(s, kind, LotOf(s, kind).(attendant := Busy, newCar := LotOf(s, kind).newCar - 1))
    case Park(kind) =>
      var lot := LotOf(s, kind);
      With(s, kind, lot.(attendant := Parked, free := if lot.free > 0 then lot.free - 1 else lot.free,
                         parked := lot.parked + [s.carID]))
    case Tell(kind) =>
      With(s, kind, LotOf(s, kind).(attendant := Head, inCharge := LotOf(s, kind).inCharge + 1))
  }

  ghost predicate Runs(s: State, acts: seq<Action>)
    decreases |acts|
  {
    |acts| == 0 || (Enabled(s, acts[0]) && Runs(Apply(s, acts[0]), acts[1..]))
  }

  ghost function Exec(s: State, acts: seq<Action>): State
    requires Runs(s, acts)
    decreases |acts|
  {
    if |acts| == 0 then s else Exec(Apply(s, acts[0]), acts[1..])
  }

  /** Some run leads to the state. */
  ghost predicate Leads(s: State, t: State) {
    exists acts :: Runs(s, acts) && Exec(s, acts) == t
  }

  ghost predicate Reachable(t: State) {
    Leads(INIT, t)
  }

  // ------------------------------------------------------------ the invariant

  function Working(lot: Lot): int {
    if lot.attendant.Busy? || lot.attendant.Parked? then 1 else 0
  }

  /** The car announced last is not parked yet. */
  predicate Unparked(lot: Lot) {
    lot.newCar == 1 || lot.attendant.Busy?
  }

  ghost predicate LotInv(s: State, kind: Kind) {
    var lot := LotOf(s, kind);
    && lot.newCar >= 0 && lot.inCharge >= 0
    && lot.newCar + lot.inCharge + Working(lot) == (if s.owner == Waits(kind) then 1 else 0)
    && 0 <= lot.free <= Capacity(kind)
    && lot.free == Capacity(kind) - |lot.parked| + lot.departed
    && if Unparked(lot) then lot.free > 0 && lot.admitted == lot.parked + [s.carID] else lot.admitted == lot.parked
  }

  ghost predicate Inv(s: State) {
    !s.owner.Left? ==> LotInv(s, Automobile) && LotInv(s, Pickup)
  }

  ghost predicate OfOwner(a: Action) {
    a.TestRun? || a.Arrive? || a.WakeOwner? || a.Depart? || a.Stay?
  }

  lemma ArriveInv(s: State, k: Kind, kind: Kind)
    requires LotInv(s, k) && LotInv(s, kind) && s.owner.Arriving?
    ensures LotInv(Apply(s, Arrive(k)), kind)
  {
    assert k != kind ==> LotOf(Apply(s, Arrive(k)), kind) == LotOf(s, kind);
  }

  lemma WakeInv(s: State, kind: Kind)
    requires s.owner.Waits? && LotInv(s, s.owner.kind) && LotInv(s, kind) && Enabled(s, WakeOwner)
    ensures LotInv(Apply(s, WakeOwner), kind)
  {
    assert s.owner.kind != kind ==> LotOf(Apply(s, WakeOwner), kind) == LotOf(s, kind);
  }

  lemma DepartInv(s: State, k: Kind, kind: Kind)
    requires LotInv(s, k) && LotInv(s, kind) && s.owner.Leaving?
    ensures LotInv(Apply(s, Depart(k)), kind)
  {
    assert k != kind ==> LotOf(Apply(s, Depart(k)), kind) == LotOf(s, kind);
  }

  lemma OwnerStepInv(s: State, a: Action, kind: Kind)
    requires Inv(s) && Enabled(s, a) && OfOwner(a) && !Apply(s, a).owner.Left?
    ensures LotInv(Apply(s, a), kind)
  {
    assert LotInv(s, Automobile) && LotInv(s, Pickup);
    match a
    case TestRun => assert Apply(s, a) == s.(owner := Arriving, carID := s.carID + 1);
    case Arrive(k) => ArriveInv(s, k, kind);
    case WakeOwner => WakeInv(s, kind);
    case Depart(k) => DepartInv(s, k, kind);
    case Stay =>
  }

  lemma ParkInv(s: State, k: Kind, kind: Kind)
    requires LotInv(s, kind) && LotOf(s, k).attendant.Busy?
    ensures LotInv(Apply(s, Park(k)), kind)
  {
    assert k != kind ==> LotOf(Apply(s, Park(k)), kind) == LotOf(s, kind);
  }

  lemma AttendantStepInv(s: State, a: Action, kind: Kind)
    requires LotInv(s, kind) && Enabled(s, a) && !OfOwner(a)
    ensures LotInv(Apply(s, a), kind)
  {
    match a
    case Interrupt =>
    case TestAttendant(k) => assert k != kind ==> LotOf(Apply(s, a), kind) == LotOf(s, kind);
    case WakeAttendant(k) => assert k != kind ==> LotOf(Apply(s, a), kind) == LotOf(s, kind);
    case Park(k) => ParkInv(s, k, kind);
    case Tell(k) => assert k != kind ==> LotOf(Apply(s, a), kind) == LotOf(s, kind);
  }

  lemma LeftForGood(s: State, a: Action)
    requires Enabled(s, a) && !OfOwner(a)
    ensures Apply(s, a).owner == s.owner
  {
  }

  lemma StepInv(s: State, a: Action)
    requires Inv(s) && Enabled(s, a)
    ensures Inv(Apply(s, a))
  {
    if !Apply(s, a).owner.Left? {
      if OfOwner(a) {
        OwnerStepInv(s, a, Automobile);
        OwnerStepInv(s, a, Pickup);
      } else {
        LeftForGood(s, a);
        AttendantStepInv(s, a, Automobile);
        AttendantStepInv(s, a, Pickup);
      }
    }
  }

  lemma {:induction false} RunInv(s: State, acts: seq<Action>)
    requires Inv(s) && Runs(s, acts)
    ensures Inv(Exec(s, acts))
    decreases |acts|
  {
    if |acts| > 0 {
      StepInv(s, acts[0]);
      RunInv(Apply(s, acts[0]), acts[1..]);
    }
  }

  /** The owner reads or writes the counters here, the attendant its own counter, which
      it reads once more after parking. */
  predicate OwnerTouches(s: State) {
    s.owner.Arriving? || s.owner.Leaving?
  }

  predicate AttendantTouches(lot: Lot) {
    lot.attendant.Busy? || lot.attendant.Parked?
  }

  lemma LotFacts(t: State, kind: Kind)
    requires LotInv(t, kind)
    ensures var lot := LotOf(t, kind);
            && !(OwnerTouches(t) && AttendantTouches(lot))
            && (lot.attendant.Busy? ==> lot.free > 0)
            && (lot.admitted == lot.parked || lot.admitted == lot.parked + [t.carID])
            && (t.owner != Waits(kind) ==> lot.admitted == lot.parked)
  {
  }

  lemma ReachableInv(t: State)
    requires Reachable(t)
    ensures Inv(t)
  {
    InitInv();
    LeadsInv(INIT, t);
  }

  lemma InitInv()
    ensures Inv(INIT)
  {
    EmptyInv(INIT, Automobile);
    EmptyInv(INIT, Pickup);
  }

  lemma EmptyInv(s: State, kind: Kind)
    requires LotOf(s, kind) == Empty(kind) && !s.owner.Waits?
    ensures LotInv(s, kind)
  {
  }

  lemma LeadsInv(s: State, t: State)
    requires Inv(s) && Leads(s, t)
    ensures Inv(t)
  {
    var acts :| Runs(s, acts) && Exec(s, acts) == t;
    RunInv(s, acts);
  }

  /** In every state until the owner leaves its loop, for each kind of car: the two
      semaphores and the attendant at work add up to one exactly while the owner
      waits for that attendant, and to zero otherwise; owner and attendant are never
      both at a counter; an attendant that is about to park finds a free place; the
      places free are the capacity less the cars parked plus the cars departed; and
      the cars parked are the cars announced, in order, up to the one being parked. */
  lemma Rendezvous(t: State, kind: Kind)
    requires Reachable(t) && !t.owner.Left?
    ensures var lot := LotOf(t, kind);
            && lot.newCar + lot.inCharge + Working(lot) == (if t.owner == Waits(kind) then 1 else 0)
            && lot.newCar >= 0 && lot.inCharge >= 0
            && !(OwnerTouches(t) && AttendantTouches(lot))
            && (lot.attendant.Busy? ==> lot.free > 0)
            && 0 <= lot.free == Places(kind) - |lot.parked| + lot.departed <= Places(kind)
            && (lot.admitted == lot.parked || lot.admitted == lot.parked + [t.carID])
            && (t.owner != Waits(kind) ==> lot.admitted == lot.parked)
  {
    ReachableInv(t);
    assert LotInv(t, Automobile) && LotInv(t, Pickup);
    LotFacts(t, kind);
  }

  // ------------------------------------------------------------ places

  /** The lots have eight and four places. */
  function Places(kind: Kind): nat {
    match kind
    case Automobile => 8
    case Pickup => 4
  }

  /** A car that arrives is announced exactly when fewer cars of its kind stand on the
      lot than there are places, and is sent away otherwise; a car leaves exactly when
      one stands there. */
  lemma AdmitsExactly(t: State, kind: Kind)
    requires Reachable(t) && !t.owner.Left?
    ensures |LotOf(t, kind).parked| - LotOf(t, kind).departed == Places(kind) - LotOf(t, kind).free
    ensures t.owner.Arriving? ==>
              var u := Apply(t, Arrive(kind));
              && u.owner == (if |LotOf(t, kind).parked| - LotOf(t, kind).departed < Places(kind) then Waits(kind) else Leaving)
              && LotOf(u, kind).admitted == LotOf(t, kind).admitted + (if u.owner.Waits? then [t.carID] else [])
    ensures t.owner.Leaving? ==>
              var u := Apply(t, Depart(kind));
              u.owner == AtTest && LotOf(u, kind).departed ==
              LotOf(t, kind).departed + if |LotOf(t, kind).parked| > LotOf(t, kind).departed then 1 else 0
  {
    ReachableInv(t);
    assert LotInv(t, Automobile) && LotInv(t, Pickup);
  }

  // ------------------------------------------------------------ standing still

  /** Nothing but the interrupt can happen. */
  ghost predicate Still(s: State) {
    forall a: Action :: a.Interrupt? || !Enabled(s, a)
  }

  ghost predicate Idle(lot: Lot) {
    lot.attendant.Gone? || (lot.attendant.Asleep? && lot.newCar == 0)
  }

  /** Before the owner leaves its loop the system stands still exactly when the owner
      waits for an attendant that has left at the interrupt, and the other attendant
      has nothing to do. */
  lemma StillExactly(s: State)
    requires Inv(s) && !s.owner.Left?
    ensures Still(s) <==> && s.owner.Waits? && LotOf(s, s.owner.kind).attendant.Gone? && LotOf(s, s.owner.kind).newCar == 1
                          && Idle(s.autos) && Idle(s.pickups)
  {
    if Still(s) {
      assert !Enabled(s, TestRun) && !Enabled(s, Arrive(Automobile)) && !Enabled(s, WakeOwner) && !Enabled(s, Stay);
      forall kind ensures Idle(LotOf(s, kind)) {
        assert !Enabled(s, TestAttendant(kind)) && !Enabled(s, WakeAttendant(kind));
        assert !Enabled(s, Park(kind)) && !Enabled(s, Tell(kind));
        assert LotInv(s, kind);
      }
      assert Idle(LotOf(s, Automobile)) && Idle(LotOf(s, Pickup));
    }
  }

  lemma Then(s: State, a: Action) returns (t: State)
    requires Reachable(s) && Enabled(s, a)
    ensures Reachable(t) && t == Apply(s, a)
  {
    var acts :| Runs(INIT, acts) && Exec(INIT, acts) == s;
    RunsThen(INIT, acts, a);
    t := Apply(s, a);
  }

  lemma {:induction false} RunsThen(s: State, acts: seq<Action>, a: Action)
    requires Runs(s, acts) && Enabled(Exec(s, acts), a)
    ensures Runs(s, acts + [a]) && Exec(s, acts + [a]) == Apply(Exec(s, acts), a)
    decreases |acts|
  {
    if |acts| == 0 {
      assert acts + [a] == [a];
    } else {
      assert (acts + [a])[0] == acts[0] && (acts + [a])[1..] == acts[1..] + [a];
      RunsThen(Apply(s, acts[0]), acts[1..], a);
    }
  }

  /** It can come to that: a car is announced, and the interrupt comes before the
      attendants look at the flag; both leave, and the owner waits for good. */
  lemma StandsStill() returns (t: State)
    ensures Reachable(t) && Still(t) && t.owner == Waits(Automobile) && t.autos.newCar == 1
  {
    assert Runs(INIT, []) && Exec(INIT, []) == INIT;
    t := Then(INIT, TestRun);
    t := Then(t, Arrive(Automobile));
    t := Then(t, Interrupt);
    t := Then(t, TestAttendant(Automobile));
    t := Then(t, TestAttendant(Pickup));
    ReachableInv(t);
    StillExactly(t);
  }

  /** One more car of the kind comes and is parked, without the interrupt. */
  lemma ParkOne(s: State, kind: Kind) returns (t: State)
    requires Reachable(s) && Ready(s, kind) && LotOf(s, kind).free > 0
    ensures Reachable(t) && Ready(t, kind) && LotOf(t, kind).free == LotOf(s, kind).free - 1
    ensures LotOf(t, kind).departed == LotOf(s, kind).departed
  {
    t := Then(s, TestRun);
    t := Then(t, Arrive(kind));
    t := Then(t, TestAttendant(kind));
    t := Then(t, WakeAttendant(kind));
    t := Then(t, Park(kind));
    t := Then(t, Tell(kind));
    t := Then(t, WakeOwner);
    t := Then(t, Stay);
  }

  ghost predicate Ready(s: State, kind: Kind) {
    s.running && s.owner.AtTest? && LotOf(s, kind).attendant.Head? && LotOf(s, kind).newCar == 0 && LotOf(s, kind).inCharge == 0
  }

  lemma {:induction false} ParkMany(kind: Kind, n: nat) returns (t: State)
    requires n <= Places(kind)
    ensures Reachable(t) && Ready(t, kind) && LotOf(t, kind).free == Places(kind) - n && LotOf(t, kind).departed == 0
  {
    if n == 0 {
      assert Runs(INIT, []) && Exec(INIT, []) == INIT;
      t := INIT;
    } else {
      t := ParkMany(kind, n - 1);
      t := ParkOne(t, kind);
    }
  }

  /** The lot can fill up, to eight automobiles or four pickups: the next car of the kind
      is sent away, one can leave after that, and then the next car is admitted. */
  lemma FillsUp(kind: Kind) returns (full: State, sent: State, again: State)
    ensures Reachable(full) && full.owner.Arriving? && LotOf(full, kind).free == 0
    ensures |LotOf(full, kind).parked| == (if kind.Automobile? then 8 else 4) && LotOf(full, kind).departed == 0
    ensures sent == Apply(full, Arrive(kind)) && sent.owner.Leaving?
    ensures Reachable(again) && again.owner == Waits(kind) && LotOf(again, kind).departed == 1
  {
    full := ParkMany(kind, Places(kind));
    full := Then(full, TestRun);
    ReachableInv(full);
    assert LotInv(full, Automobile) && LotInv(full, Pickup);
    sent := Then(full, Arrive(kind));
    again := Then(sent, Depart(kind));
    again := Then(again, TestRun);
    again := Then(again, Arrive(kind));
  }

  /** An attendant leaves only after the interrupt. */
  ghost predicate GoneMeansInterrupted(s: State) {
    s.autos.attendant.Gone? || s.pickups.attendant.Gone? || s.owner.Left? ==> !s.running
  }

  lemma {:induction false} RunGone(s: State, acts: seq<Action>)
    requires GoneMeansInterrupted(s) && Runs(s, acts)
    ensures GoneMeansInterrupted(Exec(s, acts))
    decreases |acts|
  {
    if |acts| > 0 {
      assert GoneMeansInterrupted(Apply(s, acts[0]));
      RunGone(Apply(s, acts[0]), acts[1..]);
    }
  }

  /** Without the interrupt the system never stands still. */
  lemma NeverStillWhileRunning(t: State)
    requires Reachable(t) && t.running
    ensures !Still(t)
  {
    ReachableInv(t);
    var acts :| Runs(INIT, acts) && Exec(INIT, acts) == t;
    RunGone(INIT, acts);
    StillExactly(t);
  }

  // ------------------------------------------------------------ after the owner has left

  /** The interrupt has come, and an attendant that sleeps has a post to wake it. */
  ghost predicate EndInv(s: State) {
    s.owner.Left? ==>
      && !s.running
      && (s.autos.attendant.Asleep? ==> s.autos.newCar > 0)
      && (s.pickups.attendant.Asleep? ==> s.pickups.newCar > 0)
  }

  lemma EndStep(s: State, a: Action)
    requires Inv(s) && EndInv(s) && Enabled(s, a)
    ensures EndInv(Apply(s, a))
  {
    if a.TestRun? && !s.running {
      assert LotInv(s, Automobile) && LotInv(s, Pickup);
    }
  }

  lemma {:induction false} EndRun(s: State, acts: seq<Action>)
    requires Inv(s) && EndInv(s) && Runs(s, acts)
    ensures EndInv(Exec(s, acts))
    decreases |acts|
  {
    if |acts| > 0 {
      StepInv(s, acts[0]);
      EndStep(s, acts[0]);
      EndRun(Apply(s, acts[0]), acts[1..]);
    }
  }

  lemma LeadsEnd(s: State, t: State)
    requires Inv(s) && EndInv(s) && Leads(s, t)
    ensures EndInv(t)
  {
    var acts :| Runs(s, acts) && Exec(s, acts) == t;
    EndRun(s, acts);
  }

  /** Once the owner has left its loop, its two posts get everybody home: the system
      stands still exactly when both attendants have left too. */
  lemma AllLeave(t: State)
    requires Reachable(t) && t.owner.Left?
    ensures !t.running && (Still(t) <==> t.autos.attendant.Gone? && t.pickups.attendant.Gone?)
  {
    InitInv();
    InitEnd();
    LeadsEnd(INIT, t);
    HomeExactly(t);
  }

  lemma InitEnd()
    ensures EndInv(INIT)
  {
  }

  lemma HomeExactly(t: State)
    requires EndInv(t) && t.owner.Left?
    ensures Still(t) <==> t.autos.attendant.Gone? && t.pickups.attendant.Gone?
  {
    if Still(t) {
      forall kind ensures LotOf(t, kind).attendant.Gone? {
        assert !Enabled(t, TestAttendant(kind)) && !Enabled(t, WakeAttendant(kind));
        assert !Enabled(t, Park(kind)) && !Enabled(t, Tell(kind));
      }
      assert LotOf(t, Automobile).attendant.Gone? && LotOf(t, Pickup).attendant.Gone?;
    }
  }
}
