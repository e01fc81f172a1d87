/** The globals and semaphores of the parking lot and the sections of its three
    threads that change them, one method per section. */
module ParkingLot {
  import opened Parking

  /** The two semaphores and the counter of one kind of car, and where its attendant is. */
  class Place {
    var newCar: int
    var inCharge: int
    var mFree: int
    var attendant: Attendant
    ghost var admitted: seq<nat>
    ghost var parked: seq<nat>
    ghost var departed: nat

    ghost function Value(): Lot
      reads this
    {
      Lot(newCar, inCharge, mFree, attendant, admitted, parked, departed)
    }

    constructor (capacity: nat)
      ensures Value() == Lot(0, 0, capacity, Head, [], [], 0)
    {
      newCar, inCharge, mFree, attendant := 0, 0, capacity, Head;
      admitted, parked, departed := [], [], 0;
    }
  }

  class Garage {
    const autos: Place
    const pickups: Place
    var runStatus: bool
    var carID: nat
    var owner: Owner

    predicate Valid()
      reads this
    {
      autos != pickups
    }

    function At(kind: Kind): Place
      reads this
    {
      match kind
      case Automobile => autos
      case Pickup => pickups
    }

    ghost function View(): State
      reads this, autos, pickups
    {
      State(owner, carID, runStatus, autos.Value(), pickups.Value())
    }

    constructor ()
      ensures Valid() && fresh(autos) && fresh(pickups) && View() == INIT
    {
      runStatus, carID, owner := true, 0, AtTest;
      autos := new Place(8);
      pickups := new Place(4);
    }

    method Interrupt() returns (ran: bool)
      requires Valid()
      modifies this`runStatus
      ensures ran <==> Enabled(old(View()), Parking.Interrupt)
      ensures View() == if ran then Apply(old(View()), Parking.Interrupt) else old(View())
    {
      ran := runStatus;
      runStatus := false;
    }

    /** The owner's loop test, and the two posts after the loop. */
    method TestRun() returns (ran: bool)
      requires Valid()
      modifies this`owner, this`carID, autos`newCar, pickups`newCar
      ensures ran <==> Enabled(old(View()), Parking.TestRun)
      ensures View() == if ran then Apply(old(View()), Parking.TestRun) else old(View())
    {
      ran := owner.AtTest?;
      if ran {
        if runStatus {
          carID := carID + 1;
          owner := Arriving;
        } else {
          pickups.newCar := pickups.newCar + 1;
          autos.newCar := autos.newCar + 1;
          owner := Left;
        }
      }
    }

    /** A car of the given kind comes: it is announced or sent away. */
    method Arrive(kind: Kind) returns (ran: bool)
      requires Valid()
      modifies this`owner, At(kind)`newCar, At(kind)`admitted
      ensures ran <==> Enabled(old(View()), Parking.Arrive(kind))
      ensures View() == if ran then Apply(old(View()), Parking.Arrive(kind)) else old(View())
    {
      ran := owner.Arriving?;
      if ran {
        var place := At(kind);
        if place.mFree > 0 {
          place.newCar := place.newCar + 1;
          place.admitted := place.admitted + [carID];
          owner := Waits(kind);
        } else {
          owner := Leaving;
        }
      }
    }

    method WakeOwner() returns (ran: bool)
      requires Valid()
      modifies this`owner, autos`inCharge, pickups`inCharge
      ensures ran <==> Enabled(old(View()), Parking.WakeOwner)
      ensures View() == if ran then Apply(old(View()), Parking.WakeOwner) else old(View())
    {
      ran := false;
      if owner.Waits? {
        var place := At(owner.kind);
        if place.inCharge > 0 {
          place.inCharge := place.inCharge - 1;
          owner := Leaving;
          ran := true;
        }
      }
    }

    /** A car of the given kind leaves, if there is one. */
    method Depart(kind: Kind) returns (ran: bool)
      requires Valid()
      modifies this`owner, At(kind)`mFree, At(kind)`departed
      ensures ran <==> Enabled(old(View()), Parking.Depart(kind))
      ensures View() == if ran then Apply(old(View()), Parking.Depart(kind)) else old(View())
    {
      ran := owner.Leaving?;
      if ran {
        var place := At(kind);
        if place.mFree < Capacity(kind) {
          place.mFree := place.mFree + 1;
          place.departed := place.departed + 1;
        }
        owner := AtTest;
      }
    }

    method Stay() returns (ran: bool)
      requires Valid()
      modifies this`owner
      ensures ran <==> Enabled(old(View()), Parking.Stay)
      ensures View() == if ran then Apply(old(View()), Parking.Stay) else old(View())
    {
      ran := owner.Leaving?;
      if ran {
        owner := AtTest;
      }
    }

    method TestAttendant(kind: Kind) returns (ran: bool)
      requires Valid()
      modifies At(kind)`attendant
      ensures ran <==> Enabled(old(View()), Parking.TestAttendant(kind))
      ensures View() == if ran then Apply(old(View()), Parking.TestAttendant(kind)) else old(View())
    {
      var place := At(kind);
      ran := place.attendant.Head?;
      if ran {
        place.attendant := if runStatus then Asleep else Gone;
      }
    }

    method WakeAttendant(kind: Kind) returns (ran: bool)
      requires Valid()
      modifies At(kind)`attendant, At(kind)`newCar
      ensures ran <==> Enabled(old(View()), Parking.WakeAttendant(kind))
      ensures View() == if ran then Apply(old(View()), Parking.WakeAttendant(kind)) else old(View())
    {
      var place := At(kind);
      ran := place.attendant.Asleep? && place.newCar > 0;
      if ran {
        place.newCar := place.newCar - 1;
        place.attendant := Busy;
      }
    }

    /** The attendant parks the car, touching the counter without a lock. */
    method Park(kind: Kind) returns (ran: bool)
      requires Valid()
      modifies At(kind)`attendant, At(kind)`mFree, At(kind)`parked
      ensures ran <==> Enabled(old(View()), Parking.Park(kind))
      ensures View() == if ran then Apply(old(View()), Parking.Park(kind)) else old(View())
    {
      var place := At(kind);
      ran := place.attendant.Busy?;
      if ran {
        if place.mFree > 0 {
          place.mFree := place.mFree - 1;
        }
        place.parked := place.parked + [carID];
        place.attendant := Parked;
      }
    }

    method Tell(kind: Kind) returns (ran: bool)
      requires Valid()
      modifies At(kind)`attendant, At(kind)`inCharge
      ensures ran <==> Enabled(old(View()), Parking.Tell(kind))
      ensures View() == if ran then Apply(old(View()), Parking.Tell(kind)) else old(View())
    {
      var place := At(kind);
      ran := place.attendant.Parked?;
      if ran {
        place.inCharge := place.inCharge + 1;
        place.attendant := Head;
      }
    }
  }
}
