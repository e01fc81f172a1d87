/** The scan for the courier that delivered most, when a session is over. */
module MostEfficient {
  import opened Sums
  import opened RingQueue
  import opened PideShop
  import opened PideInvariants
  import opened PideLeftover
  import opened PideDelivered

  datatype Moto = Moto(motoID: nat, received: nat)

  /** The scan: `index` keeps the value `garbage` that it has before the loop unless
      some courier received something; then it names the first courier whose count
      is the largest.  All counts are reset. */
  method Scan(moto: array<Moto>, garbage: int) returns (index: int, largest: nat)
    modifies moto
    ensures forall i :: 0 <= i < moto.Length ==> moto[i] == old(moto[i]).(received := 0)
    ensures forall i :: 0 <= i < moto.Length ==> old(moto[i].received) <= largest
    ensures if forall i :: 0 <= i < moto.Length ==> old(moto[i].received) == 0 then index == garbage && largest == 0
            else exists i :: && 0 <= i < moto.Length && index == old(moto[i].motoID) && largest == old(moto[i].received)
                             && forall k :: 0 <= k < i ==> old(moto[k].received) < largest
  {
    index, largest := garbage, 0;
    ghost var first := -1;
    for i := 0 to moto.Length
      invariant forall k :: 0 <= k < i ==> moto[k] == old(moto[k]).(received := 0) && old(moto[k].received) <= largest
      invariant forall k :: i <= k < moto.Length ==> moto[k] == old(moto[k])
      invariant largest == 0 ==> first == -1 && index == garbage
      invariant largest > 0 ==> 0 <= first < i && index == old(moto[first].motoID) && largest == old(moto[first].received)
      invariant forall k :: 0 <= k < first ==> old(moto[k].received) < largest
    {
      if largest < moto[i].received {
        index := moto[i].motoID;
        largest := moto[i].received;
        first := i;
      }
      moto[i] := moto[i].(received := 0);
    }
  }

  lemma {:induction false} Pigeonhole(received: seq<nat>, largest: nat)
    requires forall j :: 0 <= j < |received| ==> received[j] <= largest
    ensures Sum(Identity, received) <= largest * |received|
  {
    if |received| > 0 {
      Pigeonhole(received[..|received| - 1], largest);
    }
  }

  /** When DELIVERED was sent, in any run, the counts add up to the orders, so some
      count is positive and the scan sets its index; and the largest count times the
      number of couriers is no less than the number of orders. */
  lemma SomebodyDelivered(orders: seq<Pide>, cooks: nat, couriers: nat, calm: bool, t: State, largest: nat)
    requires Session(orders) && |orders| > 0
    requires Reach(calm, Init(orders, cooks, couriers), t) && t.sent == 1
    requires forall j :: 0 <= j < |t.received| ==> t.received[j] <= largest
    ensures Sum(Identity, t.received) == |orders|
    ensures exists j :: 0 <= j < |t.received| && t.received[j] > 0
    ensures largest * couriers >= |orders|
  {
    ReachReal(calm, orders, cooks, couriers, t);
    DeliveredAtMostOnce(orders, cooks, couriers, calm, t);
    Pigeonhole(t.received, largest);
    if forall j :: 0 <= j < |t.received| ==> t.received[j] == 0 {
      SumZero(Identity, t.received);
      assert false;
    }
  }

  /** The scan when DELIVERED was sent: whatever `index` was before, it names the first
      of the couriers that received most, who received something, and no less than
      the average. */
  method ScanDelivered(moto: array<Moto>, garbage: int, ghost calm: bool, ghost orders: seq<Pide>, ghost cooks: nat, ghost t: State)
    returns (index: int, largest: nat)
    requires Session(orders) && |orders| > 0
    requires Reach(calm, Init(orders, cooks, moto.Length), t) && t.sent == 1 && |t.received| == moto.Length
    requires forall j :: 0 <= j < moto.Length ==> moto[j] == Moto(j + 1, t.received[j])
    modifies moto
    ensures 1 <= index <= moto.Length && t.received[index - 1] == largest > 0
    ensures forall j :: 0 <= j < moto.Length ==> t.received[j] <= largest
    ensures forall j :: 0 <= j < index - 1 ==> t.received[j] < largest
    ensures largest * moto.Length >= |orders|
    ensures forall j :: 0 <= j < moto.Length ==> moto[j] == Moto(j + 1, 0)
  {
    index, largest := Scan(moto, garbage);
    SomebodyDelivered(orders, cooks, moto.Length, calm, t, largest);
  }
}
