/** The server's globals and the sections of code that update them.

    One method per section.  A method that a mutex or the guard of a condition
    wait would hold up returns false and changes nothing.  Each method is the
    step of the same name of the transition system, so what is proved of its runs
    is proved of every interleaving of these methods. */
module Shop {
  import opened RingQueue
  import opened PideShop

  const NOBODY := -1

  class Server {
    const orders: seq<Pide>
    const orderQueue: Queue
    const ovenQueue: Queue
    const preparedQueue: Queue
    var submitted: nat
    var pending: bool
    var stuck: bool
    var aparatus: int
    var totalOrder: int
    var totalReceived: nat
    var onlysendFlag: bool
    var sent: nat                   // DELIVERED messages written to the socket
    var ovenHolder: int             // the cook that holds the oven mutex between sections
    var preparedHolder: int         // the courier that holds the mutex of the prepared queue
    var cooks: seq<Cook>
    var timers: seq<Timer>
    var couriers: seq<Courier>
    var received: seq<nat>
    ghost var counted: seq<Pide>
    ghost var phantoms: nat

    ghost predicate Valid()
      reads this, orderQueue, ovenQueue, preparedQueue
    {
      && orderQueue.Valid() && ovenQueue.Valid() && preparedQueue.Valid()
      && orderQueue.capacity == ORDER_CAPACITY && ovenQueue.capacity == OVEN_CAPACITY
      && preparedQueue.capacity == PREPARED_CAPACITY
      && orderQueue != ovenQueue && orderQueue != preparedQueue && ovenQueue != preparedQueue
      && orderQueue.data != ovenQueue.data && orderQueue.data != preparedQueue.data && ovenQueue.data != preparedQueue.data
      && |received| == |couriers|
      && (forall i :: 0 <= i < |cooks| ==> (cooks[i].Yielded? <==> i == ovenHolder))
      && (ovenHolder == NOBODY || 0 <= ovenHolder < |cooks|)
      && (forall j :: 0 <= j < |couriers| ==> (couriers[j].Woken? <==> j == preparedHolder))
      && (preparedHolder == NOBODY || 0 <= preparedHolder < |couriers|)
    }

    ghost function View(): State
      reads this, orderQueue, ovenQueue, preparedQueue, orderQueue.data, ovenQueue.data, preparedQueue.data
      requires Valid()
    {
      State(orders, submitted, pending, stuck, orderQueue.Contents(), ovenQueue.Contents(), preparedQueue.Contents(),
            aparatus, totalOrder, cooks, timers, couriers, received, totalReceived, onlysendFlag, sent, counted, phantoms)
    }

    lemma MutexesFree()
      requires Valid()
      ensures ovenHolder == NOBODY <==> OvenFree(View())
      ensures preparedHolder == NOBODY <==> PreparedFree(View())
    {
      if ovenHolder != NOBODY {
        assert View().cooks[ovenHolder].Yielded?;
      }
      if preparedHolder != NOBODY {
        assert View().couriers[preparedHolder].Woken?;
      }
    }

    constructor (orders: seq<Pide>, cookSize: nat, delivSize: nat)
      ensures Valid() && View() == Init(orders, cookSize, delivSize)
      ensures fresh(orderQueue) && fresh(ovenQueue) && fresh(preparedQueue)
      ensures fresh(orderQueue.data) && fresh(ovenQueue.data) && fresh(preparedQueue.data)
    {
      this.orders := orders;
      submitted, pending, stuck := 0, false, false;
      aparatus, totalOrder, totalReceived, onlysendFlag, sent := APPARATUS, 0, 0, true, 0;
      ovenHolder, preparedHolder := NOBODY, NOBODY;
      cooks, timers := seq(cookSize, _ => Idle), [];
      couriers, received := seq(delivSize, _ => Loading([])), seq(delivSize, _ => 0);
      counted, phantoms := [], 0;
      orderQueue := new Queue(ORDER_CAPACITY);
      ovenQueue := new Queue(OVEN_CAPACITY);
      preparedQueue := new Queue(PREPARED_CAPACITY);
    }

    // ------------------------------------------------------------ handleClient

    method Submit() returns (ran: bool)
      requires Valid()
      modifies this, orderQueue, orderQueue.data
      ensures Valid()
      ensures ran <==> SubmitterCan(old(View()), PideShop.Submit)
      ensures View() == if ran then SubmitterDoes(old(View()), PideShop.Submit) else old(View())
    {
      var full := orderQueue.IsFull();
      ran := !pending && !stuck && submitted < |orders| && !full;
      if ran {
        orderQueue.Enqueue(orders[submitted]);
        submitted := submitted + 1;
        pending := true;
      }
    }

    /** A submitter that finds the queue full waits on a condition nobody signals. */
    method Block() returns (ran: bool)
      requires Valid()
      modifies this`stuck
      ensures Valid()
      ensures ran <==> SubmitterCan(old(View()), PideShop.Block)
      ensures View() == if ran then SubmitterDoes(old(View()), PideShop.Block) else old(View())
    {
      var full := orderQueue.IsFull();
      ran := !pending && !stuck && submitted < |orders| && full;
      if ran {
        stuck := true;
      }
    }

    method Bump() returns (ran: bool)
      requires Valid()
      modifies this`totalOrder, this`pending
      ensures Valid()
      ensures ran <==> SubmitterCan(old(View()), PideShop.Bump)
      ensures View() == if ran then SubmitterDoes(old(View()), PideShop.Bump) else old(View())
    {
      ran := pending;
      if ran {
        totalOrder := totalOrder + 1;
        pending := false;
      }
    }

    // ------------------------------------------------------------ pideShopAsci

    method TakeOrder(i: nat) returns (ran: bool)
      requires Valid()
      modifies this`cooks, orderQueue
      ensures Valid()
      ensures ran <==> CookCan(old(View()), i, PideShop.TakeOrder)
      ensures View() == if ran then CookDoes(old(View()), i, PideShop.TakeOrder) else old(View())
    {
      var empty := orderQueue.IsEmpty();
      ran := i < |cooks| && cooks[i].Idle? && !empty;
      if ran {
        var preparePide := orderQueue.Dequeue();
        cooks := cooks[i := Preparing(preparePide)];
      }
    }

    method TakeApparatus(i: nat) returns (ran: bool)
      requires Valid()
      modifies this`cooks, this`aparatus
      ensures Valid()
      ensures ran <==> CookCan(old(View()), i, PideShop.TakeApparatus)
      ensures View() == if ran then CookDoes(old(View()), i, PideShop.TakeApparatus) else old(View())
    {
      ran := i < |cooks| && cooks[i].Preparing? && aparatus != 0;
      if ran {
        aparatus := aparatus - 1;
        cooks := cooks[i := AtOven(cooks[i].p)];
      }
    }

    method PutInOven(i: nat) returns (ran: bool)
      requires Valid()
      modifies this`cooks, ovenQueue, ovenQueue.data
      ensures Valid()
      ensures ran <==> CookCan(old(View()), i, PideShop.PutInOven)
      ensures View() == if ran then CookDoes(old(View()), i, PideShop.PutInOven) else old(View())
    {
      var full := ovenQueue.IsFull();
      ran := i < |cooks| && cooks[i].AtOven? && ovenHolder == NOBODY && !full;
      MutexesFree();
      if ran {
        ovenQueue.Enqueue(cooks[i].p);
        cooks := cooks[i := Placed];
      }
    }

    /** The oven is full: give the apparatus back, keep the oven mutex. */
    method Yield(i: nat) returns (ran: bool)
      requires Valid()
      modifies this`cooks, this`aparatus, this`ovenHolder
      ensures Valid()
      ensures ran <==> CookCan(old(View()), i, PideShop.Yield)
      ensures View() == if ran then CookDoes(old(View()), i, PideShop.Yield) else old(View())
    {
      var full := ovenQueue.IsFull();
      ran := i < |cooks| && cooks[i].AtOven? && ovenHolder == NOBODY && full;
      MutexesFree();
      if ran {
        ovenHolder := i;
        aparatus := aparatus + 1;
        cooks := cooks[i := Yielded(cooks[i].p)];
      }
    }

    /** Retake it without a look at the count, and wait for the oven. */
    method Retake(i: nat) returns (ran: bool)
      requires Valid()
      modifies this`cooks, this`aparatus, this`ovenHolder
      ensures Valid()
      ensures ran <==> CookCan(old(View()), i, PideShop.Retake)
      ensures View() == if ran then CookDoes(old(View()), i, PideShop.Retake) else old(View())
    {
      ran := i < |cooks| && cooks[i].Yielded?;
      if ran {
        aparatus := aparatus - 1;
        ovenHolder := NOBODY;
        cooks := cooks[i := Blocked(cooks[i].p)];
      }
    }

    method Release(i: nat) returns (ran: bool)
      requires Valid()
      modifies this`cooks, this`aparatus
      ensures Valid()
      ensures ran <==> CookCan(old(View()), i, PideShop.Release)
      ensures View() == if ran then CookDoes(old(View()), i, PideShop.Release) else old(View())
    {
      ran := i < |cooks| && cooks[i].Placed?;
      if ran {
        aparatus := aparatus + 1;
        cooks := cooks[i := Left];
      }
    }

    method StartTimer(i: nat) returns (ran: bool)
      requires Valid()
      modifies this`cooks, this`timers
      ensures Valid()
      ensures ran <==> CookCan(old(View()), i, PideShop.StartTimer)
      ensures View() == if ran then CookDoes(old(View()), i, PideShop.StartTimer) else old(View())
    {
      ran := i < |cooks| && cooks[i].Left?;
      if ran {
        timers := timers + [Expired];
        cooks := cooks[i := Idle];
      }
    }

    // ------------------------------------------------------------ timerHandler

    method TimerTake(t: nat) returns (ran: bool)
      requires Valid()
      modifies this`timers, this`aparatus
      ensures Valid()
      ensures ran <==> TimerCan(old(View()), t, PideShop.TimerTake)
      ensures View() == if ran then TimerDoes(old(View()), t, PideShop.TimerTake) else old(View())
    {
      ran := t < |timers| && timers[t].Expired? && aparatus != 0;
      if ran {
        aparatus := aparatus - 1;
        timers := timers[t := Holding];
      }
    }

    /** Dequeue from the oven and wake every cook that waits there. */
    method OvenTake(t: nat) returns (ran: bool)
      requires Valid()
      modifies this`timers, this`cooks, ovenQueue
      ensures Valid()
      ensures ran <==> TimerCan(old(View()), t, PideShop.OvenTake)
      ensures View() == if ran then TimerDoes(old(View()), t, PideShop.OvenTake) else old(View())
    {
      var empty := ovenQueue.IsEmpty();
      ran := t < |timers| && timers[t].Holding? && ovenHolder == NOBODY && !empty;
      MutexesFree();
      if ran {
        var sicakPide := ovenQueue.Dequeue();
        timers := timers[t := Unloading(sicakPide)];
        BroadcastOvenEmpty();
      }
    }

    /** Every cook that waits for the oven goes back to its test. */
    method BroadcastOvenEmpty()
      modifies this`cooks
      ensures cooks == WakeAll(old(cooks))
    {
      for i := 0 to |cooks|
        invariant |cooks| == |old(cooks)|
        invariant forall k :: 0 <= k < i ==> cooks[k] == Woke(old(cooks)[k])
        invariant forall k :: i <= k < |cooks| ==> cooks[k] == old(cooks)[k]
      {
        if cooks[i].Blocked? {
          cooks := cooks[i := AtOven(cooks[i].p)];
        }
      }
    }

    method TimerRelease(t: nat) returns (ran: bool)
      requires Valid()
      modifies this`timers, this`aparatus
      ensures Valid()
      ensures ran <==> TimerCan(old(View()), t, PideShop.TimerRelease)
      ensures View() == if ran then TimerDoes(old(View()), t, PideShop.TimerRelease) else old(View())
    {
      ran := t < |timers| && timers[t].Unloading?;
      if ran {
        aparatus := aparatus + 1;
        timers := timers[t := Sending(timers[t].p)];
      }
    }

    method PutPrepared(t: nat) returns (ran: bool)
      requires Valid()
      modifies this`timers, preparedQueue, preparedQueue.data
      ensures Valid()
      ensures ran <==> TimerCan(old(View()), t, PideShop.PutPrepared)
      ensures View() == if ran then TimerDoes(old(View()), t, PideShop.PutPrepared) else old(View())
    {
      var full := preparedQueue.IsFull();
      ran := t < |timers| && timers[t].Sending? && preparedHolder == NOBODY && !full;
      MutexesFree();
      if ran {
        preparedQueue.Enqueue(timers[t].p);
        timers := timers[t := Finished];
      }
    }

    // ------------------------------------------------------------ pideShopMoto

    /** Dequeue into the bag and count the order off. */
    method DequeueIntoBag(j: nat)
      requires Valid() && j < |couriers| && (preparedHolder == j || preparedHolder == NOBODY)
      modifies this`couriers, this`totalOrder, this`preparedHolder, this`phantoms, preparedQueue
      ensures Valid()
      ensures View() == TakePrepared(old(View()), j)
    {
      ghost var empty := |preparedQueue.Contents()| == 0;
      var pide := preparedQueue.Dequeue();
      PutIntoBag(j, pide);
      phantoms := if empty then phantoms + 1 else phantoms;
    }

    method PutIntoBag(j: nat, pide: Pide)
      requires Valid() && j < |couriers| && (preparedHolder == j || preparedHolder == NOBODY)
      modifies this`couriers, this`totalOrder, this`preparedHolder
      ensures Valid() && preparedHolder == NOBODY && totalOrder == old(totalOrder) - 1
      ensures couriers == old(couriers)[j := Loading(old(couriers)[j].bag + [pide])]
    {
      couriers := couriers[j := Loading(couriers[j].bag + [pide])];
      preparedHolder := NOBODY;
      totalOrder := totalOrder - 1;
    }

    method Take(j: nat) returns (ran: bool)
      requires Valid()
      modifies this`couriers, this`totalOrder, this`preparedHolder, this`phantoms, preparedQueue
      ensures Valid()
      ensures ran <==> CourierCan(old(View()), j, PideShop.Take)
      ensures View() == if ran then CourierDoes(old(View()), j, PideShop.Take) else old(View())
    {
      var empty := preparedQueue.IsEmpty();
      ran := j < |couriers| && preparedHolder == NOBODY && totalOrder > 0 && !empty
             && (couriers[j].Waiting? || (couriers[j].Loading? && |couriers[j].bag| < BAG_CAPACITY));
      MutexesFree();
      if ran {
        DequeueIntoBag(j);
      }
    }

    method Wait(j: nat) returns (ran: bool)
      requires Valid()
      modifies this`couriers
      ensures Valid()
      ensures ran <==> CourierCan(old(View()), j, PideShop.Wait)
      ensures View() == if ran then CourierDoes(old(View()), j, PideShop.Wait) else old(View())
    {
      var empty := preparedQueue.IsEmpty();
      ran := j < |couriers| && preparedHolder == NOBODY && totalOrder > 0 && empty
             && couriers[j].Loading? && |couriers[j].bag| < BAG_CAPACITY;
      MutexesFree();
      if ran {
        couriers := couriers[j := Waiting(couriers[j].bag)];
      }
    }

    method Depart(j: nat) returns (ran: bool)
      requires Valid()
      modifies this`couriers
      ensures Valid()
      ensures ran <==> CourierCan(old(View()), j, PideShop.Depart)
      ensures View() == if ran then CourierDoes(old(View()), j, PideShop.Depart) else old(View())
    {
      ran := j < |couriers| && preparedHolder == NOBODY && couriers[j].Loading? && |couriers[j].bag| > 0
             && (totalOrder <= 0 || |couriers[j].bag| >= BAG_CAPACITY);
      MutexesFree();
      if ran {
        couriers := couriers[j := Delivering(couriers[j].bag, 0)];
      }
    }

    /** Woken up to no outstanding order: leave the inner loop, keep the mutex. */
    method Break(j: nat) returns (ran: bool)
      requires Valid()
      modifies this`couriers, this`preparedHolder
      ensures Valid()
      ensures ran <==> CourierCan(old(View()), j, PideShop.Break)
      ensures View() == if ran then CourierDoes(old(View()), j, PideShop.Break) else old(View())
    {
      ran := j < |couriers| && preparedHolder == NOBODY && couriers[j].Waiting? && totalOrder == 0;
      MutexesFree();
      if ran {
        preparedHolder := j;
        couriers := couriers[j := Woken(couriers[j].bag)];
      }
    }

    method Recheck(j: nat) returns (ran: bool)
      requires Valid()
      modifies this`couriers, this`preparedHolder
      ensures Valid()
      ensures ran <==> CourierCan(old(View()), j, PideShop.Recheck)
      ensures View() == if ran then CourierDoes(old(View()), j, PideShop.Recheck) else old(View())
    {
      ran := j < |couriers| && couriers[j].Woken? && totalOrder == 0;
      if ran {
        preparedHolder := NOBODY;
        couriers := couriers[j := Loading(couriers[j].bag)];
      }
    }

    /** The second read is no longer zero: dequeue, whatever the queue holds. */
    method LateTake(j: nat) returns (ran: bool)
      requires Valid()
      modifies this`couriers, this`totalOrder, this`preparedHolder, this`phantoms, preparedQueue
      ensures Valid()
      ensures ran <==> CourierCan(old(View()), j, PideShop.LateTake)
      ensures View() == if ran then CourierDoes(old(View()), j, PideShop.LateTake) else old(View())
    {
      ran := j < |couriers| && couriers[j].Woken? && totalOrder != 0;
      if ran {
        DequeueIntoBag(j);
      }
    }

    // ------------------------------------------------------------ delivery

    method Count(j: nat) returns (ran: bool)
      requires Valid()
      modifies this`couriers, this`received, this`totalReceived, this`counted
      ensures Valid()
      ensures ran <==> CourierCan(old(View()), j, PideShop.Count)
      ensures View() == if ran then CourierDoes(old(View()), j, PideShop.Count) else old(View())
    {
      ran := j < |couriers| && couriers[j].Delivering? && couriers[j].k < |couriers[j].bag|;
      if ran {
        CountOrder(j);
      }
    }

    method CountOrder(j: nat)
      requires Valid() && j < |couriers| && couriers[j].Delivering? && couriers[j].k < |couriers[j].bag|
      modifies this`couriers, this`received, this`totalReceived, this`counted
      ensures Valid() && couriers == old(couriers)[j := Delivering(old(couriers)[j].bag, old(couriers)[j].k + 1)]
      ensures received == old(received)[j := old(received)[j] + 1] && totalReceived == old(totalReceived) + 1
      ensures counted == old(counted) + [old(couriers)[j].bag[old(couriers)[j].k]]
    {
      var bag, k := couriers[j].bag, couriers[j].k;
      couriers := couriers[j := Delivering(bag, k + 1)];
      received := received[j := received[j] + 1];
      totalReceived := totalReceived + 1;
      counted := counted + [bag[k]];
    }

    method Check(j: nat) returns (ran: bool)
      requires Valid()
      modifies this`couriers, this`onlysendFlag, this`sent
      ensures Valid()
      ensures ran <==> CourierCan(old(View()), j, PideShop.Check)
      ensures View() == if ran then CourierDoes(old(View()), j, PideShop.Check) else old(View())
    {
      ran := j < |couriers| && couriers[j].Delivering? && couriers[j].k >= |couriers[j].bag|;
      if ran {
        if onlysendFlag {
          if totalReceived == |orders| {
            sent := sent + 1;
            onlysendFlag := false;
          }
        }
        couriers := couriers[j := Loading([])];
      }
    }

    /** The whole tour of one courier, when no other thread comes in between: the
        bag is counted in order, and the tour that counts the last order of the
        session sends DELIVERED. */
    method Delivery(j: nat)
      requires Valid() && j < |couriers| && couriers[j].Delivering? && couriers[j].k == 0
      modifies this`couriers, this`received, this`totalReceived, this`counted, this`onlysendFlag, this`sent
      ensures Valid() && couriers == old(couriers)[j := Loading([])]
      ensures counted == old(counted) + old(couriers)[j].bag
      ensures received == old(received)[j := old(received)[j] + |old(couriers)[j].bag|]
      ensures totalReceived == old(totalReceived) + |old(couriers)[j].bag|
      ensures sent == old(sent) + if old(onlysendFlag) && totalReceived == |orders| then 1 else 0
      ensures onlysendFlag == (old(onlysendFlag) && totalReceived != |orders|)
    {
      var bag := couriers[j].bag;
      for i := 0 to |bag|
        invariant Valid() && couriers == old(couriers)[j := Delivering(bag, i)]
        invariant counted == old(counted) + bag[..i]
        invariant received == old(received)[j := old(received)[j] + i]
        invariant totalReceived == old(totalReceived) + i
        invariant onlysendFlag == old(onlysendFlag) && sent == old(sent)
      {
        CountOrder(j);
        assert bag[..i + 1] == bag[..i] + [bag[i]];
      }
      assert bag[..|bag|] == bag;
      var ran := Check(j);
    }
  }
}
