/** Stretches of runs that bring a session into a chosen state. */
module PideScripts {
  import opened PideShop

  /** The submitter queues and counts its next order. */
  lemma Feed(calm: bool, z: State, s: State)
    requires Reach(calm, z, s)
    requires SubmitterCan(s, Submit) && (calm ==> PreparedFree(s))
    ensures Reach(calm, z, s.(orderQ := s.orderQ + [s.orders[s.submitted]], submitted := s.submitted + 1,
                              pending := false, totalOrder := s.totalOrder + 1))
  {
    ReachSubmitter(calm, z, s, Submit);
    var t := SubmitterDoes(s, Submit);
    ReachSubmitter(calm, z, t, Bump);
    assert SubmitterDoes(t, Bump) == s.(orderQ := s.orderQ + [s.orders[s.submitted]], submitted := s.submitted + 1,
                              pending := false, totalOrder := s.totalOrder + 1);
  }

  /** Cook 0 bakes the next order: takes it, puts it into the oven and starts its timer. */
  lemma Bake(calm: bool, z: State, s: State)
    requires Reach(calm, z, s)
    requires CookCan(s, 0, TakeOrder) && s.aparatus != 0 && OvenFree(s) && |s.ovenQ| != OVEN_CAPACITY
    ensures Reach(calm, z, s.(orderQ := s.orderQ[1..], ovenQ := s.ovenQ + [s.orderQ[0]], timers := s.timers + [Expired]))
  {
    ReachCook(calm, z, s, 0, TakeOrder);
    var s1 := CookDoes(s, 0, TakeOrder);
    ReachCook(calm, z, s1, 0, TakeApparatus);
    var s2 := CookDoes(s1, 0, TakeApparatus);
    ReachCook(calm, z, s2, 0, PutInOven);
    var s3 := CookDoes(s2, 0, PutInOven);
    ReachCook(calm, z, s3, 0, Release);
    var s4 := CookDoes(s3, 0, Release);
    ReachCook(calm, z, s4, 0, StartTimer);
    assert CookDoes(s4, 0, StartTimer) ==
           s.(orderQ := s.orderQ[1..], ovenQ := s.ovenQ + [s.orderQ[0]], timers := s.timers + [Expired]);
  }

  /** A timer fetches the oldest order from the oven and queues it as prepared. */
  lemma Fetch(calm: bool, z: State, s: State, t: nat)
    requires Reach(calm, z, s)
    requires TimerCan(s, t, TimerTake) && OvenFree(s) && |s.ovenQ| != 0
    requires forall i :: 0 <= i < |s.cooks| ==> !s.cooks[i].Blocked?
    requires PreparedFree(s) && |s.preparedQ| != PREPARED_CAPACITY
    ensures Reach(calm, z, s.(ovenQ := s.ovenQ[1..], preparedQ := s.preparedQ + [s.ovenQ[0]],
                              timers := s.timers[t := Finished]))
  {
    ReachTimer(calm, z, s, t, TimerTake);
    var s1 := TimerDoes(s, t, TimerTake);
    ReachTimer(calm, z, s1, t, OvenTake);
    var s2 := TimerDoes(s1, t, OvenTake);
    assert s2.cooks == s.cooks;
    ReachTimer(calm, z, s2, t, TimerRelease);
    var s3 := TimerDoes(s2, t, TimerRelease);
    ReachTimer(calm, z, s3, t, PutPrepared);
    assert TimerDoes(s3, t, PutPrepared) ==
           s.(ovenQ := s.ovenQ[1..], preparedQ := s.preparedQ + [s.ovenQ[0]], timers := s.timers[t := Finished]);
  }
}
