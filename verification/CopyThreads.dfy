/** What each thread of the copier does next, and when it has to wait. */
module CopyThreads {
  import opened CopyQueue
  import opened CopyProtocol

  /** What is left of the file that a worker is copying. */
  ghost function Left(s: State, w: nat): int
    requires w < |s.workers| && s.workers[w].Copying?
  {
    if s.workers[w].job.fd < |s.sources| then |s.sources[s.workers[w].job.fd]| - s.workers[w].off else 0
  }

  /** A worker at the test of its loop leaves at once exactly when the flag is up and
      the ring is empty. */
  lemma TestLeaves(s: State, w: nat)
    requires w < |s.workers| && s.workers[w].Testing?
    ensures WorkerCan(s, w, Test)
    ensures var t := WorkerDoes(s, w, Test);
            && t == s.(workers := t.workers)
            && t.workers == s.workers[w := if s.done && s.ring == [] then Exited else Inside]
  {
  }

  /** Inside, it takes the first file of the ring if there is one, leaves if the ring is
      empty and the flag is up, and has to wait otherwise. */
  lemma InsideTakes(s: State, w: nat)
    requires w < |s.workers| && s.workers[w].Inside?
    ensures WorkerCan(s, w, Dequeue) <==> s.ring != []
    ensures WorkerCan(s, w, Leave) <==> s.ring == [] && s.done
    ensures (forall step :: !WorkerCan(s, w, step)) <==> s.ring == [] && !s.done
    ensures s.ring != [] ==>
              var t := WorkerDoes(s, w, Dequeue);
              t.workers[w] == Copying(s.ring[0], 0) && [s.ring[0]] + t.ring == s.ring
  {
    if forall step :: !WorkerCan(s, w, step) {
      assert !WorkerCan(s, w, Dequeue) && !WorkerCan(s, w, Leave);
    }
  }

  /** With a file in hand, in any run, it can read any number of bytes from one to 1024
      that the file still has, and is done with it exactly when none are left. */
  lemma CopyingReads(s: State, w: nat, k: nat)
    requires Inv(s) && w < |s.workers| && s.workers[w].Copying?
    ensures WorkerCan(s, w, Read(k)) <==> 1 <= k <= 1024 && k <= Left(s, w)
    ensures WorkerCan(s, w, Eof) <==> Left(s, w) == 0
    ensures 1 <= k <= 1024 && k <= Left(s, w) ==>
              WorkerDoes(s, w, Read(k)).workers[w] == Adding(s.workers[w].job, s.workers[w].off, k, s.total)
    ensures Left(s, w) == 0 ==> WorkerDoes(s, w, Eof).workers[w] == Testing
  {
    assert InHand(s, s.workers[w]);
  }

  /** Having read, it always can add and write, which it does from where the file was. */
  lemma AddingStores(s: State, w: nat)
    requires Inv(s) && w < |s.workers| && s.workers[w].Adding?
    ensures WorkerCan(s, w, Store)
    ensures var c, t := s.workers[w], WorkerDoes(s, w, Store);
            && t.total == c.seen + c.k && t.workers[w] == Copying(c.job, c.off + c.k)
            && t.dest == s.dest[c.job.fd := s.sources[c.job.fd][..c.off + c.k]]
  {
    var c := s.workers[w];
    assert InHand(s, c);
    assert s.sources[c.job.fd][..c.off] + s.sources[c.job.fd][c.off..c.off + c.k] == s.sources[c.job.fd][..c.off + c.k];
  }

  /** The manager queues the next file exactly when there is one and the ring has room,
      and raises the flag exactly once, when there is none. */
  lemma ManagerQueues(s: State)
    requires Inv(s)
    ensures Enabled(s, Produce) <==> s.next < |s.jobs| && |s.ring| < s.capacity
    ensures Enabled(s, Finish) <==> s.next == |s.jobs| && !s.done
    ensures Enabled(s, Produce) ==> Apply(s, Produce) == s.(ring := s.ring + [s.jobs[s.next]], next := s.next + 1)
    ensures Enabled(s, Finish) ==> Apply(s, Finish) == s.(done := true)
  {
  }
}
