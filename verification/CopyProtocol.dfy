/** The parallel copier: a manager feeds a bounded ring of open files, workers
    drain it and copy, and a flag ends the run.

    A worker adds to the shared byte total without a lock, so the load and the
    store of that addition are two steps; in atomic runs nothing comes between. */
module CopyProtocol {
  import opened CopyQueue

  const CHUNK := 1024

  datatype Worker =
    | Testing                                   // at the test of the outer loop
    | Inside                                    // in the critical section, or waiting in it
    | Copying(job: Job, off: nat)               // `off` bytes copied
    | Adding(job: Job, off: nat, k: nat, seen: int)   // read `k` bytes, loaded the total
    | Exited

  datatype State = State(
    jobs: seq<Job>,             // what the walk of the tree will enqueue
    sources: seq<seq<int>>,     // contents of the source files
    capacity: nat,
    next: nat,                  // how many were enqueued
    done: bool,
    ring: seq<Job>,
    taken: seq<Job>,            // history: what was dequeued
    workers: seq<Worker>,
    dest: seq<seq<int>>,        // contents of the destination files
    total: int)                 // totalBytesCopied

  datatype WorkerStep = Test | Dequeue | Leave | Read(k: nat) | Store | Eof
  datatype Action = Produce | Finish | ByWorker(w: nat, step: WorkerStep)

  /** Every job has its own descriptors. */
  ghost predicate Opened(jobs: seq<Job>) {
    forall i :: 0 <= i < |jobs| ==> jobs[i].fd == i
  }

  ghost function Init(jobs: seq<Job>, sources: seq<seq<int>>, capacity: nat, workers: nat): State {
    State(jobs, sources, capacity, 0, false, [], [], seq(workers, _ => Testing), seq(|sources|, _ => []), 0)
  }

  ghost predicate SomebodyAdds(s: State) {
    exists w :: 0 <= w < |s.workers| && s.workers[w].Adding?
  }

  ghost predicate WorkerCan(s: State, w: nat, step: WorkerStep) {
    w < |s.workers| &&
    match step
    case Test => s.workers[w].Testing?
    case Dequeue => s.workers[w].Inside? && |s.ring| > 0
    case Leave => s.workers[w].Inside? && |s.ring| == 0 && s.done
    case Read(k) =>
      && s.workers[w].Copying? && s.workers[w].job.fd < |s.sources|
      && 1 <= k <= CHUNK && s.workers[w].off + k <= |s.sources[s.workers[w].job.fd]|
    case Store =>
      && s.workers[w].Adding? && s.workers[w].job.fd < |s.sources| && s.workers[w].job.fd < |s.dest|
      && s.workers[w].off + s.workers[w].k <= |s.sources[s.workers[w].job.fd]|
    case Eof =>
      && s.workers[w].Copying? && s.workers[w].job.fd < |s.sources|
      && s.workers[w].off == |s.sources[s.workers[w].job.fd]|
  }

  ghost predicate SameSetup(s: State, r: State) {
    r.jobs == s.jobs && r.sources == s.sources && r.capacity == s.capacity && |r.workers| == |s.workers|
  }

  ghost function WorkerDoes(s: State, w: nat, step: WorkerStep): (r: State)
    requires WorkerCan(s, w, step)
    ensures SameSetup(s, r)
  {
    var c := s.workers[w];
    match step
    case Test => s.(workers := s.workers[w := if !s.done || |s.ring| != 0 then Inside else Exited])
    case Dequeue => s.(ring := s.ring[1..], taken := s.taken + [s.ring[0]], workers := s.workers[w := Copying(s.ring[0], 0)])
    case Leave => s.(workers := s.workers[w := Exited])
    case Read(k) => s.(workers := s.workers[w := Adding(c.job, c.off, k, s.total)])
    case Store =>
      s.(total := c.seen + c.k,
         dest := s.dest[c.job.fd := s.dest[c.job.fd] + s.sources[c.job.fd][c.off..c.off + c.k]],
         workers := s.workers[w := Copying(c.job, c.off + c.k)])
    case Eof => s.(workers := s.workers[w := Testing])
  }

  ghost predicate Enabled(s: State, a: Action) {
    match a
    case Produce => s.next < |s.jobs| && |s.ring| < s.capacity && !s.done
    case Finish => s.next == |s.jobs| && !s.done
    case ByWorker(w, step) => WorkerCan(s, w, step)
  }

  ghost function Apply(s: State, a: Action): (r: State)
    requires Enabled(s, a)
    ensures SameSetup(s, r)
  {
    match a
    case Produce => s.(ring := s.ring + [s.jobs[s.next]], next := s.next + 1)
    case Finish => s.(done := true)
    case ByWorker(w, step) => WorkerDoes(s, w, step)
  }

  /** In an atomic run no worker loads the total while another is about to store it. */
  ghost predicate Allowed(atomic: bool, s: State, a: Action) {
    Enabled(s, a) && (atomic && a.ByWorker? && a.step.Read? ==> !SomebodyAdds(s))
  }

  ghost predicate Runs(atomic: bool, s: State, acts: seq<Action>)
    decreases |acts|
  {
    |acts| == 0 || (Allowed(atomic, s, acts[0]) && Runs(atomic, Apply(s, acts[0]), acts[1..]))
  }

  ghost function Exec(atomic: bool, s: State, acts: seq<Action>): (r: State)
    requires Runs(atomic, s, acts)
    ensures SameSetup(s, r)
    decreases |acts|
  {
    if |acts| == 0 then s else Exec(atomic, Apply(s, acts[0]), acts[1..])
  }

  // ------------------------------------------------------------ what every step keeps

  /** Worker `w` has the file with descriptor `fd` in hand. */
  ghost predicate Busy(s: State, w: nat, fd: nat) {
    w < |s.workers| && (s.workers[w].Copying? || s.workers[w].Adding?) && s.workers[w].job.fd == fd
  }

  /** The destination of a file in hand holds what the worker has copied. */
  ghost predicate InHand(s: State, c: Worker) {
    c.Copying? || c.Adding? ==>
      && c.job.fd < |s.taken| && c.job.fd < |s.sources| == |s.dest|
      && c.off <= |s.sources[c.job.fd]| && s.dest[c.job.fd] == s.sources[c.job.fd][..c.off]
      && (c.Adding? ==> 1 <= c.k <= CHUNK && c.off + c.k <= |s.sources[c.job.fd]|)
  }

  /** First in, first out; and the flag is raised only when all is enqueued. */
  ghost predicate Queueing(s: State) {
    && Opened(s.jobs) && |s.jobs| == |s.sources| == |s.dest|
    && s.next <= |s.jobs| && |s.ring| <= s.capacity
    && s.taken + s.ring == s.jobs[..s.next]
    && (s.done ==> s.next == |s.jobs|)
    && (forall w :: 0 <= w < |s.workers| && s.workers[w].Exited? ==> s.done && |s.ring| == 0)
  }

  /** A file is untouched, in the hands of one worker, or copied. */
  ghost predicate Files(s: State) {
    && |s.taken| <= |s.dest| == |s.sources|
    && (forall w :: 0 <= w < |s.workers| ==> InHand(s, s.workers[w]))
    && (forall v, w, fd :: Busy(s, v, fd) && Busy(s, w, fd) ==> v == w)
    && (forall fd :: |s.taken| <= fd < |s.dest| ==> s.dest[fd] == [])
    && (forall fd: nat :: fd < |s.taken| && s.dest[fd] != s.sources[fd] ==> exists w :: Busy(s, w, fd))
  }

  ghost predicate Inv(s: State) {
    Queueing(s) && Files(s)
  }

  lemma InitInv(jobs: seq<Job>, sources: seq<seq<int>>, capacity: nat, workers: nat)
    requires Opened(jobs) && |jobs| == |sources|
    ensures Inv(Init(jobs, sources, capacity, workers))
  {
  }

  lemma TakenLength(s: State)
    requires Queueing(s)
    ensures |s.taken| + |s.ring| == s.next
    ensures |s.ring| > 0 ==> s.ring[0] == s.jobs[|s.taken|] && s.ring[0].fd == |s.taken|
  {
    assert |s.taken + s.ring| == |s.jobs[..s.next]|;
    if |s.ring| > 0 {
      assert (s.taken + s.ring)[|s.taken|] == s.ring[0];
    }
  }

  lemma QueueingStep(s: State, a: Action)
    requires Queueing(s) && Enabled(s, a)
    ensures Queueing(Apply(s, a))
  {
    var t := Apply(s, a);
    if a.Produce? {
      assert t.taken + t.ring == s.jobs[..s.next] + [s.jobs[s.next]];
    } else if a.ByWorker? && a.step.Dequeue? {
      assert t.taken + t.ring == s.taken + s.ring;
    }
  }

  lemma DequeueFiles(s: State, w: nat)
    requires Inv(s) && WorkerCan(s, w, Dequeue)
    ensures Files(WorkerDoes(s, w, Dequeue))
  {
    var t := WorkerDoes(s, w, Dequeue);
    TakenLength(s);
    assert forall v, fd :: Busy(t, v, fd) <==> Busy(s, v, fd) || (v == w && fd == |s.taken|);
    assert Busy(t, w, |s.taken|);
    assert forall v :: 0 <= v < |t.workers| && v != w ==> t.workers[v] == s.workers[v] && InHand(s, s.workers[v]);
  }

  lemma CopyFiles(s: State, w: nat, step: WorkerStep)
    requires Inv(s) && WorkerCan(s, w, step) && (step.Read? || step.Store?)
    ensures Files(WorkerDoes(s, w, step))
  {
    var t, fd := WorkerDoes(s, w, step), s.workers[w].job.fd;
    assert InHand(s, s.workers[w]);
    assert Busy(s, w, fd);
    assert forall v, f :: Busy(t, v, f) <==> Busy(s, v, f);
    forall v | 0 <= v < |t.workers| ensures InHand(t, t.workers[v]) {
      if v != w {
        assert InHand(s, s.workers[v]);
        assert Busy(s, v, fd) ==> v == w;
      } else if step.Store? {
        var c := s.workers[w];
        assert s.sources[fd][..c.off] + s.sources[fd][c.off..c.off + c.k] == s.sources[fd][..c.off + c.k];
      }
    }
  }

  lemma OtherFiles(s: State, w: nat, step: WorkerStep)
    requires Inv(s) && WorkerCan(s, w, step) && (step.Test? || step.Leave? || step.Eof?)
    ensures Files(WorkerDoes(s, w, step))
  {
    var t := WorkerDoes(s, w, step);
    assert InHand(s, s.workers[w]);
    assert forall v, f :: Busy(t, v, f) <==> Busy(s, v, f) && v != w;
    assert forall v :: 0 <= v < |t.workers| && v != w ==> t.workers[v] == s.workers[v] && InHand(s, s.workers[v]);
    if step.Eof? {
      var fd := s.workers[w].job.fd;
      assert s.sources[fd][..|s.sources[fd]|] == s.sources[fd];
    }
    forall f: nat | f < |t.taken| && t.dest[f] != t.sources[f] ensures exists v :: Busy(t, v, f) {
      var v :| Busy(s, v, f);
      assert Busy(t, v, f);
    }
  }

  lemma StepInv(s: State, a: Action)
    requires Inv(s) && Enabled(s, a)
    ensures Inv(Apply(s, a))
  {
    QueueingStep(s, a);
    var t := Apply(s, a);
    if a.ByWorker? {
      if a.step.Dequeue? {
        DequeueFiles(s, a.w);
      } else if a.step.Read? || a.step.Store? {
        CopyFiles(s, a.w, a.step);
      } else {
        OtherFiles(s, a.w, a.step);
      }
    } else {
      assert forall v, f :: Busy(t, v, f) <==> Busy(s, v, f);
      assert forall v :: 0 <= v < |t.workers| ==> t.workers[v] == s.workers[v] && InHand(s, s.workers[v]);
    }
  }

  lemma {:induction false} RunInv(atomic: bool, s: State, acts: seq<Action>)
    requires Inv(s) && Runs(atomic, s, acts)
    ensures Inv(Exec(atomic, s, acts))
    decreases |acts|
  {
    if |acts| > 0 {
      StepInv(s, acts[0]);
      RunInv(atomic, Apply(s, acts[0]), acts[1..]);
    }
  }
}
