/** Every run of the copier ends, and ends with every file copied. */
module CopyTheorems {
  import opened Sums
  import opened CopyQueue
  import opened CopyProtocol

  // ------------------------------------------------------------ termination

  ghost function Len(sources: seq<seq<int>>, fd: nat): nat {
    if fd < |sources| then |sources[fd]| else 0
  }

  /** The steps a queued file still causes. */
  ghost function QueuedWeight(job: Job, sources: seq<seq<int>>): int {
    2 * Len(sources, job.fd) + 3
  }

  ghost function UnqueuedWeight(job: Job, sources: seq<seq<int>>): int {
    2 * Len(sources, job.fd) + 4
  }

  ghost function WorkerWeight(c: Worker, sources: seq<seq<int>>): int {
    match c
    case Testing => 2
    case Inside => 1
    case Copying(job, off) => 2 * (Len(sources, job.fd) - off) + 3
    case Adding(job, off, _, _) => 2 * (Len(sources, job.fd) - off) + 2
    case Exited => 0
  }

  ghost function Measure(s: State): int
    requires s.next <= |s.jobs|
  {
    Tally(UnqueuedWeight, s.jobs[s.next..], s.sources) + Tally(QueuedWeight, s.ring, s.sources)
    + Tally(WorkerWeight, s.workers, s.sources) + if s.done then 0 else 1
  }

  lemma MeasureNonneg(s: State)
    requires Inv(s)
    ensures Measure(s) >= 0
  {
    TallyPositive(UnqueuedWeight, s.jobs[s.next..], s.sources);
    TallyPositive(QueuedWeight, s.ring, s.sources);
    forall w | 0 <= w < |s.workers| ensures WorkerWeight(s.workers[w], s.sources) >= 0 {
      assert InHand(s, s.workers[w]);
    }
    TallyPositive(WorkerWeight, s.workers, s.sources);
  }

  /** Every step lowers the measure: nothing in the copier spins. */
  lemma StepMeasure(s: State, a: Action)
    requires Inv(s) && Enabled(s, a)
    ensures Apply(s, a).next <= |s.jobs| && Measure(Apply(s, a)) < Measure(s)
  {
    var t := Apply(s, a);
    match a
    case Produce =>
      TallyHead(UnqueuedWeight, s.jobs[s.next..], s.sources);
      assert s.jobs[s.next..][1..] == s.jobs[s.next + 1..];
      TallyAppend(QueuedWeight, s.ring, s.jobs[s.next], s.sources);
    case Finish =>
    case ByWorker(w, step) => WorkerMeasure(s, w, step);
  }

  lemma WorkerMeasure(s: State, w: nat, step: WorkerStep)
    requires Inv(s) && WorkerCan(s, w, step)
    ensures Measure(WorkerDoes(s, w, step)) < Measure(s)
  {
    assert InHand(s, s.workers[w]);
    TallyUpdate(WorkerWeight, s.workers, w, WorkerDoes(s, w, step).workers[w], s.sources);
    if step.Dequeue? {
      TallyHead(QueuedWeight, s.ring, s.sources);
    }
  }

  lemma {:induction false} RunMeasure(atomic: bool, s: State, acts: seq<Action>)
    requires Inv(s) && Runs(atomic, s, acts)
    ensures Inv(Exec(atomic, s, acts)) && |acts| + Measure(Exec(atomic, s, acts)) <= Measure(s)
    decreases |acts|
  {
    if |acts| > 0 {
      StepInv(s, acts[0]);
      StepMeasure(s, acts[0]);
      RunMeasure(atomic, Apply(s, acts[0]), acts[1..]);
    }
  }

  /** Every run, however scheduled and however the reads are cut, is over after at
      most four steps per file, two per byte, two per worker and one. */
  lemma EveryRunEnds(jobs: seq<Job>, sources: seq<seq<int>>, capacity: nat, workers: nat, acts: seq<Action>)
    requires Opened(jobs) && |jobs| == |sources| && Runs(false, Init(jobs, sources, capacity, workers), acts)
    ensures |acts| <= 4 * |jobs| + 2 * Sum(Length, sources) + 2 * workers + 1
  {
    var z := Init(jobs, sources, capacity, workers);
    InitInv(jobs, sources, capacity, workers);
    RunMeasure(false, z, acts);
    MeasureNonneg(Exec(false, z, acts));
    assert z.jobs[0..] == jobs;
    AllTesting(z.workers, sources);
    UnqueuedTotal(jobs, sources, |jobs|);
    assert jobs[..|jobs|] == jobs && sources[..|jobs|] == sources;
  }

  lemma {:induction false} UnqueuedTotal(jobs: seq<Job>, sources: seq<seq<int>>, n: nat)
    requires Opened(jobs) && n <= |jobs| == |sources|
    ensures Tally(UnqueuedWeight, jobs[..n], sources) == 4 * n + 2 * Sum(Length, sources[..n])
  {
    if n > 0 {
      UnqueuedTotal(jobs, sources, n - 1);
      assert jobs[..n] == jobs[..n - 1] + [jobs[n - 1]] && sources[..n] == sources[..n - 1] + [sources[n - 1]];
      TallyAppend(UnqueuedWeight, jobs[..n - 1], jobs[n - 1], sources);
      SumAppend(Length, sources[..n - 1], sources[n - 1]);
    }
  }

  lemma {:induction false} AllTesting(workers: seq<Worker>, sources: seq<seq<int>>)
    requires forall w :: 0 <= w < |workers| ==> workers[w].Testing?
    ensures Tally(WorkerWeight, workers, sources) == 2 * |workers|
  {
    if |workers| > 0 {
      AllTesting(workers[..|workers| - 1], sources);
    }
  }

  // ------------------------------------------------------------ progress

  /** The manager has raised the flag and every worker has left. */
  ghost predicate Finished(s: State) {
    s.done && forall w :: 0 <= w < |s.workers| ==> s.workers[w].Exited?
  }

  ghost predicate Final(atomic: bool, s: State) {
    forall a :: !Allowed(atomic, s, a)
  }

  /** With a worker and room for one file the run goes on until it is finished. */
  lemma Progress(atomic: bool, s: State)
    requires Inv(s) && s.capacity > 0 && |s.workers| > 0 && Final(atomic, s)
    ensures Finished(s)
  {
    TakenLength(s);
    assert !Allowed(atomic, s, Produce) && !Allowed(atomic, s, Finish);
    forall w | 0 <= w < |s.workers| ensures !s.workers[w].Adding? {
      assert InHand(s, s.workers[w]);
      assert !Allowed(atomic, s, ByWorker(w, Store));
    }
    forall w | 0 <= w < |s.workers| ensures s.workers[w].Inside? || s.workers[w].Exited? {
      assert InHand(s, s.workers[w]);
      assert !Allowed(atomic, s, ByWorker(w, Test)) && !Allowed(atomic, s, ByWorker(w, Eof));
      assert !Allowed(atomic, s, ByWorker(w, Read(1)));
    }
    forall w | 0 <= w < |s.workers| ensures s.workers[w].Exited? {
      assert !Allowed(atomic, s, ByWorker(w, Dequeue)) && !Allowed(atomic, s, ByWorker(w, Leave));
    }
    assert s.workers[0].Exited?;
  }

  /** Once all have left, every file was dequeued once, in order, and its copy holds
      its bytes. */
  lemma FinishedCopied(s: State)
    requires Inv(s) && Finished(s) && |s.workers| > 0
    ensures s.taken == s.jobs && s.dest == s.sources
  {
    assert s.workers[0].Exited?;
    assert s.taken + s.ring == s.taken && s.jobs[..s.next] == s.jobs;
    forall fd: nat | fd < |s.dest| ensures s.dest[fd] == s.sources[fd] {
      assert forall w :: !Busy(s, w, fd);
    }
  }

  // ------------------------------------------------------------ the byte total

  ghost function Length(bytes: seq<int>): int { |bytes| }

  /** In an atomic run the total counts what was written, and the one worker that is
      about to store has loaded what the total still is. */
  ghost predicate Counted(s: State, missing: int) {
    && s.total + missing == Sum(Length, s.dest)
    && (forall w :: 0 <= w < |s.workers| && s.workers[w].Adding? ==> s.workers[w].seen == s.total)
    && (forall v, w :: 0 <= v < |s.workers| && 0 <= w < |s.workers| && s.workers[v].Adding? && s.workers[w].Adding? ==> v == w)
  }

  lemma CountedStep(s: State, a: Action, missing: int)
    requires Inv(s) && Counted(s, missing) && Allowed(true, s, a)
    ensures Counted(Apply(s, a), missing)
  {
    if a.ByWorker? {
      if a.step.Store? {
        CountedStore(s, a.w, missing);
      } else {
        CountedOther(s, a.w, a.step, missing);
      }
    }
  }

  lemma CountedOther(s: State, w: nat, step: WorkerStep, missing: int)
    requires Counted(s, missing) && WorkerCan(s, w, step) && !step.Store? && (step.Read? ==> !SomebodyAdds(s))
    ensures Counted(WorkerDoes(s, w, step), missing)
  {
    assert forall v :: 0 <= v < |s.workers| && v != w ==> WorkerDoes(s, w, step).workers[v] == s.workers[v];
  }

  lemma CountedStore(s: State, w: nat, missing: int)
    requires Inv(s) && Counted(s, missing) && WorkerCan(s, w, Store)
    ensures Counted(WorkerDoes(s, w, Store), missing)
  {
    var c := s.workers[w];
    assert InHand(s, c);
    SumUpdate(Length, s.dest, c.job.fd, s.dest[c.job.fd] + s.sources[c.job.fd][c.off..c.off + c.k]);
  }

  lemma {:induction false} CountedRun(s: State, acts: seq<Action>, missing: int)
    requires Inv(s) && Counted(s, missing) && Runs(true, s, acts)
    ensures Counted(Exec(true, s, acts), missing)
    decreases |acts|
  {
    if |acts| > 0 {
      CountedStep(s, acts[0], missing);
      StepInv(s, acts[0]);
      CountedRun(Apply(s, acts[0]), acts[1..], missing);
    }
  }

  lemma InitCounted(jobs: seq<Job>, sources: seq<seq<int>>, capacity: nat, workers: nat)
    ensures Counted(Init(jobs, sources, capacity, workers), 0)
  {
    SumZero(Length, Init(jobs, sources, capacity, workers).dest);
  }

  /** The copier as a whole.  A run that can go on no further has raised the flag, has
      let every worker leave, has dequeued every file once in the order it was
      enqueued and has copied each byte for byte; and if no two additions to the
      byte total overlapped, the total is the sum of the file sizes. */
  lemma CopiesEverything(jobs: seq<Job>, sources: seq<seq<int>>, capacity: nat, workers: nat,
                         atomic: bool, acts: seq<Action>)
    requires Opened(jobs) && |jobs| == |sources| && capacity > 0 && workers > 0
    requires Runs(atomic, Init(jobs, sources, capacity, workers), acts)
    requires Final(atomic, Exec(atomic, Init(jobs, sources, capacity, workers), acts))
    ensures var t := Exec(atomic, Init(jobs, sources, capacity, workers), acts);
            && Finished(t) && t.taken == jobs && t.dest == sources
            && (atomic ==> t.total == Sum(Length, sources))
  {
    var z := Init(jobs, sources, capacity, workers);
    var t := Exec(atomic, z, acts);
    InitInv(jobs, sources, capacity, workers);
    RunInv(atomic, z, acts);
    Progress(atomic, t);
    FinishedCopied(t);
    if atomic {
      InitCounted(jobs, sources, capacity, workers);
      CountedRun(z, acts, 0);
    }
  }

  /** In every state of every run: what was dequeued followed by what is in the ring
      is what was enqueued, in order and without repetition; and a worker that has
      left saw the flag raised and the ring empty. */
  lemma ExactlyOnce(jobs: seq<Job>, sources: seq<seq<int>>, capacity: nat, workers: nat, acts: seq<Action>)
    requires Opened(jobs) && |jobs| == |sources|
    requires Runs(false, Init(jobs, sources, capacity, workers), acts)
    ensures var t := Exec(false, Init(jobs, sources, capacity, workers), acts);
            && t.next <= |jobs| && t.taken + t.ring == jobs[..t.next] && |t.ring| <= capacity
            && (forall i, k :: 0 <= i < k < |t.taken + t.ring| ==> (t.taken + t.ring)[i] != (t.taken + t.ring)[k])
            && (forall w :: 0 <= w < |t.workers| && t.workers[w].Exited? ==> t.done && t.ring == [] && t.next == |jobs|)
  {
    InitInv(jobs, sources, capacity, workers);
    RunInv(false, Init(jobs, sources, capacity, workers), acts);
  }
}
