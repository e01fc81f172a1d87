/** Exactly when the byte total of the copier can be trusted. */
module CopyRace {
  import opened Sums
  import opened CopyQueue
  import opened CopyProtocol
  import opened CopyTheorems

  ghost predicate Reach(s: State, t: State) {
    exists acts :: Runs(false, s, acts) && Exec(false, s, acts) == t
  }

  lemma ReachSelf(s: State)
    ensures Reach(s, s)
  {
    assert Runs(false, s, []) && Exec(false, s, []) == s;
  }

  lemma {:induction false} RunsThen(s: State, acts: seq<Action>, a: Action)
    requires Runs(false, s, acts) && Enabled(Exec(false, s, acts), a)
    ensures Runs(false, s, acts + [a]) && Exec(false, s, acts + [a]) == Apply(Exec(false, s, acts), a)
    decreases |acts|
  {
    if |acts| == 0 {
      assert acts + [a] == [a] && [a][1..] == [];
      assert Exec(false, Apply(s, a), []) == Apply(s, a);
    } else {
      assert (acts + [a])[0] == acts[0] && (acts + [a])[1..] == acts[1..] + [a];
      RunsThen(Apply(s, acts[0]), acts[1..], a);
    }
  }

  lemma ReachStep(z: State, s: State, a: Action)
    requires Reach(z, s) && Enabled(s, a)
    ensures Reach(z, Apply(s, a))
  {
    var acts :| Runs(false, z, acts) && Exec(false, z, acts) == s;
    RunsThen(z, acts, a);
  }

  lemma ReachWorker(z: State, s: State, w: nat, step: WorkerStep)
    requires Reach(z, s) && WorkerCan(s, w, step)
    ensures Reach(z, WorkerDoes(s, w, step))
  {
    ReachStep(z, s, ByWorker(w, step));
  }

  /** No finished run reports anything but the sum of the file sizes. */
  ghost predicate TotalExact(jobs: seq<Job>, sources: seq<seq<int>>, capacity: nat, workers: nat) {
    forall t :: Reach(Init(jobs, sources, capacity, workers), t) && Finished(t) ==> t.total == Sum(Length, sources)
  }

  ghost predicate OneFileAtMost(sources: seq<seq<int>>) {
    forall i, k :: 0 <= i < k < |sources| ==> sources[i] == [] || sources[k] == []
  }

  // ------------------------------------------------------------ no overlap

  /** One worker, or one file that is not empty, leaves nothing to overlap. */
  lemma NothingOverlaps(s: State, a: Action)
    requires Inv(s) && Enabled(s, a) && (|s.workers| <= 1 || OneFileAtMost(s.sources))
    ensures Allowed(true, s, a)
  {
    if a.ByWorker? && a.step.Read? && SomebodyAdds(s) {
      var v :| 0 <= v < |s.workers| && s.workers[v].Adding?;
      assert InHand(s, s.workers[v]) && InHand(s, s.workers[a.w]);
      assert Busy(s, v, s.workers[v].job.fd) && Busy(s, a.w, s.workers[a.w].job.fd);
    }
  }

  lemma {:induction false} RunsAtomically(s: State, acts: seq<Action>)
    requires Inv(s) && Runs(false, s, acts) && (|s.workers| <= 1 || OneFileAtMost(s.sources))
    ensures Runs(true, s, acts) && Exec(true, s, acts) == Exec(false, s, acts)
    decreases |acts|
  {
    if |acts| > 0 {
      NothingOverlaps(s, acts[0]);
      StepInv(s, acts[0]);
      RunsAtomically(Apply(s, acts[0]), acts[1..]);
    }
  }

  // ------------------------------------------------------------ an overlap

  lemma OneByte(z: State, s: State, w: nat) returns (u: State)
    requires Reach(z, s) && Inv(s) && WorkerCan(s, w, Read(1))
    ensures Reach(z, u) && Inv(u) && SameSetup(s, u)
    ensures u.workers == s.workers[w := Copying(s.workers[w].job, s.workers[w].off + 1)]
    ensures u == s.(total := s.total + 1, dest := u.dest, workers := u.workers)
    ensures |u.dest| == |s.dest| && forall fd :: 0 <= fd < |s.dest| && fd != s.workers[w].job.fd ==> u.dest[fd] == s.dest[fd]
  {
    assert InHand(s, s.workers[w]);
    u := RunOne(z, s, w, Read(1));
    u := RunOne(z, u, w, Store);
  }

  /** The state after worker `w` has copied the rest of its file. */
  ghost function Copied(s: State, w: nat): State
    requires w < |s.workers| && s.workers[w].Copying? && s.workers[w].job.fd < |s.dest| == |s.sources|
  {
    var fd := s.workers[w].job.fd;
    s.(dest := s.dest[fd := s.sources[fd]], total := s.total + |s.sources[fd]| - s.workers[w].off,
       workers := s.workers[w := Testing])
  }

  /** Worker `w` copies the rest of its file with nobody else at work. */
  lemma {:induction false} CopyAlone(z: State, s: State, w: nat)
    requires Reach(z, s) && Inv(s) && w < |s.workers| && s.workers[w].Copying?
    ensures s.workers[w].job.fd < |s.dest| == |s.sources| && s.workers[w].off <= |s.sources[s.workers[w].job.fd]|
    ensures Reach(z, Copied(s, w)) && Inv(Copied(s, w))
    decreases Len(s.sources, s.workers[w].job.fd) - s.workers[w].off
  {
    var c := s.workers[w];
    var fd := c.job.fd;
    assert InHand(s, c);
    if c.off == |s.sources[fd]| {
      ReachWorker(z, s, w, Eof);
      StepInv(s, ByWorker(w, Eof));
      assert s.sources[fd][..c.off] == s.sources[fd];
      assert s.dest[fd := s.sources[fd]] == s.dest;
      assert WorkerDoes(s, w, Eof) == Copied(s, w);
    } else {
      var u := OneByte(z, s, w);
      CopyAlone(z, u, w);
      assert u.dest[fd := s.sources[fd]] == s.dest[fd := s.sources[fd]];
      assert u.workers[w := Testing] == s.workers[w := Testing];
      assert Copied(u, w) == Copied(s, w);
    }
  }

  /** The state in which only worker `w` was at work since `s`, and has copied the
      files up to `next`. */
  ghost predicate Ahead(s: State, t: State, w: nat, next: nat) {
    && SameSetup(s, t) && Inv(t) && t.workers == s.workers && !t.done && |t.ring| == 0 && t.next == next
    && t.total - Sum(Length, t.dest) == s.total - Sum(Length, s.dest)
    && w < |t.workers| && t.workers[w].Inside?
  }

  /** With an empty ring, worker `w` takes the next file. */
  lemma TakeNext(z: State, s: State, w: nat) returns (t: State)
    requires Reach(z, s) && Ahead(s, s, w, s.next) && s.next < |s.jobs| && s.capacity > 0
    ensures Reach(z, t) && Inv(t) && SameSetup(s, t) && t.workers == s.workers[w := Copying(s.jobs[s.next], 0)]
    ensures |t.ring| == 0 && !t.done && t.next == s.next + 1 && t.total == s.total && t.dest == s.dest
  {
    ReachStep(z, s, Produce);
    var u := Apply(s, Produce);
    StepInv(s, Produce);
    ReachWorker(z, u, w, Dequeue);
    t := WorkerDoes(u, w, Dequeue);
    StepInv(u, ByWorker(w, Dequeue));
  }

  lemma CopyNext(z: State, s: State, w: nat) returns (t: State)
    requires Reach(z, s) && Ahead(s, s, w, s.next) && s.next < |s.jobs| && s.capacity > 0
    ensures Reach(z, t) && Ahead(s, t, w, s.next + 1)
  {
    var u := TakeNext(z, s, w);
    CopyAlone(z, u, w);
    assert InHand(u, u.workers[w]);
    var fd := u.workers[w].job.fd;
    SumUpdate(Length, u.dest, fd, u.sources[fd]);
    var v := Copied(u, w);
    ReachWorker(z, v, w, Test);
    StepInv(v, ByWorker(w, Test));
    t := WorkerDoes(v, w, Test);
    assert t.workers == s.workers;
  }

  lemma {:induction false} CopyUpTo(z: State, s: State, w: nat, next: nat) returns (t: State)
    requires Reach(z, s) && Ahead(s, s, w, s.next) && s.next <= next <= |s.jobs| && s.capacity > 0
    ensures Reach(z, t) && Ahead(s, t, w, next)
    decreases next - s.next
  {
    if s.next == next {
      t := s;
    } else {
      var u := CopyNext(z, s, w);
      t := CopyUpTo(z, u, w, next);
    }
  }

  /** Two workers have each taken a file that is not empty, and nobody adds. */
  ghost predicate Poised(s: State) {
    && Inv(s) && Counted(s, 0) && |s.workers| >= 2
    && s.workers[0].Copying? && s.workers[1].Copying?
    && WorkerCan(s, 0, Read(1)) && WorkerCan(s, 1, Read(1))
    && forall w :: 2 <= w < |s.workers| ==> s.workers[w].Testing?
  }

  lemma TwoInside(jobs: seq<Job>, sources: seq<seq<int>>, capacity: nat, workers: nat) returns (t: State)
    requires Opened(jobs) && |jobs| == |sources| && capacity > 0 && workers >= 2
    ensures var z := Init(jobs, sources, capacity, workers);
            && Reach(z, t) && Inv(t) && t == z.(workers := z.workers[0 := Inside][1 := Inside]) && Counted(t, 0)
  {
    var z := Init(jobs, sources, capacity, workers);
    InitInv(jobs, sources, capacity, workers);
    InitCounted(jobs, sources, capacity, workers);
    ReachSelf(z);
    t := RunOne(z, z, 0, Test);
    t := RunOne(z, t, 1, Test);
  }

  lemma GetPoised(jobs: seq<Job>, sources: seq<seq<int>>, capacity: nat, workers: nat, a: nat, b: nat) returns (t: State)
    requires Opened(jobs) && |jobs| == |sources| && capacity > 0 && workers >= 2
    requires a < b < |sources| && sources[a] != [] && sources[b] != []
    ensures Reach(Init(jobs, sources, capacity, workers), t) && Poised(t) && SameSetup(Init(jobs, sources, capacity, workers), t)
  {
    var z := Init(jobs, sources, capacity, workers);
    t := TwoInside(jobs, sources, capacity, workers);
    var s := t;
    t := TakeFile(z, t, 0, a);
    t := TakeFile(z, t, 1, b);
    assert t.workers == s.workers[0 := Copying(jobs[a], 0)][1 := Copying(jobs[b], 0)];
    BothHold(t, jobs[a], jobs[b]);
  }

  /** Two workers hold a file each that is not empty, and the others wait. */
  lemma BothHold(t: State, a: Job, b: Job)
    requires Inv(t) && t.total == Sum(Length, t.dest) && |t.workers| >= 2
    requires t.workers[0] == Copying(a, 0) && t.workers[1] == Copying(b, 0)
    requires forall w :: 2 <= w < |t.workers| ==> t.workers[w].Testing?
    requires a.fd < |t.sources| && t.sources[a.fd] != [] && b.fd < |t.sources| && t.sources[b.fd] != []
    ensures Poised(t)
  {
  }

  /** The worker copies all files before the given one and takes that one. */
  lemma TakeFile(z: State, s: State, w: nat, next: nat) returns (t: State)
    requires Reach(z, s) && Ahead(s, s, w, s.next) && s.next <= next < |s.jobs| && s.capacity > 0
    ensures Reach(z, t) && Inv(t) && SameSetup(s, t) && t.workers == s.workers[w := Copying(s.jobs[next], 0)]
    ensures |t.ring| == 0 && !t.done && t.next == next + 1
    ensures t.total - Sum(Length, t.dest) == s.total - Sum(Length, s.dest)
  {
    t := CopyUpTo(z, s, w, next);
    t := TakeNext(z, t, w);
  }

  /** Both workers read a byte and load the total. */
  ghost predicate Clash(s: State) {
    && |s.workers| >= 2 && s.workers[0].Adding? && s.workers[1].Adding?
    && s.workers[0].job.fd != s.workers[1].job.fd
    && s.workers[0].k == s.workers[1].k == 1 && s.workers[0].seen == s.workers[1].seen == s.total
    && s.total == Sum(Length, s.dest)
    && forall w :: 2 <= w < |s.workers| ==> s.workers[w].Testing?
  }

  lemma BothRead(z: State, s: State) returns (t: State)
    requires Reach(z, s) && Poised(s)
    ensures Reach(z, t) && Inv(t) && SameSetup(s, t) && Clash(t)
  {
    assert Busy(s, 0, s.workers[0].job.fd) && Busy(s, 1, s.workers[1].job.fd);
    t := RunOne(z, s, 0, Read(1));
    t := RunOne(z, t, 1, Read(1));
  }

  lemma StoreGrows(s: State, w: nat)
    requires Inv(s) && w < |s.workers| && s.workers[w].Adding?
    ensures WorkerCan(s, w, Store)
    ensures Sum(Length, WorkerDoes(s, w, Store).dest) == Sum(Length, s.dest) + s.workers[w].k
  {
    var c := s.workers[w];
    assert InHand(s, c);
    SumUpdate(Length, s.dest, c.job.fd, s.dest[c.job.fd] + s.sources[c.job.fd][c.off..c.off + c.k]);
  }

  /** Both store what they loaded plus one: one byte is lost from the total. */
  lemma LoseByte(z: State, s: State) returns (t: State)
    requires Reach(z, s) && Inv(s) && Clash(s)
    ensures Reach(z, t) && Inv(t) && Counted(t, 1) && SameSetup(s, t)
  {
    t := StoreOne(z, s, 0);
    t := StoreLate(z, t, s.total);
  }

  /** Worker 1 stores a total that it loaded before worker 0 stored. */
  lemma StoreLate(z: State, s: State, loaded: int) returns (t: State)
    requires Reach(z, s) && Inv(s) && |s.workers| >= 2 && s.workers[1].Adding?
    requires s.workers[1].k == 1 && s.workers[1].seen == loaded && Sum(Length, s.dest) == loaded + 1
    requires forall w :: 0 <= w < |s.workers| && w != 1 ==> !s.workers[w].Adding?
    ensures Reach(z, t) && Inv(t) && Counted(t, 1) && SameSetup(s, t)
  {
    t := StoreOne(z, s, 1);
  }

  /** The worker stores what it loaded plus what it read. */
  lemma StoreOne(z: State, s: State, w: nat) returns (t: State)
    requires Reach(z, s) && Inv(s) && w < |s.workers| && s.workers[w].Adding?
    ensures Reach(z, t) && Inv(t) && SameSetup(s, t) && t.total == s.workers[w].seen + s.workers[w].k
    ensures Sum(Length, t.dest) == Sum(Length, s.dest) + s.workers[w].k
    ensures |t.workers| == |s.workers| && !t.workers[w].Adding?
    ensures forall v :: 0 <= v < |s.workers| && v != w ==> t.workers[v] == s.workers[v]
  {
    StoreGrows(s, w);
    t := RunOne(z, s, w, Store);
  }

  lemma RunOne(z: State, s: State, w: nat, step: WorkerStep) returns (t: State)
    requires Reach(z, s) && Inv(s) && WorkerCan(s, w, step)
    ensures t == WorkerDoes(s, w, step) && Reach(z, t) && Inv(t)
  {
    ReachWorker(z, s, w, step);
    StepInv(s, ByWorker(w, step));
    t := WorkerDoes(s, w, step);
  }

  /** From then on, without further overlaps, the run finishes with the byte missing. */
  lemma {:induction false} FinishShort(z: State, s: State) returns (t: State)
    requires Reach(z, s) && Inv(s) && Counted(s, 1) && s.capacity > 0 && |s.workers| > 0
    ensures Reach(z, t) && Finished(t) && t.total == Sum(Length, s.sources) - 1
    decreases Measure(s)
  {
    MeasureNonneg(s);
    if a :| Allowed(true, s, a) {
      StepInv(s, a);
      StepMeasure(s, a);
      CountedStep(s, a, 1);
      ReachStep(z, s, a);
      t := FinishShort(z, Apply(s, a));
    } else {
      Progress(true, s);
      FinishedCopied(s);
      t := s;
    }
  }

  /** The total is the sum of the file sizes in every finished run if and only if
      there is one worker at most or one file at most that is not empty. */
  lemma TotalExactly(jobs: seq<Job>, sources: seq<seq<int>>, capacity: nat, workers: nat)
    requires Opened(jobs) && |jobs| == |sources| && capacity > 0 && workers > 0
    ensures TotalExact(jobs, sources, capacity, workers) <==> workers == 1 || OneFileAtMost(sources)
  {
    var z := Init(jobs, sources, capacity, workers);
    InitInv(jobs, sources, capacity, workers);
    if workers == 1 || OneFileAtMost(sources) {
      InitCounted(jobs, sources, capacity, workers);
      forall t | Reach(z, t) && Finished(t) ensures t.total == Sum(Length, sources) {
        var acts :| Runs(false, z, acts) && Exec(false, z, acts) == t;
        RunsAtomically(z, acts);
        CountedRun(z, acts, 0);
        RunInv(false, z, acts);
        FinishedCopied(t);
      }
    } else {
      var a, b :| 0 <= a < b < |sources| && sources[a] != [] && sources[b] != [];
      var s := GetPoised(jobs, sources, capacity, workers, a, b);
      s := BothRead(z, s);
      s := LoseByte(z, s);
      var t := FinishShort(z, s);
    }
  }
}
