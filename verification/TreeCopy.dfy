/** The walk of a tree and the parallel copier together. */
module TreeCopy {
  import opened CopyQueue
  import opened CopyProtocol
  import opened CopyTheorems
  import opened TreeWalk

  /** The files a walk queues, in order. */
  function Queues(events: seq<Event>): (r: seq<Event>)
    ensures forall i :: 0 <= i < |r| ==> r[i].Queued?
  {
    if |events| == 0 then []
    else Queues(events[..|events| - 1]) + if events[|events| - 1].Queued? then [events[|events| - 1]] else []
  }

  /** One job per queued file, each with its own descriptors. */
  function Jobs(files: seq<Event>): seq<Job>
    requires forall i :: 0 <= i < |files| ==> files[i].Queued?
  {
    seq(|files|, i requires 0 <= i < |files| => Job(files[i].src, files[i].dst, i))
  }

  function Bytes(files: seq<Event>): seq<seq<int>>
    requires forall i :: 0 <= i < |files| ==> files[i].Queued?
  {
    seq(|files|, i requires 0 <= i < |files| => files[i].data)
  }

  lemma {:induction false} QueuesMember(events: seq<Event>, ev: Event)
    ensures ev in Queues(events) <==> ev in events && ev.Queued?
  {
    if |events| > 0 {
      QueuesMember(events[..|events| - 1], ev);
      assert events == events[..|events| - 1] + [events[|events| - 1]];
    }
  }

  lemma {:induction false} QueuesDistinct(events: seq<Event>)
    requires forall i, k :: 0 <= i < k < |events| ==> Target(events[i]) != Target(events[k])
    ensures forall i, k :: 0 <= i < k < |Queues(events)| ==> Queues(events)[i].dst != Queues(events)[k].dst
  {
    if |events| > 0 {
      var init, last := events[..|events| - 1], events[|events| - 1];
      QueuesDistinct(init);
      forall i | 0 <= i < |Queues(init)| && last.Queued? ensures Queues(init)[i].dst != last.dst {
        QueuesMember(init, Queues(init)[i]);
        var k :| 0 <= k < |init| && init[k] == Queues(init)[i];
        assert Target(events[k]) != Target(last);
      }
    }
  }

  /** A tree is walked and a run of the copier, with any scheduling and any cutting
      of the reads, goes on until it can go on no further.  Then every regular file
      of the tree has exactly one job, under the corresponding name, and what was
      written there is the file, byte for byte. */
  lemma TreeIsCopied(src: string, dst: string, entries: seq<Entry>, capacity: nat, workers: nat, acts: seq<Action>,
                     path: seq<string>, data: seq<int>)
    requires WellFormed(entries) && capacity > 0 && workers > 0 && IsFile(entries, path, data)
    requires var files := Queues(Walk(src, dst, entries));
             Runs(false, Init(Jobs(files), Bytes(files), capacity, workers), acts)
             && Final(false, Exec(false, Init(Jobs(files), Bytes(files), capacity, workers), acts))
    ensures var files := Queues(Walk(src, dst, entries));
            var t := Exec(false, Init(Jobs(files), Bytes(files), capacity, workers), acts);
            exists i :: && 0 <= i < |t.taken| == |t.dest|
                        && t.taken[i].src == Join(src, path) && t.taken[i].dst == Join(dst, path) && t.dest[i] == data
                        && forall k :: 0 <= k < |t.taken| && t.taken[k].dst == Join(dst, path) ==> k == i
  {
    var walk := Walk(src, dst, entries);
    var files := Queues(walk);
    var t := Exec(false, Init(Jobs(files), Bytes(files), capacity, workers), acts);
    CopiesEverything(Jobs(files), Bytes(files), capacity, workers, false, acts);
    Mirrors(src, dst, entries);
    var ev := Render(src, dst, PathEvent.Queue(path, data));
    assert Has(entries, PathEvent.Queue(path, data));
    assert ev in walk;
    QueuesMember(walk, ev);
    var i :| 0 <= i < |files| && files[i] == ev;
    QueuesDistinct(walk);
    assert t.taken[i].dst == Join(dst, path) && t.dest[i] == data;
  }
}
