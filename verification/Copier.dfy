/** The copier's globals and the sections of code that update them, one method per
    section, each the step of the same name of the protocol. */
module Copier {
  import opened CopyQueue
  import opened CopyProtocol

  class Pool {
    const jobs: seq<Job>
    const sources: seq<seq<int>>
    const buffer: Buffer
    var next: nat
    var done: bool
    var workers: seq<Worker>
    var dest: seq<seq<int>>
    var totalBytesCopied: int
    ghost var taken: seq<Job>

    ghost predicate Valid()
      reads this, buffer
    {
      buffer.Valid()
    }

    ghost function View(): State
      reads this, buffer, buffer.buffer
      requires Valid()
    {
      State(jobs, sources, buffer.size, next, done, buffer.Contents(), taken, workers, dest, totalBytesCopied)
    }

    constructor (jobs: seq<Job>, sources: seq<seq<int>>, bufferSize: nat, numOfWorker: nat)
      requires 0 < bufferSize
      ensures Valid() && fresh(buffer) && fresh(buffer.buffer)
      ensures View() == Init(jobs, sources, bufferSize, numOfWorker)
    {
      this.jobs, this.sources := jobs, sources;
      next, done, totalBytesCopied, taken := 0, false, 0, [];
      workers := seq(numOfWorker, _ => Testing);
      dest := seq(|sources|, _ => []);
      buffer := new Buffer(bufferSize);
    }

    /** The walk queues its next file, unless the ring is full. */
    method Produce() returns (ran: bool)
      requires Valid()
      modifies this`next, buffer, buffer.buffer
      ensures Valid()
      ensures ran <==> Enabled(old(View()), CopyProtocol.Produce)
      ensures View() == if ran then Apply(old(View()), CopyProtocol.Produce) else old(View())
    {
      ran := false;
      if next < |jobs| && !done && buffer.bufferSizeCounter != buffer.size {
        ran := buffer.Put(jobs[next]);
        next := next + 1;
      }
    }

    method Finish() returns (ran: bool)
      requires Valid()
      modifies this`done
      ensures Valid()
      ensures ran <==> Enabled(old(View()), CopyProtocol.Finish)
      ensures View() == if ran then Apply(old(View()), CopyProtocol.Finish) else old(View())
    {
      ran := next == |jobs| && !done;
      if ran {
        done := true;
      }
    }

    method Test(w: nat) returns (ran: bool)
      requires Valid()
      modifies this`workers
      ensures Valid()
      ensures ran <==> WorkerCan(old(View()), w, CopyProtocol.Test)
      ensures View() == if ran then WorkerDoes(old(View()), w, CopyProtocol.Test) else old(View())
    {
      ran := w < |workers| && workers[w].Testing?;
      if ran {
        workers := workers[w := if !done || buffer.bufferSizeCounter != 0 then Inside else Exited];
      }
    }

    /** The critical section of a worker: take a file, or leave when the ring is
        empty and the flag is up, or go on waiting. */
    method Section(w: nat) returns (ran: bool)
      requires Valid()
      modifies this`workers, this`taken, buffer
      ensures Valid()
      ensures ran <==> WorkerCan(old(View()), w, Dequeue) || WorkerCan(old(View()), w, Leave)
      ensures View() == if WorkerCan(old(View()), w, Dequeue) then WorkerDoes(old(View()), w, Dequeue)
                        else if WorkerCan(old(View()), w, Leave) then WorkerDoes(old(View()), w, Leave)
                        else old(View())
    {
      ran := false;
      if w < |workers| && workers[w].Inside? {
        if buffer.bufferSizeCounter == 0 {
          if done {
            workers := workers[w := Exited];
            ran := true;
          }
        } else {
          var item := buffer.Get();
          taken := taken + [item];
          workers := workers[w := Copying(item, 0)];
          ran := true;
        }
      }
    }

    method Read(w: nat, k: nat) returns (ran: bool)
      requires Valid()
      modifies this`workers
      ensures Valid()
      ensures ran <==> WorkerCan(old(View()), w, CopyProtocol.Read(k))
      ensures View() == if ran then WorkerDoes(old(View()), w, CopyProtocol.Read(k)) else old(View())
    {
      ran := w < |workers| && workers[w].Copying? && workers[w].job.fd < |sources|
             && 1 <= k <= CHUNK && workers[w].off + k <= |sources[workers[w].job.fd]|;
      if ran {
        workers := workers[w := Adding(workers[w].job, workers[w].off, k, totalBytesCopied)];
      }
    }

    method Store(w: nat) returns (ran: bool)
      requires Valid()
      modifies this`workers, this`dest, this`totalBytesCopied
      ensures Valid()
      ensures ran <==> WorkerCan(old(View()), w, CopyProtocol.Store)
      ensures View() == if ran then WorkerDoes(old(View()), w, CopyProtocol.Store) else old(View())
    {
      ran := w < |workers| && workers[w].Adding? && workers[w].job.fd < |sources| && workers[w].job.fd < |dest|
             && workers[w].off + workers[w].k <= |sources[workers[w].job.fd]|;
      if ran {
        var c := workers[w];
        totalBytesCopied := c.seen + c.k;
        dest := dest[c.job.fd := dest[c.job.fd] + sources[c.job.fd][c.off..c.off + c.k]];
        workers := workers[w := Copying(c.job, c.off + c.k)];
      }
    }

    method Eof(w: nat) returns (ran: bool)
      requires Valid()
      modifies this`workers
      ensures Valid()
      ensures ran <==> WorkerCan(old(View()), w, CopyProtocol.Eof)
      ensures View() == if ran then WorkerDoes(old(View()), w, CopyProtocol.Eof) else old(View())
    {
      ran := w < |workers| && workers[w].Copying? && workers[w].job.fd < |sources|
             && workers[w].off == |sources[workers[w].job.fd]|;
      if ran {
        workers := workers[w := Testing];
      }
    }

    /** The copy loop of a worker when no other thread comes in between: however the
        reads are cut, the file arrives whole and is counted whole. */
    method CopyLoop(w: nat)
      requires Valid() && w < |workers| && workers[w].Copying? && workers[w].off == 0
      requires workers[w].job.fd < |sources| == |dest| && dest[workers[w].job.fd] == []
      modifies this`workers, this`dest, this`totalBytesCopied
      ensures Valid() && workers == old(workers)[w := Testing]
      ensures dest == old(dest)[old(workers)[w].job.fd := sources[old(workers)[w].job.fd]]
      ensures totalBytesCopied == old(totalBytesCopied) + |sources[old(workers)[w].job.fd]|
    {
      var fd := workers[w].job.fd;
      var off := 0;
      while off < |sources[fd]|
        invariant off <= |sources[fd]| && workers == old(workers)[w := Copying(old(workers)[w].job, off)]
        invariant dest == old(dest)[fd := sources[fd][..off]]
        invariant totalBytesCopied == old(totalBytesCopied) + off
      {
        var k :| 1 <= k <= CHUNK && off + k <= |sources[fd]|;
        ghost var before := View();
        var ran := Read(w, k);
        ran := Store(w);
        assert workers == before.workers[w := Copying(old(workers)[w].job, off + k)];
        assert sources[fd][..off] + sources[fd][off..off + k] == sources[fd][..off + k];
        off := off + k;
      }
      assert sources[fd][..off] == sources[fd];
      var ran := Eof(w);
    }
  }
}
