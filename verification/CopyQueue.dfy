/** The ring buffer of the directory copier.  Its operations move the two ends;
    the number of elements is kept by their callers, in the same critical section. */
module CopyQueue {
  import RingQueue

  /** One file to copy: its names and the pair of descriptors opened for it. */
  datatype Job = Job(src: string, dst: string, fd: nat)

  const NO_JOB := Job("", "", 0)

  /** The `count` elements of the ring that start at `first`. */
  function Window(ring: seq<Job>, first: nat, count: nat): (s: seq<Job>)
    requires first < |ring| && count <= |ring|
    ensures |s| == count
  {
    seq(count, k requires 0 <= k < count => ring[RingQueue.Slot(first, k, |ring|)])
  }

  class Buffer {
    const buffer: array<Job>
    const size: nat
    var counter: nat                // where the next element leaves
    var last: nat                   // where the next element enters
    var bufferSizeCounter: nat      // kept by the callers

    ghost predicate Valid()
      reads this
    {
      && buffer.Length == size && 0 < size
      && counter < size && last < size && bufferSizeCounter <= size
      && last == RingQueue.Slot(counter, bufferSizeCounter, size)
    }

    ghost function Contents(): (s: seq<Job>)
      reads this, buffer
      requires Valid()
      ensures |s| == bufferSizeCounter
    {
      Window(buffer[..], counter, bufferSizeCounter)
    }

    constructor (len: nat)
      requires 0 < len
      ensures Valid() && fresh(buffer) && size == len && Contents() == []
    {
      size := len;
      counter, last, bufferSizeCounter := 0, 0, 0;
      buffer := new Job[len](_ => NO_JOB);
    }

    /** Writes the element and moves the entering end; refuses when the count says full. */
    method Enqueue(element: Job) returns (ok: bool)
      requires Valid()
      modifies this`last, buffer
      ensures ok <==> bufferSizeCounter < size
      ensures !ok ==> last == old(last) && buffer[..] == old(buffer[..])
      ensures ok ==> buffer[..] == old(buffer[..])[old(last) := element]
      ensures ok ==> last == if old(last) + 1 == size then 0 else old(last) + 1
    {
      if bufferSizeCounter == size {
        return false;
      }
      buffer[last] := element;
      RingQueue.Wraps(last + 1, size);
      last := (last + 1) % size;
      ok := true;
    }

    /** Moves the leaving end, without any check. */
    method Dequeue() returns (element: Job)
      requires Valid()
      modifies this`counter
      ensures element == buffer[old(counter)]
      ensures counter == if old(counter) + 1 == size then 0 else old(counter) + 1
    {
      var temp := counter;
      RingQueue.Wraps(counter + 1, size);
      counter := (counter + 1) % size;
      element := buffer[temp];
    }

    /** The producer's section: an enqueue that succeeds is counted. */
    method Put(element: Job) returns (ok: bool)
      requires Valid()
      modifies this, buffer
      ensures Valid()
      ensures ok <==> |old(Contents())| < size
      ensures Contents() == if ok then old(Contents()) + [element] else old(Contents())
    {
      ok := Enqueue(element);
      if ok {
        bufferSizeCounter := bufferSizeCounter + 1;
        assert Contents()[..bufferSizeCounter - 1] == old(Contents());
      }
    }

    /** A worker's section, behind its wait for a count that is not zero. */
    method Get() returns (element: Job)
      requires Valid() && |Contents()| > 0
      modifies this
      ensures Valid()
      ensures [element] + Contents() == old(Contents())
    {
      assert Contents()[0] == buffer[counter];
      element := Dequeue();
      bufferSizeCounter := bufferSizeCounter - 1;
      assert Contents() == old(Contents())[1..];
    }
  }
}
