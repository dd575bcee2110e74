/** The bounded ring buffer (src/ioqueue.c) as one thread sees it while it holds the lock.

    A method here is one pass through a critical section: the test of the wait loop, then either
    nothing, because the thread goes back to sleep, or the update.  Sleeping, waking and interleaving
    are the subject of module IoQueueProtocol. */
module IoQueues {
  import opened Optional
  import opened IoQueueProtocol

  /** Slot `k` places round the ring; the ring is never lapped twice. */
  function Wrap(k: nat, cap: nat): (slot: nat)
    requires 0 < cap && k < 2 * cap
    ensures slot == if k < cap then k else k - cap
  {
    if cap <= k then
      assert k == cap * 1 + (k - cap);
      k % cap
    else k % cap
  }

  class IoQueue<T> {
    const buf: array<T>
    const cap: nat
    var head: nat
    var tail: nat
    var count: nat
    var closed: bool

    ghost predicate Valid()
      reads this
    {
      && 0 < cap == buf.Length
      && head < cap && tail < cap && count <= cap
      && tail == Wrap(head + count, cap)
    }

    /** The items waiting, oldest first. */
    ghost function Contents(): (s: seq<T>)
      reads this, buf
      requires Valid()
      ensures |s| == count
    {
      if head + count <= cap then buf[head..head + count] else buf[head..] + buf[..head + count - cap]
    }

    /** The monitor state this buffer stands for, as far as a thread that holds the lock can see. */
    ghost function View(): Monitor<T>
      reads this, buf
      requires Valid()
    {
      Monitor(cap, Contents(), closed, {}, {}, {}, {})
    }

    /** Every caller passes a positive capacity: 512, or the number of workers. */
    constructor (capacity: nat, blank: T)
      requires capacity > 0
      ensures Valid() && fresh(buf) && Contents() == [] && cap == capacity && !closed
    {
      buf := new T[capacity](_ => blank);
      cap := capacity;
      head, tail, count, closed := 0, 0, 0, false;
    }

    method TryPut(item: T) returns (full: bool)
      requires Valid()
      modifies this`tail, this`count, buf
      ensures Valid()
      ensures full <==> |old(Contents())| == cap
      ensures Contents() == if full then old(Contents()) else old(Contents()) + [item]
      ensures View().items == Step(old(View()), IoQueueProtocol.TryPut(0, item, None)).items
    {
      if count == cap { return true; }
      ghost var before := Contents();
      buf[tail] := item;
      tail := Wrap(tail + 1, cap);
      count := count + 1;
      full := false;
      assert Contents() == before + [item];
    }

    method TryGet() returns (r: Attempt<T>)
      requires Valid()
      modifies this`head, this`count
      ensures Valid()
      ensures r == GetOutcome(old(Contents()), closed)
      ensures Contents() == if r.Got? then old(Contents())[1..] else old(Contents())
      ensures View().items == Step(old(View()), IoQueueProtocol.TryGet(0, None)).items
    {
      if count == 0 {
        return if closed then Drained else MustWait;
      }
      ghost var before := Contents();
      assert buf[head] == before[0];
      r := Got(buf[head]);
      head := Wrap(head + 1, cap);
      count := count - 1;
      assert Contents() == before[1..];
    }

    method Close()
      requires Valid()
      modifies this`closed
      ensures Valid() && closed && Contents() == old(Contents())
      ensures View() == Step(old(View()), IoQueueProtocol.Close(0))
    {
      closed := true;
    }
  }
}
