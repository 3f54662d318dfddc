/** The circular reader of libsensors/InputEventReader.cpp: an array of twice the capacity.  The kernel
    may write past the logical end, and what it wrote there is copied down to the start afterwards. */
module InputEventReader {

  const EV_SYN := 0
  const EV_ABS := 3
  const EINVAL := 22

  /** struct input_event, with its time in nanoseconds. */
  datatype InputEvent = InputEvent(kind: int, code: int, value: int, time: int)

  /** What one read() did: whole events; whole events and a piece of a further one; or an error. */
  datatype KernelRead =
    | Data(events: seq<InputEvent>)
    | Torn(events: seq<InputEvent>, piece: InputEvent)
    | Failed(errno: int)

  /** read() transfers no more than it was asked for. */
  predicate FitsIn(r: KernelRead, room: nat) {
    match r
    case Data(es) => |es| <= room
    case Torn(es, _) => |es| < room
    case Failed(e) => e > 0
  }

  /** fill() reads without an error: it has no room and makes no read(), or gets whole events. */
  predicate FillsWith(r: KernelRead, room: nat) { room == 0 || r.Data? }

  function Landed(r: KernelRead, room: nat): seq<InputEvent>
    requires FillsWith(r, room)
  {
    if room == 0 then [] else r.events
  }

  /** Where the position x, counted from the buffer's start, lies in a ring of n. */
  function Wrap(x: int, n: nat): int { if x < n then x else x - n }

  /** The head is where the queue ends, also when it rests exactly at the logical end. */
  lemma SameSlot(n: nat, curr: nat, len: nat, head: nat, i: nat)
    requires curr < n && head <= n && len + i < n
    requires Wrap(head, n) == Wrap(curr + len, n)
    ensures Wrap(curr + (len + i), n) == Wrap(head + i, n)
  {
  }

  /** The ring of n at the start of b, read from curr on, is q. */
  ghost predicate Holds(b: seq<InputEvent>, n: nat, curr: nat, q: seq<InputEvent>)
    requires |b| == 2 * n && |q| <= n && (curr < n || curr == n == 0)
  {
    forall i :: 0 <= i < |q| ==> b[Wrap(curr + i, n)] == q[i]
  }

  /** Events stored from `head` on extend the queue once the s of them past the logical end are copied
      to the start. */
  lemma CopyDownHolds(b: seq<InputEvent>, c: seq<InputEvent>, n: nat, curr: nat, q: seq<InputEvent>,
                      head: nat, es: seq<InputEvent>, s: nat)
    requires |b| == |c| == 2 * n && |q| + |es| <= n && (curr < n || curr == n == 0) && head <= n
    requires Holds(b, n, curr, q) && Wrap(head, n) == Wrap(curr + |q|, n)
    requires forall i :: 0 <= i < |es| ==> b[head + i] == es[i]
    requires s == if head + |es| > n then head + |es| - n else 0
    requires forall i :: 0 <= i < s ==> c[i] == b[n + i]
    requires forall i :: s <= i < |c| ==> c[i] == b[i]
    ensures Holds(c, n, curr, q + es)
  {
    forall i | 0 <= i < |q + es| ensures c[Wrap(curr + i, n)] == (q + es)[i] {
      if i < |q| {
        assert b[Wrap(curr + i, n)] == q[i];
      } else {
        var k := i - |q|;
        SameSlot(n, curr, |q|, head, k);
        assert b[head + k] == es[k];
      }
    }
  }

  class Reader {
    // mBuffer has 2 * capacity elements; the pointers are offsets into it.
    const capacity: nat
    const buffer: array<InputEvent>
    var head: nat
    var curr: nat
    var freeSpace: nat

    // The events read from the kernel and not yet consumed, oldest first.
    ghost var queue: seq<InputEvent>

    ghost predicate Valid()
      reads this, buffer
    {
      && buffer.Length == 2 * capacity
      && freeSpace + |queue| == capacity
      && (curr < capacity || curr == capacity == 0)
      && head <= capacity
      && Wrap(head, capacity) == Wrap(curr + |queue|, capacity)
      && Holds(buffer[..], capacity, curr, queue)
    }

    constructor (numEvents: nat, blank: InputEvent)
      ensures Valid() && fresh(buffer) && capacity == numEvents && queue == []
    {
      capacity := numEvents;
      buffer := new InputEvent[numEvents * 2](_ => blank);
      head, curr, freeSpace := 0, 0, numEvents;
      queue := [];
    }

    /** Appends what the kernel delivered, in order, and loses nothing that is unread.  A torn read is
        reported as an error and everything it transferred is dropped. */
    method Fill(r: KernelRead) returns (n: int)
      requires Valid() && (freeSpace > 0 ==> FitsIn(r, freeSpace))
      modifies this, buffer
      ensures Valid()
      ensures old(freeSpace) == 0 ==> n == 0 && queue == old(queue)
      ensures old(freeSpace) > 0 ==>
                match r
                case Data(es) => n == |es| && queue == old(queue) + es
                case Torn(_, _) => n == -EINVAL && queue == old(queue)
                case Failed(e) => n == -e && queue == old(queue)
    {
      n := 0;
      if freeSpace != 0 {
        if r.Failed? {
          return -r.errno;
        }
        Transfer(if r.Data? then r.events else r.events + [r.piece]);
        if r.Torn? {
          return -EINVAL;
        }
        n := |r.events|;
        if n != 0 {
          Advance(n, r.events);
        }
      }
    }

    /** The kernel's side of read(): stores at the head, within the doubled array, over nothing unread. */
    method Transfer(landed: seq<InputEvent>)
      requires Valid() && |landed| <= freeSpace
      modifies buffer
      ensures Valid()
      ensures forall i :: 0 <= i < |landed| ==> buffer[head + i] == landed[i]
    {
      forall i | 0 <= i < |landed| {
        buffer[head + i] := landed[i];
      }
    }

    /** Accounts for n transferred events and copies what lies past the logical end to the start. */
    method Advance(n: nat, ghost es: seq<InputEvent>)
      requires Valid() && n == |es| <= freeSpace
      requires forall i :: 0 <= i < n ==> buffer[head + i] == es[i]
      modifies this, buffer
      ensures Valid() && queue == old(queue) + es
    {
      ghost var before, h := buffer[..], head;
      head := head + n;
      freeSpace := freeSpace - n;
      var s := 0;
      if head > capacity {
        s := head - capacity;
        forall i | 0 <= i < s {
          buffer[i] := buffer[capacity + i];
        }
        head := s;
      }
      CopyDownHolds(before, buffer[..], capacity, curr, queue, h, es, s);
      queue := queue + es;
    }

    /** Offers the oldest unread event, if there is one. */
    method ReadEvent() returns (available: int, event: nat)
      requires Valid()
      ensures available == if queue == [] then 0 else 1
      ensures queue != [] ==> event < buffer.Length && buffer[event] == queue[0]
    {
      event := curr;
      available := if capacity - freeSpace != 0 then 1 else 0;
    }

    method Next()
      requires Valid() && queue != []
      modifies this
      ensures Valid() && queue == old(queue)[1..]
    {
      curr := curr + 1;
      freeSpace := freeSpace + 1;
      if curr >= capacity {
        curr := 0;
      }
      queue := queue[1..];
    }
  }
}
