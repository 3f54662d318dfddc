/** The heap form of the timer queue in charge_only_mode/alarm.c: a singly linked list, spliced in place.
    Every method is proved to do to the abstract queue what module Alarms says, and to keep the books of
    malloc and free. */
module AlarmList {
  import opened Alarms

  class Node {
    var next: Node?
    // Set once, when the alarm is armed.
    const alarmTime: Time
    const f: Callback
    ghost const serial: nat

    ghost function Datum(): Alarm { Alarm(alarmTime, f, serial) }

    constructor (t: Time, f: Callback, ghost serial: nat)
      ensures next == null && alarmTime == t && this.f == f && this.serial == serial
    {
      next := null;
      alarmTime := t;
      this.f := f;
      this.serial := serial;
    }
  }

  /** The part of the list's consistency that does not look at pointers. */
  ghost predicate Shape(nodes: seq<Node>, q: seq<Alarm>, repr: set<Node>, detached: set<Node>) {
    && |nodes| == |q|
    && (forall i :: 0 <= i < |nodes| ==> nodes[i] in repr && nodes[i] !in detached)
    && (forall i, j :: 0 <= i < j < |nodes| ==> nodes[i] != nodes[j])
    && (forall i :: 0 <= i < |nodes| ==> nodes[i].Datum() == q[i])
  }

  lemma ShapeInsert(nodes: seq<Node>, q: seq<Alarm>, repr: set<Node>, detached: set<Node>, i: nat, a: Node)
    requires Shape(nodes, q, repr, detached) && i <= |nodes| && a in detached
    ensures Shape(nodes[..i] + [a] + nodes[i..], q[..i] + [a.Datum()] + q[i..], repr + {a}, detached - {a})
  {
  }

  /** The new node is none of the others, and each of the others is there once. */
  lemma ShapeApart(nodes: seq<Node>, q: seq<Alarm>, repr: set<Node>, detached: set<Node>, i: nat, a: Node)
    requires Shape(nodes, q, repr, detached) && i <= |nodes| && a in detached
    ensures |q| == |nodes| && forall k :: 0 <= k < |nodes| ==> nodes[k] != a
    ensures i > 0 ==> forall k :: 0 <= k < |nodes| && k != i - 1 ==> nodes[k] != nodes[i - 1]
  {
  }

  lemma ShapeRemove(nodes: seq<Node>, q: seq<Alarm>, repr: set<Node>, detached: set<Node>, i: nat)
    requires Shape(nodes, q, repr, detached) && i < |nodes|
    ensures Shape(nodes[..i] + nodes[i + 1..], q[..i] + q[i + 1..], repr, detached + {nodes[i]})
  {
  }

  class AlarmList {
    var alarms: Node?

    ghost var Repr: set<Node>
    ghost var nodes: seq<Node>
    ghost var queue: Queue
    // The nodes obtained from malloc, not given to free, and not on the list.
    ghost var detached: set<Node>

    // The pointers spell out `nodes`, and the nodes spell out `queue`.
    ghost predicate Valid()
      reads this, Repr
    {
      && Shape(nodes, queue.list, Repr, detached)
      && alarms == (if nodes == [] then null else nodes[0])
      && (forall i {:trigger nodes[i].next} :: 0 <= i < |nodes| - 1 ==> nodes[i].next == nodes[i + 1])
      && (nodes != [] ==> nodes[|nodes| - 1].next == null)
    }

    constructor ()
      ensures Valid() && queue == Queue([], 0) && nodes == [] && detached == {} && Repr == {}
    {
      alarms := null;
      nodes := [];
      Repr := {};
      queue := Queue([], 0);
      detached := {};
    }

    method SetRelative(f: Callback, ms: int, clock: Time)
      requires Valid()
      modifies this, Repr
      ensures Valid()
      ensures queue == Apply(old(queue), Set(f, ms, clock))
      ensures fresh(Repr - old(Repr))
      ensures detached == old(detached)
    {
      var t := Time(clock.sec, clock.usec + ms * 1000);
      if t.usec >= USEC_PER_SEC {
        t := Time(t.sec + t.usec / USEC_PER_SEC, t.usec % USEC_PER_SEC);
      }
      assert t == Deadline(clock, ms);
      var a := new Node(t, f, queue.issued);
      detached := detached + {a};

      var p: Node? := null;
      var c := alarms;
      ghost var i := 0;
      while c != null
        invariant i <= |nodes|
        invariant c == if i < |nodes| then nodes[i] else null
        invariant p == if i == 0 then null else nodes[i - 1]
        invariant forall k :: 0 <= k < i ==> !Before(t, queue.list[k].time)
        decreases |nodes| - i
      {
        if c.alarmTime.sec > t.sec {
          break;
        }
        if c.alarmTime.sec == t.sec && c.alarmTime.usec > t.usec {
          break;
        }
        p := c;
        c := c.next;
        i := i + 1;
      }

      ghost var al := Alarm(t, f, queue.issued);
      InsertAt(queue.list, al, i);
      Splice(a, p, i, al);
    }

    /** Links the new node `a` behind `p`, or at the head. */
    method Splice(a: Node, p: Node?, ghost i: nat, ghost al: Alarm)
      requires Valid() && a in detached && a.Datum() == al
      requires i <= |nodes|
      requires p == if i == 0 then null else nodes[i - 1]
      modifies this, a, p
      ensures Valid()
      ensures Repr == old(Repr) + {a}
      ensures nodes == old(nodes[..i] + [a] + nodes[i..])
      ensures queue == Queue(old(queue.list[..i] + [al] + queue.list[i..]), old(queue.issued) + 1)
      ensures detached == old(detached) - {a}
    {
      ghost var ns := nodes[..i] + [a] + nodes[i..];
      ghost var qs := queue.list[..i] + [al] + queue.list[i..];
      ShapeInsert(nodes, queue.list, Repr, detached, i, a);
      ShapeApart(nodes, queue.list, Repr, detached, i, a);
      hide Shape;
      Link(a, p);
      assert a.next == if i < |nodes| then nodes[i] else null;
      assert forall k :: 0 <= k < i ==> ns[k] == nodes[k];
      assert forall k :: i < k < |ns| ==> ns[k] == nodes[k - 1];
      Adopt(a, ns, qs);
    }

    /** Bookkeeping: the pointers spell out `ns` now. */
    ghost method Adopt(a: Node, ns: seq<Node>, qs: seq<Alarm>)
      requires Shape(ns, qs, Repr + {a}, detached - {a})
      requires ns != [] && alarms == ns[0] && ns[|ns| - 1].next == null
      requires forall k {:trigger ns[k].next} :: 0 <= k < |ns| - 1 ==> ns[k].next == ns[k + 1]
      modifies this`nodes, this`queue, this`detached, this`Repr
      ensures Valid() && nodes == ns && queue == Queue(qs, old(queue.issued) + 1)
      ensures Repr == old(Repr) + {a} && detached == old(detached) - {a}
    {
      hide Shape;
      nodes := ns;
      queue := Queue(qs, queue.issued + 1);
      detached := detached - {a};
      Repr := Repr + {a};
    }

    method Link(a: Node, p: Node?)
      requires a != p
      modifies this`alarms, a, p
      ensures p == null ==> alarms == a && a.next == old(alarms)
      ensures p != null ==> alarms == old(alarms) && p.next == a && a.next == old(p.next)
    {
      if p == null {
        a.next := alarms;
        alarms := a;
      } else {
        a.next := p.next;
        p.next := a;
      }
    }

    /** Takes the node `a` off the list, given the node before it, and frees it. */
    method Discard(a: Node, p: Node?, ghost i: nat)
      requires Valid()
      requires i < |nodes| && a == nodes[i]
      requires p == if i == 0 then null else nodes[i - 1]
      modifies this, p
      ensures Valid()
      ensures Repr == old(Repr)
      ensures nodes == old(nodes[..i] + nodes[i + 1..])
      ensures queue == Queue(old(queue.list[..i] + queue.list[i + 1..]), old(queue.issued))
      ensures detached == old(detached)
    {
      ShapeRemove(nodes, queue.list, Repr, detached, i);
      if p != null {
        p.next := a.next;
      } else {
        alarms := a.next;
      }
      nodes := nodes[..i] + nodes[i + 1..];
      queue := Queue(queue.list[..i] + queue.list[i + 1..], queue.issued);
      detached := detached + {a};
      Free(a);
    }

    method Cancel(f: Callback) returns (cancelled: nat)
      requires Valid()
      modifies this, Repr
      ensures Valid()
      ensures queue == Apply(old(queue), Action.Cancel(f))
      ensures cancelled == Count(old(queue.list), f)
      ensures Repr == old(Repr)
      ensures detached == old(detached)
    {
      hide Scanned, Without, Count;
      cancelled := 0;
      var p: Node? := null;
      var c := alarms;
      ghost var i: nat := 0;
      ScanStarts(queue.list, f);
      while c != null
        invariant Valid() && i <= |nodes|
        invariant Scanned(old(queue.list), f, queue.list, i, cancelled)
        invariant c == if i < |nodes| then nodes[i] else null
        invariant p == if i == 0 then null else nodes[i - 1]
        invariant queue.issued == old(queue.issued)
        invariant Repr == old(Repr)
        invariant detached == old(detached)
        decreases |nodes| - i
      {
        if c.f == f {
          var a := c;
          c := c.next;
          ScanRemoves(old(queue.list), f, queue.list, i, cancelled);
          Discard(a, p, i);
          cancelled := cancelled + 1;
          continue;
        }
        ScanKeeps(old(queue.list), f, queue.list, i, cancelled);
        p := c;
        c := c.next;
        i := i + 1;
      }
      ScanEnds(old(queue.list), f, queue.list, i, cancelled);
    }

    method TimeUntilNext(clock: Time) returns (delta: int)
      requires Valid()
      ensures delta == if queue.list == [] then 0x7fffffff else MillisUntil(queue.list[0].time, clock)
    {
      if alarms == null {
        return 0x7fffffff;
      }
      delta := (alarms.alarmTime.sec - clock.sec) * 1000 + Truncated(alarms.alarmTime.usec - clock.usec, 1000);
    }

    /** The loop head of alarm_process: the head is unlinked if it has expired, and is now the caller's. */
    method TakeDue(now: Time) returns (a: Node?)
      requires Valid()
      modifies this
      ensures Valid() && Repr == old(Repr)
      ensures a == null <==> Due(old(queue.list), now) == []
      ensures a == null ==> queue == old(queue) && nodes == old(nodes) && detached == old(detached)
      ensures a != null ==>
                && old(nodes) == [a] + nodes
                && a.Datum() == old(queue.list[0])
                && queue == Queue(old(queue.list)[1..], old(queue.issued))
                && a !in old(detached) && detached == old(detached) + {a}
    {
      a := alarms;
      if a == null {
        return null;
      }
      if now.sec < a.alarmTime.sec {
        return null;
      }
      if now.sec == a.alarmTime.sec && now.usec < a.alarmTime.usec {
        return null;
      }
      alarms := a.next;
      nodes := nodes[1..];
      queue := Queue(queue.list[1..], queue.issued);
      detached := detached + {a};
    }

    /** free(): the node must be allocated and off the list, so nothing is freed twice or while linked. */
    method Free(a: Node)
      requires Valid() && a in detached
      modifies this`detached
      ensures Valid() && detached == old(detached) - {a}
    {
      detached := detached - {a};
    }
  }

  /** Half way through a cancellation: the first `i` of the remaining alarms are kept. */
  ghost predicate Scanned(before: seq<Alarm>, f: Callback, q: seq<Alarm>, i: nat, cancelled: nat) {
    && i <= |q|
    && (forall k :: 0 <= k < i ==> q[k].f != f)
    && Without(q, f) == Without(before, f)
    && cancelled + Count(q, f) == Count(before, f)
  }

  lemma ScanStarts(q: seq<Alarm>, f: Callback)
    ensures Scanned(q, f, q, 0, 0)
  {
  }

  lemma ScanKeeps(before: seq<Alarm>, f: Callback, q: seq<Alarm>, i: nat, cancelled: nat)
    requires Scanned(before, f, q, i, cancelled) && i < |q| && q[i].f != f
    ensures Scanned(before, f, q, i + 1, cancelled)
  {
  }

  lemma ScanEnds(before: seq<Alarm>, f: Callback, q: seq<Alarm>, i: nat, cancelled: nat)
    requires Scanned(before, f, q, i, cancelled) && i == |q|
    ensures q == Without(before, f) && cancelled == Count(before, f)
  {
    WithoutNone(q, f);
  }

  lemma ScanRemoves(before: seq<Alarm>, f: Callback, q: seq<Alarm>, i: nat, cancelled: nat)
    requires Scanned(before, f, q, i, cancelled) && i < |q| && q[i].f == f
    ensures Scanned(before, f, q[..i] + q[i + 1..], i, cancelled + 1)
  {
    var l, a, r := q[..i], q[i], q[i + 1..];
    assert q == l + ([a] + r);
    WithoutConcat(l, [a] + r, f);
    WithoutConcat([a], r, f);
    WithoutConcat(l, r, f);
  }
}
