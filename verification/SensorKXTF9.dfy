/** The accelerometer of libsensors/SensorKXTF9.cpp: one record, delivered at every SYN. */
module SensorKXTF9 {
  import opened InputEventReader
  import opened SensorAK8973

  /** processEvent: ABS_X, ABS_Y, ABS_Z; ABS_MISC is dropped and other codes are only logged. */
  function Axis(last: Reading, code: int, value: int): Reading {
    match code
    case 0x00 => last.(x := Scaled(value, CONVERT_A))
    case 0x01 => last.(y := Scaled(value, CONVERT_A))
    case 0x02 => last.(z := Scaled(value, CONVERT_A))
    case _ => last
  }

  /** One pass over a stream with unlimited room: the record afterwards, and what is delivered. */
  function LastAfter(last: Reading, es: seq<InputEvent>): Reading
    decreases es
  {
    if es == [] then last
    else if es[0].kind == EV_ABS then LastAfter(Axis(last, es[0].code, es[0].value), es[1..])
    else if es[0].kind == EV_SYN then LastAfter(last.(timestamp := es[0].time), es[1..])
    else LastAfter(last, es[1..])
  }

  function All(last: Reading, es: seq<InputEvent>): seq<SensorEvent>
    decreases es
  {
    if es == [] then []
    else if es[0].kind == EV_ABS then All(Axis(last, es[0].code, es[0].value), es[1..])
    else if es[0].kind == EV_SYN then
      var r := last.(timestamp := es[0].time);
      [SensorEvent(ACCELEROMETER, r)] + All(r, es[1..])
    else All(last, es[1..])
  }

  /** How many of the oldest events a call with this much room consumes. */
  function Consumed(q: seq<InputEvent>, room: nat): (n: nat)
    ensures n <= |q|
    decreases q
  {
    if room == 0 || q == [] then 0
    else 1 + Consumed(q[1..], if q[0].kind == EV_SYN then room - 1 else room)
  }

  /** The driver between two calls: its unread events and its record. */
  datatype Sampler = Sampler(queue: seq<InputEvent>, last: Reading)

  /** One readEvents, if fill() does not fail. */
  function Sampled(h: Sampler, arrived: seq<InputEvent>, room: nat): (seq<SensorEvent>, Sampler) {
    var q := h.queue + arrived;
    var k := Consumed(q, room);
    (All(h.last, q[..k]), Sampler(q[k..], LastAfter(h.last, q[..k])))
  }

  function Syns(q: seq<InputEvent>): nat {
    if q == [] then 0 else (if q[0].kind == EV_SYN then 1 else 0) + Syns(q[1..])
  }

  /** A call stops right behind the SYN that fills its room, or at the end of the buffer; it delivers one
      record for every SYN it consumes. */
  lemma {:induction false} ConsumesByGroups(last: Reading, q: seq<InputEvent>, room: nat)
    ensures var n := Consumed(q, room);
            && |All(last, q[..n])| == Syns(q[..n]) <= room
            && (Syns(q[..n]) < room ==> n == |q|)
            && (0 < Syns(q[..n]) == room ==> q[n - 1].kind == EV_SYN)
    decreases q
  {
    var n := Consumed(q, room);
    if n > 0 {
      var room' := if q[0].kind == EV_SYN then room - 1 else room;
      var last' := if q[0].kind == EV_ABS then Axis(last, q[0].code, q[0].value)
                   else if q[0].kind == EV_SYN then last.(timestamp := q[0].time) else last;
      ConsumesByGroups(last', q[1..], room');
      assert q[..n][0] == q[0] && q[..n][1..] == q[1..][..n - 1];
    } else {
      assert q[..n] == [];
    }
  }

  lemma {:induction false} AllConcat(last: Reading, a: seq<InputEvent>, b: seq<InputEvent>)
    ensures All(last, a + b) == All(last, a) + All(LastAfter(last, a), b)
    ensures LastAfter(last, a + b) == LastAfter(LastAfter(last, a), b)
    decreases a
  {
    if a == [] {
      assert a + b == b;
    } else {
      var s := a + b;
      assert s[0] == a[0] && s[1..] == a[1..] + b;
      var last' := if a[0].kind == EV_ABS then Axis(last, a[0].code, a[0].value)
                   else if a[0].kind == EV_SYN then last.(timestamp := a[0].time) else last;
      AllConcat(last', a[1..], b);
    }
  }

  lemma ConsumedNext(q: seq<InputEvent>, room: nat, i: nat, done: nat)
    requires i < |q| && done < room
    ensures Consumed(q[i..], room - done)
         == 1 + Consumed(q[i + 1..], if q[i].kind == EV_SYN then room - done - 1 else room - done)
  {
    assert q[i..][1..] == q[i + 1..];
  }

  lemma OneMore(last: Reading, q: seq<InputEvent>, i: nat)
    requires i < |q|
    ensures var l, e := LastAfter(last, q[..i]), q[i];
            && (e.kind == EV_ABS ==>
                  LastAfter(last, q[..i + 1]) == Axis(l, e.code, e.value) && All(last, q[..i + 1]) == All(last, q[..i]))
            && (e.kind == EV_SYN ==>
                  && LastAfter(last, q[..i + 1]) == l.(timestamp := e.time)
                  && All(last, q[..i + 1]) == All(last, q[..i]) + [SensorEvent(ACCELEROMETER, l.(timestamp := e.time))])
            && (e.kind != EV_ABS && e.kind != EV_SYN ==>
                  LastAfter(last, q[..i + 1]) == l && All(last, q[..i + 1]) == All(last, q[..i]))
  {
    AllConcat(last, q[..i], [q[i]]);
    assert q[..i] + [q[i]] == q[..i + 1];
    assert [q[i]][1..] == [];
  }

  /** A call with room for `count` has consumed i events of q, and has `room` left. */
  ghost predicate Delivering(q: seq<InputEvent>, first: Reading, count: nat, i: nat, room: nat,
                             data: seq<SensorEvent>, last: Reading)
  {
    && i <= |q| && room <= count && i + Consumed(q[i..], room) == Consumed(q, count)
    && data == All(first, q[..i]) && last == LastAfter(first, q[..i])
  }

  lemma DeliveringStarts(q: seq<InputEvent>, first: Reading, count: nat)
    ensures Delivering(q, first, count, 0, count, [], first)
  {
    assert q[0..] == q && q[..0] == [];
  }

  lemma DeliveringNext(q: seq<InputEvent>, first: Reading, count: nat, i: nat, room: nat,
                       data: seq<SensorEvent>, last: Reading, e: InputEvent)
    requires Delivering(q, first, count, i, room, data, last) && i < |q| && room > 0 && e == q[i]
    ensures e.kind == EV_ABS ==> Delivering(q, first, count, i + 1, room, data, Axis(last, e.code, e.value))
    ensures e.kind == EV_SYN ==>
              var r := last.(timestamp := e.time);
              Delivering(q, first, count, i + 1, room - 1, data + [SensorEvent(ACCELEROMETER, r)], r)
    ensures e.kind != EV_ABS && e.kind != EV_SYN ==> Delivering(q, first, count, i + 1, room, data, last)
  {
    hide Consumed, All, LastAfter, Axis;
    ConsumedNext(q, room, i, 0);
    OneMore(first, q, i);
  }

  lemma DeliveringEnds(q: seq<InputEvent>, first: Reading, count: nat, i: nat, room: nat,
                       data: seq<SensorEvent>, last: Reading)
    requires Delivering(q, first, count, i, room, data, last) && (room == 0 || i == |q|)
    ensures i == Consumed(q, count) && data == All(first, q[..i]) && last == LastAfter(first, q[..i])
  {
    hide All, LastAfter;
  }

  class Sensor {
    const reader: Reader
    var last: Reading

    ghost predicate Valid()
      reads this, reader, reader.buffer
    {
      reader.Valid() && reader.capacity == CAPACITY
    }

    ghost function Now(): Sampler
      reads this, reader
    {
      Sampler(reader.queue, last)
    }

    constructor (initial: Reading, blank: InputEvent)
      ensures Valid() && fresh(reader) && fresh(reader.buffer) && Now() == Sampler([], initial)
    {
      reader := new Reader(CAPACITY, blank);
      last := initial;
    }

    /** The delivery loop of readEvents. */
    method Deliver(count: nat) returns (data: seq<SensorEvent>)
      requires Valid()
      modifies this`last, reader
      ensures Valid()
      ensures (data, Now()) == Sampled(old(Now()), [], count)
    {
      hide Delivering, Consumed, All, LastAfter, Axis;
      assert reader.queue + [] == reader.queue;
      ghost var q, first := reader.queue, last;
      ghost var i: nat := 0;
      data := [];
      var room: nat := count;
      assert q[0..] == q;
      DeliveringStarts(q, first, count);
      while room != 0
        invariant Valid() && i <= |q| && reader.queue == q[i..]
        invariant Delivering(q, first, count, i, room, data, last)
        decreases |q| - i
      {
        var available, at := reader.ReadEvent();
        if available == 0 {
          break;
        }
        var event := reader.buffer[at];
        DeliveringNext(q, first, count, i, room, data, last, event);
        if event.kind == EV_ABS {
          last := Axis(last, event.code, event.value);
        } else if event.kind == EV_SYN {
          last := last.(timestamp := event.time);
          data := data + [SensorEvent(ACCELEROMETER, last)];
          room := room - 1;
        }
        reader.Next();
        i := i + 1;
      }
      DeliveringEnds(q, first, count, i, room, data, last);
    }

    /** readEvents: the call consumes a stretch of the buffer and delivers what one pass over it emits. */
    method ReadEvents(count: int, read: KernelRead) returns (n: int, data: seq<SensorEvent>)
      requires Valid() && (reader.freeSpace > 0 ==> FitsIn(read, reader.freeSpace))
      modifies this`last, reader, reader.buffer
      ensures Valid()
      ensures count < 1 ==> n == -EINVAL && data == [] && Now() == old(Now())
      ensures count >= 1 && FillsWith(read, old(reader.freeSpace)) ==>
                (data, Now()) == Sampled(old(Now()), Landed(read, old(reader.freeSpace)), count) && n == |data|
      ensures count >= 1 && !FillsWith(read, old(reader.freeSpace)) ==> n < 0 && data == [] && Now() == old(Now())
    {
      data := [];
      if count < 1 {
        return -EINVAL, data;
      }
      n := reader.Fill(read);
      if n < 0 {
        return n, data;
      }
      assert reader.queue == old(reader.queue) + Landed(read, old(reader.freeSpace));
      assert reader.queue + [] == reader.queue;
      data := Deliver(count);
      n := |data|;
    }
  }
}
