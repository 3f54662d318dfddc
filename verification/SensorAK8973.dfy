/** The compass demultiplexer of libsensors/SensorAK8973.cpp.  Axis events collect in one record per
    sensor; a SYN delivers the records that changed.  A caller with little room cuts a SYN short, and the
    next call takes it up again.  Here: what one call does, and that the cutting cannot be observed. */
module SensorAK8973 {
  import opened InputEventReader

  // The slots of the input reader.
  const CAPACITY := 32

  const NUM_SENSORS := 4
  const ACCELEROMETER := 0
  const MAGNETIC_FIELD := 1
  const ORIENTATION := 2
  const TEMPERATURE := 3

  const GRAVITY_EARTH := 9.80665
  const CONVERT_A := GRAVITY_EARTH / 1000.0
  const CONVERT_M := 1.0 / 16.0
  const CONVERT_O := 1.0 / 64.0

  /** The part of sensors_event_t that varies.  x, y and z are also azimuth, pitch and roll; x is also
      the temperature. */
  datatype Reading = Reading(x: real, y: real, z: real, status: int, timestamp: int)

  datatype SensorEvent = SensorEvent(sensor: int, reading: Reading)

  /** mPendingMask, bit by bit, and mPendingEvents. */
  datatype Raw = Raw(mask: seq<bool>, slots: seq<Reading>)
  type Pending = p: Raw | |p.mask| == NUM_SENSORS && |p.slots| == NUM_SENSORS
    witness Raw([false, false, false, false],
                [Reading(0.0, 0.0, 0.0, 3, 0), Reading(0.0, 0.0, 0.0, 3, 0),
                 Reading(0.0, 0.0, 0.0, 3, 0), Reading(0.0, 0.0, 0.0, 0, 0)])

  type Enabled = e: seq<bool> | |e| == NUM_SENSORS witness [false, false, false, false]

  predicate AnyPending(p: Pending) {
    p.mask[0] || p.mask[1] || p.mask[2] || p.mask[3]
  }

  // ---------------------------------------------------------------- axis events

  datatype Field = X | Y | Z | Status

  datatype Target = Nowhere | At(sensor: nat, field: Field)

  /** The record and field an axis code stands for.  The codes are ABS_X to ABS_HAT0Y of linux/input.h;
      others are only logged. */
  function TargetOf(code: int): (t: Target)
    ensures t.At? ==> t.sensor < NUM_SENSORS
  {
    match code
    case 0x00 => At(ACCELEROMETER, X)
    case 0x01 => At(ACCELEROMETER, Y)
    case 0x02 => At(ACCELEROMETER, Z)
    case 0x08 => At(ACCELEROMETER, Status)
    case 0x10 => At(MAGNETIC_FIELD, X)
    case 0x11 => At(MAGNETIC_FIELD, Y)
    case 0x0a => At(MAGNETIC_FIELD, Z)
    case 0x03 => At(ORIENTATION, X)
    case 0x04 => At(ORIENTATION, Y)
    case 0x05 => At(ORIENTATION, Z)
    case 0x07 => At(ORIENTATION, Status)
    case 0x06 => At(TEMPERATURE, X)
    case _ => Nowhere
  }

  function Scaled(value: int, factor: real): real { value as real * factor }

  function Azimuth(value: int): real {
    var converted := Scaled(value, CONVERT_O);
    if converted > 359.98 then 0.0 else converted
  }

  function Roll(value: int): real {
    var converted := Scaled(value, -CONVERT_O);
    if converted > 90.0 then 90.0 else if converted < -90.0 then -90.0 else converted
  }

  function Converted(t: Target, value: int): real {
    match t
    case At(0, _) => Scaled(value, CONVERT_A)
    case At(1, X) => Scaled(value, CONVERT_M)
    case At(1, _) => Scaled(value, -CONVERT_M)
    case At(2, X) => Azimuth(value)
    case At(2, Y) => Scaled(value, CONVERT_O)
    case At(2, _) => Roll(value)
    case _ => value as real
  }

  function Write(r: Reading, f: Field, x: real, status: int): Reading {
    match f
    case X => r.(x := x)
    case Y => r.(y := x)
    case Z => r.(z := x)
    case Status => r.(status := status)
  }

  /** processEvent: the field is overwritten and its record becomes pending. */
  function ProcessEvent(p: Pending, code: int, value: int): Pending {
    var t := TargetOf(code);
    if t.Nowhere? then p
    else Raw(p.mask[t.sensor := true],
             p.slots[t.sensor := Write(p.slots[t.sensor], t.field, Converted(t, value), value % 4)])
  }

  lemma WritesCommute(r: Reading, f: Field, x: real, s: int, g: Field, y: real, u: int)
    ensures f != g ==> Write(Write(r, f, x, s), g, y, u) == Write(Write(r, g, y, u), f, x, s)
    ensures Write(Write(r, f, x, s), f, y, u) == Write(r, f, y, u)
  {
  }

  lemma TargetsDistinct(a: int, b: int)
    requires a != b && TargetOf(a).At?
    ensures TargetOf(a) != TargetOf(b)
  {
  }

  /** Every axis code has a field of its own: within a SYN group the order of axis events of different
      codes does not matter, and of two events of one code the later wins. */
  lemma AxisEventsIndependent(p: Pending, a: int, x: int, b: int, y: int)
    ensures a != b ==> ProcessEvent(ProcessEvent(p, a, x), b, y) == ProcessEvent(ProcessEvent(p, b, y), a, x)
    ensures ProcessEvent(ProcessEvent(p, a, x), a, y) == ProcessEvent(p, a, y)
  {
    var t, u := TargetOf(a), TargetOf(b);
    if t.At? {
      var r := p.slots[t.sensor];
      WritesCommute(r, t.field, Converted(t, x), x % 4, t.field, Converted(t, y), y % 4);
      if u.At? && a != b {
        TargetsDistinct(a, b);
        if t.sensor == u.sensor {
          WritesCommute(r, t.field, Converted(t, x), x % 4, u.field, Converted(u, y), y % 4);
        }
      }
    }
  }

  // ---------------------------------------------------------------- one unbounded pass

  /** The records a SYN at time t completes. */
  function Stamped(p: Pending, t: int, j: int): Reading
    requires 0 <= j < NUM_SENSORS
  {
    p.slots[j].(timestamp := t)
  }

  function Flushed(p: Pending, t: int): Pending {
    Raw([false, false, false, false],
        seq(NUM_SENSORS, j requires 0 <= j < NUM_SENSORS => if p.mask[j] then Stamped(p, t, j) else p.slots[j]))
  }

  /** What sensor j contributes to a SYN: its changed record, if anyone listens. */
  function Contribution(p: Pending, en: Enabled, t: int, j: int): (c: seq<SensorEvent>)
    requires 0 <= j < NUM_SENSORS
    ensures |c| <= 1
  {
    if p.mask[j] && en[j] then [SensorEvent(j, Stamped(p, t, j))] else []
  }

  /** The contributions of sensor j and those behind it, in the order of their numbers. */
  function DeliveredFrom(p: Pending, en: Enabled, t: int, j: int): seq<SensorEvent>
    requires 0 <= j <= NUM_SENSORS
    decreases NUM_SENSORS - j
  {
    if j == NUM_SENSORS then [] else Contribution(p, en, t, j) + DeliveredFrom(p, en, t, j + 1)
  }

  function Delivered(p: Pending, en: Enabled, t: int): seq<SensorEvent> {
    DeliveredFrom(p, en, t, 0)
  }

  /** The state and the output of one pass over a stream without any limit on room. */
  function After(p: Pending, es: seq<InputEvent>): Pending
    decreases es
  {
    if es == [] then p
    else if es[0].kind == EV_ABS then After(ProcessEvent(p, es[0].code, es[0].value), es[1..])
    else if es[0].kind == EV_SYN then After(Flushed(p, es[0].time), es[1..])
    else After(p, es[1..])
  }

  function Emitted(p: Pending, en: Enabled, es: seq<InputEvent>): seq<SensorEvent>
    decreases es
  {
    if es == [] then []
    else if es[0].kind == EV_ABS then Emitted(ProcessEvent(p, es[0].code, es[0].value), en, es[1..])
    else if es[0].kind == EV_SYN then Delivered(p, en, es[0].time) + Emitted(Flushed(p, es[0].time), en, es[1..])
    else Emitted(p, en, es[1..])
  }

  lemma {:induction false} PassConcat(p: Pending, en: Enabled, a: seq<InputEvent>, b: seq<InputEvent>)
    ensures After(p, a + b) == After(After(p, a), b)
    ensures Emitted(p, en, a + b) == Emitted(p, en, a) + Emitted(After(p, a), en, b)
    decreases a
  {
    if a == [] {
      assert a + b == b;
    } else {
      var s := a + b;
      assert s[0] == a[0] && s[1..] == a[1..] + b;
      var p' := if a[0].kind == EV_ABS then ProcessEvent(p, a[0].code, a[0].value)
                else if a[0].kind == EV_SYN then Flushed(p, a[0].time) else p;
      PassConcat(p', en, a[1..], b);
    }
  }

  // ---------------------------------------------------------------- a call with limited room

  /** Sensor j's record taken out of the pending ones. */
  function Taken(p: Pending, t: int, j: int): Pending
    requires 0 <= j < NUM_SENSORS
  {
    Raw(p.mask[j := false], p.slots[j := Stamped(p, t, j)])
  }

  /** The sweep over the sensors at a SYN, stopping when the room or the pending records run out. */
  function Sweep(p: Pending, en: Enabled, t: int, room: nat, j: nat): (r: (seq<SensorEvent>, Pending))
    requires j <= NUM_SENSORS
    ensures |r.0| <= room
    decreases NUM_SENSORS - j
  {
    if j == NUM_SENSORS || room == 0 || !AnyPending(p) then ([], p)
    else if p.mask[j] then
      if en[j] then
        var rest := Sweep(Taken(p, t, j), en, t, room - 1, j + 1);
        ([SensorEvent(j, Stamped(p, t, j))] + rest.0, rest.1)
      else Sweep(Taken(p, t, j), en, t, room, j + 1)
    else Sweep(p, en, t, room, j + 1)
  }

  /** What a call delivers, and the pending records and unread events it leaves. */
  datatype Outcome = Outcome(out: seq<SensorEvent>, pending: Pending, queue: seq<InputEvent>)

  function Read(p: Pending, en: Enabled, q: seq<InputEvent>, room: nat): (r: Outcome)
    ensures |r.out| <= room
    decreases q
  {
    if room == 0 || q == [] then Outcome([], p, q)
    else
      var e := q[0];
      if e.kind == EV_ABS then Read(ProcessEvent(p, e.code, e.value), en, q[1..], room)
      else if e.kind == EV_SYN then
        var (out, p') := Sweep(p, en, e.time, room, 0);
        if AnyPending(p') then Outcome(out, p', q)
        else
          var rest := Read(p', en, q[1..], room - |out|);
          Outcome(out + rest.out, rest.pending, rest.queue)
      else Read(p, en, q[1..], room)
  }

  /** The driver between two calls: its unread events, whether a made-up temperature event waits to be
      reported first, its pending records, and who listens. */
  datatype Held = Held(queue: seq<InputEvent>, synthetic: bool, pending: Pending, enabled: Enabled)

  /** One readEvents, if fill() does not fail.  A made-up event is delivered alone, before the kernel is
      asked. */
  function Served(h: Held, arrived: seq<InputEvent>, clock: int, room: nat): (seq<SensorEvent>, Held) {
    if h.synthetic then
      var r := Stamped(h.pending, clock, TEMPERATURE);
      ([SensorEvent(TEMPERATURE, r)],
       Held(h.queue, false, Raw(h.pending.mask, h.pending.slots[TEMPERATURE := r]), h.enabled))
    else
      var r := Read(h.pending, h.enabled, h.queue + arrived, room);
      (r.out, Held(r.queue, false, r.pending, h.enabled))
  }

  /** A sweep that leaves room has left nothing pending. */
  lemma {:induction false} SweepStopsFull(p: Pending, en: Enabled, t: int, room: nat, j: nat)
    requires j <= NUM_SENSORS
    requires forall k :: 0 <= k < j ==> !p.mask[k]
    ensures var r := Sweep(p, en, t, room, j);
            |r.0| < room ==> !AnyPending(r.1)
    decreases NUM_SENSORS - j
  {
    if j < NUM_SENSORS && room > 0 && AnyPending(p) {
      if p.mask[j] {
        SweepStopsFull(Taken(p, t, j), en, t, if en[j] then room - 1 else room, j + 1);
      } else {
        SweepStopsFull(p, en, t, room, j + 1);
      }
    }
  }

  /** A call that returns with room to spare has consumed every event. */
  lemma {:induction false} ReadStopsFull(p: Pending, en: Enabled, q: seq<InputEvent>, room: nat)
    ensures |Read(p, en, q, room).out| < room ==> Read(p, en, q, room).queue == []
    decreases q
  {
    if room > 0 && q != [] {
      var e, rest := q[0], q[1..];
      if e.kind == EV_SYN {
        SweepStopsFull(p, en, e.time, room, 0);
        var s := Sweep(p, en, e.time, room, 0);
        if !AnyPending(s.1) {
          ReadStopsFull(s.1, en, rest, room - |s.0|);
        }
      } else {
        ReadStopsFull(if e.kind == EV_ABS then ProcessEvent(p, e.code, e.value) else p, en, rest, room);
      }
    }
  }

  lemma Associate<T>(a: seq<T>, b: seq<T>, c: seq<T>)
    ensures (a + b) + c == a + (b + c)
  {
  }

  lemma {:induction false} SkipQuiet(p: Pending, en: Enabled, t: int, i: int, j: int)
    requires 0 <= i <= j <= NUM_SENSORS
    requires forall k :: i <= k < j ==> !p.mask[k]
    ensures DeliveredFrom(p, en, t, i) == DeliveredFrom(p, en, t, j)
    decreases j - i
  {
    if i < j {
      SkipQuiet(p, en, t, i + 1, j);
      assert Contribution(p, en, t, i) == [];
    }
  }

  lemma {:induction false} SameBehind(p: Pending, p': Pending, en: Enabled, t: int, j: int)
    requires 0 <= j <= NUM_SENSORS
    requires forall k :: j <= k < NUM_SENSORS ==> p.mask[k] == p'.mask[k] && p.slots[k] == p'.slots[k]
    ensures DeliveredFrom(p, en, t, j) == DeliveredFrom(p', en, t, j)
    decreases NUM_SENSORS - j
  {
    if j < NUM_SENSORS {
      SameBehind(p, p', en, t, j + 1);
      assert Contribution(p, en, t, j) == Contribution(p', en, t, j);
    }
  }

  lemma TakeFirst(p: Pending, en: Enabled, t: int, j: int)
    requires 0 <= j < NUM_SENSORS && p.mask[j]
    requires forall k :: 0 <= k < j ==> !p.mask[k]
    ensures Delivered(p, en, t) == Contribution(p, en, t, j) + Delivered(Taken(p, t, j), en, t)
    ensures Flushed(p, t) == Flushed(Taken(p, t, j), t)
  {
    var p' := Taken(p, t, j);
    assert Flushed(p, t).slots == Flushed(p', t).slots;
    SkipQuiet(p, en, t, 0, j);
    SkipQuiet(p', en, t, 0, j + 1);
    SameBehind(p, p', en, t, j + 1);
  }

  /** A sweep, cut short or not, plus the rest of the same SYN, is the whole SYN. */
  lemma {:induction false} SweepConserves(p: Pending, en: Enabled, t: int, room: nat, j: nat)
    requires j <= NUM_SENSORS
    requires forall k :: 0 <= k < j ==> !p.mask[k]
    ensures Delivered(p, en, t) == Sweep(p, en, t, room, j).0 + Delivered(Sweep(p, en, t, room, j).1, en, t)
    ensures Flushed(p, t) == Flushed(Sweep(p, en, t, room, j).1, t)
    decreases NUM_SENSORS - j
  {
    if j < NUM_SENSORS && room > 0 && AnyPending(p) {
      if p.mask[j] {
        var p', room' := Taken(p, t, j), if en[j] then room - 1 else room;
        var s := Sweep(p', en, t, room', j + 1);
        TakeFirst(p, en, t, j);
        SweepConserves(p', en, t, room', j + 1);
        assert !en[j] ==> [] + s.0 == s.0;
        Associate(Contribution(p, en, t, j), s.0, Delivered(s.1, en, t));
      } else {
        SweepConserves(p, en, t, room, j + 1);
      }
    }
  }

  lemma NothingPending(p: Pending, en: Enabled, t: int)
    requires !AnyPending(p)
    ensures Delivered(p, en, t) == [] && Flushed(p, t) == p
  {
    assert Flushed(p, t).slots == p.slots;
    assert Flushed(p, t).mask == p.mask;
    SkipQuiet(p, en, t, 0, NUM_SENSORS);
  }

  /** A SYN at the front, from the pending records p or from what a sweep of it left: the same pass. */
  lemma SynConserves(p: Pending, en: Enabled, q: seq<InputEvent>, room: nat)
    requires q != [] && q[0].kind == EV_SYN
    ensures var (out, p') := Sweep(p, en, q[0].time, room, 0);
            && Emitted(p, en, q) == out + Emitted(p', en, q)
            && After(p, q) == After(p', q)
            && (!AnyPending(p') ==> Emitted(p', en, q) == Emitted(p', en, q[1..]) && After(p', q) == After(p', q[1..]))
  {
    var t := q[0].time;
    var s := Sweep(p, en, t, room, 0);
    SweepConserves(p, en, t, room, 0);
    assert q[0].kind != EV_ABS;
    Associate(s.0, Delivered(s.1, en, t), Emitted(Flushed(p, t), en, q[1..]));
    if !AnyPending(s.1) {
      NothingPending(s.1, en, t);
      assert [] + Emitted(s.1, en, q[1..]) == Emitted(s.1, en, q[1..]);
    }
  }

  /** Main lemma: what a call delivers, followed by what one pass over its leftovers would emit, is what
      one pass over its input emits.  Nothing is lost, repeated or reordered. */
  lemma {:induction false} ReadConserves(p: Pending, en: Enabled, q: seq<InputEvent>, room: nat)
    ensures var r := Read(p, en, q, room);
            Emitted(p, en, q) == r.out + Emitted(r.pending, en, r.queue)
    decreases q
  {
    hide Sweep, AnyPending, ProcessEvent, Delivered, Flushed;
    if room > 0 && q != [] {
      var e, rest := q[0], q[1..];
      if e.kind == EV_SYN {
        SynConserves(p, en, q, room);
        var s := Sweep(p, en, e.time, room, 0);
        if !AnyPending(s.1) {
          var r := Read(s.1, en, rest, room - |s.0|);
          ReadConserves(s.1, en, rest, room - |s.0|);
          Associate(s.0, r.out, Emitted(r.pending, en, r.queue));
        }
      } else {
        ReadConserves(if e.kind == EV_ABS then ProcessEvent(p, e.code, e.value) else p, en, rest, room);
      }
    }
  }

  /** ... and the records it leaves behind are on their way to the same final state. */
  lemma {:induction false} ReadReaches(p: Pending, en: Enabled, q: seq<InputEvent>, room: nat)
    ensures var r := Read(p, en, q, room);
            After(p, q) == After(r.pending, r.queue)
    decreases q
  {
    hide Sweep, AnyPending, ProcessEvent, Delivered, Flushed;
    if room > 0 && q != [] {
      var e, rest := q[0], q[1..];
      if e.kind == EV_SYN {
        SynConserves(p, en, q, room);
        var s := Sweep(p, en, e.time, room, 0);
        if !AnyPending(s.1) {
          ReadReaches(s.1, en, rest, room - |s.0|);
        }
      } else {
        ReadReaches(if e.kind == EV_ABS then ProcessEvent(p, e.code, e.value) else p, en, rest, room);
      }
    }
  }

  // ---------------------------------------------------------------- many calls

  /** One call of readEvents: the kernel's events that its fill() appends, and the room it was given. */
  datatype Call = Call(arrived: seq<InputEvent>, room: nat)

  function ReadAll(p: Pending, en: Enabled, q: seq<InputEvent>, calls: seq<Call>): Outcome
    decreases calls
  {
    if calls == [] then Outcome([], p, q)
    else
      var r := Read(p, en, q + calls[0].arrived, calls[0].room);
      var rest := ReadAll(r.pending, en, r.queue, calls[1..]);
      Outcome(r.out + rest.out, rest.pending, rest.queue)
  }

  function Stream(calls: seq<Call>): seq<InputEvent> {
    if calls == [] then [] else calls[0].arrived + Stream(calls[1..])
  }

  /** Main theorem.  However the caller slices its requests and however the events arrive, the outputs
      strung together, followed by what the leftovers would still emit, are what one unbounded pass over
      the whole stream emits. */
  lemma {:induction false} SlicingIsInvisible(p: Pending, en: Enabled, q: seq<InputEvent>, calls: seq<Call>)
    ensures var r := ReadAll(p, en, q, calls);
            Emitted(p, en, q + Stream(calls)) == r.out + Emitted(r.pending, en, r.queue)
    decreases calls
  {
    if calls == [] {
      assert q + Stream(calls) == q;
    } else {
      var here, later := q + calls[0].arrived, Stream(calls[1..]);
      assert q + Stream(calls) == here + later;
      var r := Read(p, en, here, calls[0].room);
      var rest := ReadAll(r.pending, en, r.queue, calls[1..]);
      ReadConserves(p, en, here, calls[0].room);
      ReadReaches(p, en, here, calls[0].room);
      PassConcat(p, en, here, later);
      PassConcat(r.pending, en, r.queue, later);
      Associate(r.out, Emitted(r.pending, en, r.queue), Emitted(After(p, here), en, later));
      SlicingIsInvisible(r.pending, en, r.queue, calls[1..]);
      Associate(r.out, rest.out, Emitted(rest.pending, en, rest.queue));
    }
  }

  /** In particular the outputs are a prefix of the unbounded pass, and all of it once the buffer is
      empty. */
  lemma OutputsArePrefix(p: Pending, en: Enabled, calls: seq<Call>)
    ensures var r := ReadAll(p, en, [], calls);
            && r.out <= Emitted(p, en, Stream(calls))
            && (r.queue == [] ==> r.out == Emitted(p, en, Stream(calls)))
  {
    SlicingIsInvisible(p, en, [], calls);
    assert [] + Stream(calls) == Stream(calls);
  }

  /** Once a call returns fewer events than it had room for, everything that arrived has been delivered. */
  lemma ShortCallDrains(p: Pending, en: Enabled, q: seq<InputEvent>, room: nat)
    requires |Read(p, en, q, room).out| < room
    ensures Read(p, en, q, room).queue == []
    ensures Read(p, en, q, room).out == Emitted(p, en, q)
  {
    ReadStopsFull(p, en, q, room);
    ReadConserves(p, en, q, room);
  }

  // ---------------------------------------------------------------- the class

  /** Sweeping on from sensor j with this much room completes `goal`. */
  ghost predicate SweepsTo(p: Pending, en: Enabled, t: int, room: nat, j: nat,
                           sofar: seq<SensorEvent>, goal: (seq<SensorEvent>, Pending))
    requires j <= NUM_SENSORS
  {
    goal == (sofar + Sweep(p, en, t, room, j).0, Sweep(p, en, t, room, j).1)
  }

  lemma SweepsToStart(p: Pending, en: Enabled, t: int, room: nat)
    ensures SweepsTo(p, en, t, room, 0, [], Sweep(p, en, t, room, 0))
  {
    assert [] + Sweep(p, en, t, room, 0).0 == Sweep(p, en, t, room, 0).0;
  }

  lemma SweepsToEnd(p: Pending, en: Enabled, t: int, room: nat, j: nat,
                    sofar: seq<SensorEvent>, goal: (seq<SensorEvent>, Pending))
    requires j <= NUM_SENSORS && SweepsTo(p, en, t, room, j, sofar, goal)
    requires room == 0 || !AnyPending(p) || j == NUM_SENSORS
    ensures goal == (sofar, p)
  {
    assert sofar + [] == sofar;
  }

  /** The body of the sweep's loop at sensor j. */
  function Swept(p: Pending, t: int, j: int): Pending
    requires 0 <= j < NUM_SENSORS
  {
    if p.mask[j] then Taken(p, t, j) else p
  }

  lemma TurnIs(p: Pending, en: Enabled, t: int, j: nat)
    requires j < NUM_SENSORS
    ensures Swept(p, t, j) == if p.mask[j] then Taken(p, t, j) else p
    ensures Contribution(p, en, t, j) == if p.mask[j] && en[j] then [SensorEvent(j, Stamped(p, t, j))] else []
  {
  }

  lemma SweepSkips(p: Pending, en: Enabled, t: int, room: nat, j: nat)
    requires j < NUM_SENSORS && room > 0 && AnyPending(p) && !p.mask[j]
    ensures Sweep(p, en, t, room, j) == Sweep(p, en, t, room, j + 1)
  {
    hide Taken, Stamped, AnyPending;
  }

  lemma SweepTakes(p: Pending, en: Enabled, t: int, room: nat, j: nat, s: (seq<SensorEvent>, Pending))
    requires j < NUM_SENSORS && room > 0 && AnyPending(p) && p.mask[j]
    requires s == Sweep(Taken(p, t, j), en, t, if en[j] then room - 1 else room, j + 1)
    ensures Sweep(p, en, t, room, j) == ((if en[j] then [SensorEvent(j, Stamped(p, t, j))] else []) + s.0, s.1)
  {
    hide Taken, Stamped, AnyPending;
    assert [] + s.0 == s.0;
  }

  /** One turn of the sweep and the turns behind it. */
  lemma SweepIs(p: Pending, en: Enabled, t: int, room: nat, j: nat, c: seq<SensorEvent>, s: (seq<SensorEvent>, Pending))
    requires j < NUM_SENSORS && room > 0 && AnyPending(p) && c == Contribution(p, en, t, j)
    requires s == Sweep(Swept(p, t, j), en, t, room - |c|, j + 1)
    ensures Sweep(p, en, t, room, j) == (c + s.0, s.1)
  {
    hide *;
    TurnIs(p, en, t, j);
    if p.mask[j] {
      SweepTakes(p, en, t, room, j, s);
    } else {
      SweepSkips(p, en, t, room, j);
      assert [] + s.0 == s.0;
    }
  }

  lemma SweepsToNext(p: Pending, en: Enabled, t: int, room: nat, j: nat,
                     sofar: seq<SensorEvent>, goal: (seq<SensorEvent>, Pending))
    requires j < NUM_SENSORS && room > 0 && AnyPending(p) && SweepsTo(p, en, t, room, j, sofar, goal)
    ensures SweepsTo(Swept(p, t, j), en, t, room - |Contribution(p, en, t, j)|, j + 1,
                     sofar + Contribution(p, en, t, j), goal)
  {
    hide Sweep, Contribution, Swept, Taken, Stamped, AnyPending;
    var c := Contribution(p, en, t, j);
    var s := Sweep(Swept(p, t, j), en, t, room - |c|, j + 1);
    SweepIs(p, en, t, room, j, c, s);
    Associate(sofar, c, s.0);
  }

  /** Reading on with this much room completes `goal`. */
  ghost predicate ReadsTo(p: Pending, en: Enabled, q: seq<InputEvent>, room: nat, sofar: seq<SensorEvent>,
                          goal: Outcome)
  {
    var r := Read(p, en, q, room);
    goal == Outcome(sofar + r.out, r.pending, r.queue)
  }

  lemma ReadsToStart(p: Pending, en: Enabled, q: seq<InputEvent>, room: nat)
    ensures ReadsTo(p, en, q, room, [], Read(p, en, q, room))
  {
    assert [] + Read(p, en, q, room).out == Read(p, en, q, room).out;
  }

  lemma ReadsToEnd(p: Pending, en: Enabled, q: seq<InputEvent>, room: nat, sofar: seq<SensorEvent>, goal: Outcome)
    requires room == 0 || q == []
    requires ReadsTo(p, en, q, room, sofar, goal)
    ensures goal == Outcome(sofar, p, q)
  {
    assert sofar + [] == sofar;
  }

  lemma ReadsToNext(p: Pending, en: Enabled, q: seq<InputEvent>, room: nat, sofar: seq<SensorEvent>, goal: Outcome)
    requires room > 0 && q != [] && ReadsTo(p, en, q, room, sofar, goal)
    ensures q[0].kind != EV_SYN ==>
              ReadsTo(if q[0].kind == EV_ABS then ProcessEvent(p, q[0].code, q[0].value) else p,
                      en, q[1..], room, sofar, goal)
    ensures q[0].kind == EV_SYN ==>
              var s := Sweep(p, en, q[0].time, room, 0);
              && (AnyPending(s.1) ==> |s.0| == room && ReadsTo(s.1, en, q, 0, sofar + s.0, goal))
              && (!AnyPending(s.1) ==> ReadsTo(s.1, en, q[1..], room - |s.0|, sofar + s.0, goal))
  {
    if q[0].kind == EV_SYN {
      var s := Sweep(p, en, q[0].time, room, 0);
      SweepStopsFull(p, en, q[0].time, room, 0);
      if !AnyPending(s.1) {
        Associate(sofar, s.0, Read(s.1, en, q[1..], room - |s.0|).out);
      } else {
        assert (sofar + s.0) + [] == sofar + s.0;
      }
    }
  }

  class Sensor {
    const reader: Reader
    var enabled: Enabled
    var hasPendingEvent: bool
    var pending: Pending

    ghost predicate Valid()
      reads this, reader, reader.buffer
    {
      reader.Valid() && reader.capacity == CAPACITY
    }

    ghost function Now(): Held
      reads this, reader
    {
      Held(reader.queue, hasPendingEvent, pending, enabled)
    }

    constructor (initial: Pending, blank: InputEvent)
      ensures Valid() && fresh(reader) && fresh(reader.buffer)
      ensures Now() == Held([], false, initial, [false, false, false, false])
    {
      reader := new Reader(CAPACITY, blank);
      enabled := [false, false, false, false];
      hasPendingEvent := false;
      pending := initial;
    }

    /** A sensor's record is overwritten and becomes pending. */
    method Put(sensor: nat, r: Reading)
      requires sensor < NUM_SENSORS
      modifies this`pending
      ensures pending == Raw(old(pending).mask[sensor := true], old(pending).slots[sensor := r])
    {
      var p := pending;
      pending := Raw(p.mask[sensor := true], p.slots[sensor := r]);
    }

    /** processEvent, case by case.  Whatever the code, it does what the table of targets says. */
    method HandleAxis(code: int, value: int)
      modifies this`pending
      ensures pending == ProcessEvent(old(pending), code, value)
    {
      hide Scaled;
      var status := value % 4;
      var a, m, o := pending.slots[ACCELEROMETER], pending.slots[MAGNETIC_FIELD], pending.slots[ORIENTATION];
      match code {
        case 0x00 => Put(ACCELEROMETER, a.(x := Scaled(value, CONVERT_A)));
        case 0x01 => Put(ACCELEROMETER, a.(y := Scaled(value, CONVERT_A)));
        case 0x02 => Put(ACCELEROMETER, a.(z := Scaled(value, CONVERT_A)));
        case 0x08 => Put(ACCELEROMETER, a.(status := status));
        case 0x10 => Put(MAGNETIC_FIELD, m.(x := Scaled(value, CONVERT_M)));
        case 0x11 => Put(MAGNETIC_FIELD, m.(y := Scaled(value, -CONVERT_M)));
        case 0x0a => Put(MAGNETIC_FIELD, m.(z := Scaled(value, -CONVERT_M)));
        case 0x03 =>
          var converted := Scaled(value, CONVERT_O);
          if converted > 359.98 { converted := 0.0; }
          Put(ORIENTATION, o.(x := converted));
        case 0x04 => Put(ORIENTATION, o.(y := Scaled(value, CONVERT_O)));
        case 0x05 =>
          var converted := Scaled(value, -CONVERT_O);
          if converted > 90.0 { converted := 90.0; }
          if converted < -90.0 { converted := -90.0; }
          Put(ORIENTATION, o.(z := converted));
        case 0x07 => Put(ORIENTATION, o.(status := status));
        case 0x06 => Put(TEMPERATURE, pending.slots[TEMPERATURE].(x := value as real));
        case _ =>
      }
    }

    method SweepSensor(j: nat, time: int) returns (sent: seq<SensorEvent>)
      requires j < NUM_SENSORS
      modifies this`pending
      ensures pending == Swept(old(pending), time, j)
      ensures sent == Contribution(old(pending), enabled, time, j)
    {
      sent := [];
      if pending.mask[j] {
        pending := Raw(pending.mask[j := false], pending.slots[j := pending.slots[j].(timestamp := time)]);
        if enabled[j] {
          sent := [SensorEvent(j, pending.slots[j])];
        }
      }
    }

    /** The loop over the sensors at a SYN. */
    method SweepSensors(time: int, room: nat, ghost goal: (seq<SensorEvent>, Pending)) returns (data: seq<SensorEvent>)
      requires SweepsTo(pending, enabled, time, room, 0, [], goal)
      modifies this`pending
      ensures goal == (data, pending)
    {
      data := [];
      var count := room;
      var j := 0;
      while count != 0 && AnyPending(pending) && j < NUM_SENSORS
        invariant 0 <= j <= NUM_SENSORS && count >= 0
        invariant SweepsTo(pending, enabled, time, count, j, data, goal)
      {
        SweepsToNext(pending, enabled, time, count, j, data, goal);
        var sent := SweepSensor(j, time);
        data := data + sent;
        count := count - |sent|;
        j := j + 1;
      }
      SweepsToEnd(pending, enabled, time, count, j, data, goal);
    }

    /** The body of the delivery loop: the oldest event is taken, or a SYN is cut short. */
    method DeliverFront(event: InputEvent, count: nat, ghost sofar: seq<SensorEvent>, ghost goal: Outcome)
      returns (swept: seq<SensorEvent>)
      requires Valid() && count > 0 && reader.queue != [] && event == reader.queue[0]
      requires ReadsTo(pending, enabled, reader.queue, count, sofar, goal)
      modifies this`pending, reader
      ensures Valid() && |swept| <= count
      ensures |swept| == count || |reader.queue| < |old(reader.queue)|
      ensures |reader.queue| <= |old(reader.queue)|
      ensures ReadsTo(pending, enabled, reader.queue, count - |swept|, sofar + swept, goal)
    {
      ReadsToNext(pending, enabled, reader.queue, count, sofar, goal);
      swept := [];
      assert sofar + swept == sofar;
      if event.kind == EV_ABS {
        HandleAxis(event.code, event.value);
        reader.Next();
      } else if event.kind == EV_SYN {
        SweepsToStart(pending, enabled, event.time, count);
        swept := SweepSensors(event.time, count, Sweep(pending, enabled, event.time, count, 0));
        if !AnyPending(pending) {
          reader.Next();
        }
      } else {
        reader.Next();
      }
    }

    /** The delivery loop of readEvents. */
    method Deliver(room: nat, ghost goal: Outcome) returns (data: seq<SensorEvent>)
      requires Valid() && ReadsTo(pending, enabled, reader.queue, room, [], goal)
      modifies this`pending, reader
      ensures Valid() && goal == Outcome(data, pending, reader.queue)
    {
      data := [];
      var count := room;
      while count != 0
        invariant Valid() && count >= 0
        invariant ReadsTo(pending, enabled, reader.queue, count, data, goal)
        decreases |reader.queue| + count
      {
        var available, at := reader.ReadEvent();
        if available == 0 {
          break;
        }
        var swept := DeliverFront(reader.buffer[at], count, data, goal);
        data := data + swept;
        count := count - |swept|;
      }
      ReadsToEnd(pending, enabled, reader.queue, count, data, goal);
    }

    /** readEvents.  `data` is what is stored through the caller's pointer. */
    method ReadEvents(count: int, read: KernelRead, clock: int) returns (n: int, data: seq<SensorEvent>)
      requires Valid() && (reader.freeSpace > 0 ==> FitsIn(read, reader.freeSpace))
      modifies this`pending, this`hasPendingEvent, reader, reader.buffer
      ensures Valid()
      ensures count < 1 ==> n == -EINVAL && data == [] && Now() == old(Now())
      ensures count >= 1 && (old(hasPendingEvent) || FillsWith(read, old(reader.freeSpace))) ==>
                var arrived := if old(hasPendingEvent) then [] else Landed(read, old(reader.freeSpace));
                (data, Now()) == Served(old(Now()), arrived, clock, count) && n == |data|
      ensures count >= 1 && !old(hasPendingEvent) && !FillsWith(read, old(reader.freeSpace)) ==>
                n < 0 && data == [] && Now() == old(Now())
    {
      data := [];
      if count < 1 {
        return -EINVAL, data;
      }
      if hasPendingEvent {
        hasPendingEvent := false;
        pending := Raw(pending.mask, pending.slots[TEMPERATURE := Stamped(pending, clock, TEMPERATURE)]);
        return 1, [SensorEvent(TEMPERATURE, pending.slots[TEMPERATURE])];
      }
      n := reader.Fill(read);
      if n < 0 {
        return n, data;
      }
      assert reader.queue == old(reader.queue) + Landed(read, old(reader.freeSpace));
      ReadsToStart(pending, enabled, reader.queue, count);
      data := Deliver(count, Read(pending, enabled, reader.queue, count));
      n := |data|;
    }
  }
}
