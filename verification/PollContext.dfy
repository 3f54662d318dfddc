/** The poll loop of libsensors/nusensors.cpp over its four sensor drivers.  A driver whose buffer still
    holds events must keep its POLLIN flag, or nobody looks at it until the kernel has more.  But the flag
    also makes the next call read the device, and that read() sleeps if the device has nothing. */
module PollContext {
  import opened InputEventReader
  import opened SensorAK8973
  import SensorKXTF9

  const NUM_DRIVERS := 4
  const WAKE := 4
  const NUM_FDS := 5

  // The slots of the input readers of the proximity and the light sensor.
  const RELAY_CAPACITY := 4

  /** A driver, its buffered events, and whether a made-up event waits to be reported first.  Relay is
      the proximity and the light sensor, which report one event for every SYN while they are on. */
  datatype Driver =
    | Kxtf9(ring: seq<InputEvent>, last: Reading)
    | Ak8973(ring: seq<InputEvent>, synthetic: bool, pending: Pending, enabled: Enabled)
    | Relay(ring: seq<InputEvent>, synthetic: bool, sensor: int, on: bool)
  {
    predicate HasPendingEvents() { !Kxtf9? && synthetic }

    function Capacity(): nat { if Relay? then RELAY_CAPACITY else CAPACITY }

    function Free(): nat { if |ring| < Capacity() then Capacity() - |ring| else 0 }
  }

  /** What read() hands over of the events a device has: as many as there are free slots.  With a made-up
      event to report, the driver does not ask. */
  function Arrived(d: Driver, device: seq<InputEvent>): seq<InputEvent> {
    if d.HasPendingEvents() then [] else if |device| <= d.Free() then device else device[..d.Free()]
  }

  /** Reading the driver sleeps.  The devices are opened without O_NONBLOCK, and there is a read() whenever
      there is a free slot, whatever is buffered. */
  predicate Blocks(d: Driver, device: seq<InputEvent>) {
    !d.HasPendingEvents() && d.Free() > 0 && device == []
  }

  function Beat(sensor: int, e: InputEvent): seq<SensorEvent> {
    if e.kind == EV_SYN then [SensorEvent(sensor, Reading(0.0, 0.0, 0.0, 0, e.time))] else []
  }

  function Beats(sensor: int, es: seq<InputEvent>): seq<SensorEvent> {
    if es == [] then [] else Beat(sensor, es[0]) + Beats(sensor, es[1..])
  }

  /** The virtual readEvents: what a driver delivers into `room`, when `arrived` is what the kernel has
      for it, and how it is left.  A made-up event is delivered alone, before the kernel is asked. */
  function ReadEvents(d: Driver, arrived: seq<InputEvent>, clock: int, room: nat): (seq<SensorEvent>, Driver) {
    match d
    case Kxtf9(ring, last) =>
      var (out, h) := SensorKXTF9.Sampled(SensorKXTF9.Sampler(ring, last), arrived, room);
      (out, Kxtf9(h.queue, h.last))
    case Ak8973(ring, synthetic, pending, enabled) =>
      var (out, h) := Served(Held(ring, synthetic, pending, enabled), arrived, clock, room);
      (out, Ak8973(h.queue, h.synthetic, h.pending, h.enabled))
    case Relay(ring, synthetic, sensor, on) =>
      if synthetic then
        (if on then [SensorEvent(sensor, Reading(0.0, 0.0, 0.0, 0, clock))] else [], Relay(ring, false, sensor, on))
      else
        var q := ring + arrived;
        var k := if on then SensorKXTF9.Consumed(q, room) else |q|;
        (if on then Beats(sensor, q[..k]) else [], Relay(q[k..], false, sensor, on))
  }

  lemma {:induction false} BeatsCount(sensor: int, es: seq<InputEvent>)
    ensures |Beats(sensor, es)| == SensorKXTF9.Syns(es)
  {
    if es != [] {
      BeatsCount(sensor, es[1..]);
    }
  }

  function SynTimes(es: seq<InputEvent>): seq<int> {
    if es == [] then [] else (if es[0].kind == EV_SYN then [es[0].time] else []) + SynTimes(es[1..])
  }

  /** A relay reports every SYN once, in order and at its time. */
  lemma {:induction false} BeatsAreSyns(sensor: int, es: seq<InputEvent>)
    ensures var beats, times := Beats(sensor, es), SynTimes(es);
            |beats| == |times|
            && forall i :: 0 <= i < |beats| ==> beats[i].sensor == sensor && beats[i].reading.timestamp == times[i]
  {
    if es != [] {
      BeatsAreSyns(sensor, es[1..]);
    }
  }

  /** A driver never delivers more than there is room for; if it delivers less, and nothing made up, its
      buffer is empty.  This is what the loop relies on when it drops a POLLIN flag. */
  lemma ShortReadDrains(d: Driver, arrived: seq<InputEvent>, clock: int, room: nat)
    requires room > 0
    ensures var (out, d') := ReadEvents(d, arrived, clock, room);
            && |out| <= room && !d'.HasPendingEvents()
            && (d.HasPendingEvents() ==> d'.ring == d.ring)
            && (!d.HasPendingEvents() && |out| < room ==> d'.ring == [])
  {
    match d
    case Kxtf9(ring, last) => SensorKXTF9.ConsumesByGroups(last, ring + arrived, room);
    case Ak8973(ring, synthetic, pending, enabled) => ReadStopsFull(pending, enabled, ring + arrived, room);
    case Relay(ring, synthetic, sensor, on) =>
      var q := ring + arrived;
      SensorKXTF9.ConsumesByGroups(Reading(0.0, 0.0, 0.0, 0, 0), q, room);
      BeatsCount(sensor, q[..SensorKXTF9.Consumed(q, room)]);
  }

  lemma {:induction false} ReadTakesFromFront(p: Pending, en: Enabled, q: seq<InputEvent>, room: nat)
    ensures |Read(p, en, q, room).queue| <= |q|
    decreases q
  {
    hide Sweep, AnyPending, ProcessEvent;
    if room > 0 && q != [] {
      var e, rest := q[0], q[1..];
      if e.kind == EV_SYN {
        var s := Sweep(p, en, e.time, room, 0);
        if !AnyPending(s.1) {
          ReadTakesFromFront(s.1, en, rest, room - |s.0|);
        }
      } else {
        ReadTakesFromFront(if e.kind == EV_ABS then ProcessEvent(p, e.code, e.value) else p, en, rest, room);
      }
    }
  }

  /** However much a device has, a driver's ring never overflows. */
  lemma RingNeverOverflows(d: Driver, device: seq<InputEvent>, clock: int, room: nat)
    requires |d.ring| <= d.Capacity()
    ensures var d' := ReadEvents(d, Arrived(d, device), clock, room).1;
            |d'.ring| <= d'.Capacity() == d.Capacity()
  {
    if d.Ak8973? && !d.synthetic {
      ReadTakesFromFront(d.pending, d.enabled, d.ring + Arrived(d, device), room);
    }
  }

  /** Buffered events are flagged. */
  predicate Flagged(d: Driver, pollin: bool) {
    d.ring != [] ==> pollin
  }

  /** The loop's treatment of one driver, if no read() sleeps: read it if it is flagged or has a made-up
      event, and drop the flag if it did not fill the room. */
  function Visit(d: Driver, pollin: bool, device: seq<InputEvent>, clock: int, room: nat)
    : (seq<SensorEvent>, Driver, bool)
  {
    if pollin || d.HasPendingEvents() then
      var (out, d') := ReadEvents(d, Arrived(d, device), clock, room);
      (out, d', if |out| < room then false else pollin)
    else ([], d, pollin)
  }

  /** When a visit strands buffered events, exactly: a made-up event is reported while events are buffered
      and does not fill the room.  The sensor's own events then wait for unrelated kernel data. */
  lemma VisitStrandsIff(d: Driver, pollin: bool, device: seq<InputEvent>, clock: int, room: nat)
    requires room > 0 && Flagged(d, pollin)
    ensures var (_, d', pollin') := Visit(d, pollin, device, clock, room);
            Flagged(d', pollin') <==>
            !(d.HasPendingEvents() && d.ring != [] && (room > 1 || (d.Relay? && !d.on)))
  {
    ShortReadDrains(d, Arrived(d, device), clock, room);
  }

  // ---------------------------------------------------------------- what a driver owes

  /** What one unbounded pass over a driver's buffer and `es` delivers. */
  function Emits(d: Driver, es: seq<InputEvent>): seq<SensorEvent> {
    match d
    case Kxtf9(ring, last) => SensorKXTF9.All(last, ring + es)
    case Ak8973(ring, _, pending, enabled) => Emitted(pending, enabled, ring + es)
    case Relay(ring, _, sensor, on) => if on then Beats(sensor, ring + es) else []
  }

  /** What its buffer alone still has to deliver. */
  function Owed(d: Driver): seq<SensorEvent> {
    Emits(d, [])
  }

  lemma {:induction false} BeatsConcat(sensor: int, a: seq<InputEvent>, b: seq<InputEvent>)
    ensures Beats(sensor, a + b) == Beats(sensor, a) + Beats(sensor, b)
    decreases a
  {
    if a == [] {
      assert a + b == b;
    } else {
      assert (a + b)[0] == a[0] && (a + b)[1..] == a[1..] + b;
      BeatsConcat(sensor, a[1..], b);
      hide Beat;
      Associate(Beat(sensor, a[0]), Beats(sensor, a[1..]), Beats(sensor, b));
    }
  }

  lemma NothingOwed(d: Driver)
    requires d.ring == []
    ensures Owed(d) == []
  {
    assert d.ring + [] == [];
  }

  lemma {:induction false} OneForEverySyn(last: Reading, q: seq<InputEvent>)
    ensures |SensorKXTF9.All(last, q)| == SensorKXTF9.Syns(q)
    decreases q
  {
    if q != [] {
      var e := q[0];
      OneForEverySyn(if e.kind == EV_ABS then SensorKXTF9.Axis(last, e.code, e.value)
                     else if e.kind == EV_SYN then last.(timestamp := e.time) else last, q[1..]);
    }
  }

  /** The accelerometer owes one event for every SYN in its buffer. */
  lemma AccelerometerOwes(ring: seq<InputEvent>, last: Reading)
    ensures |Owed(Kxtf9(ring, last))| == SensorKXTF9.Syns(ring)
  {
    assert ring + [] == ring;
    OneForEverySyn(last, ring);
  }

  /** What is owed comes first, whatever arrives behind it. */
  lemma OwedFirst(d: Driver, es: seq<InputEvent>)
    ensures Owed(d) <= Emits(d, es)
  {
    assert d.ring + [] == d.ring;
    match d
    case Kxtf9(ring, last) => SensorKXTF9.AllConcat(last, ring, es);
    case Ak8973(ring, _, pending, enabled) => PassConcat(pending, enabled, ring, es);
    case Relay(ring, _, sensor, _) => BeatsConcat(sensor, ring, es);
  }

  /** One readEvents with nothing made up: what it delivers, followed by what the driver then emits on any
      later events, is what it would have emitted on all of them. */
  lemma ReadEventsConserves(d: Driver, arrived: seq<InputEvent>, clock: int, room: nat, later: seq<InputEvent>)
    requires !d.HasPendingEvents()
    ensures var (out, d') := ReadEvents(d, arrived, clock, room);
            Emits(d, arrived + later) == out + Emits(d', later)
  {
    var q := d.ring + arrived;
    assert d.ring + (arrived + later) == q + later;
    match d
    case Kxtf9(_, last) =>
      var k := SensorKXTF9.Consumed(q, room);
      assert q + later == q[..k] + (q[k..] + later);
      SensorKXTF9.AllConcat(last, q[..k], q[k..] + later);
    case Ak8973(_, _, pending, enabled) =>
      var r := Read(pending, enabled, q, room);
      ReadConserves(pending, enabled, q, room);
      ReadReaches(pending, enabled, q, room);
      PassConcat(pending, enabled, q, later);
      PassConcat(r.pending, enabled, r.queue, later);
      Associate(r.out, Emitted(r.pending, enabled, r.queue), Emitted(After(pending, q), enabled, later));
    case Relay(_, _, sensor, on) =>
      var k := if on then SensorKXTF9.Consumed(q, room) else |q|;
      assert q + later == q[..k] + (q[k..] + later);
      BeatsConcat(sensor, q[..k], q[k..] + later);
  }

  // ---------------------------------------------------------------- one call as a value

  type Drivers = ds: seq<Driver> | |ds| == NUM_DRIVERS
    witness seq(NUM_DRIVERS, _ => Relay([], false, 0, false))

  /** The POLLIN bits of mPollFds[i].revents, the wake pipe's last. */
  type Flags = f: seq<bool> | |f| == NUM_FDS witness seq(NUM_FDS, _ => false)

  datatype Poller = Poller(drivers: Drivers, revents: Flags)

  /** What the world answers during one call: in round m the device of driver i has input(m, i), and the
      clock says clock(m, i); the m-th poll(), behind round m, sets the flags polls[m].  After these nothing
      is ready.  A read() that sleeps and is then woken is one that found what woke it. */
  datatype Kernel = Kernel(input: (nat, nat) -> seq<InputEvent>, clock: (nat, nat) -> int, polls: seq<Flags>)

  /** poll() flags a device only if it has something, and nobody else takes that away. */
  ghost predicate Truthful(k: Kernel) {
    forall m, i :: 0 <= m < |k.polls| && 0 <= i < NUM_DRIVERS && k.polls[m][i] ==> k.input(m + 1, i) != []
  }

  /** One readEvents call: which driver, what it took from its device, and what it delivered. */
  datatype Visited = Visited(driver: nat, arrived: seq<InputEvent>, out: seq<SensorEvent>)

  function Output(visits: seq<Visited>): seq<SensorEvent> {
    if visits == [] then [] else visits[0].out + Output(visits[1..])
  }

  /** How a call ends, or a round of it: it is done, or asleep in a driver's read() or in poll(). */
  datatype Ending = Done | InRead(driver: nat) | InPoll

  datatype Round = Round(s: Poller, visits: seq<Visited>, ending: Ending)

  /** Driver i is to be read. */
  predicate Visits(s: Poller, i: nat)
    requires i < NUM_DRIVERS
  {
    s.revents[i] || s.drivers[i].HasPendingEvents()
  }

  /** Driver i is to be read, and the read() sleeps. */
  predicate Sleeps(s: Poller, k: Kernel, m: nat, i: nat)
    requires i < NUM_DRIVERS
  {
    Visits(s, i) && Blocks(s.drivers[i], k.input(m, i))
  }

  /** Driver i's turn of the inner loop in round m. */
  function Turn(s: Poller, k: Kernel, m: nat, room: nat, i: nat): (r: (Visited, Poller))
    requires i < NUM_DRIVERS && room > 0
    ensures |r.0.out| <= room
  {
    var device, clock := k.input(m, i), k.clock(m, i);
    ShortReadDrains(s.drivers[i], Arrived(s.drivers[i], device), clock, room);
    var (out, d, flag) := Visit(s.drivers[i], s.revents[i], device, clock, room);
    (Visited(i, Arrived(s.drivers[i], device), out), Poller(s.drivers[i := d], s.revents[i := flag]))
  }

  /** Round m over the drivers from the i-th on, while there is room. */
  function Pass(s: Poller, k: Kernel, m: nat, room: nat, i: nat): (r: Round)
    requires i <= NUM_DRIVERS
    ensures |Output(r.visits)| <= room && !r.ending.InPoll?
    ensures r.ending.InRead? ==> i <= r.ending.driver < NUM_DRIVERS
    decreases NUM_DRIVERS - i
  {
    if room == 0 || i == NUM_DRIVERS then Round(s, [], Done)
    else if Sleeps(s, k, m, i) then Round(s, [], InRead(i))
    else if Visits(s, i) then
      var (v, s') := Turn(s, k, m, room, i);
      var rest := Pass(s', k, m, room - |v.out|, i + 1);
      OutputCons(v, rest.visits);
      Round(rest.s, [v] + rest.visits, rest.ending)
    else Pass(s, k, m, room, i + 1)
  }

  lemma OutputCons(v: Visited, rest: seq<Visited>)
    ensures Output([v] + rest) == v.out + Output(rest)
  {
    assert ([v] + rest)[1..] == rest;
  }

  function Ready(flags: seq<bool>): nat {
    if flags == [] then 0 else (if flags[0] then 1 else 0) + Ready(flags[1..])
  }

  const NOTHING: Flags := [false, false, false, false, false]

  /** A call so far, how it ends, and how many answers of poll() it has used. */
  datatype Polled = Polled(s: Poller, visits: seq<Visited>, ending: Ending, polls: nat)

  /** Round m is not the last: it gets through with room left, and poll() finds something. */
  predicate GoesOn(k: Kernel, m: nat, room: nat, p: Round, out: nat) {
    p.ending.Done? && out < room && m < |k.polls| && Ready(k.polls[m]) != 0
  }

  function Answered(s: Poller, flags: Flags): Poller {
    Poller(s.drivers, flags[WAKE := false])
  }

  /** The end behind the last round: poll() finds nothing, and sleeps if there is nothing to return. */
  function Ended(p: Round, m: nat, got: nat, room: nat, out: nat): Polled {
    if !p.ending.Done? || out == room then Polled(p.s, p.visits, p.ending, m)
    else if got + out == 0 then Polled(p.s, p.visits, InPoll, m)
    else Polled(Poller(p.s.drivers, NOTHING), p.visits, Done, m)
  }

  /** pollEvents from round m on, with `got` events so far: rounds over the drivers with a poll() in between,
      until the room is full or nothing is ready. */
  function Poll(s: Poller, k: Kernel, m: nat, got: nat, room: nat): (r: Polled)
    requires m <= |k.polls|
    ensures |Output(r.visits)| <= room
    decreases |k.polls| - m
  {
    var p := Pass(s, k, m, room, 0);
    var out := |Output(p.visits)|;
    if GoesOn(k, m, room, p, out) then
      var rest := Poll(Answered(p.s, k.polls[m]), k, m + 1, got + out, room - out);
      OutputConcat(p.visits, rest.visits);
      Polled(rest.s, p.visits + rest.visits, rest.ending, rest.polls)
    else Ended(p, m, got, room, out)
  }

  lemma {:induction false} OutputConcat(a: seq<Visited>, b: seq<Visited>)
    ensures Output(a + b) == Output(a) + Output(b)
    decreases a
  {
    if a == [] {
      assert a + b == b;
    } else {
      assert (a + b)[0] == a[0] && (a + b)[1..] == a[1..] + b;
      OutputConcat(a[1..], b);
      assert a[0].out + (Output(a[1..]) + Output(b)) == Output(a) + Output(b);
    }
  }

  lemma PassUnfolds(s: Poller, k: Kernel, m: nat, room: nat, i: nat, v: Visited, s': Poller)
    requires i < NUM_DRIVERS && room > 0 && (v, s') == Turn(s, k, m, room, i)
    ensures var r := Pass(s, k, m, room, i);
            if Sleeps(s, k, m, i) then r == Round(s, [], InRead(i)) && Output(r.visits) == []
            else if Visits(s, i) then
              var rest := Pass(s', k, m, room - |v.out|, i + 1);
              r == Round(rest.s, [v] + rest.visits, rest.ending) && Output(r.visits) == v.out + Output(rest.visits)
            else r == Pass(s, k, m, room, i + 1)
  {
    hide Turn, Visits, Sleeps, Output;
    OutputCons(v, Pass(s', k, m, room - |v.out|, i + 1).visits);
    NoOutput();
  }

  lemma NoOutput()
    ensures Output([]) == []
  {
  }

  lemma RoundOver(s: Poller, k: Kernel, m: nat, room: nat, i: nat)
    requires i <= NUM_DRIVERS && (room == 0 || i == NUM_DRIVERS)
    ensures Pass(s, k, m, room, i) == Round(s, [], Done) && Output([]) == []
  {
  }

  /** A call is its first round and the rest of the call. */
  lemma PollUnfolds(s: Poller, k: Kernel, m: nat, got: nat, room: nat, p: Round, out: nat)
    requires m <= |k.polls| && p == Pass(s, k, m, room, 0) && out == |Output(p.visits)|
    ensures var r := Poll(s, k, m, got, room);
            if GoesOn(k, m, room, p, out) then
              var rest := Poll(Answered(p.s, k.polls[m]), k, m + 1, got + out, room - out);
              && r == Polled(rest.s, p.visits + rest.visits, rest.ending, rest.polls)
              && Output(r.visits) == Output(p.visits) + Output(rest.visits)
            else r == Ended(p, m, got, room, out)
  {
    hide Pass, Ready, Output;
    if GoesOn(k, m, room, p, out) {
      OutputConcat(p.visits, Poll(Answered(p.s, k.polls[m]), k, m + 1, got + out, room - out).visits);
    }
  }

  lemma TurnElsewhere(s: Poller, k: Kernel, m: nat, room: nat, i: nat, j: nat)
    requires i < NUM_DRIVERS && j < NUM_DRIVERS && i != j && room > 0
    ensures var s' := Turn(s, k, m, room, i).1;
            && s'.drivers[j] == s.drivers[j] && s'.revents[j] == s.revents[j]
            && Visits(s', j) == Visits(s, j) && Sleeps(s', k, m, j) == Sleeps(s, k, m, j)
            && (Flagged(s.drivers[j], s.revents[j]) ==> Flagged(s'.drivers[j], s'.revents[j]))
  {
    hide Visit, Blocks;
  }

  // ---------------------------------------------------------------- where a call sleeps

  /** The room left when a round comes to driver j; none if it does not come there. */
  function RoomAt(s: Poller, k: Kernel, m: nat, room: nat, i: nat, j: nat): nat
    requires i <= j < NUM_DRIVERS
    decreases j - i
  {
    if i == j || room == 0 then room
    else if Sleeps(s, k, m, i) then 0
    else if Visits(s, i) then
      var (v, s') := Turn(s, k, m, room, i);
      RoomAt(s', k, m, room - |v.out|, i + 1, j)
    else RoomAt(s, k, m, room, i + 1, j)
  }

  /** The read() of driver j is where the call sleeps, in the first round. */
  predicate Reaches(s: Poller, k: Kernel, count: nat, j: nat)
    requires j < NUM_DRIVERS
  {
    RoomAt(s, k, 0, count, 0, j) > 0 && Sleeps(s, k, 0, j)
  }

  lemma RoomUnfolds(s: Poller, k: Kernel, m: nat, room: nat, i: nat, j: nat, v: Visited, s': Poller)
    requires i <= j < NUM_DRIVERS && room > 0 && (v, s') == Turn(s, k, m, room, i)
    ensures RoomAt(s, k, m, room, i, j) == if i == j then room
                                           else if Sleeps(s, k, m, i) then 0
                                           else if Visits(s, i) then RoomAt(s', k, m, room - |v.out|, i + 1, j)
                                           else RoomAt(s, k, m, room, i + 1, j)
  {
    hide Turn, Sleeps, Visits;
  }

  lemma NoRoom(s: Poller, k: Kernel, m: nat, i: nat, j: nat)
    requires i <= j < NUM_DRIVERS
    ensures RoomAt(s, k, m, 0, i, j) == 0
  {
  }

  lemma {:induction false} RoundSleepsIff(s: Poller, k: Kernel, m: nat, room: nat, i: nat, j: nat)
    requires i <= j < NUM_DRIVERS
    ensures Pass(s, k, m, room, i).ending == InRead(j) <==> RoomAt(s, k, m, room, i, j) > 0 && Sleeps(s, k, m, j)
    decreases j - i
  {
    hide *;
    if room == 0 {
      RoundOver(s, k, m, 0, i);
      NoRoom(s, k, m, i, j);
    } else {
      var (v, s') := Turn(s, k, m, room, i);
      PassUnfolds(s, k, m, room, i, v, s');
      RoomUnfolds(s, k, m, room, i, j, v, s');
      ReadOnlyIfVisited(s, k, m, i);
      if i < j && Visits(s, i) {
        TurnElsewhere(s, k, m, room, i, j);
        RoundSleepsIff(s', k, m, room - |v.out|, i + 1, j);
      } else if i < j {
        RoundSleepsIff(s, k, m, room, i + 1, j);
      }
    }
  }

  lemma ReadOnlyIfVisited(s: Poller, k: Kernel, m: nat, i: nat)
    requires i < NUM_DRIVERS
    ensures Sleeps(s, k, m, i) ==> Visits(s, i)
  {
  }

  /** A round gets through if none of its read()s would sleep. */
  lemma RoundGetsThrough(s: Poller, k: Kernel, m: nat, room: nat)
    requires forall j :: 0 <= j < NUM_DRIVERS ==> !Sleeps(s, k, m, j)
    ensures Pass(s, k, m, room, 0).ending.Done?
  {
    hide Sleeps, RoomAt;
    var r := Pass(s, k, m, room, 0);
    if r.ending.InRead? {
      RoundSleepsIff(s, k, m, room, 0, r.ending.driver);
    }
  }

  /** The answer of the poll() before round m. */
  predicate Follows(s: Poller, k: Kernel, m: nat)
    requires 0 < m <= |k.polls|
  {
    s.revents == k.polls[m - 1][WAKE := false]
  }

  lemma AwakeBehindPoll(s: Poller, k: Kernel, m: nat)
    requires Truthful(k) && 0 < m <= |k.polls| && Follows(s, k, m)
    ensures forall i :: 0 <= i < NUM_DRIVERS ==> !Sleeps(s, k, m, i)
  {
    forall i | 0 <= i < NUM_DRIVERS ensures !Sleeps(s, k, m, i) {
      assert k.polls[m - 1][i] ==> k.input(m - 1 + 1, i) != [];
    }
  }

  /** Behind a poll() a call reads only what the poll() has found ready. */
  lemma {:induction false} LaterRoundsGetThrough(s: Poller, k: Kernel, m: nat, got: nat, room: nat)
    requires Truthful(k) && 0 < m <= |k.polls| && Follows(s, k, m)
    ensures !Poll(s, k, m, got, room).ending.InRead?
    decreases |k.polls| - m
  {
    hide Poll, Pass, Output, Ready, Sleeps, Truthful;
    var p := Pass(s, k, m, room, 0);
    var out := |Output(p.visits)|;
    AwakeBehindPoll(s, k, m);
    RoundGetsThrough(s, k, m, room);
    PollUnfolds(s, k, m, got, room, p, out);
    if GoesOn(k, m, room, p, out) {
      LaterRoundsGetThrough(Answered(p.s, k.polls[m]), k, m + 1, got + out, room - out);
    }
  }

  /** Main theorem of sleeping.  A call sleeps in driver j's read() exactly if its first round comes to j
      with room left while j is flagged and has nothing made up, a free slot, and nothing in its device:
      whatever its buffer holds, and whatever the call has already collected. */
  lemma CallSleepsInReadIff(s: Poller, k: Kernel, count: nat, j: nat)
    requires Truthful(k) && j < NUM_DRIVERS
    ensures Poll(s, k, 0, 0, count).ending == InRead(j) <==> Reaches(s, k, count, j)
  {
    hide Poll, Pass, Output, Ready, Sleeps, RoomAt, Truthful;
    var p := Pass(s, k, 0, count, 0);
    var out := |Output(p.visits)|;
    RoundSleepsIff(s, k, 0, count, 0, j);
    PollUnfolds(s, k, 0, 0, count, p, out);
    if GoesOn(k, 0, count, p, out) {
      LaterRoundsGetThrough(Answered(p.s, k.polls[0]), k, 1, out, count - out);
    }
  }

  lemma {:induction false} RoomUntilVisited(s: Poller, k: Kernel, m: nat, room: nat, i: nat, j: nat)
    requires i <= j < NUM_DRIVERS && forall t :: i <= t < j ==> !Visits(s, t)
    ensures RoomAt(s, k, m, room, i, j) == room
    decreases j - i
  {
    if room > 0 && i < j {
      RoomUntilVisited(s, k, m, room, i + 1, j);
    }
  }

  /** In particular, for the first driver that is to be read: its device alone decides. */
  lemma FirstReadSleepsIff(s: Poller, k: Kernel, count: nat, j: nat)
    requires Truthful(k) && j < NUM_DRIVERS && count > 0 && forall i :: 0 <= i < j ==> !Visits(s, i)
    ensures Poll(s, k, 0, 0, count).ending == InRead(j) <==> Sleeps(s, k, 0, j)
  {
    hide Poll, Sleeps, Visits, Truthful;
    RoomUntilVisited(s, k, 0, count, 0, j);
    CallSleepsInReadIff(s, k, count, j);
  }

  /** A call sleeps in poll() only with nothing to return and nothing more to come. */
  lemma {:induction false} WaitingHasNothing(s: Poller, k: Kernel, m: nat, got: nat, room: nat)
    requires m <= |k.polls|
    ensures var r := Poll(s, k, m, got, room);
            && m <= r.polls <= |k.polls|
            && (r.ending.InPoll? ==>
                  && got == 0 && Output(r.visits) == [] && room > 0
                  && (r.polls == |k.polls| || Ready(k.polls[r.polls]) == 0))
    decreases |k.polls| - m
  {
    hide Poll, Pass, Output, Ready;
    var p := Pass(s, k, m, room, 0);
    var out := |Output(p.visits)|;
    PollUnfolds(s, k, m, got, room, p, out);
    if GoesOn(k, m, room, p, out) {
      WaitingHasNothing(Answered(p.s, k.polls[m]), k, m + 1, got + out, room - out);
    }
  }

  lemma {:induction false} ReadyIff(flags: seq<bool>)
    ensures Ready(flags) > 0 <==> true in flags
  {
    if flags != [] {
      ReadyIff(flags[1..]);
    }
  }

  /** How long a call goes on.  It takes another round for every answer of poll() that finds something.  If it
      ends with room left and not in a read(), poll() finds nothing more: then the call returns exactly if it
      has events to return, and leaves no flag, and otherwise sleeps in poll(). */
  lemma {:induction false} GoesOnWhileReady(s: Poller, k: Kernel, m: nat, got: nat, room: nat)
    requires m <= |k.polls|
    ensures var r := Poll(s, k, m, got, room);
            && m <= r.polls <= |k.polls|
            && (forall n :: m <= n < r.polls ==> true in k.polls[n])
            && (!r.ending.InRead? && |Output(r.visits)| < room ==>
                  && (r.polls == |k.polls| || true !in k.polls[r.polls])
                  && r.ending == (if got + |Output(r.visits)| > 0 then Done else InPoll)
                  && (r.ending.Done? ==> r.s.revents == NOTHING))
    decreases |k.polls| - m
  {
    hide Poll, Pass, Output, Ready;
    var p := Pass(s, k, m, room, 0);
    var out := |Output(p.visits)|;
    PollUnfolds(s, k, m, got, room, p, out);
    if m < |k.polls| {
      ReadyIff(k.polls[m]);
    }
    if GoesOn(k, m, room, p, out) {
      GoesOnWhileReady(Answered(p.s, k.polls[m]), k, m + 1, got + out, room - out);
    }
  }

  /** A round that sleeps or fills its room. */
  predicate Full(r: Round, room: nat) {
    !r.ending.Done? || |Output(r.visits)| == room
  }

  /** The drivers a round reads, in order. */
  function DriversOf(visits: seq<Visited>): seq<nat> {
    if visits == [] then [] else [visits[0].driver] + DriversOf(visits[1..])
  }

  /** The drivers from the i-th on that are to be read, in ascending order. */
  function ToRead(s: Poller, i: nat): seq<nat>
    requires i <= NUM_DRIVERS
    decreases NUM_DRIVERS - i
  {
    if i == NUM_DRIVERS then [] else (if Visits(s, i) then [i] else []) + ToRead(s, i + 1)
  }

  lemma {:induction false} ToReadSame(s: Poller, s': Poller, i: nat)
    requires i <= NUM_DRIVERS && forall j :: i <= j < NUM_DRIVERS ==> Visits(s', j) == Visits(s, j)
    ensures ToRead(s', i) == ToRead(s, i)
    decreases NUM_DRIVERS - i
  {
    hide Visits;
    if i < NUM_DRIVERS {
      ToReadSame(s, s', i + 1);
    }
  }

  lemma DriversOfCons(v: Visited, rest: seq<Visited>)
    ensures DriversOf([v] + rest) == [v.driver] + DriversOf(rest)
  {
    assert ([v] + rest)[1..] == rest;
  }

  /** A round that gets through with room left reads every driver that is flagged or has something made up,
      in ascending order, and no other; any other round reads the first few of these. */
  lemma {:induction false} RoundReadsAll(s: Poller, k: Kernel, m: nat, room: nat, i: nat)
    requires i <= NUM_DRIVERS
    ensures var r := Pass(s, k, m, room, i);
            && DriversOf(r.visits) <= ToRead(s, i)
            && (!Full(r, room) ==> DriversOf(r.visits) == ToRead(s, i))
    decreases NUM_DRIVERS - i
  {
    hide Pass, Turn, Visits, Sleeps, Output;
    if room == 0 || i == NUM_DRIVERS {
      RoundOver(s, k, m, room, i);
    } else {
      var (v, s') := Turn(s, k, m, room, i);
      PassUnfolds(s, k, m, room, i, v, s');
      if Visits(s, i) && !Sleeps(s, k, m, i) {
        TurnReads(s, k, m, room, i);
        RoundReadsAll(s', k, m, room - |v.out|, i + 1);
        DriversOfCons(v, Pass(s', k, m, room - |v.out|, i + 1).visits);
      } else if !Visits(s, i) {
        ReadOnlyIfVisited(s, k, m, i);
        RoundReadsAll(s, k, m, room, i + 1);
      }
    }
  }

  lemma TurnReads(s: Poller, k: Kernel, m: nat, room: nat, i: nat)
    requires i < NUM_DRIVERS && room > 0
    ensures var (v, s') := Turn(s, k, m, room, i);
            v.driver == i && ToRead(s', i + 1) == ToRead(s, i + 1)
  {
    var s' := Turn(s, k, m, room, i).1;
    forall j | i + 1 <= j < NUM_DRIVERS ensures Visits(s', j) == Visits(s, j) {
      TurnElsewhere(s, k, m, room, i, j);
    }
    ToReadSame(s, s', i + 1);
  }

  // ---------------------------------------------------------------- no driver is stranded

  /** A driver that has nothing made up to report and whose buffered events are flagged. */
  predicate Safe(s: Poller, j: nat)
    requires j < NUM_DRIVERS
  {
    !s.drivers[j].HasPendingEvents() && Flagged(s.drivers[j], s.revents[j])
  }

  /** Driver j is safe after the turns from the i-th on; if it had one, and there was room left, its buffer
      is empty. */
  ghost predicate Kept(s: Poller, s': Poller, i: nat, j: nat, full: bool)
    requires j < NUM_DRIVERS
  {
    && Safe(s', j)
    && (j < i ==> s'.drivers[j] == s.drivers[j] && s'.revents[j] == s.revents[j])
    && (i <= j && !full ==> s'.drivers[j].ring == [])
  }

  ghost predicate TurnKept(s: Poller, s': Poller, i: nat, j: nat, full: bool)
    requires i < NUM_DRIVERS && j < NUM_DRIVERS
  {
    && Safe(s', j)
    && (i != j ==> s'.drivers[j] == s.drivers[j] && s'.revents[j] == s.revents[j])
    && (i == j && !full ==> s'.drivers[j].ring == [])
  }

  lemma TurnKeepsSafe(s: Poller, k: Kernel, m: nat, room: nat, i: nat, j: nat)
    requires i < NUM_DRIVERS && j < NUM_DRIVERS && Safe(s, j) && room > 0
    ensures var (v, s') := Turn(s, k, m, room, i);
            TurnKept(s, s', i, j, |v.out| == room) && Safe(s', j)
  {
    ShortReadDrains(s.drivers[i], Arrived(s.drivers[i], k.input(m, i)), k.clock(m, i), room);
    hide ReadEvents;
  }

  /** One turn and the turns behind it. */
  lemma KeptThrough(s: Poller, s': Poller, s'': Poller, i: nat, j: nat, filled: bool, full: bool)
    requires i < NUM_DRIVERS && j < NUM_DRIVERS
    requires TurnKept(s, s', i, j, filled) && Kept(s', s'', i + 1, j, full) && (filled ==> full)
    ensures Kept(s, s'', i, j, full)
  {
  }

  lemma UnvisitedKept(s: Poller, i: nat, j: nat)
    requires i < NUM_DRIVERS && j < NUM_DRIVERS && Safe(s, j) && !Visits(s, i)
    ensures TurnKept(s, s, i, j, false)
  {
  }

  ghost predicate RoundKept(s: Poller, k: Kernel, m: nat, room: nat, i: nat, j: nat)
    requires i <= NUM_DRIVERS && j < NUM_DRIVERS
  {
    var r := Pass(s, k, m, room, i);
    Kept(s, r.s, i, j, Full(r, room))
  }

  lemma VisitedRoundKept(s: Poller, k: Kernel, m: nat, room: nat, i: nat, j: nat, v: Visited, s': Poller)
    requires i < NUM_DRIVERS && j < NUM_DRIVERS && room > 0 && Safe(s, j) && Visits(s, i) && !Sleeps(s, k, m, i)
    requires (v, s') == Turn(s, k, m, room, i) && RoundKept(s', k, m, room - |v.out|, i + 1, j)
    ensures RoundKept(s, k, m, room, i, j)
  {
    hide Kept, TurnKept, Safe, Turn, Pass, Output, Visits, Sleeps;
    PassUnfolds(s, k, m, room, i, v, s');
    TurnKeepsSafe(s, k, m, room, i, j);
    var rest := Pass(s', k, m, room - |v.out|, i + 1);
    KeptThrough(s, s', rest.s, i, j, |v.out| == room, Full(rest, room - |v.out|));
  }

  lemma SkippedRoundKept(s: Poller, k: Kernel, m: nat, room: nat, i: nat, j: nat)
    requires i < NUM_DRIVERS && j < NUM_DRIVERS && room > 0 && Safe(s, j) && !Visits(s, i)
    requires RoundKept(s, k, m, room, i + 1, j)
    ensures RoundKept(s, k, m, room, i, j)
  {
    UnvisitedKept(s, i, j);
    ReadOnlyIfVisited(s, k, m, i);
    hide Kept, TurnKept, Safe, Turn, Output, Visits, Sleeps;
    var rest := Pass(s, k, m, room, i + 1);
    KeptThrough(s, s, rest.s, i, j, false, Full(rest, room));
  }

  lemma EmptyRoundKept(s: Poller, k: Kernel, m: nat, room: nat, i: nat, j: nat)
    requires i <= NUM_DRIVERS && j < NUM_DRIVERS && Safe(s, j)
    requires room == 0 || i == NUM_DRIVERS || Sleeps(s, k, m, i)
    ensures RoundKept(s, k, m, room, i, j)
  {
  }

  lemma {:induction false} PassKeepsSafe(s: Poller, k: Kernel, m: nat, room: nat, i: nat, j: nat)
    requires i <= NUM_DRIVERS && j < NUM_DRIVERS && Safe(s, j)
    ensures RoundKept(s, k, m, room, i, j)
    decreases NUM_DRIVERS - i
  {
    hide *;
    if room == 0 || i == NUM_DRIVERS || Sleeps(s, k, m, i) {
      EmptyRoundKept(s, k, m, room, i, j);
    } else if Visits(s, i) {
      var (v, s') := Turn(s, k, m, room, i);
      TurnKeepsSafe(s, k, m, room, i, j);
      PassKeepsSafe(s', k, m, room - |v.out|, i + 1, j);
      VisitedRoundKept(s, k, m, room, i, j, v, s');
    } else {
      PassKeepsSafe(s, k, m, room, i + 1, j);
      SkippedRoundKept(s, k, m, room, i, j);
    }
  }

  /** However a call ends, a safe driver is safe again; if it is not asleep in a read() and has room left,
      the driver's buffer is empty. */
  lemma {:induction false} PollKeepsSafe(s: Poller, k: Kernel, m: nat, got: nat, room: nat, j: nat)
    requires m <= |k.polls| && j < NUM_DRIVERS && Safe(s, j)
    ensures var r := Poll(s, k, m, got, room);
            && Safe(r.s, j)
            && (!r.ending.InRead? && |Output(r.visits)| < room ==> r.s.drivers[j].ring == [])
    decreases |k.polls| - m
  {
    hide Poll, Pass, Output, Ready;
    var p := Pass(s, k, m, room, 0);
    var out := |Output(p.visits)|;
    PassKeepsSafe(s, k, m, room, 0, j);
    PollUnfolds(s, k, m, got, room, p, out);
    if GoesOn(k, m, room, p, out) {
      PollKeepsSafe(Answered(p.s, k.polls[m]), k, m + 1, got + out, room - out, j);
    }
  }

  // ---------------------------------------------------------------- the next call delivers

  lemma {:induction false} PassDelivers(s: Poller, k: Kernel, m: nat, room: nat, i: nat, j: nat)
    requires i <= j < NUM_DRIVERS && Safe(s, j) && Owed(s.drivers[j]) != [] && room > 0
    ensures var r := Pass(s, k, m, room, i); r.ending.Done? ==> Output(r.visits) != []
    decreases NUM_DRIVERS - i
  {
    hide *;
    var (v, s') := Turn(s, k, m, room, i);
    PassUnfolds(s, k, m, room, i, v, s');
    if i == j {
      OwnTurnDelivers(s, k, m, room, j);
    } else {
      TurnKeepsSafe(s, k, m, room, i, j);
      TurnElsewhere(s, k, m, room, i, j);
      if !Visits(s, i) {
        PassDelivers(s, k, m, room, i + 1, j);
      } else if v.out == [] {
        PassDelivers(s', k, m, room, i + 1, j);
      }
    }
  }

  lemma OwnTurnDelivers(s: Poller, k: Kernel, m: nat, room: nat, j: nat)
    requires j < NUM_DRIVERS && Safe(s, j) && Owed(s.drivers[j]) != [] && room > 0
    ensures Visits(s, j) && Turn(s, k, m, room, j).0.out != []
  {
    if s.drivers[j].ring == [] { NothingOwed(s.drivers[j]); }
    DeliversSomething(s.drivers[j], Arrived(s.drivers[j], k.input(m, j)), k.clock(m, j), room);
    hide ReadEvents, Owed;
  }

  /** A driver that owes something delivers something. */
  lemma DeliversSomething(d: Driver, arrived: seq<InputEvent>, clock: int, room: nat)
    requires !d.HasPendingEvents() && Owed(d) != [] && room > 0
    ensures ReadEvents(d, arrived, clock, room).0 != []
  {
    var (out, d') := ReadEvents(d, arrived, clock, room);
    ShortReadDrains(d, arrived, clock, room);
    ReadEventsConserves(d, arrived, clock, room, []);
    OwedFirst(d, arrived);
    assert arrived + [] == arrived;
    if d'.ring == [] { NothingOwed(d'); }
  }

  /** Main theorem of delivery.  If a safe driver's buffer still owes an event, the next call never waits in
      poll(): it returns at least one event, unless its first round comes to a read() that sleeps. */
  lemma PollDelivers(s: Poller, k: Kernel, count: nat, j: nat)
    requires j < NUM_DRIVERS && Safe(s, j) && Owed(s.drivers[j]) != [] && count > 0 && Truthful(k)
    ensures var r := Poll(s, k, 0, 0, count);
            && (r.ending.Done? <==> forall i :: 0 <= i < NUM_DRIVERS ==> !Reaches(s, k, count, i))
            && (r.ending.Done? ==> Output(r.visits) != [])
  {
    hide *;
    var r := Poll(s, k, 0, 0, count);
    forall i | 0 <= i < NUM_DRIVERS ensures r.ending == InRead(i) <==> Reaches(s, k, count, i) {
      CallSleepsInReadIff(s, k, count, i);
    }
    FirstRoundDelivers(s, k, count, j);
  }

  lemma FirstRoundDelivers(s: Poller, k: Kernel, count: nat, j: nat)
    requires j < NUM_DRIVERS && Safe(s, j) && Owed(s.drivers[j]) != [] && count > 0
    ensures var r := Poll(s, k, 0, 0, count);
            && !r.ending.InPoll? && (r.ending.Done? ==> Output(r.visits) != [])
            && (r.ending.InRead? ==> r.ending.driver < NUM_DRIVERS)
  {
    hide Pass, Poll, Output, Ready, Safe, Owed;
    var p := Pass(s, k, 0, count, 0);
    var out := |Output(p.visits)|;
    PassDelivers(s, k, 0, count, 0, j);
    PollUnfolds(s, k, 0, 0, count, p, out);
    WaitingHasNothing(s, k, 0, 0, count);
    SleepsInADriver(s, k, 0, 0, count);
    NoOutput();
  }

  lemma {:induction false} SleepsInADriver(s: Poller, k: Kernel, m: nat, got: nat, room: nat)
    requires m <= |k.polls|
    ensures var r := Poll(s, k, m, got, room); r.ending.InRead? ==> r.ending.driver < NUM_DRIVERS
    decreases |k.polls| - m
  {
    hide Pass, Poll, Output, Ready;
    var p := Pass(s, k, m, room, 0);
    var out := |Output(p.visits)|;
    PollUnfolds(s, k, m, got, room, p, out);
    if GoesOn(k, m, room, p, out) {
      SleepsInADriver(Answered(p.s, k.polls[m]), k, m + 1, got + out, room - out);
    }
  }

  // ---------------------------------------------------------------- nothing is lost on the way

  /** Driver j's part of an output, and what it took from its device. */
  function PartOf(j: nat, visits: seq<Visited>): seq<SensorEvent> {
    if visits == [] then [] else (if visits[0].driver == j then visits[0].out else []) + PartOf(j, visits[1..])
  }

  function StreamOf(j: nat, visits: seq<Visited>): seq<InputEvent> {
    if visits == [] then [] else (if visits[0].driver == j then visits[0].arrived else []) + StreamOf(j, visits[1..])
  }

  lemma {:induction false} PartOfConcat(j: nat, a: seq<Visited>, b: seq<Visited>)
    ensures PartOf(j, a + b) == PartOf(j, a) + PartOf(j, b)
    ensures StreamOf(j, a + b) == StreamOf(j, a) + StreamOf(j, b)
    decreases a
  {
    if a == [] {
      assert a + b == b;
    } else {
      assert (a + b)[0] == a[0] && (a + b)[1..] == a[1..] + b;
      PartOfConcat(j, a[1..], b);
    }
  }

  /** Between d and d' driver j delivered its part of the visits: on any later events, part and rest are one
      unbounded pass. */
  ghost predicate Conserves(d: Driver, d': Driver, j: nat, visits: seq<Visited>) {
    && !d.HasPendingEvents() && !d'.HasPendingEvents()
    && forall later :: Emits(d, StreamOf(j, visits) + later) == PartOf(j, visits) + Emits(d', later)
  }

  lemma NoVisit(d: Driver, j: nat)
    requires !d.HasPendingEvents()
    ensures Conserves(d, d, j, [])
  {
    hide Emits;
    forall later: seq<InputEvent>
      ensures Emits(d, StreamOf(j, []) + later) == PartOf(j, []) + Emits(d, later)
    {
      assert [] + later == later && [] + Emits(d, later) == Emits(d, later);
    }
  }

  lemma OnlyPart(j: nat, v: Visited)
    ensures StreamOf(j, [v]) == if v.driver == j then v.arrived else []
    ensures PartOf(j, [v]) == if v.driver == j then v.out else []
  {
    assert [v][0] == v && [v][1..] == [];
    assert StreamOf(j, []) == [] && PartOf(j, []) == [];
    assert v.arrived + [] == v.arrived && v.out + [] == v.out;
  }

  lemma NoPart(d: Driver, j: nat, v: Visited)
    requires !d.HasPendingEvents() && v.driver != j
    ensures Conserves(d, d, j, [v])
  {
    OnlyPart(j, v);
    NoVisit(d, j);
    assert StreamOf(j, []) == [] && PartOf(j, []) == [];
  }

  lemma OneVisit(d: Driver, j: nat, arrived: seq<InputEvent>, clock: int, room: nat)
    requires !d.HasPendingEvents()
    ensures var (out, d') := ReadEvents(d, arrived, clock, room); Conserves(d, d', j, [Visited(j, arrived, out)])
  {
    var (out, d') := ReadEvents(d, arrived, clock, room);
    var v := Visited(j, arrived, out);
    OnlyPart(j, v);
    QuietAfter(d, arrived, clock, room);
    hide ReadEvents, Emits, PartOf, StreamOf;
    forall later: seq<InputEvent> ensures Emits(d, StreamOf(j, [v]) + later) == PartOf(j, [v]) + Emits(d', later) {
      ReadEventsConserves(d, arrived, clock, room, later);
    }
  }

  lemma QuietAfter(d: Driver, arrived: seq<InputEvent>, clock: int, room: nat)
    ensures !ReadEvents(d, arrived, clock, room).1.HasPendingEvents()
  {
  }

  lemma ConservesThrough(d: Driver, d': Driver, d'': Driver, j: nat, a: seq<Visited>, b: seq<Visited>)
    requires Conserves(d, d', j, a) && Conserves(d', d'', j, b)
    ensures Conserves(d, d'', j, a + b)
  {
    hide Emits, PartOf, StreamOf;
    forall later: seq<InputEvent>
      ensures Emits(d, StreamOf(j, a + b) + later) == PartOf(j, a + b) + Emits(d'', later)
    {
      PartOfConcat(j, a, b);
      var more := StreamOf(j, b) + later;
      assert StreamOf(j, a + b) + later == StreamOf(j, a) + more;
      assert Emits(d, StreamOf(j, a) + more) == PartOf(j, a) + Emits(d', more);
      Associate(PartOf(j, a), PartOf(j, b), Emits(d'', later));
    }
  }

  lemma TurnConserves(s: Poller, k: Kernel, m: nat, room: nat, i: nat, j: nat)
    requires i < NUM_DRIVERS && j < NUM_DRIVERS && room > 0 && Visits(s, i) && !s.drivers[j].HasPendingEvents()
    ensures var (v, s') := Turn(s, k, m, room, i);
            Conserves(s.drivers[j], s'.drivers[j], j, [v])
  {
    OneVisit(s.drivers[j], j, Arrived(s.drivers[j], k.input(m, j)), k.clock(m, j), room);
    hide ReadEvents, Emits, Arrived;
    if i != j {
      NoPart(s.drivers[j], j, Turn(s, k, m, room, i).0);
    }
  }

  lemma {:induction false} PassConserves(s: Poller, k: Kernel, m: nat, room: nat, i: nat, j: nat)
    requires i <= NUM_DRIVERS && j < NUM_DRIVERS && !s.drivers[j].HasPendingEvents()
    ensures var r := Pass(s, k, m, room, i);
            Conserves(s.drivers[j], r.s.drivers[j], j, r.visits)
    decreases NUM_DRIVERS - i
  {
    hide Turn, Visits, Sleeps, Conserves, Output;
    if room == 0 || i == NUM_DRIVERS || Sleeps(s, k, m, i) {
      NoVisit(s.drivers[j], j);
    } else if Visits(s, i) {
      var (v, s') := Turn(s, k, m, room, i);
      var rest := Pass(s', k, m, room - |v.out|, i + 1);
      TurnConserves(s, k, m, room, i, j);
      ConservesQuiet(s.drivers[j], s'.drivers[j], j, [v]);
      PassConserves(s', k, m, room - |v.out|, i + 1, j);
      ConservesThrough(s.drivers[j], s'.drivers[j], rest.s.drivers[j], j, [v], rest.visits);
    } else {
      PassConserves(s, k, m, room, i + 1, j);
    }
  }

  lemma ConservesQuiet(d: Driver, d': Driver, j: nat, visits: seq<Visited>)
    requires Conserves(d, d', j, visits)
    ensures !d'.HasPendingEvents()
  {
  }

  lemma {:induction false} PollConserves(s: Poller, k: Kernel, m: nat, got: nat, room: nat, j: nat)
    requires m <= |k.polls| && j < NUM_DRIVERS && !s.drivers[j].HasPendingEvents()
    ensures var r := Poll(s, k, m, got, room);
            Conserves(s.drivers[j], r.s.drivers[j], j, r.visits)
    decreases |k.polls| - m
  {
    hide Poll, Pass, Output, Ready, Conserves, GoesOn;
    var p := Pass(s, k, m, room, 0);
    var out := |Output(p.visits)|;
    PassConserves(s, k, m, room, 0, j);
    ConservesQuiet(s.drivers[j], p.s.drivers[j], j, p.visits);
    PollUnfolds(s, k, m, got, room, p, out);
    if GoesOn(k, m, room, p, out) {
      GoingOn(k, m, room, p, out);
      var rest := Poll(Answered(p.s, k.polls[m]), k, m + 1, got + out, room - out);
      PollConserves(Answered(p.s, k.polls[m]), k, m + 1, got + out, room - out, j);
      ConservesThrough(s.drivers[j], p.s.drivers[j], rest.s.drivers[j], j, p.visits, rest.visits);
    }
  }

  lemma GoingOn(k: Kernel, m: nat, room: nat, p: Round, out: nat)
    requires GoesOn(k, m, room, p, out)
    ensures m < |k.polls| && out < room
  {
  }

  // ---------------------------------------------------------------- every run of calls

  /** What happens to a context: a call of pollEvents, or an activation after which driver i has a made-up
      event to report. */
  datatype Event = Call(count: nat, k: Kernel) | Activate(driver: nat)

  function Activated(d: Driver): Driver {
    match d
    case Kxtf9(_, _) => d
    case Ak8973(ring, _, pending, enabled) => Ak8973(ring, true, pending, enabled[TEMPERATURE := true])
    case Relay(ring, _, sensor, _) => Relay(ring, true, sensor, true)
  }

  function Stepped(s: Poller, e: Event): Round {
    match e
    case Call(count, k) => var r := Poll(s, k, 0, 0, count); Round(r.s, r.visits, r.ending)
    case Activate(i) =>
      if i < NUM_DRIVERS then Round(Poller(s.drivers[i := Activated(s.drivers[i])], s.revents), [], Done)
      else Round(s, [], Done)
  }

  /** A run up to the first call that sleeps for good, and all its readEvents calls in order. */
  function Run(s: Poller, es: seq<Event>): Round
    decreases es
  {
    if es == [] then Round(s, [], Done)
    else
      var first := Stepped(s, es[0]);
      if first.ending.Done? then
        var rest := Run(first.s, es[1..]);
        Round(rest.s, first.visits + rest.visits, rest.ending)
      else first
  }

  predicate NeverActivated(es: seq<Event>, j: nat) {
    forall i :: 0 <= i < |es| && es[i].Activate? ==> es[i].driver != j
  }

  lemma StepKeeps(s: Poller, e: Event, j: nat)
    requires j < NUM_DRIVERS && Safe(s, j) && (e.Activate? ==> e.driver != j)
    ensures Safe(Stepped(s, e).s, j) && Conserves(s.drivers[j], Stepped(s, e).s.drivers[j], j, Stepped(s, e).visits)
  {
    hide Poll, Conserves;
    match e
    case Call(count, k) =>
      PollKeepsSafe(s, k, 0, 0, count, j);
      PollConserves(s, k, 0, 0, count, j);
    case Activate(i) =>
      NoVisit(s.drivers[j], j);
  }

  /** Main theorem.  Over every run of calls of any sizes, with any kernel, a driver that is never given a
      made-up event is safe at every call boundary, and its part of all outputs strung together, followed
      by what it would still emit, is one unbounded pass over all that arrived for it. */
  lemma {:induction false} EveryRunKeeps(s: Poller, es: seq<Event>, j: nat)
    requires j < NUM_DRIVERS && Safe(s, j) && NeverActivated(es, j)
    ensures Safe(Run(s, es).s, j) && Conserves(s.drivers[j], Run(s, es).s.drivers[j], j, Run(s, es).visits)
    decreases es
  {
    hide Stepped, Conserves, Safe;
    if es == [] {
      SafeIsQuiet(s, j);
      NoVisit(s.drivers[j], j);
    } else {
      var first := Stepped(s, es[0]);
      StepKeeps(s, es[0], j);
      if first.ending.Done? {
        var rest := Run(first.s, es[1..]);
        EveryRunKeeps(first.s, es[1..], j);
        ConservesThrough(s.drivers[j], first.s.drivers[j], rest.s.drivers[j], j, first.visits, rest.visits);
      }
    }
  }

  lemma SafeIsQuiet(s: Poller, j: nat)
    requires j < NUM_DRIVERS && Safe(s, j)
    ensures !s.drivers[j].HasPendingEvents()
  {
  }

  /** In particular, if the driver starts with nothing buffered or made up: its part is a prefix of its
      unbounded pass, and all of it once its buffer is empty.  As long as its buffer owes an event, the next
      call returns one, unless it comes to a read() that sleeps. */
  lemma EveryRunDelivers(s: Poller, es: seq<Event>, j: nat, count: nat, k: Kernel)
    requires j < NUM_DRIVERS && s.drivers[j].ring == [] && !s.drivers[j].HasPendingEvents() && NeverActivated(es, j)
    requires count > 0 && Truthful(k)
    ensures var r := Run(s, es);
            var all := Emits(s.drivers[j], StreamOf(j, r.visits));
            && PartOf(j, r.visits) <= all
            && (r.s.drivers[j].ring == [] ==> PartOf(j, r.visits) == all)
            && (Owed(r.s.drivers[j]) != [] ==>
                  var next := Poll(r.s, k, 0, 0, count);
                  && (next.ending.Done? <==> forall i :: 0 <= i < NUM_DRIVERS ==> !Reaches(r.s, k, count, i))
                  && (next.ending.Done? ==> Output(next.visits) != []))
  {
    hide Run, Emits, Poll, Reaches;
    var r := Run(s, es);
    EveryRunKeeps(s, es, j);
    var stream := StreamOf(j, r.visits);
    assert Emits(s.drivers[j], stream + []) == PartOf(j, r.visits) + Emits(r.s.drivers[j], []);
    assert stream + [] == stream;
    if r.s.drivers[j].ring == [] { NothingOwed(r.s.drivers[j]); }
    if Owed(r.s.drivers[j]) != [] { PollDelivers(r.s, k, count, j); }
  }

  // ---------------------------------------------------------------- when a call strands

  /** A driver that strands its buffered events when it is read into this much room. */
  predicate Strands(d: Driver, room: nat) {
    d.HasPendingEvents() && d.ring != [] && (room > 1 || (room == 1 && d.Relay? && !d.on))
  }

  predicate Stranded(s: Poller, j: nat)
    requires j < NUM_DRIVERS
  {
    s.drivers[j].ring != [] && !s.revents[j] && !s.drivers[j].HasPendingEvents()
  }

  lemma {:induction false} PassLeavesAlone(s: Poller, k: Kernel, m: nat, room: nat, i: nat, j: nat)
    requires i <= NUM_DRIVERS && j < NUM_DRIVERS && (j < i || !Visits(s, j))
    ensures var r := Pass(s, k, m, room, i);
            r.s.drivers[j] == s.drivers[j] && r.s.revents[j] == s.revents[j]
    decreases NUM_DRIVERS - i
  {
    hide *;
    if room == 0 || i == NUM_DRIVERS {
      RoundOver(s, k, m, room, i);
    } else {
      var (v, s') := Turn(s, k, m, room, i);
      PassUnfolds(s, k, m, room, i, v, s');
      if Visits(s, i) {
        TurnElsewhere(s, k, m, room, i, j);
        PassLeavesAlone(s', k, m, room - |v.out|, i + 1, j);
      } else {
        ReadOnlyIfVisited(s, k, m, i);
        PassLeavesAlone(s, k, m, room, i + 1, j);
      }
    }
  }

  /** What a round makes of a flagged driver: stranded if it strands in the room left for it; otherwise
      flagged, and if the round gets through with room left safe with an empty buffer. */
  ghost predicate Treated(s': Poller, j: nat, strands: bool, full: bool)
    requires j < NUM_DRIVERS
  {
    if strands then Stranded(s', j)
    else Flagged(s'.drivers[j], s'.revents[j]) && (!full ==> Safe(s', j) && s'.drivers[j].ring == [])
  }

  ghost predicate RoundTreated(s: Poller, k: Kernel, m: nat, room: nat, i: nat, j: nat)
    requires i <= j < NUM_DRIVERS
  {
    var r := Pass(s, k, m, room, i);
    Treated(r.s, j, Strands(s.drivers[j], RoomAt(s, k, m, room, i, j)), Full(r, room))
  }

  lemma TurnTreats(s: Poller, k: Kernel, m: nat, room: nat, j: nat)
    requires j < NUM_DRIVERS && room > 0 && Flagged(s.drivers[j], s.revents[j])
    ensures Visits(s, j) ==> var (v, s') := Turn(s, k, m, room, j);
                             Treated(s', j, Strands(s.drivers[j], room), |v.out| == room)
    ensures !Visits(s, j) ==> Safe(s, j) && s.drivers[j].ring == [] && !Strands(s.drivers[j], room)
    ensures Sleeps(s, k, m, j) ==> !Strands(s.drivers[j], room)
  {
    ShortReadDrains(s.drivers[j], Arrived(s.drivers[j], k.input(m, j)), k.clock(m, j), room);
  }

  lemma {:induction false} PassTreats(s: Poller, k: Kernel, m: nat, room: nat, i: nat, j: nat)
    requires i <= j < NUM_DRIVERS && Flagged(s.drivers[j], s.revents[j])
    ensures RoundTreated(s, k, m, room, i, j)
    decreases j - i
  {
    hide *;
    if room == 0 || (i < j && Sleeps(s, k, m, i)) {
      EmptyRoundTreats(s, k, m, room, i, j);
    } else {
      var (v, s') := Turn(s, k, m, room, i);
      if i == j {
        TurnTreats(s, k, m, room, j);
        LastTurnTreats(s, k, m, room, j, v, s');
      } else if Visits(s, i) {
        TurnElsewhere(s, k, m, room, i, j);
        PassTreats(s', k, m, room - |v.out|, i + 1, j);
        TurnsTreat(s, k, m, room, i, j, v, s');
      } else {
        PassTreats(s, k, m, room, i + 1, j);
        SkippedTurnTreats(s, k, m, room, i, j);
      }
    }
  }

  lemma EmptyRoundTreats(s: Poller, k: Kernel, m: nat, room: nat, i: nat, j: nat)
    requires i <= j < NUM_DRIVERS && Flagged(s.drivers[j], s.revents[j])
    requires room == 0 || (i < j && Sleeps(s, k, m, i))
    ensures RoundTreated(s, k, m, room, i, j)
  {
  }

  lemma TurnsTreat(s: Poller, k: Kernel, m: nat, room: nat, i: nat, j: nat, v: Visited, s': Poller)
    requires i < j < NUM_DRIVERS && room > 0 && Visits(s, i) && !Sleeps(s, k, m, i)
    requires (v, s') == Turn(s, k, m, room, i) && s'.drivers[j] == s.drivers[j]
    requires RoundTreated(s', k, m, room - |v.out|, i + 1, j)
    ensures RoundTreated(s, k, m, room, i, j)
  {
    hide Turn, Visits, Sleeps, Pass, Output, Strands, Stranded, Safe, Flagged;
    PassUnfolds(s, k, m, room, i, v, s');
  }

  lemma SkippedTurnTreats(s: Poller, k: Kernel, m: nat, room: nat, i: nat, j: nat)
    requires i < j < NUM_DRIVERS && room > 0 && !Visits(s, i)
    requires RoundTreated(s, k, m, room, i + 1, j)
    ensures RoundTreated(s, k, m, room, i, j)
  {
    ReadOnlyIfVisited(s, k, m, i);
    hide Turn, Visits, Sleeps, Output, Strands, Stranded, Safe, Flagged;
  }

  /** Driver j's own turn, and the turns of others behind it. */
  lemma LastTurnTreats(s: Poller, k: Kernel, m: nat, room: nat, j: nat, v: Visited, s': Poller)
    requires j < NUM_DRIVERS && room > 0 && (v, s') == Turn(s, k, m, room, j)
    requires Flagged(s.drivers[j], s.revents[j])
    requires Visits(s, j) ==> Treated(s', j, Strands(s.drivers[j], room), |v.out| == room)
    requires !Visits(s, j) ==> Safe(s, j) && s.drivers[j].ring == [] && !Strands(s.drivers[j], room)
    requires Sleeps(s, k, m, j) ==> !Strands(s.drivers[j], room)
    ensures RoundTreated(s, k, m, room, j, j)
  {
    hide Turn, Visits, Sleeps, Pass, Output;
    PassUnfolds(s, k, m, room, j, v, s');
    if Visits(s, j) {
      PassLeavesAlone(s', k, m, room - |v.out|, j + 1, j);
    } else {
      ReadOnlyIfVisited(s, k, m, j);
      PassLeavesAlone(s, k, m, room, j + 1, j);
    }
  }

  lemma {:induction false} StrandedUntilFlagged(s: Poller, k: Kernel, m: nat, got: nat, room: nat, j: nat)
    requires m <= |k.polls| && j < NUM_DRIVERS && Stranded(s, j)
    ensures var r := Poll(s, k, m, got, room);
            && m <= r.polls <= |k.polls|
            && (!Flagged(r.s.drivers[j], r.s.revents[j]) <==> forall n :: m <= n < r.polls ==> !k.polls[n][j])
    decreases |k.polls| - m
  {
    hide Poll, Pass;
    PassLeavesAlone(s, k, m, room, 0, j);
    StrandedOnward(s, k, m, got, room, j, Pass(s, k, m, room, 0));
  }

  /** A call whose first round ends with driver j stranded. */
  lemma StrandedOnward(s: Poller, k: Kernel, m: nat, got: nat, room: nat, j: nat, p: Round)
    requires m <= |k.polls| && j < NUM_DRIVERS && p == Pass(s, k, m, room, 0) && Stranded(p.s, j)
    ensures var r := Poll(s, k, m, got, room);
            && m <= r.polls <= |k.polls|
            && (!Flagged(r.s.drivers[j], r.s.revents[j]) <==> forall n :: m <= n < r.polls ==> !k.polls[n][j])
    decreases |k.polls| - m, 0
  {
    hide Poll, Pass, Output, Ready;
    var out := |Output(p.visits)|;
    PollUnfolds(s, k, m, got, room, p, out);
    if GoesOn(k, m, room, p, out) {
      var next := Answered(p.s, k.polls[m]);
      if k.polls[m][j] {
        PollKeepsSafe(next, k, m + 1, got + out, room - out, j);
        WaitingHasNothing(next, k, m + 1, got + out, room - out);
      } else {
        StrandedUntilFlagged(next, k, m + 1, got + out, room - out, j);
      }
    }
  }

  /** When a call strands a flagged driver, exactly: its made-up event comes up in the first round while
      events are buffered, does not fill the room left for it, and no poll() of the same call finds the
      driver's device ready again. */
  lemma PollStrandsIff(s: Poller, k: Kernel, count: nat, j: nat)
    requires j < NUM_DRIVERS && Flagged(s.drivers[j], s.revents[j])
    ensures var r := Poll(s, k, 0, 0, count);
            && r.polls <= |k.polls|
            && (!Flagged(r.s.drivers[j], r.s.revents[j]) <==>
                && Strands(s.drivers[j], RoomAt(s, k, 0, count, 0, j))
                && forall n :: 0 <= n < r.polls ==> !k.polls[n][j])
  {
    hide Poll, Pass, Output, Ready, Strands, RoomAt;
    var p := Pass(s, k, 0, count, 0);
    PassTreats(s, k, 0, count, 0, j);
    WaitingHasNothing(s, k, 0, 0, count);
    if Strands(s.drivers[j], RoomAt(s, k, 0, count, 0, j)) {
      StrandedOnward(s, k, 0, 0, count, j, p);
    } else {
      FlaggedOnward(s, k, count, j, p);
    }
  }

  lemma FlaggedOnward(s: Poller, k: Kernel, count: nat, j: nat, p: Round)
    requires j < NUM_DRIVERS && p == Pass(s, k, 0, count, 0) && Treated(p.s, j, false, Full(p, count))
    ensures KeepsFlag(s, k, count, j)
  {
    hide Poll, Pass, Output, Ready;
    var out := |Output(p.visits)|;
    PollUnfolds(s, k, 0, 0, count, p, out);
    if GoesOn(k, 0, count, p, out) {
      PollKeepsSafe(Answered(p.s, k.polls[0]), k, 1, out, count - out, j);
    }
  }

  /** At the end of this call driver j's buffered events are flagged. */
  predicate KeepsFlag(s: Poller, k: Kernel, count: nat, j: nat)
    requires j < NUM_DRIVERS
  {
    var r := Poll(s, k, 0, 0, count);
    Flagged(r.s.drivers[j], r.s.revents[j])
  }

  const SILENT: Kernel := Kernel((m: nat, i: nat) => [], (m: nat, i: nat) => 0, [])

  // An axis code no driver knows.
  const ABS_MISC := 0x28

  /** A kernel for one call: a device whose read() would sleep has one event, all others are empty, and once
      those are read poll() finds nothing. */
  function Feeding(s: Poller): Kernel {
    Kernel((m: nat, i: nat) =>
             if m == 0 && i < NUM_DRIVERS && Sleeps(s, SILENT, 0, i) then [InputEvent(EV_ABS, ABS_MISC, 0, 0)] else [],
           (m: nat, i: nat) => 0, [])
  }

  /** More than one visit to the driver can deliver. */
  function MostOut(d: Driver, device: seq<InputEvent>): nat {
    if d.HasPendingEvents() then 1 else |Emits(d, Arrived(d, device))|
  }

  lemma OutBounded(d: Driver, device: seq<InputEvent>, clock: int, room: nat)
    ensures |ReadEvents(d, Arrived(d, device), clock, room).0| <= MostOut(d, device)
  {
    var arrived := Arrived(d, device);
    if !d.HasPendingEvents() {
      ReadEventsConserves(d, arrived, clock, room, []);
      assert arrived + [] == arrived;
    }
  }

  /** The most that drivers i to j - 1 can deliver in the first round. */
  function MostBefore(ds: Drivers, k: Kernel, i: nat, j: nat): nat
    requires i <= j <= NUM_DRIVERS
    decreases j - i
  {
    if i == j then 0 else MostOut(ds[i], k.input(0, i)) + MostBefore(ds, k, i + 1, j)
  }

  lemma {:induction false} MostBeforeSame(ds: Drivers, es: Drivers, k: Kernel, i: nat, j: nat)
    requires i <= j <= NUM_DRIVERS && forall t :: i <= t < j ==> ds[t] == es[t]
    ensures MostBefore(ds, k, i, j) == MostBefore(es, k, i, j)
    decreases j - i
  {
    if i < j {
      MostBeforeSame(ds, es, k, i + 1, j);
    }
  }

  lemma TurnLeavesRoom(s: Poller, k: Kernel, room: nat, i: nat, j: nat)
    requires i < j < NUM_DRIVERS && room > 0
    ensures var (v, s') := Turn(s, k, 0, room, i);
            && MostBefore(s.drivers, k, i, j) >= |v.out| + MostBefore(s'.drivers, k, i + 1, j)
            && MostBefore(s.drivers, k, i, j) >= MostBefore(s.drivers, k, i + 1, j)
  {
    hide ReadEvents, MostOut, Arrived;
    MostBeforeSame(s.drivers, Turn(s, k, 0, room, i).1.drivers, k, i + 1, j);
    OutBounded(s.drivers[i], k.input(0, i), k.clock(0, i), room);
  }

  /** Drivers i and behind are as before the round. */
  ghost predicate Unread(s: Poller, now: Poller, i: nat) {
    forall t :: i <= t < NUM_DRIVERS ==> now.drivers[t] == s.drivers[t] && now.revents[t] == s.revents[t]
  }

  lemma FedAwake(s: Poller, now: Poller, i: nat)
    requires i < NUM_DRIVERS && Unread(s, now, i)
    ensures !Sleeps(now, Feeding(s), 0, i)
  {
  }

  lemma StillUnread(s: Poller, now: Poller, k: Kernel, room: nat, i: nat)
    requires i < NUM_DRIVERS && Unread(s, now, i) && room > 0
    ensures Unread(s, now, i + 1) && Unread(s, Turn(now, k, 0, room, i).1, i + 1)
  {
    hide Visit;
  }

  lemma {:induction false} RoomReaches(s: Poller, now: Poller, room: nat, i: nat, j: nat)
    requires i <= j < NUM_DRIVERS && Unread(s, now, i)
    ensures RoomAt(now, Feeding(s), 0, room, i, j) + MostBefore(now.drivers, Feeding(s), i, j) >= room
    decreases j - i
  {
    hide *;
    var k := Feeding(s);
    if i == j {
      NothingBefore(now.drivers, k, j);
      RoomHere(now, k, 0, room, j);
    } else if room > 0 {
      var (v, next) := Turn(now, k, 0, room, i);
      RoomUnfolds(now, k, 0, room, i, j, v, next);
      FedAwake(s, now, i);
      TurnLeavesRoom(now, k, room, i, j);
      StillUnread(s, now, k, room, i);
      if Visits(now, i) {
        RoomReaches(s, next, room - |v.out|, i + 1, j);
      } else {
        RoomReaches(s, now, room, i + 1, j);
      }
    }
  }

  lemma NothingBefore(ds: Drivers, k: Kernel, j: nat)
    requires j <= NUM_DRIVERS
    ensures MostBefore(ds, k, j, j) == 0
  {
  }

  lemma RoomHere(s: Poller, k: Kernel, m: nat, room: nat, j: nat)
    requires j < NUM_DRIVERS
    ensures RoomAt(s, k, m, room, j, j) == room
  {
  }

  /** What a caller can tell before the call.  A flagged driver is never stranded, whatever the kernel and
      the request, exactly if it has nothing made up or nothing buffered; otherwise a large enough request
      strands it. */
  lemma NeverStrandedIff(s: Poller, j: nat)
    requires j < NUM_DRIVERS && Flagged(s.drivers[j], s.revents[j])
    ensures (forall k: Kernel, count: nat :: Truthful(k) ==> KeepsFlag(s, k, count, j))
       <==> !s.drivers[j].HasPendingEvents() || s.drivers[j].ring == []
  {
    hide Poll, RoomAt, Feeding, MostBefore;
    if !s.drivers[j].HasPendingEvents() || s.drivers[j].ring == [] {
      forall k: Kernel, count: nat ensures KeepsFlag(s, k, count, j) { PollStrandsIff(s, k, count, j); }
    } else {
      var k := Feeding(s);
      var count := 2 + MostBefore(s.drivers, k, 0, j);
      RoomReaches(s, s, count, 0, j);
      PollStrandsIff(s, k, count, j);
      FeedingIsTruthful(s);
      assert !KeepsFlag(s, k, count, j);
    }
  }

  lemma FeedingIsTruthful(s: Poller)
    ensures Truthful(Feeding(s)) && Feeding(s).polls == []
  {
  }

  // ---------------------------------------------------------------- two runs

  /** The kernel has these events for driver j, and poll() says so once. */
  function Brings(j: nat, es: seq<InputEvent>): Kernel
    requires j < NUM_DRIVERS
  {
    Kernel((m: nat, i: nat) => if m == 1 && i == j then es else [], (m: nat, i: nat) => 0, [NOTHING[j := true]])
  }

  lemma BringsTruthful(j: nat, es: seq<InputEvent>)
    requires j < NUM_DRIVERS && es != []
    ensures Truthful(Brings(j, es)) && Truthful(SILENT)
  {
  }

  lemma {:induction false} QuietFrom(s: Poller, k: Kernel, m: nat, room: nat, i: nat)
    requires i <= NUM_DRIVERS && forall j :: i <= j < NUM_DRIVERS ==> !Visits(s, j)
    ensures Pass(s, k, m, room, i) == Round(s, [], Done)
    decreases NUM_DRIVERS - i
  {
    if i < NUM_DRIVERS && room > 0 {
      QuietFrom(s, k, m, room, i + 1);
    }
  }

  lemma {:induction false} QuietUntil(s: Poller, k: Kernel, m: nat, room: nat, i: nat, j: nat)
    requires i <= j <= NUM_DRIVERS && forall t :: i <= t < j ==> !Visits(s, t)
    ensures Pass(s, k, m, room, i) == Pass(s, k, m, room, j)
    decreases j - i
  {
    if i < j && room > 0 {
      QuietUntil(s, k, m, room, i + 1, j);
    }
  }

  predicate Quiet(s: Poller) {
    s.revents == NOTHING && forall i :: 0 <= i < NUM_DRIVERS ==> !s.drivers[i].HasPendingEvents()
  }

  /** From a quiet context, a call for one event that driver j delivers from what the kernel brings: it
      returns that one, and the driver keeps its flag. */
  lemma OneBrought(s: Poller, j: nat, es: seq<InputEvent>, e: SensorEvent, d: Driver)
    requires j < NUM_DRIVERS && Quiet(s) && es != [] && |es| <= s.drivers[j].Free()
    requires ReadEvents(s.drivers[j], es, 0, 1) == ([e], d)
    ensures Poll(s, Brings(j, es), 0, 0, 1)
         == Polled(Poller(s.drivers[j := d], NOTHING[j := true]), [Visited(j, es, [e])], Done, 1)
  {
    hide ReadEvents, Pass, Poll, Output, Ready, GoesOn, Ended, Answered, Brings, Quiet;
    var k := Brings(j, es);
    var t := Poller(s.drivers, NOTHING[j := true]);
    var v := Visited(j, es, [e]);
    var s' := Poller(s.drivers[j := d], NOTHING[j := true]);
    QuietRound(s, k, 1);
    BringsOne(s, j, es);
    NoOutput();
    PollUnfolds(s, k, 0, 0, 1, Round(s, [], Done), 0);
    BroughtRound(s, j, es, e, d, t, v, s');
    OneOutput(v);
    PollUnfolds(t, k, 1, 0, 1, Round(s', [v], Done), 1);
    LastOfBrings(k, j, es, Round(s, [], Done), Round(s', [v], Done));
    assert [] + [v] == [v];
  }

  lemma OneOutput(v: Visited)
    ensures Output([v]) == v.out
  {
    OutputCons(v, []);
    assert [v] + [] == [v];
  }

  lemma QuietRound(s: Poller, k: Kernel, room: nat)
    requires Quiet(s)
    ensures Pass(s, k, 0, room, 0) == Round(s, [], Done)
  {
    QuietFrom(s, k, 0, room, 0);
  }

  lemma BringsOne(s: Poller, j: nat, es: seq<InputEvent>)
    requires j < NUM_DRIVERS
    ensures var k := Brings(j, es);
            && |k.polls| == 1 && Answered(s, k.polls[0]) == Poller(s.drivers, NOTHING[j := true])
            && GoesOn(k, 0, 1, Round(s, [], Done), 0)
  {
    var f := NOTHING[j := true];
    assert f[WAKE := false] == f;
    SomeReady(f, j);
  }

  lemma {:induction false} SomeReady(flags: seq<bool>, j: nat)
    requires j < |flags| && flags[j]
    ensures Ready(flags) > 0
  {
    if j > 0 { SomeReady(flags[1..], j - 1); }
  }

  lemma LastOfBrings(k: Kernel, j: nat, es: seq<InputEvent>, p: Round, q: Round)
    requires j < NUM_DRIVERS && k == Brings(j, es)
    ensures !GoesOn(k, 1, 1, q, 1) && (q.ending.Done? ==> Ended(q, 1, 0, 1, 1) == Polled(q.s, q.visits, Done, 1))
  {
  }

  lemma BroughtRound(s: Poller, j: nat, es: seq<InputEvent>, e: SensorEvent, d: Driver,
                     t: Poller, v: Visited, s': Poller)
    requires j < NUM_DRIVERS && Quiet(s) && es != [] && |es| <= s.drivers[j].Free()
    requires ReadEvents(s.drivers[j], es, 0, 1) == ([e], d)
    requires t == Poller(s.drivers, NOTHING[j := true]) && v == Visited(j, es, [e])
    requires s' == Poller(s.drivers[j := d], NOTHING[j := true])
    ensures Pass(t, Brings(j, es), 1, 1, 0) == Round(s', [v], Done)
  {
    hide ReadEvents, Pass, Output;
    var k := Brings(j, es);
    QuietUntil(t, k, 1, 1, 0, j);
    var turn := Turn(t, k, 1, 1, j);
    assert turn.1.revents == s'.revents;
    assert turn == (v, s');
    PassUnfolds(t, k, 1, 1, j, v, s');
    RoundOver(s', k, 1, 0, j + 1);
    assert [v] + [] == [v];
  }

  /** Proximity is off and light is on, and neither has anything. */
  function WithIdleRelays(a: Driver, b: Driver): Drivers {
    [a, b, Relay([], false, 4, false), Relay([], false, 5, true)]
  }

  /** A flag that stays makes the next call sleep, although an event is buffered.  The kernel has two SYNs for
      the accelerometer, and two calls ask for one event each: the first returns one and keeps the flag; the
      second finds 31 slots free, reads the empty device, and sleeps. */
  lemma LeftoverFlagSleeps(last: Reading, compass: Driver, e: InputEvent, count: nat)
    requires e.kind == EV_SYN && count > 0 && !compass.HasPendingEvents()
    ensures var s := Poller(WithIdleRelays(Kxtf9([], last), compass), NOTHING);
            var k := Brings(0, [e, e]);
            var first := Run(s, [Event.Call(1, k)]);
            && Truthful(k) && Truthful(SILENT)
            && first.ending.Done? && |Output(first.visits)| == 1
            && Safe(first.s, 0) && |Owed(first.s.drivers[0])| == 1
            && Poll(first.s, SILENT, 0, 0, count).ending == InRead(0)
  {
    hide ReadEvents, Run, Poll, Output, Owed, Safe, Sleeps, Brings, Quiet, Truthful, WithIdleRelays, SILENT;
    var s := Poller(WithIdleRelays(Kxtf9([], last), compass), NOTHING);
    var r := last.(timestamp := e.time);
    var d := Kxtf9([e], r);
    var first := SensorEvent(ACCELEROMETER, r);
    var s' := Poller(s.drivers[0 := d], NOTHING[0 := true]);
    QuietStart(last, compass, e);
    OneOfTwo(last, e);
    OneBrought(s, 0, [e, e], first, d);
    RunOfOne(s, Event.Call(1, Brings(0, [e, e])), 1, Brings(0, [e, e]));
    BringsTruthful(0, [e, e]);
    OneOutput(Visited(0, [e, e], [first]));
    AccelerometerOwes([e], r);
    OneSyn(e);
    LeftoverState(s', e, r);
    FirstReadSleepsIff(s', SILENT, count, 0);
  }

  lemma QuietStart(last: Reading, compass: Driver, e: InputEvent)
    requires !compass.HasPendingEvents()
    ensures Quiet(Poller(WithIdleRelays(Kxtf9([], last), compass), NOTHING))
    ensures |[e, e]| <= Kxtf9([], last).Free() && WithIdleRelays(Kxtf9([], last), compass)[0] == Kxtf9([], last)
  {
  }

  lemma OneOfTwo(last: Reading, e: InputEvent)
    requires e.kind == EV_SYN
    ensures var r := last.(timestamp := e.time);
            ReadEvents(Kxtf9([], last), [e, e], 0, 1) == ([SensorEvent(ACCELEROMETER, r)], Kxtf9([e], r))
  {
    var q, r := [e, e], last.(timestamp := e.time);
    assert [] + q == q && q[1..] == [e] && q[..1] == [e] && [e][1..] == [];
    assert SensorKXTF9.Consumed(q, 1) == 1;
    assert e.kind != EV_ABS;
    assert SensorKXTF9.All(r, [e][1..]) == [] && SensorKXTF9.LastAfter(r, [e][1..]) == r;
    assert SensorKXTF9.All(last, [e]) == [SensorEvent(ACCELEROMETER, r)];
    assert SensorKXTF9.LastAfter(last, [e]) == r;
  }

  lemma OneSyn(e: InputEvent)
    requires e.kind == EV_SYN
    ensures SensorKXTF9.Syns([e]) == 1
  {
    assert [e][1..] == [];
  }

  lemma LeftoverState(s: Poller, e: InputEvent, last: Reading)
    requires s.drivers[0] == Kxtf9([e], last) && s.revents[0]
    ensures Safe(s, 0) && Sleeps(s, SILENT, 0, 0)
  {
  }

  lemma RunOfOne(s: Poller, e: Event, count: nat, k: Kernel)
    requires e == Event.Call(count, k)
    ensures var r := Poll(s, k, 0, 0, count); Run(s, [e]) == Round(r.s, r.visits, r.ending)
  {
    hide Poll;
    var r := Poll(s, k, 0, 0, count);
    assert [e][0] == e && [e][1..] == [];
    assert Run(r.s, []) == Round(r.s, [], Done);
    assert r.visits + [] == r.visits;
  }

  lemma RunSplits(s: Poller, e: Event, es: seq<Event>, first: Round)
    requires first == Stepped(s, e) && first.ending.Done?
    ensures var rest := Run(first.s, es);
            && Run(s, [e] + es) == Round(rest.s, first.visits + rest.visits, rest.ending)
            && Output(first.visits + rest.visits) == Output(first.visits) + Output(rest.visits)
  {
    assert ([e] + es)[0] == e && ([e] + es)[1..] == es;
    OutputConcat(first.visits, Run(first.s, es).visits);
  }

  lemma RunOfTwo(s: Poller, a: Event, b: Event, rest: seq<Event>, first: Round, t: Poller)
    requires first == Stepped(s, a) && first.ending.Done? && Stepped(first.s, b) == Round(t, [], Done)
    ensures var r, later := Run(s, [a, b] + rest), Run(t, rest);
            && r.s == later.s && r.ending == later.ending
            && Output(r.visits) == Output(first.visits) + Output(later.visits)
  {
    hide *;
    RunSplits(first.s, b, rest, Round(t, [], Done));
    RunSplits(s, a, [b] + rest, first);
    assert [a, b] + rest == [a] + ([b] + rest);
    assert [] + Run(t, rest).visits == Run(t, rest).visits;
  }

  lemma SteppedBrought(s: Poller, j: nat, es: seq<InputEvent>, e: SensorEvent, d: Driver, first: Round)
    requires j < NUM_DRIVERS && Quiet(s) && es != [] && |es| <= s.drivers[j].Free()
    requires ReadEvents(s.drivers[j], es, 0, 1) == ([e], d)
    requires first == Round(Poller(s.drivers[j := d], NOTHING[j := true]), [Visited(j, es, [e])], Done)
    ensures Stepped(s, Event.Call(1, Brings(j, es))) == first && Output(first.visits) == [e]
  {
    hide ReadEvents, Poll, Brings, Quiet;
    OneBrought(s, j, es, e, d);
    OneOutput(Visited(j, es, [e]));
  }

  /** A call for one event that driver j delivers from what the kernel brings, and then an activation. */
  lemma BroughtThenActivated(s: Poller, j: nat, es: seq<InputEvent>, e: SensorEvent, d: Driver,
                             i: nat, rest: seq<Event>, t: Poller)
    requires j < NUM_DRIVERS && i < NUM_DRIVERS && Quiet(s) && es != [] && |es| <= s.drivers[j].Free()
    requires ReadEvents(s.drivers[j], es, 0, 1) == ([e], d)
    requires Stepped(Poller(s.drivers[j := d], NOTHING[j := true]), Activate(i)) == Round(t, [], Done)
    ensures var r, later := Run(s, [Event.Call(1, Brings(j, es)), Activate(i)] + rest), Run(t, rest);
            && r.s == later.s && r.ending == later.ending
            && Output(r.visits) == [e] + Output(later.visits)
  {
    hide ReadEvents, Output, Brings, Quiet, Run, Stepped;
    var first := Round(Poller(s.drivers[j := d], NOTHING[j := true]), [Visited(j, es, [e])], Done);
    SteppedBrought(s, j, es, e, d, first);
    RunOfTwo(s, Event.Call(1, Brings(j, es)), Activate(i), rest, first, t);
  }

  /** A round of a silent kernel in which driver j reports a made-up event and nobody behind it is read. */
  lemma MadeUpRound(s: Poller, j: nat, count: nat, e: SensorEvent, d: Driver)
    requires j < NUM_DRIVERS && count > 1 && s.drivers[j].HasPendingEvents()
    requires forall i :: 0 <= i < NUM_DRIVERS && i != j ==> !Visits(s, i)
    requires ReadEvents(s.drivers[j], [], 0, count) == ([e], d)
    ensures Pass(s, SILENT, 0, count, 0)
         == Round(Poller(s.drivers[j := d], s.revents[j := false]), [Visited(j, [], [e])], Done)
  {
    hide ReadEvents, Pass, Output;
    var v := Visited(j, [], [e]);
    var s' := Poller(s.drivers[j := d], s.revents[j := false]);
    QuietUntil(s, SILENT, 0, count, 0, j);
    assert Turn(s, SILENT, 0, count, j) == (v, s');
    PassUnfolds(s, SILENT, 0, count, j, v, s');
    forall i | j < i < NUM_DRIVERS ensures !Visits(s', i) {
      assert !Visits(s, i);
    }
    QuietFrom(s', SILENT, 0, count - 1, j + 1);
    assert [v] + [] == [v];
  }

  /** The call of such a round comes back with the made-up event and all flags dropped. */
  lemma MadeUpCall(s: Poller, j: nat, e: SensorEvent, d: Driver)
    requires j < NUM_DRIVERS && s.drivers[j].HasPendingEvents()
    requires forall i :: 0 <= i < NUM_DRIVERS && i != j ==> !Visits(s, i)
    requires ReadEvents(s.drivers[j], [], 0, 2) == ([e], d)
    ensures var r := Run(s, [Event.Call(2, SILENT)]);
            r.s == Poller(s.drivers[j := d], NOTHING) && r.ending.Done? && Output(r.visits) == [e]
  {
    MadeUpRound(s, j, 2, e, d);
    hide ReadEvents, Pass, Output, Poll, Run;
    var v := Visited(j, [], [e]);
    OneOutput(v);
    PollUnfolds(s, SILENT, 0, 0, 2, Pass(s, SILENT, 0, 2, 0), 1);
    RunOfOne(s, Event.Call(2, SILENT), 2, SILENT);
  }

  lemma QuietCallWaits(s: Poller, count: nat)
    requires Quiet(s) && count > 0
    ensures Poll(s, SILENT, 0, 0, count).ending == InPoll
  {
    QuietRound(s, SILENT, count);
    hide Pass, Poll, Quiet;
    NoOutput();
    PollUnfolds(s, SILENT, 0, 0, count, Round(s, [], Done), 0);
  }

  /** A SYN that completes two readings, of which the first fits the room. */
  lemma CutSyn(p: Pending, en: Enabled, a: InputEvent, o: InputEvent, e: InputEvent)
    returns (first: SensorEvent, p': Pending)
    requires !AnyPending(p) && en[MAGNETIC_FIELD] && en[ORIENTATION] && e.kind == EV_SYN
    requires a.kind == o.kind == EV_ABS && a.code == 0x10 && o.code == 0x03
    ensures ReadEvents(Ak8973([], false, p, en), [a, o, e], 0, 1) == ([first], Ak8973([e], false, p', en))
    ensures p'.mask[ORIENTATION]
  {
    var p1 := ProcessEvent(ProcessEvent(p, a.code, a.value), o.code, o.value);
    p' := Taken(p1, e.time, MAGNETIC_FIELD);
    first := SensorEvent(MAGNETIC_FIELD, Stamped(p1, e.time, MAGNETIC_FIELD));
    SweepsFirst(p1, en, e.time, p', first);
    ReadsUpToSyn(p, en, a, o, e, p1, p', first);
  }

  lemma SweepsFirst(p: Pending, en: Enabled, t: int, p': Pending, first: SensorEvent)
    requires p.mask == [false, true, true, false] && en[MAGNETIC_FIELD] && p' == Taken(p, t, MAGNETIC_FIELD)
    requires first == SensorEvent(MAGNETIC_FIELD, Stamped(p, t, MAGNETIC_FIELD))
    ensures Sweep(p, en, t, 1, 0) == ([first], p') && AnyPending(p')
  {
    var rest := Sweep(p', en, t, 0, 2);
    assert rest == ([], p');
    assert [first] + [] == [first];
    assert Sweep(p, en, t, 1, 1) == ([first], p');
  }

  lemma ReadsUpToSyn(p: Pending, en: Enabled, a: InputEvent, o: InputEvent, e: InputEvent,
                     p1: Pending, p': Pending, first: SensorEvent)
    requires a.kind == o.kind == EV_ABS && e.kind == EV_SYN
    requires p1 == ProcessEvent(ProcessEvent(p, a.code, a.value), o.code, o.value)
    requires Sweep(p1, en, e.time, 1, 0) == ([first], p') && AnyPending(p')
    ensures ReadEvents(Ak8973([], false, p, en), [a, o, e], 0, 1) == ([first], Ak8973([e], false, p', en))
  {
    hide Sweep, AnyPending, ProcessEvent;
    var q := [a, o, e];
    assert [] + q == q && q[1..] == [o, e] && [o, e][1..] == [e];
    assert Read(p1, en, [e], 1) == Outcome([first], p', [e]);
    assert Read(ProcessEvent(p, a.code, a.value), en, [o, e], 1) == Outcome([first], p', [e]);
  }

  lemma StillOwed(d: Driver, p: Pending, en: Enabled, e: InputEvent)
    requires d == Ak8973([e], false, p, en) && e.kind == EV_SYN && p.mask[ORIENTATION] && en[ORIENTATION]
    ensures Owed(d) != []
  {
    assert [e] + [] == [e];
    assert Contribution(p, en, e.time, ORIENTATION) != [];
    assert DeliveredFrom(p, en, e.time, 0) != [];
  }

  lemma MadeUpTemperature(ring: seq<InputEvent>, p: Pending, en: Enabled, room: nat)
    returns (e: SensorEvent, p': Pending)
    ensures ReadEvents(Ak8973(ring, true, p, en), [], 0, room) == ([e], Ak8973(ring, false, p', en))
    ensures p'.mask == p.mask
  {
    var r := Stamped(p, 0, TEMPERATURE);
    e, p' := SensorEvent(TEMPERATURE, r), Raw(p.mask, p.slots[TEMPERATURE := r]);
  }

  /** Temperature is switched on. */
  lemma TemperatureOn(s: Poller, ring: seq<InputEvent>, p: Pending, en: Enabled, t: Poller)
    requires s.drivers[1] == Ak8973(ring, false, p, en)
    requires t == Poller(s.drivers[1 := Ak8973(ring, true, p, en[TEMPERATURE := true])], s.revents)
    ensures Stepped(s, Activate(1)) == Round(t, [], Done)
  {
  }

  /** A run that strands, from a context just made.  The compass completes two readings with one SYN, and the
      caller asks for one event; temperature is switched on; the caller asks for two.  It gets the made-up
      one, the flag is dropped, and although the buffer owes a reading the next call sleeps in poll(), for as
      long as the kernel is silent. */
  lemma StrandingExample(last: Reading, p: Pending, en: Enabled, a: InputEvent, o: InputEvent, e: InputEvent,
                         count: nat)
    requires !AnyPending(p) && en[MAGNETIC_FIELD] && en[ORIENTATION] && e.kind == EV_SYN && count > 0
    requires a.kind == o.kind == EV_ABS && a.code == 0x10 && o.code == 0x03
    ensures var s := Poller(WithIdleRelays(Kxtf9([], last), Ak8973([], false, p, en)), NOTHING);
            var k := Brings(1, [a, o, e]);
            var r := Run(s, [Event.Call(1, k), Activate(1)] + [Event.Call(2, SILENT)]);
            && Truthful(k) && Truthful(SILENT)
            && r.ending.Done? && |Output(r.visits)| == 2
            && Owed(r.s.drivers[1]) != [] && Stranded(r.s, 1)
            && Poll(r.s, SILENT, 0, 0, count).ending == InPoll
  {
    var s := Poller(WithIdleRelays(Kxtf9([], last), Ak8973([], false, p, en)), NOTHING);
    hide ReadEvents, Run, Poll, Output, Owed, Brings, Truthful, SILENT, Stepped, Activated, AnyPending;
    var first, p1 := CutSyn(p, en, a, o, e);
    var d := Ak8973([e], false, p1, en);
    var s' := Poller(s.drivers[1 := d], NOTHING[1 := true]);
    var en' := en[TEMPERATURE := true];
    var t := Poller(s'.drivers[1 := Ak8973([e], true, p1, en')], NOTHING[1 := true]);
    TemperatureOn(s', [e], p1, en, t);
    var made, p2 := MadeUpTemperature([e], p1, en', 2);
    BroughtThenActivated(s, 1, [a, o, e], first, d, 1, [Event.Call(2, SILENT)], t);
    MadeUpCall(t, 1, made, Ak8973([e], false, p2, en'));
    BringsTruthful(1, [a, o, e]);
    StillOwed(Ak8973([e], false, p2, en'), p2, en', e);
    QuietCallWaits(Poller(t.drivers[1 := Ak8973([e], false, p2, en')], NOTHING), count);
  }

  /** A call can also sleep in a read() with an event in its hands.  The light sensor has filled a request
      for one, and its flag stays; temperature is switched on; a call for two takes the made-up event and
      then sleeps on the light sensor's empty device. */
  lemma SleepsWithEventCollected(last: Reading, p: Pending, en: Enabled, e: InputEvent)
    requires e.kind == EV_SYN
    ensures var s := Poller(WithIdleRelays(Kxtf9([], last), Ak8973([], false, p, en)), NOTHING);
            var k := Brings(3, [e]);
            var r := Run(s, [Event.Call(1, k), Activate(1)] + [Event.Call(2, SILENT)]);
            && Truthful(k) && Truthful(SILENT)
            && r.ending == InRead(3) && |Output(r.visits)| == 2
  {
    var s := Poller(WithIdleRelays(Kxtf9([], last), Ak8973([], false, p, en)), NOTHING);
    hide ReadEvents, Run, Poll, Output, Brings, Truthful, Stepped, Activated, SILENT;
    var light := Relay([], false, 5, true);
    var first := SensorEvent(5, Reading(0.0, 0.0, 0.0, 0, e.time));
    OneBeat(e, first);
    var s' := Poller(s.drivers[3 := light], NOTHING[3 := true]);
    var en' := en[TEMPERATURE := true];
    var t := Poller(s'.drivers[1 := Ak8973([], true, p, en')], NOTHING[3 := true]);
    TemperatureOn(s', [], p, en, t);
    var made, p2 := MadeUpTemperature([], p, en', 2);
    BroughtThenActivated(s, 3, [e], first, light, 1, [Event.Call(2, SILENT)], t);
    BringsTruthful(3, [e]);
    MadeUpThenSleeps(t, made, Ak8973([], false, p2, en'));
  }

  lemma OneBeat(e: InputEvent, first: SensorEvent)
    requires e.kind == EV_SYN && first == SensorEvent(5, Reading(0.0, 0.0, 0.0, 0, e.time))
    ensures ReadEvents(Relay([], false, 5, true), [e], 0, 1) == ([first], Relay([], false, 5, true))
  {
    assert [] + [e] == [e] && [e][1..] == [] && [e][..1] == [e];
    assert SensorKXTF9.Consumed([e], 1) == 1;
    assert Beats(5, [e]) == [first];
  }

  lemma MadeUpThenSleeps(s: Poller, e: SensorEvent, d: Driver)
    requires s.revents == NOTHING[3 := true] && s.drivers[1].HasPendingEvents()
    requires !s.drivers[0].HasPendingEvents() && !s.drivers[2].HasPendingEvents()
    requires !s.drivers[3].HasPendingEvents() && s.drivers[3].Free() > 0
    requires ReadEvents(s.drivers[1], [], 0, 2) == ([e], d)
    ensures var r := Run(s, [Event.Call(2, SILENT)]);
            r.ending == InRead(3) && Output(r.visits) == [e]
  {
    var v := Visited(1, [], [e]);
    var s' := Poller(s.drivers[1 := d], s.revents[1 := false]);
    MadeUpRoundSleeps(s, e, d, v, s');
    hide *;
    OneOutput(v);
    PollUnfolds(s, SILENT, 0, 0, 2, Round(s', [v], InRead(3)), 1);
    RunOfOne(s, Event.Call(2, SILENT), 2, SILENT);
    NothingBehind(SILENT, Round(s', [v], InRead(3)));
  }

  lemma NothingBehind(k: Kernel, p: Round)
    requires !p.ending.Done?
    ensures !GoesOn(k, 0, 2, p, 1) && Ended(p, 0, 0, 2, 1) == Polled(p.s, p.visits, p.ending, 0)
  {
  }

  lemma MadeUpRoundSleeps(s: Poller, e: SensorEvent, d: Driver, v: Visited, s': Poller)
    requires s.revents == NOTHING[3 := true] && s.drivers[1].HasPendingEvents()
    requires !s.drivers[0].HasPendingEvents() && !s.drivers[2].HasPendingEvents()
    requires !s.drivers[3].HasPendingEvents() && s.drivers[3].Free() > 0
    requires ReadEvents(s.drivers[1], [], 0, 2) == ([e], d)
    requires v == Visited(1, [], [e]) && s' == Poller(s.drivers[1 := d], s.revents[1 := false])
    ensures Pass(s, SILENT, 0, 2, 0) == Round(s', [v], InRead(3))
  {
    hide ReadEvents, Pass, Output;
    assert Turn(s, SILENT, 0, 2, 1) == (v, s');
    QuietUntil(s, SILENT, 0, 2, 0, 1);
    PassUnfolds(s, SILENT, 0, 2, 1, v, s');
    QuietUntil(s', SILENT, 0, 1, 2, 3);
    SleepsAt(s', 3);
    assert [v] + [] == [v];
  }

  lemma SleepsAt(s: Poller, i: nat)
    requires i < NUM_DRIVERS && Sleeps(s, SILENT, 0, i)
    ensures Pass(s, SILENT, 0, 1, i) == Round(s, [], InRead(i))
  {
  }

  // ---------------------------------------------------------------- the loops

  /** The rest of a round from driver i on completes `goal`. */
  ghost predicate RoundTo(goal: Round, visits: seq<Visited>, s: Poller, k: Kernel, m: nat, room: nat, i: nat) {
    && i <= NUM_DRIVERS
    && var rest := Pass(s, k, m, room, i);
       goal == Round(rest.s, visits + rest.visits, rest.ending)
  }

  lemma RoundStarts(s: Poller, k: Kernel, m: nat, room: nat)
    ensures RoundTo(Pass(s, k, m, room, 0), [], s, k, m, room, 0)
  {
    hide Pass;
    var r := Pass(s, k, m, room, 0);
    assert [] + r.visits == r.visits;
  }

  lemma RoundGoesOn(goal: Round, visits: seq<Visited>, s: Poller, k: Kernel, m: nat, room: nat, i: nat)
    requires i < NUM_DRIVERS && room > 0 && RoundTo(goal, visits, s, k, m, room, i)
    ensures if Sleeps(s, k, m, i) then goal == Round(s, visits, InRead(i))
            else if Visits(s, i) then
              var (v, s') := Turn(s, k, m, room, i);
              RoundTo(goal, visits + [v], s', k, m, room - |v.out|, i + 1)
            else RoundTo(goal, visits, s, k, m, room, i + 1)
  {
    hide Turn, Pass, Visits, Sleeps, Output;
    var (v, s') := Turn(s, k, m, room, i);
    PassUnfolds(s, k, m, room, i, v, s');
    Regroup(visits, [v], Pass(s', k, m, room - |v.out|, i + 1).visits);
    assert visits + [] == visits;
  }

  lemma Regroup(a: seq<Visited>, b: seq<Visited>, c: seq<Visited>)
    ensures a + (b + c) == (a + b) + c
  {
  }

  lemma RoundEnds(goal: Round, visits: seq<Visited>, s: Poller, k: Kernel, m: nat, room: nat, i: nat)
    requires RoundTo(goal, visits, s, k, m, room, i) && (room == 0 || i == NUM_DRIVERS)
    ensures goal == Round(s, visits, Done)
  {
    assert visits + [] == visits;
  }

  /** The rest of a call completes `goal`. */
  ghost predicate PollTo(goal: Polled, visits: seq<Visited>, s: Poller, k: Kernel, m: nat, got: nat, room: nat) {
    && m <= |k.polls|
    && var rest := Poll(s, k, m, got, room);
       goal == Polled(rest.s, visits + rest.visits, rest.ending, rest.polls)
  }

  lemma PollStarts(s: Poller, k: Kernel, room: nat)
    ensures PollTo(Poll(s, k, 0, 0, room), [], s, k, 0, 0, room)
  {
    hide Poll;
    var r := Poll(s, k, 0, 0, room);
    assert [] + r.visits == r.visits;
  }

  lemma PollGoesOn(goal: Polled, visits: seq<Visited>, s: Poller, k: Kernel, m: nat, got: nat, room: nat,
                   p: Round, out: nat)
    requires PollTo(goal, visits, s, k, m, got, room)
    requires p == Pass(s, k, m, room, 0) && out == |Output(p.visits)|
    ensures out <= room
    ensures if GoesOn(k, m, room, p, out) then
              PollTo(goal, visits + p.visits, Answered(p.s, k.polls[m]), k, m + 1, got + out, room - out)
            else
              var end := Ended(p, m, got, room, out);
              goal == Polled(end.s, visits + p.visits, end.ending, end.polls)
  {
    hide Pass, Poll, Output, Ready, Answered;
    PollUnfolds(s, k, m, got, room, p, out);
    if GoesOn(k, m, room, p, out) {
      Regroup(visits, p.visits, Poll(Answered(p.s, k.polls[m]), k, m + 1, got + out, room - out).visits);
    }
  }

  class Context {
    var drivers: Drivers
    // The POLLIN bit of mPollFds[i].revents.
    var revents: Flags

    constructor (ds: Drivers)
      ensures Now() == Poller(ds, NOTHING)
    {
      drivers := ds;
      revents := NOTHING;
    }

    ghost function Now(): Poller
      reads this
    {
      Poller(drivers, revents)
    }

    /** The body of the inner loop for a driver that is to be read. */
    method ReadDriver(i: nat, k: Kernel, m: nat, room: nat) returns (data: seq<SensorEvent>)
      requires i < NUM_DRIVERS && room > 0 && Visits(Now(), i)
      modifies this
      ensures |data| <= room
      ensures (Visited(i, Arrived(old(drivers)[i], k.input(m, i)), data), Now()) == Turn(old(Now()), k, m, room, i)
    {
      ghost var turn := Turn(Now(), k, m, room, i);
      var (out, d) := ReadEvents(drivers[i], Arrived(drivers[i], k.input(m, i)), k.clock(m, i), room);
      data := out;
      assert turn.0 == Visited(i, Arrived(drivers[i], k.input(m, i)), data) && turn.1.drivers == drivers[i := d];
      assert turn.1.revents == revents[i := if |data| < room then false else revents[i]];
      hide *;
      assert revents[i := revents[i]] == revents;
      drivers := drivers[i := d];
      if |data| < room {
        revents := revents[i := false];
      }
    }

    /** The inner loop: round m over the drivers, up to a read() that sleeps. */
    method ReadDrivers(k: Kernel, m: nat, count: nat)
      returns (data: seq<SensorEvent>, ending: Ending, ghost visits: seq<Visited>)
      modifies this
      ensures Round(Now(), visits, ending) == Pass(old(Now()), k, m, count, 0)
      ensures data == Output(visits)
    {
      hide Turn, Pass, RoundTo, Blocks, Arrived, Output;
      ghost var goal := Pass(Now(), k, m, count, 0);
      var i: nat := 0;
      var room: nat := count;
      data, visits := [], [];
      NoOutput();
      RoundStarts(Now(), k, m, count);
      while room != 0 && i < NUM_DRIVERS
        invariant i <= NUM_DRIVERS && data == Output(visits)
        invariant RoundTo(goal, visits, Now(), k, m, room, i)
      {
        RoundGoesOn(goal, visits, Now(), k, m, room, i);
        if revents[i] || drivers[i].HasPendingEvents() {
          if Blocks(drivers[i], k.input(m, i)) {
            return data, InRead(i), visits;
          }
          ghost var arrived := Arrived(drivers[i], k.input(m, i));
          var out := ReadDriver(i, k, m, room);
          ghost var v := Visited(i, arrived, out);
          OutputConcat(visits, [v]);
          OneOutput(v);
          visits := visits + [v];
          room := room - |out|;
          data := data + out;
        }
        i := i + 1;
      }
      RoundEnds(goal, visits, Now(), k, m, room, i);
      ending := Done;
    }

    /** pollEvents, to its return or to the system call in which it sleeps. */
    method PollEvents(count: nat, k: Kernel)
      returns (nbEvents: nat, data: seq<SensorEvent>, ending: Ending, polls: nat, ghost visits: seq<Visited>)
      modifies this
      ensures Polled(Now(), visits, ending, polls) == Poll(old(Now()), k, 0, 0, count)
      ensures nbEvents == |data| <= count && data == Output(visits)
    {
      hide Poll, Pass, PollTo, Output, Ready;
      ghost var goal := Poll(Now(), k, 0, 0, count);
      nbEvents, data, ending, polls, visits := 0, [], Done, 0, [];
      var room: nat := count;
      PollStarts(Now(), k, count);
      NoOutput();
      while true
        invariant nbEvents == |data| && data == Output(visits) && polls <= |k.polls| && nbEvents + room == count
        invariant PollTo(goal, visits, Now(), k, polls, nbEvents, room) && ending == Done
        decreases |k.polls| - polls
      {
        ghost var before, had, got, left := Now(), visits, nbEvents, room;
        var out, end, more := ReadDrivers(k, polls, room);
        PollGoesOn(goal, had, before, k, polls, got, left, Round(Now(), more, end), |Output(more)|);
        OutputConcat(had, more);
        visits := visits + more;
        room := room - |out|;
        nbEvents := nbEvents + |out|;
        data := data + out;
        ending := end;
        if ending != Done || room == 0 {
          break;
        }
        if polls == |k.polls| || Ready(k.polls[polls]) == 0 {
          // poll() finds nothing ready: it sleeps, or comes back at once if there are events to return.
          if nbEvents == 0 {
            ending := InPoll;
          } else {
            revents := NOTHING;
          }
          break;
        }
        revents := k.polls[polls];
        polls := polls + 1;
        if revents[WAKE] {
          revents := revents[WAKE := false];
        } else {
          assert revents[WAKE := false] == revents;
        }
      }
    }
  }
}
