/** What the compass and the accelerometer report, told from the kernel's events alone: which sensors a SYN
    reports, from which axis events each field comes, and in which unit.  The pass of either driver over a
    stream is shown to be that. */
module SensorReadings {
  import opened Basics
  import opened InputEventReader
  import opened SensorAK8973
  import SensorKXTF9

  // Axis codes of linux/input.h.
  const ABS_X := 0x00
  const ABS_Y := 0x01
  const ABS_Z := 0x02
  const ABS_RX := 0x03
  const ABS_RY := 0x04
  const ABS_RZ := 0x05
  const ABS_THROTTLE := 0x06
  const ABS_RUDDER := 0x07
  const ABS_WHEEL := 0x08
  const ABS_BRAKE := 0x0a
  const ABS_HAT0X := 0x10
  const ABS_HAT0Y := 0x11

  const G := 9.80665

  // ---------------------------------------------------------------- what is to be reported

  function Value(e: InputEvent, code: int): Option<int> {
    if e.kind == EV_ABS && e.code == code then Some(e.value) else None
  }

  /** The value of the last axis event of this code. */
  function Last(es: seq<InputEvent>, code: int): Option<int> {
    if es == [] then None else if Last(es[1..], code).Some? then Last(es[1..], code) else Value(es[0], code)
  }

  function Times(last: Option<int>, factor: real, before: real): real {
    if last.Some? then last.value as real * factor else before
  }

  /** Degrees in steps of 1/64; past 359.98 it is north again. */
  function Heading(last: Option<int>, before: real): real {
    if last.None? then before else if last.value as real / 64.0 > 359.98 then 0.0 else last.value as real / 64.0
  }

  /** Degrees the other way round, kept within -90 and 90. */
  function Tilt(last: Option<int>, before: real): real {
    if last.None? then before
    else if last.value > 64 * 90 then -90.0
    else if last.value < -64 * 90 then 90.0
    else -(last.value as real) / 64.0
  }

  function LowBits(last: Option<int>, before: int): int {
    if last.Some? then last.value % 4 else before
  }

  /** Sensor j's record behind the events es, but for its time. */
  function Fields(before: Reading, es: seq<InputEvent>, j: nat): Reading {
    match j
    case 0 => Reading(Times(Last(es, ABS_X), G / 1000.0, before.x),
                      Times(Last(es, ABS_Y), G / 1000.0, before.y),
                      Times(Last(es, ABS_Z), G / 1000.0, before.z),
                      LowBits(Last(es, ABS_WHEEL), before.status), before.timestamp)
    case 1 => Reading(Times(Last(es, ABS_HAT0X), 1.0 / 16.0, before.x),
                      Times(Last(es, ABS_HAT0Y), -1.0 / 16.0, before.y),
                      Times(Last(es, ABS_BRAKE), -1.0 / 16.0, before.z), before.status, before.timestamp)
    case 2 => Reading(Heading(Last(es, ABS_RX), before.x),
                      Times(Last(es, ABS_RY), 1.0 / 64.0, before.y),
                      Tilt(Last(es, ABS_RZ), before.z),
                      LowBits(Last(es, ABS_RUDDER), before.status), before.timestamp)
    case _ => before.(x := Times(Last(es, ABS_THROTTLE), 1.0, before.x))
  }

  function CodesOf(j: nat): set<int> {
    match j
    case 0 => {ABS_X, ABS_Y, ABS_Z, ABS_WHEEL}
    case 1 => {ABS_HAT0X, ABS_HAT0Y, ABS_BRAKE}
    case 2 => {ABS_RX, ABS_RY, ABS_RZ, ABS_RUDDER}
    case _ => {ABS_THROTTLE}
  }

  /** Something of sensor j has come since the last SYN. */
  predicate Touched(before: bool, es: seq<InputEvent>, j: nat)
    decreases es
  {
    if es == [] then before
    else Touched(if es[0].kind == EV_SYN then false
                 else before || (es[0].kind == EV_ABS && es[0].code in CodesOf(j)), es[1..], j)
  }

  /** What a SYN behind `es` at time t reports of sensor j. */
  function Report(p: Pending, en: Enabled, es: seq<InputEvent>, t: int, j: nat): seq<SensorEvent>
    requires j < NUM_SENSORS
  {
    if en[j] && Touched(p.mask[j], es, j) then [SensorEvent(j, Fields(p.slots[j], es, j).(timestamp := t))] else []
  }

  /** All that a stream makes the compass report. */
  function Reports(p: Pending, en: Enabled, es: seq<InputEvent>): seq<SensorEvent> {
    if es == [] then []
    else
      var front, e := es[..|es| - 1], es[|es| - 1];
      Reports(p, en, front) + (if e.kind == EV_SYN then ReportAll(p, en, front, e.time) else [])
  }

  function ReportAll(p: Pending, en: Enabled, es: seq<InputEvent>, t: int): seq<SensorEvent> {
    Report(p, en, es, t, 0) + Report(p, en, es, t, 1) + Report(p, en, es, t, 2) + Report(p, en, es, t, 3)
  }

  // ---------------------------------------------------------------- the compass

  function After1(p: Pending, e: InputEvent): Pending {
    if e.kind == EV_ABS then ProcessEvent(p, e.code, e.value) else if e.kind == EV_SYN then Flushed(p, e.time) else p
  }

  lemma LastOfOne(e: InputEvent, code: int)
    ensures Last([e], code) == Value(e, code)
  {
    assert [e][1..] == [];
  }

  lemma LastOfCons(e: InputEvent, rest: seq<InputEvent>, code: int)
    ensures Last([e] + rest, code) == if Last(rest, code).Some? then Last(rest, code) else Value(e, code)
  {
    assert ([e] + rest)[1..] == rest;
  }

  /** Same record, whatever its time. */
  predicate SameFields(a: Reading, b: Reading) {
    a == b.(timestamp := a.timestamp)
  }

  lemma FieldsOfOne(p: Pending, e: InputEvent, j: nat)
    requires j < NUM_SENSORS
    ensures SameFields(After1(p, e).slots[j], Fields(p.slots[j], [e], j))
  {
    forall code ensures Last([e], code) == Value(e, code) { LastOfOne(e, code); }
  }

  lemma FieldsOfCons(before: Reading, now: Reading, e: InputEvent, rest: seq<InputEvent>, j: nat)
    requires j < NUM_SENSORS && SameFields(now, Fields(before, [e], j))
    ensures SameFields(Fields(now, rest, j), Fields(before, [e] + rest, j))
  {
    forall code ensures Last([e], code) == Value(e, code) { LastOfOne(e, code); }
    forall code ensures Last([e] + rest, code) == if Last(rest, code).Some? then Last(rest, code) else Value(e, code) {
      LastOfCons(e, rest, code);
    }
  }

  lemma {:induction false} AfterHolds(p: Pending, es: seq<InputEvent>, j: nat)
    requires j < NUM_SENSORS
    ensures SameFields(After(p, es).slots[j], Fields(p.slots[j], es, j))
    ensures After(p, es).mask[j] == Touched(p.mask[j], es, j)
    decreases es
  {
    if es != [] {
      var e, rest := es[0], es[1..];
      var p' := After1(p, e);
      assert es == [e] + rest;
      FieldsOfOne(p, e, j);
      FieldsOfCons(p.slots[j], p'.slots[j], e, rest, j);
      AfterHolds(p', rest, j);
      TouchedByOne(p, e, j);
    }
  }

  lemma TouchedByOne(p: Pending, e: InputEvent, j: nat)
    requires j < NUM_SENSORS
    ensures After1(p, e).mask[j] == if e.kind == EV_SYN then false
                                    else p.mask[j] || (e.kind == EV_ABS && e.code in CodesOf(j))
  {
  }

  lemma ContributionIsReport(p: Pending, en: Enabled, es: seq<InputEvent>, t: int, j: nat)
    requires j < NUM_SENSORS
    ensures Contribution(After(p, es), en, t, j) == Report(p, en, es, t, j)
  {
    AfterHolds(p, es, j);
    hide After, Fields, Touched;
  }

  lemma DeliveredIsReport(p: Pending, en: Enabled, es: seq<InputEvent>, t: int)
    ensures Delivered(After(p, es), en, t) == ReportAll(p, en, es, t)
  {
    hide After, Report, Contribution;
    var q := After(p, es);
    ContributionIsReport(p, en, es, t, 0);
    ContributionIsReport(p, en, es, t, 1);
    ContributionIsReport(p, en, es, t, 2);
    ContributionIsReport(p, en, es, t, 3);
    assert DeliveredFrom(q, en, t, 4) == [];
    assert DeliveredFrom(q, en, t, 3) == Report(p, en, es, t, 3);
    assert DeliveredFrom(q, en, t, 1) == Report(p, en, es, t, 1) + (Report(p, en, es, t, 2) + Report(p, en, es, t, 3));
  }

  lemma EmittedByOne(p: Pending, en: Enabled, e: InputEvent)
    ensures Emitted(p, en, [e]) == if e.kind == EV_SYN then Delivered(p, en, e.time) else []
  {
    hide Delivered, Flushed, ProcessEvent;
    assert [e][1..] == [];
  }

  /** Main theorem of meaning: what the compass emits over a stream are the reports of its SYNs, in order;
      each of the sensors that are on and have had an axis event since the SYN before, with the last value of
      every axis and the SYN's own time. */
  lemma {:induction false} EmittedIsReports(p: Pending, en: Enabled, es: seq<InputEvent>)
    ensures Emitted(p, en, es) == Reports(p, en, es)
  {
    if es != [] {
      hide Delivered, ReportAll, After;
      var front, e := es[..|es| - 1], es[|es| - 1];
      assert es == front + [e];
      EmittedIsReports(p, en, front);
      PassConcat(p, en, front, [e]);
      EmittedByOne(After(p, front), en, e);
      DeliveredIsReport(p, en, front, e.time);
    }
  }

  /** So however a caller slices its requests, it gets these reports, in this order, and once the buffer is
      empty all of them. */
  lemma SlicedReports(p: Pending, en: Enabled, calls: seq<Call>)
    ensures var r := ReadAll(p, en, [], calls);
            && r.out <= Reports(p, en, Stream(calls))
            && (r.queue == [] ==> r.out == Reports(p, en, Stream(calls)))
  {
    OutputsArePrefix(p, en, calls);
    EmittedIsReports(p, en, Stream(calls));
  }

  /** Records that differ in their times only report the same. */
  lemma {:induction false} TimesAreForgotten(p: Pending, p': Pending, en: Enabled, es: seq<InputEvent>)
    requires p.mask == p'.mask && forall j :: 0 <= j < NUM_SENSORS ==> SameFields(p.slots[j], p'.slots[j])
    ensures Reports(p, en, es) == Reports(p', en, es)
  {
    if es != [] {
      var front, e := es[..|es| - 1], es[|es| - 1];
      TimesAreForgotten(p, p', en, front);
      forall j: nat | 0 <= j < NUM_SENSORS ensures Report(p, en, front, e.time, j) == Report(p', en, front, e.time, j) {
        assert SameFields(p.slots[j], p'.slots[j]);
        hide Touched, Times, Heading, Tilt, LowBits;
      }
    }
  }

  /** A made-up event is the last known temperature at the clock's time, and nothing else: on any later events
      the compass reports what it would have reported without it. */
  lemma MadeUpIsExtra(h: Held, arrived: seq<InputEvent>, clock: int, room: nat, es: seq<InputEvent>)
    requires h.synthetic
    ensures var (out, h') := Served(h, arrived, clock, room);
            && |out| == 1 && out[0].sensor == TEMPERATURE && out[0].reading.timestamp == clock
            && SameFields(out[0].reading, h.pending.slots[TEMPERATURE])
            && h'.queue == h.queue && !h'.synthetic && h'.enabled == h.enabled
            && Emitted(h'.pending, h.enabled, h.queue + es) == Emitted(h.pending, h.enabled, h.queue + es)
  {
    var h' := Served(h, arrived, clock, room).1;
    EmittedIsReports(h.pending, h.enabled, h.queue + es);
    EmittedIsReports(h'.pending, h.enabled, h.queue + es);
    TimesAreForgotten(h.pending, h'.pending, h.enabled, h.queue + es);
  }

  predicate HasSynAt(es: seq<InputEvent>, t: int) {
    exists i :: 0 <= i < |es| && es[i].kind == EV_SYN && es[i].time == t
  }

  /** Each report has the time of a SYN and is of a sensor that is on. */
  lemma {:induction false} ReportsAreTimed(p: Pending, en: Enabled, es: seq<InputEvent>, r: SensorEvent)
    requires r in Reports(p, en, es)
    ensures HasSynAt(es, r.reading.timestamp) && 0 <= r.sensor < NUM_SENSORS && en[r.sensor]
  {
    hide Fields, Touched;
    var front, e := es[..|es| - 1], es[|es| - 1];
    if r in Reports(p, en, front) {
      ReportsAreTimed(p, en, front, r);
      var i :| 0 <= i < |front| && front[i].kind == EV_SYN && front[i].time == r.reading.timestamp;
      assert es[i] == front[i];
    }
  }

  /** A roll that starts within -90 and 90 degrees is always reported within them. */
  lemma {:induction false} RollStaysInRange(p: Pending, en: Enabled, es: seq<InputEvent>, r: SensorEvent)
    requires -90.0 <= p.slots[ORIENTATION].z <= 90.0
    requires r in Reports(p, en, es) && r.sensor == ORIENTATION
    ensures -90.0 <= r.reading.z <= 90.0
  {
    hide Touched, Last, Times, Heading, LowBits;
    var front := es[..|es| - 1];
    if r in Reports(p, en, front) {
      RollStaysInRange(p, en, front, r);
    }
  }

  // ---------------------------------------------------------------- the accelerometer

  /** The accelerometer's record behind the events es, but for its time. */
  function Sampling(before: Reading, es: seq<InputEvent>): Reading {
    Reading(Times(Last(es, ABS_X), G / 1000.0, before.x), Times(Last(es, ABS_Y), G / 1000.0, before.y),
            Times(Last(es, ABS_Z), G / 1000.0, before.z), before.status, before.timestamp)
  }

  /** Every SYN reports the last value of every axis at the SYN's own time. */
  function Samples(before: Reading, es: seq<InputEvent>): seq<SensorEvent> {
    if es == [] then []
    else
      var front, e := es[..|es| - 1], es[|es| - 1];
      Samples(before, front) +
      (if e.kind == EV_SYN then [SensorEvent(ACCELEROMETER, Sampling(before, front).(timestamp := e.time))] else [])
  }

  function LastAfter1(last: Reading, e: InputEvent): Reading {
    if e.kind == EV_ABS then SensorKXTF9.Axis(last, e.code, e.value)
    else if e.kind == EV_SYN then last.(timestamp := e.time) else last
  }

  lemma SamplingOfCons(before: Reading, e: InputEvent, rest: seq<InputEvent>)
    ensures SameFields(Sampling(LastAfter1(before, e), rest), Sampling(before, [e] + rest))
  {
    forall code ensures Last([e] + rest, code) == if Last(rest, code).Some? then Last(rest, code) else Value(e, code) {
      LastOfCons(e, rest, code);
    }
  }

  lemma {:induction false} LastAfterHolds(last: Reading, es: seq<InputEvent>)
    ensures SameFields(SensorKXTF9.LastAfter(last, es), Sampling(last, es))
    decreases es
  {
    if es != [] {
      var e, rest := es[0], es[1..];
      assert es == [e] + rest;
      SamplingOfCons(last, e, rest);
      LastAfterHolds(LastAfter1(last, e), rest);
      hide Sampling, SensorKXTF9.Axis;
    }
  }

  lemma SampledByOne(last: Reading, e: InputEvent)
    ensures SensorKXTF9.All(last, [e])
         == if e.kind == EV_SYN then [SensorEvent(ACCELEROMETER, last.(timestamp := e.time))] else []
  {
    assert [e][1..] == [];
  }

  /** What the accelerometer delivers over a stream. */
  lemma {:induction false} AllIsSamples(last: Reading, es: seq<InputEvent>)
    ensures SensorKXTF9.All(last, es) == Samples(last, es)
  {
    if es != [] {
      hide Sampling, SensorKXTF9.LastAfter;
      var front, e := es[..|es| - 1], es[|es| - 1];
      assert es == front + [e];
      AllIsSamples(last, front);
      SensorKXTF9.AllConcat(last, front, [e]);
      SampledByOne(SensorKXTF9.LastAfter(last, front), e);
      LastAfterHolds(last, front);
    }
  }
}
