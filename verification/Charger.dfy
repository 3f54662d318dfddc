/** The event loop of charge_only_mode/main.c: what the four alarm callbacks and the key handlers do,
    first as functions on values with the invariants of every run, then as methods that update the
    program's globals and its timer list. */
module Charger {
  import opened Alarms
  import AlarmList

  const ANIMATION_TIMEOUT := 1000 / 2
  const POWERUP_VOLTAGE := 3470000

  /** What one handler reads from outside: up to two clock readings, the battery and charger state,
      and what __reboot answers if it is called. */
  datatype Sample = Sample(clock: Time, clock2: Time, voltage: int, onAc: bool, onUsb: bool, rebootStatus: int)

  /** The globals of main.c; whether the display was unblanked last; how often power-off was requested;
      and whether the power key's alarm has run since the display was last started. */
  datatype Flags = Flags(quit: bool, shutdown: bool, powerup: bool, lit: bool, powerOffs: nat, keyRan: bool)

  datatype State = State(flags: Flags, queue: Queue)

  function Pending(st: State, f: Callback): nat { Count(st.queue.list, f) }

  // ---------------------------------------------------------------- handlers as values

  /** screen_brightness_animation_alarm2.  reboot() only returns when it fails, and then the display is
      still blanked; a power-off that succeeds ends the run. */
  function Dim(s: Flags): (Flags, seq<Action>) {
    (s.(lit := false, powerOffs := if s.shutdown then s.powerOffs + 1 else s.powerOffs), [Cancel(AnimationAlarm)])
  }

  function PowerEvent(s: Flags, w: Sample): (Flags, seq<Action>) {
    var s1 := if w.voltage >= POWERUP_VOLTAGE then s.(powerup := true) else s;
    if !s1.shutdown && !w.onAc && !w.onUsb
    then
      var (s2, acts) := Dim(s1.(shutdown := true));
      (s2, [Cancel(BrightnessAlarm2), Cancel(BrightnessAlarm1)] + acts)
    else (s1, [])
  }

  function Brighten(s: Flags, w: Sample): (Flags, seq<Action>) {
    (s.(lit := true, keyRan := false),
     [Set(BrightnessAlarm1, 5000, w.clock), Set(AnimationAlarm, ANIMATION_TIMEOUT, w.clock2)])
  }

  /** The callback of an alarm. */
  function Fire(s: Flags, f: Callback, w: Sample): (Flags, seq<Action>) {
    match f
    case AnimationAlarm =>
      var (s', acts) := PowerEvent(s, w);
      (s', [Set(AnimationAlarm, ANIMATION_TIMEOUT, w.clock)] + acts)
    case BrightnessAlarm1 => (s, [Set(BrightnessAlarm2, 10000, w.clock)])
    case BrightnessAlarm2 => Dim(s)
    case PowerKeyAlarm =>
      (s.(keyRan := true, quit := s.quit || w.rebootStatus >= 0),
       [Cancel(BrightnessAlarm2), Cancel(BrightnessAlarm1), Cancel(AnimationAlarm)])
  }

  function Callbacks(samples: nat -> Sample): Client<Flags> {
    (s, f, n: nat) => Fire(s, f, samples(n))
  }

  function Perform(st: State, effect: (Flags, seq<Action>)): State {
    State(effect.0, ApplyAll(st.queue, effect.1))
  }

  function WakeupKey(st: State, w: Sample): State {
    var cleared := State(st.flags, ApplyAll(st.queue,
      [Cancel(BrightnessAlarm2), Cancel(AnimationAlarm), Cancel(BrightnessAlarm1)]));
    if Pending(st, BrightnessAlarm1) > 0 then Perform(cleared, Dim(st.flags))
    else Perform(cleared, Brighten(st.flags, w))
  }

  function WakeupKey2(st: State, w: Sample): State {
    var cleared := State(st.flags, ApplyAll(st.queue,
      [Cancel(BrightnessAlarm2), Cancel(BrightnessAlarm1), Cancel(AnimationAlarm)]));
    Perform(cleared, Brighten(st.flags, w))
  }

  datatype Event = PowerKeyDown | PowerKeyUp | VolumeDown | VolumeUp | Camera | Battery | Quit | Other

  function Handle(st: State, e: Event, w: Sample): State {
    match e
    case PowerKeyDown => if st.flags.powerup then Perform(st, (st.flags, [Set(PowerKeyAlarm, 1000, w.clock)])) else st
    case PowerKeyUp => WakeupKey(Perform(st, (st.flags, [Cancel(PowerKeyAlarm)])), w)
    case VolumeDown => WakeupKey2(st, w)
    case VolumeUp => WakeupKey2(st, w)
    case Camera => WakeupKey2(st, w)
    case Battery => Perform(st, PowerEvent(st.flags, w))
    case Quit => st.(flags := st.flags.(quit := true))
    case Other => st
  }

  /** One turn of the main loop.  `asked` is the clock when the next deadline is looked up, `now` the
      clock when the drain begins; `samples` is what the n-th callback of the drain reads. */
  datatype Turn = Turn(asked: Time, now: Time, samples: nat -> Sample, event: Event, w: Sample)

  ghost predicate Timely(w: Sample, now: Time) {
    w.clock.Normalised() && w.clock2.Normalised() && !Before(w.clock, now) && !Before(w.clock2, now)
  }

  /** The clock is a clock: proper values, and it does not run backwards within a turn. */
  ghost predicate ClockRunsForward(t: Turn) {
    && t.asked.Normalised() && t.now.Normalised() && !Before(t.now, t.asked)
    && Timely(t.w, t.asked)
    && forall n :: Timely(t.samples(n), t.now)
  }

  function Delay(q: Queue, clock: Time): int {
    if q.list == [] then 0x7fffffff else MillisUntil(q.list[0].time, clock)
  }

  function Step(st: State, t: Turn): State
    requires Invariant(st) && ClockRunsForward(t)
  {
    if Delay(st.queue, t.asked) < 1 then
      CallbacksRearmLater(t.samples, t.now);
      var r := Drain(st.queue, t.now, Callbacks(t.samples), st.flags, 0);
      State(r.state, r.queue)
    else Handle(st, t.event, t.w)
  }

  // ---------------------------------------------------------------- the invariants of every run

  /** Between any two steps:
      - the bubbling animation is armed exactly as often as the two brightness alarms together;
      - that is once while the display is lit and the power key's alarm has not run since, else never;
      - power-off was requested if and only if the charger was found unplugged;
      - the power key's alarm is armed only once the battery was good enough to boot;
      - the queue is in deadline order and holds proper times. */
  ghost predicate Invariant(st: State) {
    && WellFormed(st.queue)
    && (forall a :: a in st.queue.list ==> a.time.Normalised())
    && Pending(st, AnimationAlarm) == Pending(st, BrightnessAlarm1) + Pending(st, BrightnessAlarm2)
    && Pending(st, AnimationAlarm) == (if st.flags.lit && !st.flags.keyRan then 1 else 0)
    && (st.flags.shutdown <==> st.flags.powerOffs > 0)
    && (Pending(st, PowerKeyAlarm) > 0 ==> st.flags.powerup)
  }

  lemma CallbacksRearmLater(samples: nat -> Sample, now: Time)
    requires now.Normalised() && forall n :: Timely(samples(n), now)
    ensures RearmsLater(Callbacks(samples), now)
  {
    forall s, f, n, i | 0 <= i < |Callbacks(samples)(s, f, n).1|
      ensures InFuture(Callbacks(samples)(s, f, n).1[i], now)
    {
      assert Callbacks(samples)(s, f, n) == Fire(s, f, samples(n));
      assert Timely(samples(n), now);
    }
  }

  /** How often each callback is armed. */
  datatype Counts = Counts(animation: nat, bright1: nat, bright2: nat, powerKey: nat)

  function CountsOf(q: Queue): Counts {
    Counts(Count(q.list, AnimationAlarm), Count(q.list, BrightnessAlarm1),
           Count(q.list, BrightnessAlarm2), Count(q.list, PowerKeyAlarm))
  }

  function Tally(c: Counts, act: Action): Counts {
    match act.f
    case AnimationAlarm => c.(animation := if act.Set? then c.animation + 1 else 0)
    case BrightnessAlarm1 => c.(bright1 := if act.Set? then c.bright1 + 1 else 0)
    case BrightnessAlarm2 => c.(bright2 := if act.Set? then c.bright2 + 1 else 0)
    case PowerKeyAlarm => c.(powerKey := if act.Set? then c.powerKey + 1 else 0)
  }

  function TallyAll(c: Counts, acts: seq<Action>): Counts
    decreases acts
  {
    if acts == [] then c else TallyAll(Tally(c, acts[0]), acts[1..])
  }

  lemma TallyTwo(c: Counts, a: Action, b: Action, rest: seq<Action>)
    ensures TallyAll(c, [a] + rest) == TallyAll(Tally(c, a), rest)
    ensures TallyAll(c, [a, b] + rest) == TallyAll(Tally(Tally(c, a), b), rest)
  {
    assert ([a] + rest)[1..] == rest;
    assert ([a, b] + rest)[1..] == [b] + rest && ([b] + rest)[1..] == rest;
  }

  lemma ApplyCount(q: Queue, act: Action, g: Callback)
    ensures Count(Apply(q, act).list, g) ==
            if act.f != g then Count(q.list, g) else if act.Set? then Count(q.list, g) + 1 else 0
  {
    match act
    case Set(f, ms, clock) => InsertCounts(q.list, Alarm(Deadline(clock, ms), f, q.issued), g);
    case Cancel(f) =>
      WithoutMembers(q.list, f);
      if f != g {
        WithoutKeepsOthers(q.list, f, g);
      }
  }

  lemma {:induction false} ApplyAllCounts(q: Queue, acts: seq<Action>)
    ensures CountsOf(ApplyAll(q, acts)) == TallyAll(CountsOf(q), acts)
    decreases acts
  {
    if acts != [] {
      ApplyCount(q, acts[0], AnimationAlarm);
      ApplyCount(q, acts[0], BrightnessAlarm1);
      ApplyCount(q, acts[0], BrightnessAlarm2);
      ApplyCount(q, acts[0], PowerKeyAlarm);
      ApplyAllCounts(Apply(q, acts[0]), acts[1..]);
    }
  }

  lemma ApplyTwo(q: Queue, a: Action, b: Action, rest: seq<Action>)
    ensures ApplyAll(q, [a] + rest) == ApplyAll(Apply(q, a), rest)
    ensures ApplyAll(q, [a, b] + rest) == ApplyAll(Apply(Apply(q, a), b), rest)
    ensures ApplyAll(q, [a]) == Apply(q, a)
    ensures ApplyAll(q, [a, b]) == Apply(Apply(q, a), b)
  {
    assert ([a] + rest)[1..] == rest;
    assert ([a, b] + rest)[1..] == [b] + rest && ([b] + rest)[1..] == rest;
    assert [a][1..] == [] && [b][1..] == [] && [a, b][1..] == [b];
    assert ApplyAll(Apply(q, a), [b]) == Apply(Apply(q, a), b);
  }

  ghost predicate ProperCalls(acts: seq<Action>) {
    forall i :: 0 <= i < |acts| && acts[i].Set? ==> acts[i].ms >= 0 && acts[i].clock.Normalised()
  }

  lemma {:induction false} ApplyAllProper(q: Queue, acts: seq<Action>)
    requires WellFormed(q) && ProperCalls(acts)
    requires forall a :: a in q.list ==> a.time.Normalised()
    ensures WellFormed(ApplyAll(q, acts))
    ensures forall a :: a in ApplyAll(q, acts).list ==> a.time.Normalised()
    decreases acts
  {
    if acts != [] {
      ApplyWellFormed(q, acts[0]);
      match acts[0] {
        case Set(f, ms, clock) =>
          DeadlineIsClockPlusDelay(clock, ms);
          InsertOrdered(q.list, Alarm(Deadline(clock, ms), f, q.issued));
        case Cancel(f) => WithoutMembers(q.list, f);
      }
      ApplyAllProper(Apply(q, acts[0]), acts[1..]);
    }
  }

  /** The counting part of the invariant. */
  predicate Balanced(c: Counts, s: Flags) {
    && c.animation == c.bright1 + c.bright2
    && c.animation == (if s.lit && !s.keyRan then 1 else 0)
    && (s.shutdown <==> s.powerOffs > 0)
    && (c.powerKey > 0 ==> s.powerup)
  }

  lemma PerformKeepsInvariant(st: State, effect: (Flags, seq<Action>))
    requires WellFormed(st.queue) && ProperCalls(effect.1)
    requires forall a :: a in st.queue.list ==> a.time.Normalised()
    requires Balanced(TallyAll(CountsOf(st.queue), effect.1), effect.0)
    ensures Invariant(Perform(st, effect))
  {
    ApplyAllProper(st.queue, effect.1);
    ApplyAllCounts(st.queue, effect.1);
  }

  lemma PowerEventBalanced(s: Flags, w: Sample, c: Counts)
    requires Balanced(c, s)
    ensures Balanced(TallyAll(c, PowerEvent(s, w).1), PowerEvent(s, w).0)
  {
    if PowerEvent(s, w).1 != [] {
      TallyTwo(c, Cancel(BrightnessAlarm2), Cancel(BrightnessAlarm1), [Cancel(AnimationAlarm)]);
    }
  }

  /** The counts with one alarm of `f` more. */
  function Plus(c: Counts, f: Callback): Counts {
    match f
    case AnimationAlarm => c.(animation := c.animation + 1)
    case BrightnessAlarm1 => c.(bright1 := c.bright1 + 1)
    case BrightnessAlarm2 => c.(bright2 := c.bright2 + 1)
    case PowerKeyAlarm => c.(powerKey := c.powerKey + 1)
  }

  /** An alarm leaves the queue and its callback runs: together they keep the balance. */
  lemma FireBalanced(s: Flags, f: Callback, w: Sample, c: Counts)
    requires Balanced(Plus(c, f), s)
    ensures Balanced(TallyAll(c, Fire(s, f, w).1), Fire(s, f, w).0)
  {
    match f
    case AnimationAlarm =>
      var set1 := Set(AnimationAlarm, ANIMATION_TIMEOUT, w.clock);
      TallyTwo(c, set1, set1, PowerEvent(s, w).1);
      PowerEventBalanced(s, w, Tally(c, set1));
    case PowerKeyAlarm =>
      TallyTwo(c, Cancel(BrightnessAlarm2), Cancel(BrightnessAlarm1), [Cancel(AnimationAlarm)]);
    case _ =>
  }

  /** One turn of a drain keeps the invariant. */
  lemma FireKeepsInvariant(st: State, w: Sample)
    requires Invariant(st) && st.queue.list != [] && w.clock.Normalised()
    ensures var popped := State(st.flags, Queue(st.queue.list[1..], st.queue.issued));
            Invariant(Perform(popped, Fire(st.flags, st.queue.list[0].f, w)))
  {
    var q := st.queue;
    var f := q.list[0].f;
    var popped := State(st.flags, Queue(q.list[1..], q.issued));
    assert CountsOf(q) == Plus(CountsOf(popped.queue), f);
    FireBalanced(st.flags, f, w, CountsOf(popped.queue));
    PerformKeepsInvariant(popped, Fire(st.flags, f, w));
  }

  /** The invariant survives a whole drain, whatever the callbacks read and however many fire. */
  lemma {:induction false} DrainKeepsInvariant(st: State, now: Time, samples: nat -> Sample, n: nat)
    requires Invariant(st)
    requires RearmsLater(Callbacks(samples), now)
    requires forall k :: samples(k).clock.Normalised()
    ensures var r := Drain(st.queue, now, Callbacks(samples), st.flags, n);
            Invariant(State(r.state, r.queue))
    decreases |Due(st.queue.list, now)|
  {
    var q := st.queue;
    if q.list != [] && !Before(now, q.list[0].time) {
      var effect := Callbacks(samples)(st.flags, q.list[0].f, n);
      CallbackKeepsDue(q, effect.1, now);
      FireKeepsInvariant(st, samples(n));
      DrainKeepsInvariant(State(effect.0, AfterCallback(q, effect.1)), now, samples, n + 1);
    }
  }

  lemma PowerEventKeepsInvariant(st: State, w: Sample)
    requires Invariant(st)
    ensures var st' := Perform(st, PowerEvent(st.flags, w));
            Invariant(st') && (!st.flags.lit ==> !st'.flags.lit)
  {
    PowerEventBalanced(st.flags, w, CountsOf(st.queue));
    PerformKeepsInvariant(st, PowerEvent(st.flags, w));
  }

  lemma HandleKeepsInvariant(st: State, e: Event, w: Sample)
    requires Invariant(st) && w.clock.Normalised() && w.clock2.Normalised()
    ensures Invariant(Handle(st, e, w))
  {
    match e
    case PowerKeyDown =>
      if st.flags.powerup {
        PerformKeepsInvariant(st, (st.flags, [Set(PowerKeyAlarm, 1000, w.clock)]));
      }
    case PowerKeyUp =>
      var st1 := Perform(st, (st.flags, [Cancel(PowerKeyAlarm)]));
      PerformKeepsInvariant(st, (st.flags, [Cancel(PowerKeyAlarm)]));
      WakeupKeyKeepsInvariant(st1, w);
    case VolumeDown => WakeupKey2KeepsInvariant(st, w);
    case VolumeUp => WakeupKey2KeepsInvariant(st, w);
    case Camera => WakeupKey2KeepsInvariant(st, w);
    case Battery =>
      PowerEventKeepsInvariant(st, w);
    case Quit =>
    case Other =>
  }

  /** Starting the display cycle when none of its alarms is pending. */
  lemma BrightenKeepsInvariant(st: State, w: Sample)
    requires WellFormed(st.queue) && (forall a :: a in st.queue.list ==> a.time.Normalised())
    requires Pending(st, AnimationAlarm) == Pending(st, BrightnessAlarm1) == Pending(st, BrightnessAlarm2) == 0
    requires st.flags.shutdown <==> st.flags.powerOffs > 0
    requires Pending(st, PowerKeyAlarm) > 0 ==> st.flags.powerup
    requires w.clock.Normalised() && w.clock2.Normalised()
    ensures Invariant(Perform(st, Brighten(st.flags, w)))
  {
    var acts := Brighten(st.flags, w).1;
    TallyTwo(CountsOf(st.queue), acts[0], acts[1], []);
    assert acts == [acts[0], acts[1]] + [];
    PerformKeepsInvariant(st, Brighten(st.flags, w));
  }

  /** Both wake-up handlers first cancel the three display alarms, in some order. */
  lemma CancelDisplayAlarms(st: State, acts: seq<Action>)
    requires Invariant(st) && |acts| == 3
    requires acts == [Cancel(acts[0].f), Cancel(acts[1].f), Cancel(acts[2].f)]
    requires {acts[0].f, acts[1].f, acts[2].f} == {AnimationAlarm, BrightnessAlarm1, BrightnessAlarm2}
    ensures var cleared := State(st.flags, ApplyAll(st.queue, acts));
            && WellFormed(cleared.queue) && (forall a :: a in cleared.queue.list ==> a.time.Normalised())
            && Pending(cleared, AnimationAlarm) == Pending(cleared, BrightnessAlarm1)
               == Pending(cleared, BrightnessAlarm2) == 0
            && Pending(cleared, PowerKeyAlarm) == Pending(st, PowerKeyAlarm)
  {
    ApplyAllProper(st.queue, acts);
    ApplyAllCounts(st.queue, acts);
    TallyTwo(CountsOf(st.queue), acts[0], acts[1], [acts[2]]);
    assert acts == [acts[0], acts[1]] + [acts[2]];
    assert BrightnessAlarm1 in {acts[0].f, acts[1].f, acts[2].f};
    assert BrightnessAlarm2 in {acts[0].f, acts[1].f, acts[2].f};
    assert AnimationAlarm in {acts[0].f, acts[1].f, acts[2].f};
    assert PowerKeyAlarm !in {acts[0].f, acts[1].f, acts[2].f};
  }

  lemma WakeupKeyKeepsInvariant(st: State, w: Sample)
    requires Invariant(st) && w.clock.Normalised() && w.clock2.Normalised()
    ensures Invariant(WakeupKey(st, w))
  {
    var acts := [Cancel(BrightnessAlarm2), Cancel(AnimationAlarm), Cancel(BrightnessAlarm1)];
    var cleared := State(st.flags, ApplyAll(st.queue, acts));
    CancelDisplayAlarms(st, acts);
    if Pending(st, BrightnessAlarm1) > 0 {
      PerformKeepsInvariant(cleared, Dim(st.flags));
    } else {
      BrightenKeepsInvariant(cleared, w);
    }
  }

  lemma WakeupKey2KeepsInvariant(st: State, w: Sample)
    requires Invariant(st) && w.clock.Normalised() && w.clock2.Normalised()
    ensures Invariant(WakeupKey2(st, w))
  {
    var acts := [Cancel(BrightnessAlarm2), Cancel(BrightnessAlarm1), Cancel(AnimationAlarm)];
    CancelDisplayAlarms(st, acts);
    BrightenKeepsInvariant(State(st.flags, ApplyAll(st.queue, acts)), w);
  }

  /** Every turn of the main loop keeps the invariant. */
  lemma StepKeepsInvariant(st: State, t: Turn)
    requires Invariant(st) && ClockRunsForward(t)
    ensures Invariant(Step(st, t))
  {
    if Delay(st.queue, t.asked) < 1 {
      CallbacksRearmLater(t.samples, t.now);
      forall k ensures t.samples(k).clock.Normalised() {
        assert Timely(t.samples(k), t.now);
      }
      DrainKeepsInvariant(st, t.now, t.samples, 0);
    } else {
      HandleKeepsInvariant(st, t.event, t.w);
    }
  }

  /** main() up to its loop, from the program's zeroed globals: one battery check, then the display
      cycle starts. */
  function Start(zero: State, check: Sample, show: Sample): State {
    var checked := Perform(zero, PowerEvent(zero.flags, check));
    Perform(checked, Brighten(checked.flags, show))
  }

  predicate Zeroed(st: State) {
    st.flags == Flags(false, false, false, false, 0, false) && st.queue == Queue([], 0)
  }

  ghost predicate AllRunForward(turns: seq<Turn>) {
    forall i :: 0 <= i < |turns| ==> ClockRunsForward(turns[i])
  }

  /** The state after the turns from the i-th on; the loop ends once `quit` is set. */
  function Run(st: State, turns: seq<Turn>, i: nat): (r: State)
    requires i <= |turns| && Invariant(st) && AllRunForward(turns)
    ensures Invariant(r)
    decreases |turns| - i
  {
    if i == |turns| || st.flags.quit then st
    else
      StepKeepsInvariant(st, turns[i]);
      Run(Step(st, turns[i]), turns, i + 1)
  }

  lemma StartInvariant(zero: State, check: Sample, show: Sample)
    requires Zeroed(zero) && show.clock.Normalised() && show.clock2.Normalised()
    ensures Invariant(Start(zero, check, show))
  {
    assert Invariant(zero);
    PowerEventKeepsInvariant(zero, check);
    BrightenKeepsInvariant(Perform(zero, PowerEvent(zero.flags, check)), show);
  }

  /** Over every run from program start, between any two turns: a lit display has exactly one pending
      brightness alarm unless the power key's alarm has run, a dark one has none, and so on. */
  lemma EveryRunKeepsInvariant(zero: State, check: Sample, show: Sample, turns: seq<Turn>)
    requires Zeroed(zero) && show.clock.Normalised() && show.clock2.Normalised()
    requires AllRunForward(turns)
    ensures Invariant(Start(zero, check, show))
    ensures Invariant(Run(Start(zero, check, show), turns, 0))
  {
    StartInvariant(zero, check, show);
  }

  /** Unplugging shuts down at once: the battery check that sees it requests power-off, darkens the
      display and leaves none of the three display alarms, and the request is made only once this way. */
  lemma UnpluggingPowersOff(st: State, w: Sample)
    requires Invariant(st) && !w.onAc && !w.onUsb
    ensures var st' := Perform(st, PowerEvent(st.flags, w));
            && st'.flags.shutdown && st'.flags.powerOffs == (if st.flags.shutdown then st.flags.powerOffs else 1)
            && (!st.flags.shutdown ==> !st'.flags.lit && Pending(st', AnimationAlarm) == 0
                                       && Pending(st', BrightnessAlarm1) == 0 && Pending(st', BrightnessAlarm2) == 0)
  {
    PowerEventKeepsInvariant(st, w);
  }

  /** The loop never sleeps past a deadline that has come, and a full sleep overshoots the next deadline
      by less than one millisecond; it drains only when the next deadline is less than that away, and never
      when no alarm is pending. */
  lemma LoopMeetsDeadlines(st: State, asked: Time)
    requires Invariant(st) && asked.Normalised()
    ensures st.queue.list == [] ==> Delay(st.queue, asked) >= 1
    ensures st.queue.list != [] ==>
            var head, delay := st.queue.list[0].time, Delay(st.queue, asked);
            && (delay >= 1 ==> Before(asked, head) && asked.Total() + delay * 1000 < head.Total() + 1000)
            && (delay < 1 ==> head.Total() < asked.Total() + 1000)
            && (!Before(asked, head) ==> delay < 1)
  {
    if st.queue.list != [] {
      var head := st.queue.list[0].time;
      assert st.queue.list[0] in st.queue.list;
      MillisUntilWithinOne(head, asked);
      BeforeIsOrderOfTotals(asked, head);
    }
  }

  // ---------------------------------------------------------------- the program

  /** Draining on from `st` ends as `goal` says. */
  ghost predicate DrainsTo(st: State, now: Time, client: Client<Flags>, n: nat, goal: Drained<Flags>)
    requires RearmsLater(client, now) && WellFormed(st.queue)
  {
    var r := Drain(st.queue, now, client, st.flags, n);
    r.state == goal.state && r.queue == goal.queue
  }

  lemma DrainsToNext(st: State, now: Time, client: Client<Flags>, n: nat, goal: Drained<Flags>)
    requires RearmsLater(client, now) && WellFormed(st.queue) && DrainsTo(st, now, client, n, goal)
    requires st.queue.list != [] && !Before(now, st.queue.list[0].time)
    ensures var (s', acts) := client(st.flags, st.queue.list[0].f, n);
            && WellFormed(AfterCallback(st.queue, acts))
            && DrainsTo(State(s', AfterCallback(st.queue, acts)), now, client, n + 1, goal)
            && |Due(AfterCallback(st.queue, acts).list, now)| < |Due(st.queue.list, now)|
  {
    CallbackKeepsDue(st.queue, client(st.flags, st.queue.list[0].f, n).1, now);
  }

  lemma DueHead(q: Queue, now: Time)
    requires q.list != [] && Due(q.list, now) != []
    ensures !Before(now, q.list[0].time)
  {
  }

  lemma DrainedNow(st: State, now: Time, client: Client<Flags>, n: nat, goal: Drained<Flags>)
    requires RearmsLater(client, now) && WellFormed(st.queue) && DrainsTo(st, now, client, n, goal)
    requires Due(st.queue.list, now) == []
    ensures st == State(goal.state, goal.queue)
  {
  }

  class Daemon {
    const alarms: AlarmList.AlarmList
    var quit: bool
    var shutdown: bool
    var powerup: bool
    // The display as the last call to the screen driver left it.
    var lit: bool
    // How often reboot(RB_POWER_OFF) was called; whether power_key_alarm ran since the display was started.
    ghost var powerOffs: nat
    ghost var keyRan: bool

    ghost function Globals(): Flags
      reads this
    {
      Flags(quit, shutdown, powerup, lit, powerOffs, keyRan)
    }

    ghost function Now(): State
      reads this, alarms
    {
      State(Globals(), alarms.queue)
    }

    constructor (check: Sample, show: Sample)
      ensures alarms.Valid() && fresh(alarms) && fresh(alarms.Repr) && alarms.detached == {}
      ensures forall zero :: Zeroed(zero) ==> Now() == Start(zero, check, show)
    {
      alarms := new AlarmList.AlarmList();
      quit, shutdown, powerup, lit := false, false, false, false;
      powerOffs, keyRan := 0, false;
      new;
      CheckPower(check);
      StartBrightness(show);
    }

    // screen_brightness_animation_alarm2
    method DimAlarm()
      requires alarms.Valid()
      modifies this, alarms, alarms.Repr
      ensures alarms.Valid() && fresh(alarms.Repr - old(alarms.Repr)) && alarms.detached == old(alarms.detached)
      ensures Now() == Perform(old(Now()), Dim(old(Globals())))
    {
      var _ := alarms.Cancel(AnimationAlarm);
      if shutdown {
        powerOffs := powerOffs + 1;
      }
      lit := false;
    }

    // power_event
    method CheckPower(w: Sample)
      requires alarms.Valid()
      modifies this, alarms, alarms.Repr
      ensures alarms.Valid() && fresh(alarms.Repr - old(alarms.Repr)) && alarms.detached == old(alarms.detached)
      ensures Now() == Perform(old(Now()), PowerEvent(old(Globals()), w))
    {
      if w.voltage >= POWERUP_VOLTAGE {
        powerup := true;
      }
      if !shutdown && !w.onAc && !w.onUsb {
        ApplyTwo(alarms.queue, Cancel(BrightnessAlarm2), Cancel(BrightnessAlarm1), [Cancel(AnimationAlarm)]);
        shutdown := true;
        var _ := alarms.Cancel(BrightnessAlarm2);
        var _ := alarms.Cancel(BrightnessAlarm1);
        DimAlarm();
      }
    }

    // screen_brightness_animation_start
    method StartBrightness(w: Sample)
      requires alarms.Valid()
      modifies this, alarms, alarms.Repr
      ensures alarms.Valid() && fresh(alarms.Repr - old(alarms.Repr)) && alarms.detached == old(alarms.detached)
      ensures Now() == Perform(old(Now()), Brighten(old(Globals()), w))
    {
      ghost var bright := Set(BrightnessAlarm1, 5000, w.clock);
      ApplyTwo(alarms.queue, bright, Set(AnimationAlarm, ANIMATION_TIMEOUT, w.clock2), []);
      lit := true;
      keyRan := false;
      alarms.SetRelative(BrightnessAlarm1, 5000, w.clock);
      alarms.SetRelative(AnimationAlarm, ANIMATION_TIMEOUT, w.clock2);
    }

    // What power_key_alarm and update_screen_on_wakeup_key2 begin with
    method CancelDisplay()
      requires alarms.Valid()
      modifies alarms, alarms.Repr
      ensures alarms.Valid() && fresh(alarms.Repr - old(alarms.Repr)) && alarms.detached == old(alarms.detached)
      ensures alarms.queue
           == ApplyAll(old(alarms.queue), [Cancel(BrightnessAlarm2), Cancel(BrightnessAlarm1), Cancel(AnimationAlarm)])
    {
      ghost var q := alarms.queue;
      ApplyTwo(q, Cancel(BrightnessAlarm2), Cancel(BrightnessAlarm1), [Cancel(AnimationAlarm)]);
      assert [Cancel(BrightnessAlarm2), Cancel(BrightnessAlarm1)] + [Cancel(AnimationAlarm)]
          == [Cancel(BrightnessAlarm2), Cancel(BrightnessAlarm1), Cancel(AnimationAlarm)];
      var _ := alarms.Cancel(BrightnessAlarm2);
      var _ := alarms.Cancel(BrightnessAlarm1);
      var _ := alarms.Cancel(AnimationAlarm);
      ApplyTwo(Apply(Apply(q, Cancel(BrightnessAlarm2)), Cancel(BrightnessAlarm1)), Cancel(AnimationAlarm),
               Cancel(AnimationAlarm), []);
    }

    // power_key_alarm
    method RebootAlarm(w: Sample)
      requires alarms.Valid()
      modifies this, alarms, alarms.Repr
      ensures alarms.Valid() && fresh(alarms.Repr - old(alarms.Repr)) && alarms.detached == old(alarms.detached)
      ensures Now() == Perform(old(Now()), Fire(old(Globals()), PowerKeyAlarm, w))
    {
      CancelDisplay();
      keyRan := true;
      if w.rebootStatus >= 0 {
        quit := true;
      }
    }

    /** The indirect call of an expired alarm. */
    method Call(f: Callback, w: Sample)
      requires alarms.Valid()
      modifies this, alarms, alarms.Repr
      ensures alarms.Valid() && fresh(alarms.Repr - old(alarms.Repr)) && alarms.detached == old(alarms.detached)
      ensures Now() == Perform(old(Now()), Fire(old(Globals()), f, w))
    {
      match f {
        case AnimationAlarm =>
          ghost var rearm := Set(AnimationAlarm, ANIMATION_TIMEOUT, w.clock);
          ApplyTwo(alarms.queue, rearm, rearm, PowerEvent(Globals(), w).1);
          alarms.SetRelative(AnimationAlarm, ANIMATION_TIMEOUT, w.clock);
          CheckPower(w);
        case BrightnessAlarm1 =>
          ghost var rearm := Set(BrightnessAlarm2, 10000, w.clock);
          ApplyTwo(alarms.queue, rearm, rearm, []);
          alarms.SetRelative(BrightnessAlarm2, 10000, w.clock);
        case BrightnessAlarm2 =>
          DimAlarm();
        case PowerKeyAlarm =>
          RebootAlarm(w);
      }
    }

    /** The rest of the loop body: the callback, and then free(). */
    method Expire(a: AlarmList.Node, w: Sample)
      requires alarms.Valid() && a in alarms.detached
      modifies this, alarms, alarms.Repr
      ensures alarms.Valid() && fresh(alarms.Repr - old(alarms.Repr)) && alarms.detached == old(alarms.detached) - {a}
      ensures Now() == Perform(old(Now()), Fire(old(Globals()), a.f, w))
    {
      hide Perform, Fire;
      Call(a.f, w);
      alarms.Free(a);
    }

    /** The loop body of alarm_process: an expired head is unlinked, called and freed. */
    method FireNext(now: Time, w: Sample) returns (fired: bool)
      requires alarms.Valid()
      modifies this, alarms, alarms.Repr
      ensures alarms.Valid() && fresh(alarms.Repr - old(alarms.Repr)) && alarms.detached == old(alarms.detached)
      ensures fired <==> Due(old(alarms.queue.list), now) != []
      ensures !fired ==> Now() == old(Now())
      ensures fired ==> old(alarms.queue.list) != []
                        && var (s', acts) := Fire(old(Globals()), old(alarms.queue.list)[0].f, w);
                           Now() == State(s', AfterCallback(old(alarms.queue), acts))
    {
      hide Fire, Due;
      ghost var kept := alarms.detached;
      var a := alarms.TakeDue(now);
      fired := a != null;
      if fired {
        Expire(a, w);
        assert alarms.detached == kept + {a} - {a} == kept;
      }
    }

    /** alarm_process: each expired head is unlinked, called and freed, while its callback may change the
        list.  Nothing is freed twice and nothing leaks. */
    method AlarmProcess(now: Time, samples: nat -> Sample)
      requires alarms.Valid() && WellFormed(alarms.queue)
      requires now.Normalised() && forall n :: Timely(samples(n), now)
      modifies this, alarms, alarms.Repr
      ensures alarms.Valid() && fresh(alarms.Repr - old(alarms.Repr)) && alarms.detached == old(alarms.detached)
      ensures RearmsLater(Callbacks(samples), now)
      ensures var r := Drain(old(alarms.queue), now, Callbacks(samples), old(Globals()), 0);
              Now() == State(r.state, r.queue)
    {
      CallbacksRearmLater(samples, now);
      ghost var client := Callbacks(samples);
      ghost var goal := Drain(alarms.queue, now, client, Globals(), 0);
      assert DrainsTo(Now(), now, client, 0, goal);
      hide Fire, Drain, Due, DrainsTo, WellFormed, RearmsLater;
      var n: nat := 0;
      var more := true;
      while more
        invariant alarms.Valid() && WellFormed(alarms.queue)
        invariant fresh(alarms.Repr - old(alarms.Repr)) && alarms.detached == old(alarms.detached)
        invariant DrainsTo(Now(), now, client, n, goal)
        invariant !more ==> Due(alarms.queue.list, now) == []
        decreases |Due(alarms.queue.list, now)|, more
      {
        ghost var before := Now();
        more := FireNext(now, samples(n));
        if more {
          DueHead(before.queue, now);
          DrainsToNext(before, now, client, n, goal);
          n := n + 1;
        }
      }
      DrainedNow(Now(), now, client, n, goal);
    }

    // update_screen_on_wakeup_key
    method WakeupKeyPressed(w: Sample)
      requires alarms.Valid()
      modifies this, alarms, alarms.Repr
      ensures alarms.Valid() && fresh(alarms.Repr - old(alarms.Repr)) && alarms.detached == old(alarms.detached)
      ensures Now() == WakeupKey(old(Now()), w)
    {
      ApplyTwo(alarms.queue, Cancel(BrightnessAlarm2), Cancel(AnimationAlarm), [Cancel(BrightnessAlarm1)]);
      ApplyCount(alarms.queue, Cancel(BrightnessAlarm2), BrightnessAlarm1);
      var _ := alarms.Cancel(BrightnessAlarm2);
      ApplyCount(alarms.queue, Cancel(AnimationAlarm), BrightnessAlarm1);
      var _ := alarms.Cancel(AnimationAlarm);
      var cancelled := alarms.Cancel(BrightnessAlarm1);
      if cancelled != 0 {
        DimAlarm();
      } else {
        StartBrightness(w);
      }
    }

    // update_screen_on_wakeup_key2
    method WakeupKey2Pressed(w: Sample)
      requires alarms.Valid()
      modifies this, alarms, alarms.Repr
      ensures alarms.Valid() && fresh(alarms.Repr - old(alarms.Repr)) && alarms.detached == old(alarms.detached)
      ensures Now() == WakeupKey2(old(Now()), w)
    {
      CancelDisplay();
      StartBrightness(w);
    }

    method HandleEvent(e: Event, w: Sample)
      requires alarms.Valid()
      modifies this, alarms, alarms.Repr
      ensures alarms.Valid() && fresh(alarms.Repr - old(alarms.Repr)) && alarms.detached == old(alarms.detached)
      ensures Now() == Handle(old(Now()), e, w)
    {
      match e {
        case PowerKeyDown =>
          if powerup {
            ghost var arm := Set(PowerKeyAlarm, 1000, w.clock);
            ApplyTwo(alarms.queue, arm, arm, []);
            alarms.SetRelative(PowerKeyAlarm, 1000, w.clock);
          }
        case PowerKeyUp =>
          var _ := alarms.Cancel(PowerKeyAlarm);
          WakeupKeyPressed(w);
        case VolumeDown => WakeupKey2Pressed(w);
        case VolumeUp => WakeupKey2Pressed(w);
        case Camera => WakeupKey2Pressed(w);
        case Battery => CheckPower(w);
        case Quit => quit := true;
        case Other =>
      }
    }

    method LoopOnce(t: Turn)
      requires alarms.Valid() && Invariant(Now()) && ClockRunsForward(t)
      modifies this, alarms, alarms.Repr
      ensures alarms.Valid() && fresh(alarms.Repr - old(alarms.Repr)) && alarms.detached == old(alarms.detached)
      ensures Now() == Step(old(Now()), t)
    {
      var delay := alarms.TimeUntilNext(t.asked);
      if delay < 1 {
        AlarmProcess(t.now, t.samples);
      } else {
        HandleEvent(t.event, t.w);
      }
    }

    /** The main loop over a script of what the outside world does, one entry a turn. */
    method MainLoop(turns: seq<Turn>)
      requires alarms.Valid() && Invariant(Now())
      requires AllRunForward(turns)
      modifies this, alarms, alarms.Repr
      ensures alarms.Valid() && alarms.detached == old(alarms.detached)
      ensures Now() == Run(old(Now()), turns, 0)
    {
      ghost var goal := Run(Now(), turns, 0);
      var i := 0;
      while i < |turns| && !quit
        invariant i <= |turns|
        invariant alarms.Valid() && Invariant(Now()) && Run(Now(), turns, i) == goal
        invariant fresh(alarms.Repr - old(alarms.Repr)) && alarms.detached == old(alarms.detached)
      {
        StepKeepsInvariant(Now(), turns[i]);
        LoopOnce(turns[i]);
        i := i + 1;
      }
    }
  }
}
