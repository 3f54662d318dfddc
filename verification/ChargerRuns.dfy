/** What a user of charge-only mode sees over a run: when holding the power key restarts the phone, how long
    the display stays lit, which keys switch it, and what the battery checks decide. */
module ChargerRuns {
  import opened Alarms
  import opened Charger

  // ---------------------------------------------------------------- which alarms calls leave

  lemma ApplyMembers(q: Queue, act: Action, a: Alarm)
    ensures a in Apply(q, act).list <==>
            match act
            case Set(f, ms, clock) => a in q.list || a == Alarm(Deadline(clock, ms), f, q.issued)
            case Cancel(f) => a in q.list && a.f != f
  {
    match act
    case Set(f, ms, clock) =>
      var b := Alarm(Deadline(clock, ms), f, q.issued);
      var i := InsertSplits(q.list, b);
      assert q.list == q.list[..i] + q.list[i..];
    case Cancel(f) => WithoutMembers(q.list, f);
  }

  /** Calls for other callbacks leave an alarm alone. */
  lemma {:induction false} OthersStay(q: Queue, acts: seq<Action>, a: Alarm)
    requires forall i :: 0 <= i < |acts| ==> acts[i].f != a.f
    ensures a in ApplyAll(q, acts).list <==> a in q.list
    decreases acts
  {
    if acts != [] {
      ApplyMembers(q, acts[0], a);
      OthersStay(Apply(q, acts[0]), acts[1..], a);
    }
  }

  /** One of the calls arms such an alarm. */
  ghost predicate ArmedBy(acts: seq<Action>, a: Alarm) {
    exists i :: 0 <= i < |acts| && acts[i].Set? && acts[i].f == a.f && a.time == Deadline(acts[i].clock, acts[i].ms)
  }

  lemma {:induction false} OldOrArmed(q: Queue, acts: seq<Action>, a: Alarm)
    requires a in ApplyAll(q, acts).list
    ensures a in q.list || ArmedBy(acts, a)
    decreases acts
  {
    if acts != [] {
      OldOrArmed(Apply(q, acts[0]), acts[1..], a);
      ApplyMembers(q, acts[0], a);
      if ArmedBy(acts[1..], a) {
        var i :| 0 <= i < |acts[1..]| && acts[1..][i].Set? && acts[1..][i].f == a.f
                 && a.time == Deadline(acts[1..][i].clock, acts[1..][i].ms);
        assert acts[i + 1] == acts[1..][i];
      }
    }
  }

  // ---------------------------------------------------------------- one drain

  /** A drain of the program's queue. */
  function Drained(st: State, t: Turn): Alarms.Drained<Flags>
    requires Invariant(st) && ClockRunsForward(t)
  {
    CallbacksRearmLater(t.samples, t.now);
    Drain(st.queue, t.now, Callbacks(t.samples), st.flags, 0)
  }

  lemma CallbackIs(samples: nat -> Sample, s: Flags, f: Callback, n: nat)
    ensures Callbacks(samples)(s, f, n) == Fire(s, f, samples(n))
  {
  }

  lemma FireLeavesPowerKey(s: Flags, f: Callback, w: Sample)
    ensures forall i :: 0 <= i < |Fire(s, f, w).1| ==> Fire(s, f, w).1[i].f != PowerKeyAlarm
  {
  }

  lemma HeadAndTail(q: seq<Alarm>, a: Alarm)
    requires q != []
    ensures a in q <==> a == q[0] || a in q[1..]
  {
    assert q == [q[0]] + q[1..];
  }

  /** No callback arms or cancels the power key's alarm: a drain fires it exactly if its time has come. */
  lemma {:induction false} DrainPowerKey(q: Queue, now: Time, samples: nat -> Sample, s: Flags, n: nat, a: Alarm)
    requires RearmsLater(Callbacks(samples), now) && WellFormed(q) && a.f == PowerKeyAlarm
    ensures var r := Drain(q, now, Callbacks(samples), s, n);
            && (a in r.fired <==> a in q.list && !Before(now, a.time))
            && (a in r.queue.list <==> a in q.list && Before(now, a.time))
    decreases |Due(q.list, now)|
  {
    hide RearmsLater;
    if q.list == [] || Before(now, q.list[0].time) {
      DueIsExpired(q.list, now);
    } else {
      var h := q.list[0];
      var (s', acts) := Callbacks(samples)(s, h.f, n);
      CallbackIs(samples, s, h.f, n);
      RearmedLater(Callbacks(samples), now, s, h.f, n);
      CallbackKeepsDue(q, acts, now);
      var next := AfterCallback(q, acts);
      FireLeavesPowerKey(s, h.f, samples(n));
      OthersStay(Queue(q.list[1..], q.issued), acts, a);
      HeadAndTail(q.list, a);
      DrainPowerKey(next, now, samples, s', n + 1, a);
      hide Drain, Callbacks, Fire, WellFormed, Due, Before;
      DrainUnfolds(q, now, Callbacks(samples), s, n, s', acts);
      var r := Drain(q, now, Callbacks(samples), s, n);
      HeadAndTail(r.fired, a);
    }
  }

  lemma RearmedLater(client: Client<Flags>, now: Time, s: Flags, f: Callback, n: nat)
    requires RearmsLater(client, now)
    ensures now.Normalised() && forall i :: 0 <= i < |client(s, f, n).1| ==> InFuture(client(s, f, n).1[i], now)
  {
  }

  lemma DrainUnfolds(q: Queue, now: Time, client: Client<Flags>, s: Flags, n: nat, s': Flags, acts: seq<Action>)
    requires RearmsLater(client, now) && WellFormed(q) && q.list != [] && !Before(now, q.list[0].time)
    requires (s', acts) == client(s, q.list[0].f, n)
    ensures WellFormed(AfterCallback(q, acts))
    ensures var r, rest := Drain(q, now, client, s, n), Drain(AfterCallback(q, acts), now, client, s', n + 1);
            && r.fired == [q.list[0]] + rest.fired && r.fired[0] == q.list[0] && r.fired[1..] == rest.fired
            && r.queue == rest.queue && r.state == rest.state
  {
    CallbackKeepsDue(q, acts, now);
  }

  // ---------------------------------------------------------------- runs

  ghost predicate Usable(st: State, turns: seq<Turn>) {
    Invariant(st) && AllRunForward(turns)
  }

  /** The state before turn n; once `quit` is set it stays as it is. */
  function StateAt(st: State, turns: seq<Turn>, n: nat): (r: State)
    requires Usable(st, turns) && n <= |turns|
    ensures Invariant(r)
  {
    if n == 0 then st
    else
      var before := StateAt(st, turns, n - 1);
      if before.flags.quit then before
      else
        StepKeepsInvariant(before, turns[n - 1]);
        Step(before, turns[n - 1])
  }

  /** The loop's turns, as Run takes them. */
  lemma {:induction false} RunEndsAt(st: State, turns: seq<Turn>, i: nat)
    requires Usable(st, turns) && i <= |turns|
    ensures Run(StateAt(st, turns, i), turns, i) == StateAt(st, turns, |turns|)
    decreases |turns| - i
  {
    hide Step, Invariant;
    if i < |turns| {
      var now := StateAt(st, turns, i);
      if now.flags.quit {
        QuitStays(st, turns, i, |turns|);
      } else {
        StepKeepsInvariant(now, turns[i]);
        RunEndsAt(st, turns, i + 1);
      }
    }
  }

  lemma {:induction false} QuitStays(st: State, turns: seq<Turn>, i: nat, n: nat)
    requires Usable(st, turns) && i <= n <= |turns| && StateAt(st, turns, i).flags.quit
    ensures StateAt(st, turns, n) == StateAt(st, turns, i)
    decreases n
  {
    hide Step, Invariant;
    if i < n { QuitStays(st, turns, i, n - 1); }
  }

  /** Turn k drains the timer queue. */
  predicate Drains(st: State, turns: seq<Turn>, k: nat)
    requires Usable(st, turns) && k < |turns|
  {
    var now := StateAt(st, turns, k);
    !now.flags.quit && Delay(now.queue, turns[k].asked) < 1
  }

  /** Turn k handles this event. */
  predicate Handles(st: State, turns: seq<Turn>, k: nat, e: Event)
    requires Usable(st, turns) && k < |turns|
  {
    var now := StateAt(st, turns, k);
    !now.flags.quit && Delay(now.queue, turns[k].asked) >= 1 && turns[k].event == e
  }

  /** The power key goes down and the battery has been found good. */
  predicate Pressed(st: State, turns: seq<Turn>, k: nat)
    requires Usable(st, turns) && k < |turns|
  {
    Handles(st, turns, k, PowerKeyDown) && StateAt(st, turns, k).flags.powerup
  }

  ghost predicate Fires(st: State, turns: seq<Turn>, k: nat, f: Callback)
    requires Usable(st, turns) && k < |turns|
  {
    Drains(st, turns, k) && exists a :: a in Drained(StateAt(st, turns, k), turns[k]).fired && a.f == f
  }

  // ---------------------------------------------------------------- the power key

  function PressAlarm(st: State, turns: seq<Turn>, k: nat): Alarm
    requires Usable(st, turns) && k < |turns|
  {
    Alarm(Deadline(turns[k].w.clock, 1000), PowerKeyAlarm, StateAt(st, turns, k).queue.issued)
  }

  /** Turn k ends a press whose alarm is due at `time`: the key goes up, or the alarm goes off. */
  predicate Ends(st: State, turns: seq<Turn>, k: nat, time: Time)
    requires Usable(st, turns) && k < |turns|
  {
    Handles(st, turns, k, PowerKeyUp) || (Drains(st, turns, k) && !Before(turns[k].now, time))
  }

  /** The press of turn i still stands before turn n, and `a` is its alarm. */
  ghost predicate Stands(st: State, turns: seq<Turn>, i: nat, n: nat, a: Alarm)
    requires Usable(st, turns) && i < n <= |turns|
  {
    && Pressed(st, turns, i) && a == PressAlarm(st, turns, i)
    && forall k :: i < k < n ==> !Ends(st, turns, k, a.time)
  }

  ghost predicate SomeStands(st: State, turns: seq<Turn>, n: nat, a: Alarm)
    requires Usable(st, turns) && n <= |turns|
  {
    exists i :: 0 <= i < n && Stands(st, turns, i, n, a)
  }

  lemma PerformMembers(st: State, f: Flags, acts: seq<Action>, a: Alarm)
    requires forall i :: 0 <= i < |acts| ==> acts[i].f != a.f
    ensures a in Perform(st, (f, acts)).queue.list <==> a in st.queue.list
  {
    OthersStay(st.queue, acts, a);
  }

  lemma WakeupLeavesPowerKey(st: State, w: Sample, a: Alarm)
    requires a.f == PowerKeyAlarm
    ensures a in WakeupKey(st, w).queue.list <==> a in st.queue.list
    ensures a in WakeupKey2(st, w).queue.list <==> a in st.queue.list
  {
    OthersStay(st.queue, [Cancel(BrightnessAlarm2), Cancel(AnimationAlarm), Cancel(BrightnessAlarm1)], a);
    OthersStay(st.queue, [Cancel(BrightnessAlarm2), Cancel(BrightnessAlarm1), Cancel(AnimationAlarm)], a);
    var one := ApplyAll(st.queue, [Cancel(BrightnessAlarm2), Cancel(AnimationAlarm), Cancel(BrightnessAlarm1)]);
    var two := ApplyAll(st.queue, [Cancel(BrightnessAlarm2), Cancel(BrightnessAlarm1), Cancel(AnimationAlarm)]);
    OthersStay(one, Dim(st.flags).1, a);
    OthersStay(one, Brighten(st.flags, w).1, a);
    OthersStay(two, Brighten(st.flags, w).1, a);
  }

  /** An event arms the power key's alarm only if it is the key going down on a good battery; the key going up
      disarms all; no other event matters to it. */
  lemma HandlePowerKey(st: State, e: Event, w: Sample, a: Alarm)
    requires a.f == PowerKeyAlarm
    ensures a in Handle(st, e, w).queue.list <==>
            match e
            case PowerKeyUp => false
            case PowerKeyDown =>
              || a in st.queue.list
              || (st.flags.powerup && a == Alarm(Deadline(w.clock, 1000), PowerKeyAlarm, st.queue.issued))
            case _ => a in st.queue.list
  {
    WakeupLeavesPowerKey(st, w, a);
    match e
    case PowerKeyDown =>
      var arm := Set(PowerKeyAlarm, 1000, w.clock);
      ApplyTwo(st.queue, arm, arm, []);
      ApplyMembers(st.queue, arm, a);
    case PowerKeyUp =>
      var disarm := Cancel(PowerKeyAlarm);
      ApplyTwo(st.queue, disarm, disarm, []);
      ApplyMembers(st.queue, disarm, a);
      WakeupLeavesPowerKey(Perform(st, (st.flags, [disarm])), w, a);
    case Battery => OthersStay(st.queue, PowerEvent(st.flags, w).1, a);
    case _ =>
  }

  /** Letting the power key go disarms its alarm, whatever else it does. */
  lemma KeyUpDisarms(st: State, w: Sample)
    ensures Pending(Handle(st, PowerKeyUp, w), PowerKeyAlarm) == 0
  {
    var q := Handle(st, PowerKeyUp, w).queue.list;
    forall i | 0 <= i < |q| ensures q[i].f != PowerKeyAlarm {
      if q[i].f == PowerKeyAlarm { HandlePowerKey(st, PowerKeyUp, w, q[i]); }
    }
    WithoutNone(q, PowerKeyAlarm);
  }

  lemma StepPowerKey(st: State, turns: seq<Turn>, n: nat, a: Alarm)
    requires Usable(st, turns) && n < |turns| && a.f == PowerKeyAlarm
    ensures a in StateAt(st, turns, n + 1).queue.list <==>
            || (a in StateAt(st, turns, n).queue.list && !Ends(st, turns, n, a.time))
            || (Pressed(st, turns, n) && a == PressAlarm(st, turns, n))
  {
    var now, t := StateAt(st, turns, n), turns[n];
    StepIs(st, turns, n);
    hide Invariant, StateAt, Before;
    if Drains(st, turns, n) {
      CallbacksRearmLater(t.samples, t.now);
      KeptWellFormed(now);
      DrainPowerKey(now.queue, t.now, t.samples, now.flags, 0, a);
    } else if !now.flags.quit {
      HandlePowerKey(now, t.event, t.w, a);
    }
  }

  lemma KeptWellFormed(st: State)
    requires Invariant(st)
    ensures WellFormed(st.queue)
  {
  }

  lemma StepIs(st: State, turns: seq<Turn>, n: nat)
    requires Usable(st, turns) && n < |turns|
    ensures var now, t, next := StateAt(st, turns, n), turns[n], StateAt(st, turns, n + 1);
            && ClockRunsForward(t)
            && (now.flags.quit ==> next == now)
            && (Drains(st, turns, n) ==> var r := Drained(now, t); next == State(r.state, r.queue))
            && (!now.flags.quit && !Drains(st, turns, n) ==> next == Handle(now, t.event, t.w))
  {
  }

  /** The power key's alarms that are pending are those of the presses that still stand. */
  lemma {:induction false} ArmedIffStands(st: State, turns: seq<Turn>, n: nat, a: Alarm)
    requires Usable(st, turns) && n <= |turns| && Pending(st, PowerKeyAlarm) == 0 && a.f == PowerKeyAlarm
    ensures a in StateAt(st, turns, n).queue.list <==> SomeStands(st, turns, n, a)
    decreases n
  {
    hide *;
    if n == 0 {
      NoneAtStart(st, turns, a);
    } else {
      ArmedIffStands(st, turns, n - 1, a);
      StepPowerKey(st, turns, n - 1, a);
      StandsOn(st, turns, n - 1, a);
    }
  }

  lemma NoneAtStart(st: State, turns: seq<Turn>, a: Alarm)
    requires Usable(st, turns) && Pending(st, PowerKeyAlarm) == 0 && a.f == PowerKeyAlarm
    ensures a !in StateAt(st, turns, 0).queue.list && !SomeStands(st, turns, 0, a)
  {
    NonePending(st.queue.list, PowerKeyAlarm, a);
  }

  lemma StandsOn(st: State, turns: seq<Turn>, n: nat, a: Alarm)
    requires Usable(st, turns) && n < |turns|
    ensures SomeStands(st, turns, n + 1, a) <==>
            || (SomeStands(st, turns, n, a) && !Ends(st, turns, n, a.time))
            || (Pressed(st, turns, n) && a == PressAlarm(st, turns, n))
  {
    hide StateAt, Invariant, Pressed, Ends, PressAlarm, Usable;
    if SomeStands(st, turns, n, a) && !Ends(st, turns, n, a.time) {
      var i :| 0 <= i < n && Stands(st, turns, i, n, a);
      assert Stands(st, turns, i, n + 1, a);
    }
    if Pressed(st, turns, n) && a == PressAlarm(st, turns, n) {
      assert Stands(st, turns, n, n + 1, a);
    }
    if SomeStands(st, turns, n + 1, a) {
      var i :| 0 <= i < n + 1 && Stands(st, turns, i, n + 1, a);
      if i < n {
        assert Stands(st, turns, i, n, a);
      }
    }
  }

  lemma {:induction false} NonePending(q: seq<Alarm>, f: Callback, a: Alarm)
    requires Count(q, f) == 0 && a.f == f
    ensures a !in q
  {
    if q != [] {
      NonePending(q[1..], f, a);
      HeadAndTail(q, a);
    }
  }

  /** A whole second or more lies between the two clock readings. */
  predicate SecondLater(from: Time, to: Time) {
    to.Total() >= from.Total() + 1_000_000
  }

  /** So it is at program start. */
  lemma NothingHeldAtStart(zero: State, check: Sample, show: Sample)
    requires Zeroed(zero) && show.clock.Normalised() && show.clock2.Normalised()
    ensures Invariant(Start(zero, check, show)) && Pending(Start(zero, check, show), PowerKeyAlarm) == 0
  {
    StartInvariant(zero, check, show);
    var checked := Perform(zero, PowerEvent(zero.flags, check));
    var q := Start(zero, check, show).queue.list;
    forall i | 0 <= i < |q| ensures q[i].f != PowerKeyAlarm {
      if q[i].f == PowerKeyAlarm {
        OthersStay(checked.queue, Brighten(checked.flags, show).1, q[i]);
        OthersStay(zero.queue, PowerEvent(zero.flags, check).1, q[i]);
      }
    }
    WithoutNone(q, PowerKeyAlarm);
  }

  /** Main theorem of the power key.  Its alarm goes off in a drain exactly if the key went down on a good
      battery at least one second before the drain, has not come up since, and the alarm has not gone off for
      that press before. */
  lemma LongPressIff(st: State, turns: seq<Turn>, n: nat)
    requires Usable(st, turns) && n < |turns| && Pending(st, PowerKeyAlarm) == 0
    ensures Fires(st, turns, n, PowerKeyAlarm) <==>
            && Drains(st, turns, n)
            && exists i :: 0 <= i < n && Held(st, turns, i, n) && SecondLater(turns[i].w.clock, turns[n].now)
  {
    if Drains(st, turns, n) {
      var now, t := StateAt(st, turns, n), turns[n];
      StepIs(st, turns, n);
      CallbacksRearmLater(t.samples, t.now);
      KeptWellFormed(now);
      hide Invariant, StateAt, Before, Usable;
      var fired := Drained(now, t).fired;
      forall a: Alarm | a.f == PowerKeyAlarm
        ensures a in fired <==> SomeStands(st, turns, n, a) && !Before(t.now, a.time)
      {
        ArmedIffStands(st, turns, n, a);
        DrainPowerKey(now.queue, t.now, t.samples, now.flags, 0, a);
      }
      forall i: nat | i < n
        ensures Held(st, turns, i, n) && SecondLater(turns[i].w.clock, t.now) <==>
                Stands(st, turns, i, n, PressAlarm(st, turns, i)) && !Before(t.now, PressAlarm(st, turns, i).time)
      {
        HeldIsStands(st, turns, i, n);
        DueIsSecondLater(st, turns, i, n);
      }
      FiredIffStands(st, turns, n, fired);
    }
  }

  lemma FiredIffStands(st: State, turns: seq<Turn>, n: nat, fired: seq<Alarm>)
    requires Usable(st, turns) && n < |turns|
    requires forall a: Alarm | a.f == PowerKeyAlarm ::
               a in fired <==> SomeStands(st, turns, n, a) && !Before(turns[n].now, a.time)
    requires forall i: nat | i < n ::
               Held(st, turns, i, n) && SecondLater(turns[i].w.clock, turns[n].now) <==>
               Stands(st, turns, i, n, PressAlarm(st, turns, i)) && !Before(turns[n].now, PressAlarm(st, turns, i).time)
    ensures (exists a :: a in fired && a.f == PowerKeyAlarm) <==>
            exists i :: 0 <= i < n && Held(st, turns, i, n) && SecondLater(turns[i].w.clock, turns[n].now)
  {
    hide StateAt, Invariant, Usable, Held, SecondLater, Before, Pressed, Ends;
    if a :| a in fired && a.f == PowerKeyAlarm {
      var i: nat :| i < n && Stands(st, turns, i, n, a);
      assert a == PressAlarm(st, turns, i);
      assert Held(st, turns, i, n) && SecondLater(turns[i].w.clock, turns[n].now);
    }
    if i :| 0 <= i < n && Held(st, turns, i, n) && SecondLater(turns[i].w.clock, turns[n].now) {
      var a := PressAlarm(st, turns, i);
      assert Stands(st, turns, i, n, a) && !Before(turns[n].now, a.time);
      assert a in fired;
    }
  }

  /** The key went down in turn i, has not come up before turn n, and no drain in between came a second later. */
  ghost predicate Held(st: State, turns: seq<Turn>, i: nat, n: nat)
    requires Usable(st, turns) && i < n <= |turns|
  {
    && Pressed(st, turns, i)
    && (forall k :: i < k < n ==> !Handles(st, turns, k, PowerKeyUp))
    && (forall k :: i < k < n && Drains(st, turns, k) ==> !SecondLater(turns[i].w.clock, turns[k].now))
  }

  lemma DueIsSecondLater(st: State, turns: seq<Turn>, i: nat, k: nat)
    requires Usable(st, turns) && i < |turns| && k < |turns|
    ensures !Before(turns[k].now, PressAlarm(st, turns, i).time) <==> SecondLater(turns[i].w.clock, turns[k].now)
  {
    hide StateAt, Invariant;
    var clock, time := turns[i].w.clock, PressAlarm(st, turns, i).time;
    assert ClockRunsForward(turns[i]) && ClockRunsForward(turns[k]);
    DeadlineIsClockPlusDelay(clock, 1000);
    BeforeIsOrderOfTotals(turns[k].now, time);
  }

  lemma HeldIsStands(st: State, turns: seq<Turn>, i: nat, n: nat)
    requires Usable(st, turns) && i < n < |turns|
    ensures Held(st, turns, i, n) <==> Stands(st, turns, i, n, PressAlarm(st, turns, i))
  {
    forall k | i < k < n
      ensures !Before(turns[k].now, PressAlarm(st, turns, i).time) <==> SecondLater(turns[i].w.clock, turns[k].now)
    {
      DueIsSecondLater(st, turns, i, k);
    }
    hide StateAt, Invariant, Usable, SecondLater, Before, Pressed, PressAlarm, Handles, Drains;
    assert Stands(st, turns, i, n, PressAlarm(st, turns, i)) ==> Held(st, turns, i, n) by {
      assert forall k :: i < k < n ==>
               (Ends(st, turns, k, PressAlarm(st, turns, i).time) <==>
                Handles(st, turns, k, PowerKeyUp)
                || (Drains(st, turns, k) && SecondLater(turns[i].w.clock, turns[k].now)));
    }
  }

  // ---------------------------------------------------------------- what battery checks and reboots decide

  predicate Good(w: Sample) { w.voltage >= 3470000 }
  predicate Unplugged(w: Sample) { !w.onAc && !w.onUsb }
  predicate Rebooted(w: Sample) { w.rebootStatus >= 0 }

  /** In a drain that fired these, the n-th callback of it reading samples(n): a battery check that found the
      voltage good, one that found the charger unplugged, a restart that did not fail. */
  ghost predicate FoundGood(fired: seq<Alarm>, samples: nat -> Sample, n: nat) {
    exists k :: 0 <= k < |fired| && fired[k].f == AnimationAlarm && Good(samples(n + k))
  }

  ghost predicate FoundUnplugged(fired: seq<Alarm>, samples: nat -> Sample, n: nat) {
    exists k :: 0 <= k < |fired| && fired[k].f == AnimationAlarm && Unplugged(samples(n + k))
  }

  ghost predicate Restarted(fired: seq<Alarm>, samples: nat -> Sample, n: nat) {
    exists k :: 0 <= k < |fired| && fired[k].f == PowerKeyAlarm && Rebooted(samples(n + k))
  }

  lemma FoundFirst(fired: seq<Alarm>, samples: nat -> Sample, n: nat)
    requires fired != []
    ensures FoundGood(fired, samples, n) <==>
            (fired[0].f == AnimationAlarm && Good(samples(n))) || FoundGood(fired[1..], samples, n + 1)
    ensures FoundUnplugged(fired, samples, n) <==>
            (fired[0].f == AnimationAlarm && Unplugged(samples(n))) || FoundUnplugged(fired[1..], samples, n + 1)
    ensures Restarted(fired, samples, n) <==>
            (fired[0].f == PowerKeyAlarm && Rebooted(samples(n))) || Restarted(fired[1..], samples, n + 1)
  {
    hide Good, Unplugged, Rebooted;
    var rest := fired[1..];
    forall k | 0 <= k < |rest| ensures rest[k] == fired[k + 1] && samples(n + 1 + k) == samples(n + (k + 1)) {
    }
  }

  lemma FireLatches(s: Flags, f: Callback, w: Sample)
    ensures var s' := Fire(s, f, w).0;
            && (s'.powerup <==> s.powerup || (f == AnimationAlarm && Good(w)))
            && (s'.shutdown <==> s.shutdown || (f == AnimationAlarm && Unplugged(w)))
            && (s'.quit <==> s.quit || (f == PowerKeyAlarm && Rebooted(w)))
  {
  }

  lemma {:induction false} DrainLatches(q: Queue, now: Time, samples: nat -> Sample, s: Flags, n: nat)
    requires RearmsLater(Callbacks(samples), now) && WellFormed(q)
    ensures var r := Drain(q, now, Callbacks(samples), s, n);
            && (r.state.powerup <==> s.powerup || FoundGood(r.fired, samples, n))
            && (r.state.shutdown <==> s.shutdown || FoundUnplugged(r.fired, samples, n))
            && (r.state.quit <==> s.quit || Restarted(r.fired, samples, n))
    decreases |Due(q.list, now)|
  {
    hide RearmsLater, FoundGood, FoundUnplugged, Restarted, Fire, Callbacks;
    if q.list == [] || Before(now, q.list[0].time) {
      NothingFound(samples, n);
    } else {
      var f := q.list[0].f;
      var (s', acts) := Callbacks(samples)(s, f, n);
      CallbackIs(samples, s, f, n);
      RearmedLater(Callbacks(samples), now, s, f, n);
      CallbackKeepsDue(q, acts, now);
      FireLatches(s, f, samples(n));
      DrainLatches(AfterCallback(q, acts), now, samples, s', n + 1);
      hide Drain, WellFormed, Due, Before, Good, Unplugged, Rebooted;
      DrainUnfolds(q, now, Callbacks(samples), s, n, s', acts);
      FoundFirst(Drain(q, now, Callbacks(samples), s, n).fired, samples, n);
    }
  }

  lemma NothingFound(samples: nat -> Sample, n: nat)
    ensures !FoundGood([], samples, n) && !FoundUnplugged([], samples, n) && !Restarted([], samples, n)
  {
  }

  ghost function FiredAt(st: State, turns: seq<Turn>, k: nat): seq<Alarm>
    requires Usable(st, turns) && k < |turns|
  {
    if Drains(st, turns, k) then Drained(StateAt(st, turns, k), turns[k]).fired else []
  }

  /** Turn k finds the battery good; finds the charger unplugged; quits. */
  ghost predicate GoodAt(st: State, turns: seq<Turn>, k: nat)
    requires Usable(st, turns) && k < |turns|
  {
    (Handles(st, turns, k, Battery) && Good(turns[k].w)) || FoundGood(FiredAt(st, turns, k), turns[k].samples, 0)
  }

  ghost predicate UnpluggedAt(st: State, turns: seq<Turn>, k: nat)
    requires Usable(st, turns) && k < |turns|
  {
    || (Handles(st, turns, k, Battery) && Unplugged(turns[k].w))
    || FoundUnplugged(FiredAt(st, turns, k), turns[k].samples, 0)
  }

  ghost predicate QuitsAt(st: State, turns: seq<Turn>, k: nat)
    requires Usable(st, turns) && k < |turns|
  {
    Handles(st, turns, k, Event.Quit) || Restarted(FiredAt(st, turns, k), turns[k].samples, 0)
  }

  lemma HandleLatches(st: State, e: Event, w: Sample)
    ensures var f, g := st.flags, Handle(st, e, w).flags;
            && (g.powerup <==> f.powerup || (e == Battery && Good(w)))
            && (g.shutdown <==> f.shutdown || (e == Battery && Unplugged(w)))
            && (g.quit <==> f.quit || e == Event.Quit)
  {
  }

  lemma TurnLatches(st: State, turns: seq<Turn>, n: nat)
    requires Usable(st, turns) && n < |turns|
    ensures var f, g := StateAt(st, turns, n).flags, StateAt(st, turns, n + 1).flags;
            && (g.powerup <==> f.powerup || GoodAt(st, turns, n))
            && (g.shutdown <==> f.shutdown || UnpluggedAt(st, turns, n))
            && (g.quit <==> f.quit || QuitsAt(st, turns, n))
  {
    var now, t := StateAt(st, turns, n), turns[n];
    StepIs(st, turns, n);
    NothingFound(t.samples, 0);
    HandleLatches(now, t.event, t.w);
    hide Invariant, StateAt, FoundGood, FoundUnplugged, Restarted, Handle, Good, Unplugged, Rebooted;
    if Drains(st, turns, n) {
      CallbacksRearmLater(t.samples, t.now);
      KeptWellFormed(now);
      DrainLatches(now.queue, t.now, t.samples, now.flags, 0);
    }
  }

  ghost predicate EverGood(st: State, turns: seq<Turn>, n: nat)
    requires Usable(st, turns) && n <= |turns|
  {
    exists k :: 0 <= k < n && GoodAt(st, turns, k)
  }

  ghost predicate EverUnplugged(st: State, turns: seq<Turn>, n: nat)
    requires Usable(st, turns) && n <= |turns|
  {
    exists k :: 0 <= k < n && UnpluggedAt(st, turns, k)
  }

  ghost predicate EverQuits(st: State, turns: seq<Turn>, n: nat)
    requires Usable(st, turns) && n <= |turns|
  {
    exists k :: 0 <= k < n && QuitsAt(st, turns, k)
  }

  lemma EverNext(st: State, turns: seq<Turn>, n: nat)
    requires Usable(st, turns) && n < |turns|
    ensures EverGood(st, turns, n + 1) <==> EverGood(st, turns, n) || GoodAt(st, turns, n)
    ensures EverUnplugged(st, turns, n + 1) <==> EverUnplugged(st, turns, n) || UnpluggedAt(st, turns, n)
    ensures EverQuits(st, turns, n + 1) <==> EverQuits(st, turns, n) || QuitsAt(st, turns, n)
  {
    hide Usable, GoodAt, UnpluggedAt, QuitsAt;
  }

  lemma NeverYet(st: State, turns: seq<Turn>)
    requires Usable(st, turns)
    ensures StateAt(st, turns, 0) == st
    ensures !EverGood(st, turns, 0) && !EverUnplugged(st, turns, 0) && !EverQuits(st, turns, 0)
  {
    hide GoodAt, UnpluggedAt, QuitsAt;
  }

  /** What the globals say before turn n: the phone may be booted exactly if some battery check so far found the
      voltage good; it is to be shut down exactly if one found the charger unplugged; and the loop is over
      exactly if it was told to quit, or a long press restarted the phone. */
  lemma {:induction false} GlobalsIff(st: State, turns: seq<Turn>, n: nat)
    requires Usable(st, turns) && n <= |turns|
    ensures var g := StateAt(st, turns, n).flags;
            && (g.powerup <==> st.flags.powerup || EverGood(st, turns, n))
            && (g.shutdown <==> st.flags.shutdown || EverUnplugged(st, turns, n))
            && (g.quit <==> st.flags.quit || EverQuits(st, turns, n))
    decreases n
  {
    hide *;
    if n == 0 {
      NeverYet(st, turns);
    } else {
      GlobalsIff(st, turns, n - 1);
      TurnLatches(st, turns, n - 1);
      EverNext(st, turns, n - 1);
    }
  }

  // ---------------------------------------------------------------- the keys and the display

  predicate WakesAlways(e: Event) { e == VolumeDown || e == VolumeUp || e == Camera }

  /** The event starts the display cycle anew. */
  predicate Relights(st: State, e: Event) {
    WakesAlways(e) || (e == PowerKeyUp && Pending(st, BrightnessAlarm1) == 0)
  }

  lemma Cleared(st: State, acts: seq<Action>, e: Event)
    requires Invariant(st)
    requires acts == [Cancel(BrightnessAlarm2), Cancel(AnimationAlarm), Cancel(BrightnessAlarm1)]
          || acts == [Cancel(BrightnessAlarm2), Cancel(BrightnessAlarm1), Cancel(AnimationAlarm)]
    ensures var q := ApplyAll(st.queue, acts);
            Count(q.list, BrightnessAlarm1) == Count(q.list, BrightnessAlarm2) == Count(q.list, AnimationAlarm) == 0
  {
    CancelDisplayAlarms(st, acts);
  }

  /** The state that a wake-up key relights from: without display alarms, and otherwise as before. */
  lemma RelightsFrom(st: State, e: Event, w: Sample) returns (q: Queue)
    requires Invariant(st) && Relights(st, e)
    ensures Count(q.list, BrightnessAlarm1) == Count(q.list, BrightnessAlarm2) == Count(q.list, AnimationAlarm) == 0
    ensures Handle(st, e, w) == Perform(State(st.flags, q), Brighten(st.flags, w))
    ensures forall a :: a in q.list ==> a in st.queue.list
  {
    var from := st;
    var acts := [Cancel(BrightnessAlarm2), Cancel(BrightnessAlarm1), Cancel(AnimationAlarm)];
    if e == PowerKeyUp {
      acts := [Cancel(BrightnessAlarm2), Cancel(AnimationAlarm), Cancel(BrightnessAlarm1)];
      from := Perform(st, (st.flags, [Cancel(PowerKeyAlarm)]));
      UpFirst(st);
    }
    q := ApplyAll(from.queue, acts);
    CancelDisplayAlarms(from, acts);
    forall a | a in q.list ensures a in st.queue.list {
      OldOrArmed(from.queue, acts, a);
      if e == PowerKeyUp { OldOrArmed(st.queue, [Cancel(PowerKeyAlarm)], a); }
    }
  }

  /** What the power key's release begins with. */
  lemma UpFirst(st: State)
    requires Invariant(st)
    ensures var from := Perform(st, (st.flags, [Cancel(PowerKeyAlarm)]));
            && Invariant(from) && from.flags == st.flags
            && Pending(from, BrightnessAlarm1) == Pending(st, BrightnessAlarm1)
  {
    PerformKeepsInvariant(st, (st.flags, [Cancel(PowerKeyAlarm)]));
    ApplyTwo(st.queue, Cancel(PowerKeyAlarm), Cancel(PowerKeyAlarm), []);
    ApplyCount(st.queue, Cancel(PowerKeyAlarm), BrightnessAlarm1);
  }

  /** What a key does to the display.  Volume and camera keys always start its cycle anew.  The power key, let
      go, does so unless the display is in the bright part of its cycle; then it darkens the display, stops the
      animation, and, if the charger is gone, requests power-off again. */
  lemma KeysSwitchDisplay(st: State, e: Event, w: Sample)
    requires Invariant(st) && w.clock.Normalised() && w.clock2.Normalised()
    ensures var st' := Handle(st, e, w);
            && (Relights(st, e) ==>
                  && st'.flags == st.flags.(lit := true, keyRan := false)
                  && Pending(st', BrightnessAlarm1) == Pending(st', AnimationAlarm) == 1
                  && Pending(st', BrightnessAlarm2) == 0)
            && (e == PowerKeyUp && !Relights(st, e) ==>
                  && st'.flags == st.flags.(lit := false, powerOffs := st.flags.powerOffs
                                                                        + if st.flags.shutdown then 1 else 0)
                  && Pending(st', BrightnessAlarm1) == Pending(st', BrightnessAlarm2) == 0
                  && Pending(st', AnimationAlarm) == 0)
  {
    HandleKeepsInvariant(st, e, w);
    if Relights(st, e) {
      var q := RelightsFrom(st, e, w);
      hide Handle, Invariant;
      var acts := Brighten(st.flags, w).1;
      ApplyAllCounts(q, acts);
      TallyTwo(CountsOf(q), acts[0], acts[1], []);
      assert acts == [acts[0], acts[1]] + [];
    } else if e == PowerKeyUp {
      UpFirst(st);
    }
  }

  // ---------------------------------------------------------------- how long the display stays lit

  /** If the display cycle started at c: its first alarm comes 5 s later, and its second no earlier than 15 s. */
  predicate Timed(a: Alarm, c: int) {
    && a.time.Normalised()
    && (a.f == BrightnessAlarm1 ==> a.time.Total() == c + 5_000_000)
    && (a.f == BrightnessAlarm2 ==> a.time.Total() >= c + 15_000_000)
  }

  ghost predicate AllTimed(list: seq<Alarm>, c: int) {
    forall a :: a in list ==> Timed(a, c)
  }

  /** What a callback arms, and for when. */
  predicate ArmedAfter(f: Callback, w: Sample, a: Alarm) {
    || (f == AnimationAlarm && a.f == AnimationAlarm && a.time.Total() == w.clock.Total() + 500_000)
    || (f == BrightnessAlarm1 && a.f == BrightnessAlarm2 && a.time.Total() == w.clock.Total() + 10_000_000)
  }

  lemma FireArms(s: Flags, f: Callback, w: Sample, a: Alarm)
    requires ArmedBy(Fire(s, f, w).1, a) && w.clock.Normalised()
    ensures ArmedAfter(f, w, a) && a.time.Normalised()
  {
    DeadlineIsClockPlusDelay(w.clock, 500);
    DeadlineIsClockPlusDelay(w.clock, 10000);
  }

  /** One of the callbacks that a drain called armed `a`. */
  ghost predicate ArmedInDrain(fired: seq<Alarm>, samples: nat -> Sample, n: nat, a: Alarm) {
    exists k :: 0 <= k < |fired| && ArmedAfter(fired[k].f, samples(n + k), a)
  }

  lemma ArmedFirst(fired: seq<Alarm>, samples: nat -> Sample, n: nat, a: Alarm)
    requires fired != []
    requires ArmedAfter(fired[0].f, samples(n), a) || ArmedInDrain(fired[1..], samples, n + 1, a)
    ensures ArmedInDrain(fired, samples, n, a)
  {
    hide ArmedAfter;
    if ArmedAfter(fired[0].f, samples(n), a) {
      assert samples(n + 0) == samples(n);
    } else {
      var k :| 0 <= k < |fired[1..]| && ArmedAfter(fired[1..][k].f, samples(n + 1 + k), a);
      assert fired[1..][k] == fired[k + 1] && samples(n + 1 + k) == samples(n + (k + 1));
    }
  }

  lemma NextTimed(q: Queue, now: Time, s: Flags, w: Sample, c: int, a: Alarm)
    requires q.list != [] && AllTimed(q.list, c) && !Before(now, q.list[0].time) && now.Normalised() && Timely(w, now)
    requires a in AfterCallback(q, Fire(s, q.list[0].f, w).1).list
    ensures Timed(a, c) && (a in q.list || ArmedAfter(q.list[0].f, w, a))
  {
    var h := q.list[0];
    OldOrArmed(Queue(q.list[1..], q.issued), Fire(s, h.f, w).1, a);
    HeadAndTail(q.list, a);
    if ArmedBy(Fire(s, h.f, w).1, a) {
      FireArms(s, h.f, w, a);
      assert Timed(h, c);
      BeforeIsOrderOfTotals(now, h.time);
      BeforeIsOrderOfTotals(w.clock, now);
    }
  }

  lemma {:induction false} DrainTimed(q: Queue, now: Time, samples: nat -> Sample, s: Flags, n: nat, c: int)
    requires RearmsLater(Callbacks(samples), now) && WellFormed(q) && AllTimed(q.list, c)
    requires forall k :: Timely(samples(k), now)
    ensures var r := Drain(q, now, Callbacks(samples), s, n);
            && AllTimed(r.queue.list, c)
            && (forall a :: a in r.fired ==> Timed(a, c) && !Before(now, a.time))
            && (forall a :: a in r.queue.list ==> a in q.list || ArmedInDrain(r.fired, samples, n, a))
    decreases |Due(q.list, now)|
  {
    hide RearmsLater, Fire, Callbacks, Timed, ArmedAfter, ArmedInDrain, Timely;
    if q.list != [] && !Before(now, q.list[0].time) {
      var f := q.list[0].f;
      var (s', acts) := Callbacks(samples)(s, f, n);
      CallbackIs(samples, s, f, n);
      RearmedLater(Callbacks(samples), now, s, f, n);
      CallbackKeepsDue(q, acts, now);
      var next := AfterCallback(q, acts);
      forall a | a in next.list ensures Timed(a, c) && (a in q.list || ArmedAfter(f, samples(n), a)) {
        NextTimed(q, now, s, samples(n), c, a);
      }
      DrainTimed(next, now, samples, s', n + 1, c);
      hide Drain, WellFormed, Due, Before, AfterCallback;
      DrainUnfolds(q, now, Callbacks(samples), s, n, s', acts);
      var r := Drain(q, now, Callbacks(samples), s, n);
      assert q.list[0] in q.list;
      forall a | a in r.fired ensures Timed(a, c) && !Before(now, a.time) { HeadAndTail(r.fired, a); }
      forall a | a in r.queue.list ensures a in q.list || ArmedInDrain(r.fired, samples, n, a) {
        if a !in q.list { ArmedFirst(r.fired, samples, n, a); }
      }
    }
  }

  /** What an event arms, and for when. */
  predicate ArmedOnEvent(st: State, e: Event, w: Sample, a: Alarm) {
    || (Relights(st, e) && a.f == BrightnessAlarm1 && a.time.Total() == w.clock.Total() + 5_000_000)
    || (Relights(st, e) && a.f == AnimationAlarm && a.time.Total() == w.clock2.Total() + 500_000)
    || (e == PowerKeyDown && a.f == PowerKeyAlarm && a.time.Total() == w.clock.Total() + 1_000_000)
  }

  lemma RelightArms(st: State, e: Event, w: Sample, a: Alarm)
    requires Invariant(st) && w.clock.Normalised() && w.clock2.Normalised() && Relights(st, e)
    requires a in Handle(st, e, w).queue.list
    ensures a.time.Normalised()
    ensures ArmedOnEvent(st, e, w, a) || (a in st.queue.list && a.f == PowerKeyAlarm)
  {
    assert a in st.queue.list ==> a.time.Normalised();
    hide *;
    var q := RelightsFrom(st, e, w);
    PerformIs(State(st.flags, q), Brighten(st.flags, w));
    OldOrArmed(q, Brighten(st.flags, w).1, a);
    if a in q.list {
      NoDisplayAlarm(q, a);
    } else {
      BrightenArms(st.flags, w, a);
      RelightIsArming(st, e, w, a);
    }
  }

  lemma PerformIs(st: State, effect: (Flags, seq<Action>))
    ensures Perform(st, effect).queue == ApplyAll(st.queue, effect.1)
  {
  }

  lemma NoDisplayAlarm(q: Queue, a: Alarm)
    requires Count(q.list, BrightnessAlarm1) == Count(q.list, BrightnessAlarm2) == Count(q.list, AnimationAlarm) == 0
    requires a in q.list
    ensures a.f == PowerKeyAlarm
  {
    if a.f != PowerKeyAlarm { NonePending(q.list, a.f, a); }
  }

  lemma BrightenArms(s: Flags, w: Sample, a: Alarm)
    requires ArmedBy(Brighten(s, w).1, a) && w.clock.Normalised() && w.clock2.Normalised()
    ensures a.time.Normalised()
    ensures (a.f == BrightnessAlarm1 && a.time.Total() == w.clock.Total() + 5_000_000)
         || (a.f == AnimationAlarm && a.time.Total() == w.clock2.Total() + 500_000)
  {
    DeadlineIsClockPlusDelay(w.clock, 5000);
    DeadlineIsClockPlusDelay(w.clock2, 500);
  }

  lemma RelightIsArming(st: State, e: Event, w: Sample, a: Alarm)
    requires Relights(st, e)
    requires (a.f == BrightnessAlarm1 && a.time.Total() == w.clock.Total() + 5_000_000)
          || (a.f == AnimationAlarm && a.time.Total() == w.clock2.Total() + 500_000)
    ensures ArmedOnEvent(st, e, w, a)
  {
  }

  lemma HandleArms(st: State, e: Event, w: Sample, a: Alarm)
    requires Invariant(st) && w.clock.Normalised() && w.clock2.Normalised()
    requires a in Handle(st, e, w).queue.list
    ensures a.time.Normalised()
    ensures ArmedOnEvent(st, e, w, a) || (a in st.queue.list && (Relights(st, e) ==> a.f == PowerKeyAlarm))
  {
    if Relights(st, e) {
      RelightArms(st, e, w, a);
    } else {
      DeadlineIsClockPlusDelay(w.clock, 1000);
      match e
      case PowerKeyDown =>
        if st.flags.powerup { OldOrArmed(st.queue, [Set(PowerKeyAlarm, 1000, w.clock)], a); }
      case PowerKeyUp =>
        var from := Perform(st, (st.flags, [Cancel(PowerKeyAlarm)]));
        UpFirst(st);
        var acts := [Cancel(BrightnessAlarm2), Cancel(AnimationAlarm), Cancel(BrightnessAlarm1)];
        OldOrArmed(ApplyAll(from.queue, acts), Dim(st.flags).1, a);
        OldOrArmed(from.queue, acts, a);
        OldOrArmed(st.queue, [Cancel(PowerKeyAlarm)], a);
      case Battery => OldOrArmed(st.queue, PowerEvent(st.flags, w).1, a);
      case _ =>
    }
  }

  lemma HandleTimed(st: State, e: Event, w: Sample, c: int)
    requires Invariant(st) && w.clock.Normalised() && w.clock2.Normalised() && AllTimed(st.queue.list, c)
    ensures AllTimed(Handle(st, e, w).queue.list, if Relights(st, e) then w.clock.Total() else c)
  {
    hide Invariant, Handle;
    forall a | a in Handle(st, e, w).queue.list
      ensures Timed(a, if Relights(st, e) then w.clock.Total() else c)
    {
      HandleArms(st, e, w, a);
    }
  }

  /** When the display cycle was last started before turn n, if it was at c before the first turn. */
  function LitSince(st: State, turns: seq<Turn>, c: int, n: nat): int
    requires Usable(st, turns) && n <= |turns|
  {
    if n == 0 then c
    else if Handles(st, turns, n - 1, turns[n - 1].event) && Relights(StateAt(st, turns, n - 1), turns[n - 1].event)
    then turns[n - 1].w.clock.Total()
    else LitSince(st, turns, c, n - 1)
  }

  lemma TurnTimed(st: State, turns: seq<Turn>, n: nat, c: int, since: int)
    requires Usable(st, turns) && n < |turns|
    requires AllTimed(StateAt(st, turns, n).queue.list, since) && since == LitSince(st, turns, c, n)
    ensures AllTimed(StateAt(st, turns, n + 1).queue.list, LitSince(st, turns, c, n + 1))
    ensures forall f :: Fires(st, turns, n, f) && f == BrightnessAlarm1 ==> turns[n].now.Total() >= since + 5_000_000
    ensures forall f :: Fires(st, turns, n, f) && f == BrightnessAlarm2 ==> turns[n].now.Total() >= since + 15_000_000
  {
    var now, t := StateAt(st, turns, n), turns[n];
    StepIs(st, turns, n);
    hide Invariant, StateAt, AllTimed, Handle, Relights;
    if Drains(st, turns, n) {
      CallbacksRearmLater(t.samples, t.now);
      KeptWellFormed(now);
      DrainTimed(now.queue, t.now, t.samples, now.flags, 0, since);
      forall a | a in Drained(now, t).fired ensures a.time.Total() <= t.now.Total() && Timed(a, since) {
        BeforeIsOrderOfTotals(t.now, a.time);
      }
    } else if !now.flags.quit {
      HandleTimed(now, t.event, t.w, since);
    }
  }

  lemma {:induction false} TimedAt(st: State, turns: seq<Turn>, c: int, n: nat)
    requires Usable(st, turns) && n <= |turns| && AllTimed(st.queue.list, c)
    ensures AllTimed(StateAt(st, turns, n).queue.list, LitSince(st, turns, c, n))
    decreases n
  {
    hide *;
    if n == 0 {
      LitFirst(st, turns, c);
    } else {
      TimedAt(st, turns, c, n - 1);
      TurnTimed(st, turns, n - 1, c, LitSince(st, turns, c, n - 1));
    }
  }

  lemma LitFirst(st: State, turns: seq<Turn>, c: int)
    requires Usable(st, turns)
    ensures StateAt(st, turns, 0) == st && LitSince(st, turns, c, 0) == c
  {
  }

  /** Main theorem of the display: it dims no earlier than 5 s, and goes dark by its timer no earlier than 15 s,
      after its cycle was last started, at the start of the program or by a key. */
  lemma DisplayStaysLit(zero: State, check: Sample, show: Sample, turns: seq<Turn>, n: nat)
    requires Zeroed(zero) && show.clock.Normalised() && show.clock2.Normalised() && AllRunForward(turns) && n < |turns|
    ensures Invariant(Start(zero, check, show))
    ensures var st := Start(zero, check, show);
            var since := LitSince(st, turns, show.clock.Total(), n);
            && (Fires(st, turns, n, BrightnessAlarm1) ==> turns[n].now.Total() >= since + 5_000_000)
            && (Fires(st, turns, n, BrightnessAlarm2) ==> turns[n].now.Total() >= since + 15_000_000)
  {
    StartInvariant(zero, check, show);
    StartTimed(zero, check, show);
    var st, c := Start(zero, check, show), show.clock.Total();
    hide *;
    assert Usable(st, turns) by { UsableIs(st, turns); }
    TimedAt(st, turns, c, n);
    TurnTimed(st, turns, n, c, LitSince(st, turns, c, n));
  }

  lemma UsableIs(st: State, turns: seq<Turn>)
    requires Invariant(st) && AllRunForward(turns)
    ensures Usable(st, turns)
  {
  }

  lemma StartTimed(zero: State, check: Sample, show: Sample)
    requires Zeroed(zero) && show.clock.Normalised() && show.clock2.Normalised()
    ensures AllTimed(Start(zero, check, show).queue.list, show.clock.Total())
  {
    var checked := Perform(zero, PowerEvent(zero.flags, check));
    forall a | a in Start(zero, check, show).queue.list ensures Timed(a, show.clock.Total()) {
      OldOrArmed(checked.queue, Brighten(checked.flags, show).1, a);
      if a in checked.queue.list { OldOrArmed(zero.queue, PowerEvent(zero.flags, check).1, a); }
      DeadlineIsClockPlusDelay(show.clock, 5000);
      DeadlineIsClockPlusDelay(show.clock2, 500);
    }
  }
}
