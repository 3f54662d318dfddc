/** The timer queue of charge_only_mode/alarm.c.

    The queue as a value: times, the sorted queue, what a client may do to it while it is being drained,
    and the theorems about a drain.  The linked list of the source is proved against it in AlarmList. */
module Alarms {

  // ---------------------------------------------------------------- times

  const USEC_PER_SEC := 1000000

  /** struct timeval. */
  datatype Time = Time(sec: int, usec: int) {
    function Total(): int { sec * USEC_PER_SEC + usec }
    predicate Normalised() { 0 <= usec < USEC_PER_SEC }
  }

  /** The comparison written out by hand at each use in the source: seconds first, then microseconds. */
  predicate Before(a: Time, b: Time) {
    a.sec < b.sec || (a.sec == b.sec && a.usec < b.usec)
  }

  /** Integer division of C: truncation toward zero. */
  function Truncated(a: int, b: int): int
    requires b > 0
  {
    if a >= 0 then a / b else -((-a) / b)
  }

  /** The deadline computed from a clock reading and a delay in milliseconds. */
  function Deadline(clock: Time, ms: int): Time {
    var usec := clock.usec + ms * 1000;
    if usec >= USEC_PER_SEC
    then Time(clock.sec + usec / USEC_PER_SEC, usec % USEC_PER_SEC)
    else Time(clock.sec, usec)
  }

  /** Milliseconds from `clock` to `t` as the main loop computes them. */
  function MillisUntil(t: Time, clock: Time): int {
    (t.sec - clock.sec) * 1000 + Truncated(t.usec - clock.usec, 1000)
  }

  lemma BeforeIsOrderOfTotals(a: Time, b: Time)
    requires a.Normalised() && b.Normalised()
    ensures Before(a, b) <==> a.Total() < b.Total()
  {
    if a.sec < b.sec {
      assert a.sec * USEC_PER_SEC + USEC_PER_SEC <= b.sec * USEC_PER_SEC;
    } else if b.sec < a.sec {
      assert b.sec * USEC_PER_SEC + USEC_PER_SEC <= a.sec * USEC_PER_SEC;
    }
  }

  /** A deadline is always the right instant; it is a proper timeval exactly when the delay does not
      reach back past the start of the clock's second. */
  lemma DeadlineIsClockPlusDelay(clock: Time, ms: int)
    requires clock.Normalised()
    ensures Deadline(clock, ms).Total() == clock.Total() + ms * 1000
    ensures Deadline(clock, ms).Normalised() <==> clock.usec + ms * 1000 >= 0
    ensures ms >= 1 ==> Before(clock, Deadline(clock, ms))
  {
    var usec := clock.usec + ms * 1000;
    if usec >= USEC_PER_SEC {
      assert usec == usec / USEC_PER_SEC * USEC_PER_SEC + usec % USEC_PER_SEC;
    }
  }

  /** The truncating arithmetic is off by strictly less than one millisecond, in both directions. */
  lemma MillisUntilWithinOne(t: Time, clock: Time)
    requires t.Normalised() && clock.Normalised()
    ensures var remaining := t.Total() - clock.Total();
            MillisUntil(t, clock) * 1000 - 1000 < remaining < MillisUntil(t, clock) * 1000 + 1000
  {
    var d := t.usec - clock.usec;
    if d >= 0 {
      assert d == d / 1000 * 1000 + d % 1000;
    } else {
      assert -d == (-d) / 1000 * 1000 + (-d) % 1000;
    }
  }

  // ---------------------------------------------------------------- queue values

  /** The functions that alarms call.  The queue only stores and compares them; these are the four of
      charge_only_mode/main.c. */
  datatype Callback = AnimationAlarm | BrightnessAlarm1 | BrightnessAlarm2 | PowerKeyAlarm

  /** One armed alarm.  `serial` numbers the calls that armed alarms; it stands for the node's identity. */
  datatype Alarm = Alarm(time: Time, f: Callback, serial: nat)

  /** The pending alarms, and how many were ever armed. */
  datatype Queue = Queue(list: seq<Alarm>, issued: nat)

  function Insert(q: seq<Alarm>, a: Alarm): seq<Alarm> {
    if q == [] || Before(a.time, q[0].time) then [a] + q else [q[0]] + Insert(q[1..], a)
  }

  function Without(q: seq<Alarm>, f: Callback): seq<Alarm> {
    if q == [] then []
    else if q[0].f == f then Without(q[1..], f)
    else [q[0]] + Without(q[1..], f)
  }

  function Count(q: seq<Alarm>, f: Callback): nat {
    if q == [] then 0 else (if q[0].f == f then 1 else 0) + Count(q[1..], f)
  }

  /** The alarms that have expired at `now`: the longest expired prefix, and what follows it. */
  function Due(q: seq<Alarm>, now: Time): (d: seq<Alarm>)
    ensures d <= q
  {
    if q == [] || Before(now, q[0].time) then [] else [q[0]] + Due(q[1..], now)
  }

  function NotDue(q: seq<Alarm>, now: Time): seq<Alarm> {
    q[|Due(q, now)|..]
  }

  /** Earlier deadline, or the same deadline and armed first. */
  predicate Precedes(a: Alarm, b: Alarm) {
    Before(a.time, b.time) || (a.time == b.time && a.serial < b.serial)
  }

  ghost predicate Ordered(q: seq<Alarm>) {
    forall i, j :: 0 <= i < j < |q| ==> Precedes(q[i], q[j])
  }

  /** What every reachable queue satisfies. */
  ghost predicate WellFormed(q: Queue) {
    Ordered(q.list) && forall a :: a in q.list ==> a.serial < q.issued
  }

  /** A call that a client makes on the queue, with the clock reading an arming call takes. */
  datatype Action = Set(f: Callback, ms: int, clock: Time) | Cancel(f: Callback)

  function Apply(q: Queue, act: Action): Queue {
    match act
    case Set(f, ms, clock) => Queue(Insert(q.list, Alarm(Deadline(clock, ms), f, q.issued)), q.issued + 1)
    case Cancel(f) => Queue(Without(q.list, f), q.issued)
  }

  function ApplyAll(q: Queue, acts: seq<Action>): Queue
    decreases acts
  {
    if acts == [] then q else ApplyAll(Apply(q, acts[0]), acts[1..])
  }

  // ---------------------------------------------------------------- lemmas about queue values

  lemma {:induction false} InsertAt(q: seq<Alarm>, a: Alarm, i: nat)
    requires i <= |q|
    requires forall k :: 0 <= k < i ==> !Before(a.time, q[k].time)
    requires i < |q| ==> Before(a.time, q[i].time)
    ensures Insert(q, a) == q[..i] + [a] + q[i..]
  {
    if i > 0 {
      InsertAt(q[1..], a, i - 1);
      assert q[1..][..i - 1] == q[1..i];
      assert q[..i] == [q[0]] + q[1..i];
    }
  }

  /** An alarm is inserted behind every alarm it is not strictly before; nothing else moves. */
  lemma {:induction false} InsertSplits(q: seq<Alarm>, a: Alarm) returns (i: nat)
    ensures i <= |q|
    ensures forall k :: 0 <= k < i ==> !Before(a.time, q[k].time)
    ensures i < |q| ==> Before(a.time, q[i].time)
    ensures Insert(q, a) == q[..i] + [a] + q[i..]
  {
    i := 0;
    while i < |q| && !Before(a.time, q[i].time)
      invariant i <= |q|
      invariant forall k :: 0 <= k < i ==> !Before(a.time, q[k].time)
    {
      i := i + 1;
    }
    InsertAt(q, a, i);
  }

  lemma OrderedCons(a: Alarm, q: seq<Alarm>)
    ensures Ordered([a] + q) <==> Ordered(q) && forall b :: b in q ==> Precedes(a, b)
  {
    var r := [a] + q;
    if Ordered(r) {
      forall i, j | 0 <= i < j < |q| ensures Precedes(q[i], q[j]) {
        assert Precedes(r[i + 1], r[j + 1]);
      }
      forall b | b in q ensures Precedes(a, b) {
        var j :| 0 <= j < |q| && q[j] == b;
        assert Precedes(r[0], r[j + 1]);
      }
    } else {
      var i, j :| 0 <= i < j < |r| && !Precedes(r[i], r[j]);
      assert r[j] == q[j - 1];
      assert i == 0 || r[i] == q[i - 1];
    }
  }

  lemma {:induction false} WithoutMembers(q: seq<Alarm>, f: Callback)
    ensures forall a :: a in Without(q, f) <==> a in q && a.f != f
    ensures Count(Without(q, f), f) == 0
    ensures |Without(q, f)| <= |q|
  {
    if q != [] {
      WithoutMembers(q[1..], f);
      assert q == [q[0]] + q[1..];
    }
  }

  lemma {:induction false} WithoutOrdered(q: seq<Alarm>, f: Callback)
    requires Ordered(q)
    ensures Ordered(Without(q, f))
  {
    if q != [] {
      var t := q[1..];
      assert q == [q[0]] + t;
      OrderedCons(q[0], t);
      WithoutOrdered(t, f);
      WithoutMembers(t, f);
      OrderedCons(q[0], Without(t, f));
    }
  }

  lemma {:induction false} WithoutNone(q: seq<Alarm>, f: Callback)
    requires forall i :: 0 <= i < |q| ==> q[i].f != f
    ensures Without(q, f) == q && Count(q, f) == 0
  {
    if q != [] {
      WithoutNone(q[1..], f);
    }
  }

  lemma {:induction false} WithoutConcat(q: seq<Alarm>, r: seq<Alarm>, f: Callback)
    ensures Without(q + r, f) == Without(q, f) + Without(r, f)
    ensures Count(q + r, f) == Count(q, f) + Count(r, f)
  {
    if q == [] {
      assert q + r == r;
    } else {
      var s := q + r;
      assert s[0] == q[0] && s[1..] == q[1..] + r;
      WithoutConcat(q[1..], r, f);
    }
  }

  /** Cancelling one callback leaves the number of alarms of every other. */
  lemma {:induction false} WithoutKeepsOthers(q: seq<Alarm>, f: Callback, g: Callback)
    requires f != g
    ensures Count(Without(q, f), g) == Count(q, g)
  {
    if q != [] {
      WithoutKeepsOthers(q[1..], f, g);
    }
  }

  lemma InsertCounts(q: seq<Alarm>, a: Alarm, g: Callback)
    ensures Count(Insert(q, a), g) == Count(q, g) + if a.f == g then 1 else 0
  {
    var i := InsertSplits(q, a);
    WithoutConcat(q[..i], q[i..], g);
    assert q[..i] + q[i..] == q;
    WithoutConcat(q[..i], [a], g);
    WithoutConcat(q[..i] + [a], q[i..], g);
  }

  lemma {:induction false} InsertOrdered(q: seq<Alarm>, a: Alarm)
    requires Ordered(q)
    requires forall b :: b in q ==> b.serial < a.serial
    ensures Ordered(Insert(q, a))
    ensures forall b :: b in Insert(q, a) <==> b in q || b == a
  {
    if q == [] || Before(a.time, q[0].time) {
      assert q == [] || q == [q[0]] + q[1..];
      if q != [] {
        OrderedCons(q[0], q[1..]);
      }
      OrderedCons(a, q);
    } else {
      var t := q[1..];
      assert q == [q[0]] + t;
      OrderedCons(q[0], t);
      InsertOrdered(t, a);
      OrderedCons(q[0], Insert(t, a));
    }
  }

  /** Arming and cancelling keep the queue in deadline order, ties in arming order. */
  lemma ApplyWellFormed(q: Queue, act: Action)
    requires WellFormed(q)
    ensures WellFormed(Apply(q, act))
  {
    match act
    case Set(f, ms, clock) => InsertOrdered(q.list, Alarm(Deadline(clock, ms), f, q.issued));
    case Cancel(f) =>
      WithoutMembers(q.list, f);
      WithoutOrdered(q.list, f);
  }

  lemma {:induction false} ApplyAllWellFormed(q: Queue, acts: seq<Action>)
    requires WellFormed(q)
    ensures WellFormed(ApplyAll(q, acts))
    decreases acts
  {
    if acts != [] {
      ApplyWellFormed(q, acts[0]);
      ApplyAllWellFormed(Apply(q, acts[0]), acts[1..]);
    }
  }

  lemma {:induction false} ApplyAllConcat(q: Queue, a: seq<Action>, b: seq<Action>)
    ensures ApplyAll(q, a + b) == ApplyAll(ApplyAll(q, a), b)
    decreases a
  {
    if a == [] {
      assert a + b == b;
    } else {
      ApplyAllConcat(Apply(q, a[0]), a[1..], b);
      assert (a + b)[1..] == a[1..] + b;
    }
  }

  /** On an ordered queue the due prefix is every expired alarm, and the rest is every other one. */
  lemma {:induction false} DueIsExpired(q: seq<Alarm>, now: Time)
    requires Ordered(q)
    ensures Due(q, now) + NotDue(q, now) == q
    ensures forall a :: a in Due(q, now) <==> a in q && !Before(now, a.time)
    ensures forall a :: a in NotDue(q, now) <==> a in q && Before(now, a.time)
  {
    if q != [] {
      var t := q[1..];
      assert q == [q[0]] + t;
      OrderedCons(q[0], t);
      if Before(now, q[0].time) {
        assert Due(q, now) == [] && NotDue(q, now) == q;
      } else {
        DueIsExpired(t, now);
        assert Due(q, now) == [q[0]] + Due(t, now);
        assert NotDue(q, now) == NotDue(t, now);
      }
    }
  }

  // ---------------------------------------------------------------- draining

  /** A client of the queue: what the n-th callback of a drain does, given the client's own state and
      which callback it is.  Any behaviour of callbacks that call back into the queue has this form. */
  type Client<!S> = (S, Callback, nat) -> (S, seq<Action>)

  /** Under a clock that does not run backwards, an alarm armed for at least one millisecond lies
      after the instant at which the drain began. */
  predicate InFuture(act: Action, now: Time) {
    act.Set? ==> act.ms >= 1 && act.clock.Normalised() && !Before(act.clock, now)
  }

  ghost predicate RearmsLater<S(!new)>(client: Client<S>, now: Time) {
    now.Normalised() && forall s, f, n, i :: 0 <= i < |client(s, f, n).1| ==> InFuture(client(s, f, n).1[i], now)
  }

  /** What one drain did: the alarms fired in order, the calls each callback made, and what is left. */
  datatype Drained<S> = Drained(fired: seq<Alarm>, calls: seq<seq<Action>>, queue: Queue, state: S)

  /** Take the head while it is expired, run its callback, repeat.  It terminates because callbacks
      cannot add to the expired prefix. */
  function Drain<S(!new)>(q: Queue, now: Time, client: Client<S>, s: S, n: nat): (r: Drained<S>)
    requires RearmsLater(client, now)
    requires WellFormed(q)
    ensures WellFormed(r.queue)
    ensures |r.fired| == |r.calls|
    decreases |Due(q.list, now)|
  {
    if q.list == [] || Before(now, q.list[0].time) then Drained([], [], q, s)
    else
      var a := q.list[0];
      var (s', acts) := client(s, a.f, n);
      CallbackKeepsDue(q, acts, now);
      var rest := Drain(AfterCallback(q, acts), now, client, s', n + 1);
      Drained([a] + rest.fired, [acts] + rest.calls, rest.queue, rest.state)
  }

  /** What cancellations alone leave of a list. */
  function Surviving(q: seq<Alarm>, acts: seq<Action>): seq<Alarm>
    decreases acts
  {
    if acts == [] then q
    else if acts[0].Cancel? then Surviving(Without(q, acts[0].f), acts[1..])
    else Surviving(q, acts[1..])
  }

  predicate Cancels(acts: seq<Action>, f: Callback) {
    Action.Cancel(f) in acts
  }

  lemma {:induction false} SurvivingMembers(q: seq<Alarm>, acts: seq<Action>)
    ensures forall a :: a in Surviving(q, acts) <==> a in q && !Cancels(acts, a.f)
    ensures |Surviving(q, acts)| <= |q|
    ensures Ordered(q) ==> Ordered(Surviving(q, acts))
    decreases acts
  {
    if acts != [] {
      assert acts == [acts[0]] + acts[1..];
      if acts[0].Cancel? {
        WithoutMembers(q, acts[0].f);
        if Ordered(q) {
          WithoutOrdered(q, acts[0].f);
        }
        SurvivingMembers(Without(q, acts[0].f), acts[1..]);
      } else {
        SurvivingMembers(q, acts[1..]);
      }
    }
  }

  lemma {:induction false} DuePrefix(d: seq<Alarm>, r: seq<Alarm>, now: Time)
    requires forall i :: 0 <= i < |d| ==> !Before(now, d[i].time)
    requires r == [] || Before(now, r[0].time)
    ensures Due(d + r, now) == d && NotDue(d + r, now) == r
  {
    if d == [] {
      assert d + r == r;
    } else {
      DuePrefix(d[1..], r, now);
      assert (d + r)[1..] == d[1..] + r;
    }
  }

  lemma DueElements(q: seq<Alarm>, now: Time)
    requires Ordered(q)
    ensures Due(q, now) + NotDue(q, now) == q
    ensures forall i :: 0 <= i < |Due(q, now)| ==> !Before(now, Due(q, now)[i].time)
    ensures forall i :: 0 <= i < |NotDue(q, now)| ==> Before(now, NotDue(q, now)[i].time)
  {
    DueIsExpired(q, now);
    var d, r := Due(q, now), NotDue(q, now);
    forall i | 0 <= i < |d| ensures !Before(now, d[i].time) {
      assert d[i] in d;
    }
    forall i | 0 <= i < |r| ensures Before(now, r[i].time) {
      assert r[i] in r;
    }
  }

  lemma DeadlineAfter(clock: Time, ms: int, now: Time)
    requires clock.Normalised() && now.Normalised() && ms >= 1 && !Before(clock, now)
    ensures Before(now, Deadline(clock, ms))
  {
    DeadlineIsClockPlusDelay(clock, ms);
    BeforeIsOrderOfTotals(clock, now);
    BeforeIsOrderOfTotals(now, Deadline(clock, ms));
  }

  lemma {:induction false} InsertBehind(d: seq<Alarm>, r: seq<Alarm>, a: Alarm)
    requires forall i :: 0 <= i < |d| ==> !Before(a.time, d[i].time)
    ensures Insert(d + r, a) == d + Insert(r, a)
  {
    if d == [] {
      assert d + r == r;
    } else {
      InsertBehind(d[1..], r, a);
      assert (d + r)[1..] == d[1..] + r;
    }
  }

  /** Arming an alarm for the future leaves the expired prefix alone. */
  lemma InsertSkipsDue(q: seq<Alarm>, a: Alarm, now: Time)
    requires Ordered(q) && Before(now, a.time)
    ensures Due(Insert(q, a), now) == Due(q, now)
    ensures NotDue(Insert(q, a), now) == Insert(NotDue(q, now), a)
  {
    var d, r := Due(q, now), NotDue(q, now);
    DueElements(q, now);
    InsertBehind(d, r, a);
    if r != [] && !Before(a.time, r[0].time) {
      assert Insert(r, a)[0] == r[0];
    }
    DuePrefix(d, Insert(r, a), now);
  }

  /** Cancelling acts on the expired prefix and on the rest separately. */
  lemma WithoutSplitsDue(q: seq<Alarm>, f: Callback, now: Time)
    requires Ordered(q)
    ensures Due(Without(q, f), now) == Without(Due(q, now), f)
    ensures NotDue(Without(q, f), now) == Without(NotDue(q, now), f)
  {
    var d, r := Due(q, now), NotDue(q, now);
    DueIsExpired(q, now);
    WithoutConcat(d, r, f);
    WithoutMembers(d, f);
    WithoutMembers(r, f);
    var d', r' := Without(d, f), Without(r, f);
    forall i | 0 <= i < |d'| ensures !Before(now, d'[i].time) {
      assert d'[i] in d';
    }
    if r' != [] {
      assert r'[0] in r';
    }
    DuePrefix(d', r', now);
  }

  /** One call acts on the expired prefix only by cancelling, and on the rest as it would alone. */
  lemma ApplySplits(q: Queue, act: Action, now: Time)
    requires WellFormed(q) && now.Normalised() && InFuture(act, now)
    ensures Due(Apply(q, act).list, now) == Surviving(Due(q.list, now), [act])
    ensures NotDue(Apply(q, act).list, now) == Apply(Queue(NotDue(q.list, now), q.issued), act).list
  {
    match act {
      case Set(f, ms, clock) =>
        DeadlineAfter(clock, ms, now);
        InsertSkipsDue(q.list, Alarm(Deadline(clock, ms), f, q.issued), now);
      case Cancel(f) =>
        WithoutSplitsDue(q.list, f, now);
    }
  }

  lemma {:induction false} ApplyAllSplits(q: Queue, acts: seq<Action>, now: Time)
    requires WellFormed(q) && now.Normalised()
    requires forall i :: 0 <= i < |acts| ==> InFuture(acts[i], now)
    ensures Due(ApplyAll(q, acts).list, now) == Surviving(Due(q.list, now), acts)
    ensures NotDue(ApplyAll(q, acts).list, now) == ApplyAll(Queue(NotDue(q.list, now), q.issued), acts).list
    ensures ApplyAll(q, acts).issued == ApplyAll(Queue(NotDue(q.list, now), q.issued), acts).issued
    decreases acts
  {
    if acts != [] {
      ApplySplits(q, acts[0], now);
      ApplyWellFormed(q, acts[0]);
      ApplyAllSplits(Apply(q, acts[0]), acts[1..], now);
    }
  }

  /** The queue after its head was taken and its callback made the calls `acts`. */
  function AfterCallback(q: Queue, acts: seq<Action>): Queue
    requires q.list != []
  {
    ApplyAll(Queue(q.list[1..], q.issued), acts)
  }

  /** One turn of a drain: what is expired afterwards is what was expired behind the head and has not
      been cancelled.  So the expired prefix shrinks, which is why a drain ends. */
  lemma CallbackKeepsDue(q: Queue, acts: seq<Action>, now: Time)
    requires WellFormed(q) && now.Normalised() && q.list != [] && !Before(now, q.list[0].time)
    requires forall i :: 0 <= i < |acts| ==> InFuture(acts[i], now)
    ensures WellFormed(AfterCallback(q, acts))
    ensures |Due(AfterCallback(q, acts).list, now)| < |Due(q.list, now)|
    ensures forall a :: a in Due(AfterCallback(q, acts).list, now) <==>
                        a in q.list[1..] && !Before(now, a.time) && !Cancels(acts, a.f)
  {
    var popped := Queue(q.list[1..], q.issued);
    assert WellFormed(popped);
    ApplyAllWellFormed(popped, acts);
    ApplyAllSplits(popped, acts, now);
    SurvivingMembers(Due(popped.list, now), acts);
    DueIsExpired(popped.list, now);
  }

  function Flatten<T>(xs: seq<seq<T>>): seq<T> {
    if xs == [] then [] else xs[0] + Flatten(xs[1..])
  }

  /** An earlier fired callback cancelled `a`. */
  ghost predicate CancelledEarlier<S>(r: Drained<S>, a: Alarm)
    requires |r.fired| == |r.calls|
  {
    exists k :: 0 <= k < |r.fired| && Precedes(r.fired[k], a) && Cancels(r.calls[k], a.f)
  }

  /** Main theorem.  Whatever the callbacks do to the queue, a drain fires exactly the alarms that had
      expired when it began and were not cancelled by an earlier callback, in deadline order with ties
      in arming order.  In particular it fires no alarm armed while it runs. */
  lemma {:induction false} DrainFiresExactlyDue<S(!new)>(q: Queue, now: Time, client: Client<S>, s: S, n: nat)
    requires RearmsLater(client, now)
    requires WellFormed(q)
    ensures var r := Drain(q, now, client, s, n);
            && Ordered(r.fired)
            && forall a :: a in r.fired <==> a in q.list && !Before(now, a.time) && !CancelledEarlier(r, a)
    decreases |Due(q.list, now)|
  {
    var r := Drain(q, now, client, s, n);
    if q.list != [] && !Before(now, q.list[0].time) {
      var a0 := q.list[0];
      var (s', acts) := client(s, a0.f, n);
      var next := AfterCallback(q, acts);
      CallbackKeepsDue(q, acts, now);
      DueIsExpired(next.list, now);
      DrainFiresExactlyDue(next, now, client, s', n + 1);
      var rest := Drain(next, now, client, s', n + 1);
      assert q.list == [a0] + q.list[1..];
      OrderedCons(a0, q.list[1..]);
      forall a | a in rest.fired ensures Precedes(a0, a) {
        assert a in Due(next.list, now);
      }
      OrderedCons(a0, rest.fired);
      forall a ensures a in r.fired <==> a in q.list && !Before(now, a.time) && !CancelledEarlier(r, a) {
        FiredFromFirst(q, now, a0, acts, next, rest, r, a);
      }
    } else {
      DueIsExpired(q.list, now);
    }
  }

  lemma FiredFromFirst<S>(q: Queue, now: Time, a0: Alarm, acts: seq<Action>, next: Queue,
                             rest: Drained<S>, r: Drained<S>, a: Alarm)
    requires WellFormed(q) && q.list != [] && q.list[0] == a0 && !Before(now, a0.time)
    requires |rest.fired| == |rest.calls|
    requires r.fired == [a0] + rest.fired && r.calls == [acts] + rest.calls
    requires a in Due(next.list, now) <==> a in q.list[1..] && !Before(now, a.time) && !Cancels(acts, a.f)
    requires a in next.list && !Before(now, a.time) <==> a in Due(next.list, now)
    requires a in rest.fired <==> a in next.list && !Before(now, a.time) && !CancelledEarlier(rest, a)
    requires forall b :: b in rest.fired ==> Precedes(a0, b)
    ensures a in r.fired <==> a in q.list && !Before(now, a.time) && !CancelledEarlier(r, a)
  {
    assert q.list == [a0] + q.list[1..];
    if a == a0 {
      forall k | 0 <= k < |r.fired| ensures !Precedes(r.fired[k], a0) {
        assert k == 0 || r.fired[k] == rest.fired[k - 1];
        assert k == 0 || Precedes(a0, r.fired[k]);
      }
    } else {
      assert a in r.fired <==> a in rest.fired;
      if a in q.list[1..] {
        var i :| 0 <= i < |q.list[1..]| && q.list[1..][i] == a;
        assert Precedes(q.list[0], q.list[i + 1]);
        if CancelledEarlier(r, a) {
          var k :| 0 <= k < |r.fired| && Precedes(r.fired[k], a) && Cancels(r.calls[k], a.f);
          if k > 0 {
            assert r.fired[k] == rest.fired[k - 1] && r.calls[k] == rest.calls[k - 1];
            assert CancelledEarlier(rest, a);
          }
        }
        if Cancels(acts, a.f) {
          assert r.calls[0] == acts && r.fired[0] == a0;
          assert CancelledEarlier(r, a);
        }
        if CancelledEarlier(rest, a) {
          var k :| 0 <= k < |rest.fired| && Precedes(rest.fired[k], a) && Cancels(rest.calls[k], a.f);
          assert r.fired[k + 1] == rest.fired[k] && r.calls[k + 1] == rest.calls[k];
          assert CancelledEarlier(r, a);
        }
      }
    }
  }

  /** Interleaving does not matter for what stays behind: the final queue is the one obtained by taking
      the expired prefix away first and then replaying every call in order. */
  lemma {:induction false} DrainLeavesReplay<S(!new)>(q: Queue, now: Time, client: Client<S>, s: S, n: nat)
    requires RearmsLater(client, now)
    requires WellFormed(q)
    ensures var r := Drain(q, now, client, s, n);
            && r.queue == ApplyAll(Queue(NotDue(q.list, now), q.issued), Flatten(r.calls))
            && Due(r.queue.list, now) == []
    decreases |Due(q.list, now)|
  {
    if q.list != [] && !Before(now, q.list[0].time) {
      var (s', acts) := client(s, q.list[0].f, n);
      var popped := Queue(q.list[1..], q.issued);
      var next := AfterCallback(q, acts);
      CallbackKeepsDue(q, acts, now);
      assert WellFormed(popped);
      ApplyAllSplits(popped, acts, now);
      DrainLeavesReplay(next, now, client, s', n + 1);
      var rest := Drain(next, now, client, s', n + 1);
      assert NotDue(q.list, now) == NotDue(popped.list, now);
      var base := Queue(NotDue(q.list, now), q.issued);
      assert Queue(NotDue(next.list, now), next.issued) == ApplyAll(base, acts);
      ApplyAllConcat(base, acts, Flatten(rest.calls));
      assert ([acts] + rest.calls)[1..] == rest.calls;
    } else {
      assert NotDue(q.list, now) == q.list;
    }
  }
}
