/** The text overlay of bootstrap/splashmenu/ui.c: a ring of screen rows holding the end of a log that is
    wrapped at the screen's width. */
module ScreenLog {

  // ---------------------------------------------------------------- the log

  function IndexOf(s: string, c: char): (i: nat)
    ensures i <= |s| && (i < |s| ==> s[i] == c) && forall j :: 0 <= j < i ==> s[j] != c
  {
    if s == "" || s[0] == c then 0 else 1 + IndexOf(s[1..], c)
  }

  /** A paragraph cut into lines of `cols` characters; one that fills its lines exactly opens no further one. */
  function Chunks(s: string, cols: nat): (lines: seq<string>)
    requires cols > 0
    ensures |lines| > 0 && forall i :: 0 <= i < |lines| ==> |lines[i]| <= cols
  {
    if |s| <= cols then [s] else [s[..cols]] + Chunks(s[cols..], cols)
  }

  /** A text as the screen should show it: paragraph by paragraph. */
  function Wrapped(s: string, cols: nat): (lines: seq<string>)
    requires cols > 0
    ensures |lines| > 0 && forall i :: 0 <= i < |lines| ==> |lines[i]| <= cols
    decreases |s|
  {
    var i := IndexOf(s, '\n');
    if i == |s| then Chunks(s, cols) else Chunks(s[..i], cols) + Wrapped(s[i + 1..], cols)
  }

  /** One more character at the end of a log. */
  function Append(log: seq<string>, cols: nat, c: char): (r: seq<string>)
    requires |log| > 0
    ensures |log| <= |r| <= |log| + 1
  {
    var last := |log| - 1;
    if c == '\n' then log + [""]
    else if |log[last]| >= cols then log + [[c]]
    else log[last := log[last] + [c]]
  }

  function AppendAll(log: seq<string>, cols: nat, s: string): (r: seq<string>)
    requires |log| > 0
    ensures |r| >= |log|
  {
    if s == "" then log else Append(AppendAll(log, cols, s[..|s| - 1]), cols, s[|s| - 1])
  }

  lemma {:induction false} ChunksAppend(s: string, cols: nat, c: char)
    requires cols > 0 && c != '\n'
    ensures Chunks(s + [c], cols) == Append(Chunks(s, cols), cols, c)
  {
    if |s| > cols {
      ChunksAppend(s[cols..], cols, c);
      assert (s + [c])[cols..] == s[cols..] + [c];
      assert (s + [c])[..cols] == s[..cols];
      AppendBehind([s[..cols]], Chunks(s[cols..], cols), cols, c);
    } else if |s| == cols {
      assert (s + [c])[cols..] == [c] && (s + [c])[..cols] == s;
    }
  }

  lemma AppendBehind(front: seq<string>, log: seq<string>, cols: nat, c: char)
    requires |log| > 0
    ensures Append(front + log, cols, c) == front + Append(log, cols, c)
  {
  }

  lemma WrappedAt(s: string, cols: nat, i: nat)
    requires cols > 0 && i <= |s| && (i < |s| ==> s[i] == '\n') && forall j :: 0 <= j < i ==> s[j] != '\n'
    ensures Wrapped(s, cols) == if i == |s| then Chunks(s, cols) else Chunks(s[..i], cols) + Wrapped(s[i + 1..], cols)
  {
    IndexOfUnique(s, '\n', i);
  }

  lemma {:induction false} WrappedAppend(s: string, cols: nat, c: char)
    requires cols > 0
    ensures Wrapped(s + [c], cols) == Append(Wrapped(s, cols), cols, c)
    decreases |s|
  {
    var i := IndexOf(s, '\n');
    var t := s + [c];
    hide Wrapped, Append, Chunks, IndexOf;
    WrappedAt(s, cols, i);
    if i < |s| {
      var rest := s[i + 1..];
      WrappedAppend(rest, cols, c);
      assert t[i + 1..] == rest + [c] && t[..i] == s[..i];
      WrappedAt(t, cols, i);
      AppendBehind(Chunks(s[..i], cols), Wrapped(rest, cols), cols, c);
    } else if c == '\n' {
      WrappedAt(t, cols, i);
      assert t[..i] == s && t[i + 1..] == "";
      NoText(Chunks(s, cols), cols);
    } else {
      WrappedAt(t, cols, i + 1);
      ChunksAppend(s, cols, c);
    }
  }

  lemma NoText(log: seq<string>, cols: nat)
    requires cols > 0 && |log| > 0
    ensures log + Wrapped("", cols) == Append(log, cols, '\n')
  {
    assert Wrapped("", cols) == [""];
  }

  lemma IndexOfUnique(s: string, c: char, i: nat)
    requires i <= |s| && (i < |s| ==> s[i] == c) && forall j :: 0 <= j < i ==> s[j] != c
    ensures IndexOf(s, c) == i
  {
  }

  /** Main theorem of the log: printing character by character gives the same lines as wrapping the last
      line together with the whole text. */
  lemma {:induction false} AppendAllIsWrapped(log: seq<string>, cols: nat, s: string)
    requires cols > 0 && |log| > 0 && |log[|log| - 1]| <= cols && '\n' !in log[|log| - 1]
    ensures AppendAll(log, cols, s) == log[..|log| - 1] + Wrapped(log[|log| - 1] + s, cols)
    decreases |s|
  {
    var front, last := log[..|log| - 1], log[|log| - 1];
    if s == "" {
      IndexOfUnique(last, '\n', |last|);
      assert last + "" == last && Wrapped(last, cols) == [last];
    } else {
      var t, c := s[..|s| - 1], s[|s| - 1];
      AppendAllIsWrapped(log, cols, t);
      WrappedAppend(last + t, cols, c);
      assert (last + t) + [c] == last + s;
      AppendBehind(front, Wrapped(last + t, cols), cols, c);
    }
  }

  // ---------------------------------------------------------------- the ring

  /** The rows' texts, the row being written and `text_top`. */
  datatype Ring = Ring(rows: seq<string>, row: nat, top: nat)

  predicate Proper(r: Ring) {
    r.row < |r.rows|
  }

  function Break(r: Ring): (b: Ring)
    requires Proper(r)
    ensures Proper(b)
  {
    var next := (r.row + 1) % |r.rows|;
    Ring(r.rows[next := ""], next, if next == r.top then (r.top + 1) % |r.rows| else r.top)
  }

  function Put(r: Ring, c: char): (p: Ring)
    requires Proper(r)
    ensures Proper(p)
  {
    r.(rows := r.rows[r.row := r.rows[r.row] + [c]])
  }

  function Feed(r: Ring, cols: nat, c: char): (f: Ring)
    requires Proper(r)
    ensures Proper(f)
  {
    var b := if c == '\n' || |r.rows[r.row]| >= cols then Break(r) else r;
    if c != '\n' then Put(b, c) else b
  }

  function FeedAll(r: Ring, cols: nat, s: string): (f: Ring)
    requires Proper(r)
    ensures Proper(f)
  {
    if s == "" then r else Feed(FeedAll(r, cols, s[..|s| - 1]), cols, s[|s| - 1])
  }

  /** Line i of a log, where lines before the first are empty. */
  function LineAt(log: seq<string>, i: int): string
    requires i < |log|
  {
    if i < 0 then "" else log[i]
  }

  /** The ring holds the last |rows| lines: line i of the log is in row i mod |rows|, and the oldest is at top. */
  ghost predicate Holds(r: Ring, log: seq<string>) {
    && Proper(r) && |log| > 0
    && r.row == (|log| - 1) % |r.rows|
    && (if |r.rows| == 1 then r.top == 1 else r.top == (r.row + 1) % |r.rows|)
    && (forall i :: |log| - |r.rows| <= i < |log| ==> r.rows[i % |r.rows|] == LineAt(log, i))
  }

  lemma Multiple(d: int, n: int)
    requires n > 0
    ensures d >= 1 ==> d * n >= n
    ensures d <= -1 ==> d * n <= -n
  {
  }

  /** Quotient and remainder are the only pair that fits. */
  lemma ModUnique(a: int, n: nat, q: int, r: nat)
    requires r < n && a == q * n + r
    ensures a % n == r
  {
    var d := a / n - q;
    assert a == (a / n) * n + a % n;
    assert d * n == (a / n) * n - q * n;
    Multiple(d, n);
  }

  lemma ModNext(a: int, n: nat)
    requires n > 0
    ensures (a + 1) % n == if a % n + 1 == n then 0 else a % n + 1
    ensures (a % n + 1) % n == (a + 1) % n
    ensures (a + n) % n == a % n
  {
    var q, r := a / n, a % n;
    assert a == q * n + r;
    assert (q + 1) * n == q * n + n;
    ModUnique(a + n, n, q + 1, r);
    if r + 1 < n {
      ModUnique(a + 1, n, q, r + 1);
      ModUnique(r + 1, n, 0, r + 1);
    } else {
      ModUnique(a + 1, n, q + 1, 0);
      ModUnique(n, n, 1, 0);
    }
  }

  lemma ModDistinct(a: int, b: int, n: nat)
    requires n > 0 && a < b < a + n
    ensures a % n != b % n
  {
    var d := b / n - a / n;
    assert b == (b / n) * n + b % n && a == (a / n) * n + a % n;
    assert d * n == (b / n) * n - (a / n) * n;
    Multiple(d, n);
  }

  lemma BreakHolds(r: Ring, log: seq<string>)
    requires Holds(r, log)
    ensures Holds(Break(r), log + [""])
  {
    var n, b, next := |r.rows|, Break(r), log + [""];
    ModNext(|log| - 1, n);
    if n > 1 { ModNext(b.row, n); }
    forall i | |next| - n <= i < |next| ensures b.rows[i % n] == LineAt(next, i) {
      if i < |log| {
        ModDistinct(i, |log|, n);
        assert r.rows[i % n] == LineAt(log, i);
      }
    }
  }

  lemma PutHolds(r: Ring, log: seq<string>, c: char)
    requires Holds(r, log)
    ensures Holds(Put(r, c), log[|log| - 1 := log[|log| - 1] + [c]])
  {
    RewriteHolds(r, log, log[|log| - 1] + [c]);
    assert r.rows[(|log| - 1) % |r.rows|] == LineAt(log, |log| - 1);
  }

  lemma RewriteHolds(r: Ring, log: seq<string>, line: string)
    requires Holds(r, log)
    ensures Holds(r.(rows := r.rows[r.row := line]), log[|log| - 1 := line])
  {
    var n, p, next := |r.rows|, r.(rows := r.rows[r.row := line]), log[|log| - 1 := line];
    forall i | |next| - n <= i < |next| ensures p.rows[i % n] == LineAt(next, i) {
      if i < |log| - 1 { ModDistinct(i, |log| - 1, n); }
      assert r.rows[i % n] == LineAt(log, i);
    }
  }

  lemma FeedHolds(r: Ring, log: seq<string>, cols: nat, c: char)
    requires Holds(r, log) && cols > 0
    ensures Holds(Feed(r, cols, c), Append(log, cols, c))
  {
    var last := |log| - 1;
    assert r.rows[last % |r.rows|] == LineAt(log, last);
    BreakHolds(r, log);
    PutHolds(r, log, c);
    PutHolds(Break(r), log + [""], c);
    assert (log + [""])[last + 1 := [c]] == log + [[c]];
    assert "" + [c] == [c];
  }

  lemma {:induction false} FeedAllHolds(r: Ring, log: seq<string>, cols: nat, s: string)
    requires Holds(r, log) && cols > 0
    ensures Holds(FeedAll(r, cols, s), AppendAll(log, cols, s))
    decreases |s|
  {
    hide Feed, Append;
    if s != "" {
      FeedAllHolds(r, log, cols, s[..|s| - 1]);
      FeedHolds(FeedAll(r, cols, s[..|s| - 1]), AppendAll(log, cols, s[..|s| - 1]), cols, s[|s| - 1]);
    }
  }

  // ---------------------------------------------------------------- runs

  /** A call with its formatted message; `stale` is what the buffer of ui_print_overwrite happens to hold. */
  datatype Event = Print(msg: string) | Overwrite(msg: string, stale: string)

  function Cut(s: string, n: nat): (r: string)
    ensures r <= s && |r| <= n
  {
    if |s| <= n then s else s[..n]
  }

  const BUFFER_SIZE := 512

  /** What reaches the screen.  On a screen one column wide ui_print_overwrite formats into 0 bytes, which
      leaves its buffer as it was. */
  function Shown(cols: nat, ev: Event): string {
    match ev
    case Print(msg) => Cut(msg, BUFFER_SIZE - 1)
    case Overwrite(msg, stale) => if cols <= 1 then stale else Cut(msg, cols - 2)
  }

  function Rewind(r: Ring, ev: Event): (w: Ring)
    requires Proper(r)
    ensures Proper(w)
  {
    if ev.Overwrite? then r.(rows := r.rows[r.row := ""]) else r
  }

  function Step(r: Ring, cols: nat, ev: Event): (s: Ring)
    requires Proper(r)
    ensures Proper(s)
  {
    FeedAll(Rewind(r, ev), cols, Shown(cols, ev))
  }

  function Run(r: Ring, cols: nat, evs: seq<Event>): (s: Ring)
    requires Proper(r)
    ensures Proper(s)
  {
    if evs == [] then r else Step(Run(r, cols, evs[..|evs| - 1]), cols, evs[|evs| - 1])
  }

  /** The log after a call: the last line, emptied by an overwrite, is wrapped together with the new text. */
  function Logged(log: seq<string>, cols: nat, ev: Event): (r: seq<string>)
    requires cols > 0 && |log| > 0
    ensures |r| >= |log|
  {
    var last := if ev.Overwrite? then "" else log[|log| - 1];
    log[..|log| - 1] + Wrapped(last + Shown(cols, ev), cols)
  }

  function LogOf(cols: nat, evs: seq<Event>): (log: seq<string>)
    requires cols > 0
    ensures |log| > 0
  {
    if evs == [] then [""] else Logged(LogOf(cols, evs[..|evs| - 1]), cols, evs[|evs| - 1])
  }

  lemma {:induction false} WrappedLines(s: string, cols: nat)
    requires cols > 0
    ensures var w := Wrapped(s, cols); '\n' !in w[|w| - 1]
    decreases |s|
  {
    var i := IndexOf(s, '\n');
    if i < |s| { WrappedLines(s[i + 1..], cols); } else { ChunksLines(s, cols); }
  }

  lemma {:induction false} ChunksLines(s: string, cols: nat)
    requires cols > 0 && '\n' !in s
    ensures var w := Chunks(s, cols); '\n' !in w[|w| - 1]
  {
    if |s| > cols { ChunksLines(s[cols..], cols); }
  }

  lemma LastLine(cols: nat, evs: seq<Event>)
    requires cols > 0
    ensures var log := LogOf(cols, evs); |log[|log| - 1]| <= cols && '\n' !in log[|log| - 1]
  {
    if evs != [] {
      var log, ev := LogOf(cols, evs[..|evs| - 1]), evs[|evs| - 1];
      WrappedLines((if ev.Overwrite? then "" else log[|log| - 1]) + Shown(cols, ev), cols);
    }
  }

  /** ui_init leaves all rows empty. */
  function Initial(rows: nat): (r: Ring)
    requires rows > 0
    ensures Proper(r)
  {
    Ring(seq(rows, _ => ""), 0, 1)
  }

  lemma InitialHolds(rows: nat)
    requires rows > 0
    ensures Holds(Initial(rows), [""])
  {
    ModUnique(0, rows, 0, 0);
    if rows > 1 { ModUnique(1, rows, 0, 1); }
    var r := Initial(rows);
    forall i | 1 - rows <= i < 1 ensures r.rows[i % rows] == LineAt([""], i) {
    }
  }

  lemma StepHolds(r: Ring, log: seq<string>, cols: nat, ev: Event)
    requires Holds(r, log) && cols > 0 && |log[|log| - 1]| <= cols && '\n' !in log[|log| - 1]
    ensures Holds(Step(r, cols, ev), Logged(log, cols, ev))
  {
    var at := if ev.Overwrite? then log[|log| - 1 := ""] else log;
    RewriteHolds(r, log, "");
    FeedAllHolds(Rewind(r, ev), at, cols, Shown(cols, ev));
    AppendAllIsWrapped(at, cols, Shown(cols, ev));
    assert at[..|log| - 1] == log[..|log| - 1];
  }

  /** Main theorem.  After any calls on a screen of any size the ring holds the end of the wrapped log. */
  lemma {:induction false} EveryRunHolds(rows: nat, cols: nat, evs: seq<Event>)
    requires rows > 0 && cols > 0
    ensures Holds(Run(Initial(rows), cols, evs), LogOf(cols, evs))
    decreases |evs|
  {
    if evs == [] {
      InitialHolds(rows);
    } else {
      hide Holds, Step, Logged;
      EveryRunHolds(rows, cols, evs[..|evs| - 1]);
      LastLine(cols, evs[..|evs| - 1]);
      StepHolds(Run(Initial(rows), cols, evs[..|evs| - 1]), LogOf(cols, evs[..|evs| - 1]), cols, evs[|evs| - 1]);
    }
  }

  // ---------------------------------------------------------------- what the log says

  /** A paragraph is cut without losing or adding anything: every line but the last is full, and the last is
      empty only if the paragraph is. */
  lemma {:induction false} ChunksCutEvenly(s: string, cols: nat)
    requires cols > 0
    ensures var lines := Chunks(s, cols);
            && Joined(lines) == s
            && (forall i :: 0 <= i < |lines| - 1 ==> |lines[i]| == cols)
            && (lines[|lines| - 1] == "" <==> s == "")
  {
    if |s| > cols {
      var rest := Chunks(s[cols..], cols);
      ChunksCutEvenly(s[cols..], cols);
      JoinedCons(s[..cols], rest);
      assert s == s[..cols] + s[cols..];
      hide Joined;
      forall i | 0 <= i < |[s[..cols]] + rest| - 1 ensures |([s[..cols]] + rest)[i]| == cols {
        assert i > 0 ==> ([s[..cols]] + rest)[i] == rest[i - 1];
      }
    } else {
      JoinedCons(s, []);
      assert [s] + [] == [s] && s + "" == s;
    }
  }

  lemma JoinedCons(line: string, rest: seq<string>)
    ensures Joined([line] + rest) == line + Joined(rest)
  {
    assert ([line] + rest)[1..] == rest;
  }

  function Joined(lines: seq<string>): string {
    if lines == [] then "" else lines[0] + Joined(lines[1..])
  }

  /** Wrapping goes on where it stopped: a text behind a wrapped one. */
  lemma {:induction false} WrappedBehind(a: string, s: string, cols: nat)
    requires cols > 0
    ensures Wrapped(a + s, cols) == AppendAll(Wrapped(a, cols), cols, s)
    decreases |s|
  {
    if s == "" {
      assert a + s == a;
    } else {
      var t, c := s[..|s| - 1], s[|s| - 1];
      WrappedBehind(a, t, cols);
      WrappedAppend(a + t, cols, c);
      assert (a + t) + [c] == a + s;
    }
  }

  /** The texts of calls of ui_print, one behind the other. */
  function Text(evs: seq<Event>): string {
    if evs == [] then "" else Text(evs[..|evs| - 1]) + evs[|evs| - 1].msg
  }

  /** Messages of up to 511 characters reach the screen whole: after any number of them the log is their whole
      text, wrapped. */
  lemma {:induction false} PrintsAreOneText(cols: nat, evs: seq<Event>)
    requires cols > 0 && forall i :: 0 <= i < |evs| ==> evs[i].Print? && |evs[i].msg| <= 511
    ensures LogOf(cols, evs) == Wrapped(Text(evs), cols)
    decreases |evs|
  {
    if evs == [] {
      assert Wrapped("", cols) == [""];
    } else {
      var before, msg := evs[..|evs| - 1], evs[|evs| - 1].msg;
      PrintsAreOneText(cols, before);
      LastLine(cols, before);
      AppendAllIsWrapped(LogOf(cols, before), cols, msg);
      WrappedBehind(Text(before), msg, cols);
    }
  }

  /** A message without line breaks that fits the line but for two columns replaces the last line. */
  lemma OverwriteReplacesLine(cols: nat, evs: seq<Event>, msg: string, stale: string)
    requires cols >= 2 && |msg| <= cols - 2 && '\n' !in msg
    ensures var log := LogOf(cols, evs);
            LogOf(cols, evs + [Overwrite(msg, stale)]) == log[..|log| - 1] + [msg]
  {
    var all := evs + [Overwrite(msg, stale)];
    assert all[..|all| - 1] == evs;
    IndexOfUnique(msg, '\n', |msg|);
    assert "" + msg == msg;
  }

  /** Longer messages are cut: to 511 characters, and to the columns less two. */
  lemma LongMessagesAreCut(cols: nat, evs: seq<Event>, msg: string, stale: string)
    requires cols >= 2
    ensures |msg| > 511 ==> LogOf(cols, evs + [Print(msg)]) == LogOf(cols, evs + [Print(msg[..511])])
    ensures |msg| > cols - 2 ==>
              LogOf(cols, evs + [Overwrite(msg, stale)]) == LogOf(cols, evs + [Overwrite(msg[..cols - 2], stale)])
  {
    LogOfOneMore(cols, evs, Print(msg));
    LogOfOneMore(cols, evs, Overwrite(msg, stale));
    if |msg| > 511 { LogOfOneMore(cols, evs, Print(msg[..511])); }
    if |msg| > cols - 2 { LogOfOneMore(cols, evs, Overwrite(msg[..cols - 2], stale)); }
  }

  lemma LogOfOneMore(cols: nat, evs: seq<Event>, ev: Event)
    requires cols > 0
    ensures LogOf(cols, evs + [ev]) == Logged(LogOf(cols, evs), cols, ev)
  {
    assert (evs + [ev])[..|evs|] == evs;
  }

  /** What draw_screen_locked puts on screen row k, below the menu: read from text_top, the rows are the last
      lines of the log, oldest first. */
  lemma ScreenShowsEnd(rows: nat, cols: nat, evs: seq<Event>, k: nat)
    requires rows > 0 && cols > 0 && k < rows
    ensures var r, log := Run(Initial(rows), cols, evs), LogOf(cols, evs);
            |r.rows| == rows && r.rows[(k + r.top) % rows] == LineAt(log, |log| - rows + k)
  {
    hide Run, LogOf, Holds;
    EveryRunHolds(rows, cols, evs);
    RowCount(rows, cols, evs);
    ReadFromTop(Run(Initial(rows), cols, evs), LogOf(cols, evs), k);
  }

  lemma ReadFromTop(r: Ring, log: seq<string>, k: nat)
    requires Holds(r, log) && k < |r.rows|
    ensures r.rows[(k + r.top) % |r.rows|] == LineAt(log, |log| - |r.rows| + k)
  {
    var i := |log| - |r.rows| + k;
    assert r.rows[i % |r.rows|] == LineAt(log, i);
    TopRow(|log|, |r.rows|, k, r.row, r.top);
  }

  lemma {:induction false} RowCount(rows: nat, cols: nat, evs: seq<Event>)
    requires rows > 0
    ensures |Run(Initial(rows), cols, evs).rows| == rows
    decreases |evs|
  {
    if evs != [] {
      RowCount(rows, cols, evs[..|evs| - 1]);
      var r := Run(Initial(rows), cols, evs[..|evs| - 1]);
      FeedAllCount(Rewind(r, evs[|evs| - 1]), cols, Shown(cols, evs[|evs| - 1]));
    }
  }

  lemma FeedAllCount(r: Ring, cols: nat, s: string)
    requires Proper(r)
    ensures |FeedAll(r, cols, s).rows| == |r.rows|
  {
  }

  lemma TopRow(count: nat, rows: nat, k: nat, row: nat, top: nat)
    requires rows > 0 && k < rows && count > 0 && row == (count - 1) % rows
    requires if rows == 1 then top == 1 else top == (row + 1) % rows
    ensures (k + top) % rows == (count - rows + k) % rows
  {
    if rows > 1 {
      ModNext(count - 1, rows);
      ModNext(count - rows + k, rows);
      ModSum(count, k, rows, top);
    }
  }

  lemma ModSum(a: nat, k: nat, n: nat, r: nat)
    requires n > 0 && k < n && r == a % n
    ensures (a + k) % n == (k + r) % n
  {
    var q := a / n;
    assert a == q * n + r;
    assert (q + 1) * n == q * n + n;
    if k + r < n {
      ModUnique(a + k, n, q, k + r);
      ModUnique(k + r, n, 0, k + r);
    } else {
      ModUnique(a + k, n, q + 1, k + r - n);
      ModUnique(k + r, n, 1, k + r - n);
    }
  }

  // ---------------------------------------------------------------- the text array

  /** Row k reads s: its characters, then a terminator. */
  ghost predicate Reads(text: array2<char>, k: nat, s: string)
    reads text
  {
    && k < text.Length0 && |s| < text.Length1
    && (forall i :: 0 <= i < |s| ==> text[k, i] == s[i] != '\0') && text[k, |s|] == '\0'
  }

  /** Row k starts with s. */
  ghost predicate StartsWith(text: array2<char>, k: nat, s: string)
    reads text
  {
    k < text.Length0 && |s| < text.Length1 && forall i :: 0 <= i < |s| ==> text[k, i] == s[i] != '\0'
  }

  const MAX_ROWS := 50
  const MAX_COLS := 96

  function Least(a: nat, b: nat): nat { if a < b then a else b }

  class Overlay {
    const text: array2<char>
    var textRows: nat
    var textCols: nat
    var textRow: nat
    var textCol: nat
    var textTop: nat
    /** What the rows hold. */
    ghost var ring: Ring
    /** The calls since ui_init. */
    ghost var calls: seq<Event>

    ghost predicate Live()
      reads this
    {
      textRows > 0 && textCols > 0
    }

    /** The array holds the ring; the row being written need not be terminated. */
    ghost predicate Shows()
      reads this, text
    {
      && text.Length0 == MAX_ROWS && text.Length1 == MAX_COLS
      && textRows <= MAX_ROWS && textCols < MAX_COLS
      && |ring.rows| == textRows && Proper(ring)
      && textRow == ring.row && textTop == ring.top && textCol == |ring.rows[ring.row]| <= textCols
      && StartsWith(text, textRow, ring.rows[ring.row])
      && forall k :: 0 <= k < textRows && k != textRow ==> Reads(text, k, ring.rows[k])
    }

    /** Between calls that row is terminated, too, and the ring is what the calls so far made of it. */
    ghost predicate Valid()
      reads this, text
    {
      && text.Length0 == MAX_ROWS && text.Length1 == MAX_COLS
      && (Live() ==> Shows() && Reads(text, textRow, ring.rows[textRow]))
      && (Live() ==> ring == Run(Initial(textRows), textCols, calls))
      && (!Live() ==> forall k, i :: 0 <= k < MAX_ROWS && 0 <= i < MAX_COLS ==> text[k, i] == '\0')
    }

    constructor ()
      ensures Valid() && !Live() && fresh(text)
    {
      text := new char[MAX_ROWS, MAX_COLS]((_, _) => '\0');
      textRows, textCols, textRow, textCol, textTop := 0, 0, 0, 0, 0;
      ring, calls := Ring([], 0, 0), [];
    }

    /** The size of the frame buffer decides how many rows and columns of 10 by 18 pixels there are. */
    method UiInit(fbHeight: nat, fbWidth: nat)
      requires Valid() && !Live()
      modifies this
      ensures Valid() && calls == []
      ensures textRows == Least(fbHeight / 18, MAX_ROWS) && textCols == Least(fbWidth / 10, MAX_COLS - 1)
      ensures Live() <==> fbHeight >= 18 && fbWidth >= 10
    {
      textCol, textRow := 0, 0;
      textRows := fbHeight / 18;
      if textRows > MAX_ROWS { textRows := MAX_ROWS; }
      textTop := 1;
      textCols := fbWidth / 10;
      if textCols > MAX_COLS - 1 { textCols := MAX_COLS - 1; }
      ring := if textRows > 0 then Initial(textRows) else ring;
      calls := [];
    }

    /** One character of a message. */
    method PutChar(c: char)
      requires Live() && Shows() && c != '\0'
      modifies this`textRow, this`textCol, this`textTop, this`ring, text
      ensures Shows() && ring == Feed(old(ring), textCols, c)
    {
      if c == '\n' || textCol >= textCols {
        NewLine();
      }
      if c != '\n' {
        text[textRow, textCol] := c;
        textCol := textCol + 1;
        ring := Put(ring, c);
      }
    }

    method NewLine()
      requires Live() && Shows()
      modifies this`textRow, this`textCol, this`textTop, this`ring, text
      ensures Shows() && ring == Break(old(ring)) && textCol == 0
    {
      text[textRow, textCol] := '\0';
      textCol := 0;
      textRow := (textRow + 1) % textRows;
      if textRow == textTop {
        textTop := (textTop + 1) % textRows;
      }
      ring := Break(ring);
    }

    /** The loop both print functions have. */
    method PutAll(buf: string)
      requires Live() && Shows() && '\0' !in buf
      modifies this`textRow, this`textCol, this`textTop, this`ring, text
      ensures Shows() && Reads(text, textRow, ring.rows[textRow])
      ensures ring == FeedAll(old(ring), textCols, buf)
    {
      var i := 0;
      assert buf[..0] == "";
      while i < |buf|
        invariant 0 <= i <= |buf| && Live() && Shows()
        invariant ring == FeedAll(old(ring), textCols, buf[..i])
      {
        PutChar(buf[i]);
        assert buf[..i + 1][..i] == buf[..i];
        i := i + 1;
      }
      assert buf[..i] == buf;
      text[textRow, textCol] := '\0';
    }

    method UiPrint(msg: string)
      requires Valid() && '\0' !in msg
      modifies this, text
      ensures Valid() && Live() == old(Live()) && textRows == old(textRows) && textCols == old(textCols)
      ensures Live() ==> calls == old(calls) + [Print(msg)]
    {
      if textRows > 0 && textCols > 0 {
        ghost var before := ring;
        PutAll(Cut(msg, BUFFER_SIZE - 1));
        Recorded(before, Print(msg));
      }
    }

    method UiPrintOverwrite(msg: string, stale: string)
      requires Valid() && '\0' !in msg && '\0' !in stale
      modifies this, text
      ensures Valid() && Live() == old(Live()) && textRows == old(textRows) && textCols == old(textCols)
      ensures Live() ==> calls == old(calls) + [Overwrite(msg, stale)]
    {
      var buf := Shown(textCols, Overwrite(msg, stale));
      textCol := 0;
      if textRows > 0 && textCols > 0 {
        ghost var before := ring;
        ring := Rewind(ring, Overwrite(msg, stale));
        PutAll(buf);
        Recorded(before, Overwrite(msg, stale));
      }
    }

    /** Bookkeeping: one call more. */
    ghost method Recorded(before: Ring, ev: Event)
      requires Live() && Shows() && Reads(text, textRow, ring.rows[textRow]) && Proper(before)
      requires before == Run(Initial(textRows), textCols, calls) && ring == Step(before, textCols, ev)
      modifies this`calls
      ensures Valid() && calls == old(calls) + [ev]
    {
      calls := calls + [ev];
      assert calls[..|calls| - 1] == old(calls);
    }

    /** What draw_text_line gets for screen row k: the end of the wrapped log of all calls. */
    method RowText(k: nat) returns (s: string)
      requires Valid() && Live() && k < textRows
      ensures var log := LogOf(textCols, calls); s == LineAt(log, |log| - textRows + k)
    {
      hide Run, LogOf;
      ghost var log := LogOf(textCols, calls);
      ScreenShowsEnd(textRows, textCols, calls, k);
      var row := (k + textTop) % textRows;
      ghost var line := ring.rows[row];
      assert line == LineAt(log, |log| - textRows + k);
      assert Reads(text, row, line);
      hide *;
      s := ReadRow(row, line);
    }

    method ReadRow(row: nat, ghost line: string) returns (s: string)
      requires Reads(text, row, line)
      ensures s == line
    {
      var i := 0;
      s := "";
      while text[row, i] != '\0'
        invariant 0 <= i <= |line| && s == line[..i]
        decreases |line| - i
      {
        s := s + [text[row, i]];
        i := i + 1;
      }
    }
  }
}
