/** The table of hooks and the module around it: the loops of hook_init and hook_exit in
    modules/sources/backlight/hook.c, and the `hooked` flag that guards them in cpcap-bright.c. */
module Backlight {
  import opened Basics
  import opened HookCode

  datatype Table = Table(m: Memory, es: seq<Entry>)

  /** The table has n hooks in front of its end mark. */
  predicate Ends(es: seq<Entry>, n: nat) {
    n < |es| && es[n].newfunc == 0 && forall i :: 0 <= i < n ==> es[i].newfunc != 0
  }

  /** The first n entries hooked, in order. */
  function HookFirst(symbols: map<string, Word>, t: Table, n: nat): (r: Table)
    requires n <= |t.es|
    ensures |r.es| == |t.es|
  {
    if n == 0 then t
    else
      var before := HookFirst(symbols, t, n - 1);
      var h := HookOne(symbols, before.m, before.es[n - 1]);
      Table(h.m, before.es[n - 1 := h.e])
  }

  /** The first n entries unhooked, in order. */
  function UnhookFirst(m: Memory, es: seq<Entry>, n: nat): Memory
    requires n <= |es|
  {
    if n == 0 then m else UnhookOne(UnhookFirst(m, es, n - 1), es[n - 1])
  }

  // ---------------------------------------------------------------- what the loops leave, word by word

  /** The last of the first n entries for the function at a, or -1. */
  function Last(symbols: map<string, Word>, es: seq<Entry>, n: nat, a: Word): (j: int)
    requires n <= |es|
    ensures -1 <= j < n
    ensures j >= 0 ==> Home(symbols, es[j]) == a
    ensures forall i :: j < i < n ==> Home(symbols, es[i]) != a
  {
    if n == 0 then -1 else if Home(symbols, es[n - 1]) == a then n - 1 else Last(symbols, es, n - 1, a)
  }

  /** The word at a once the first n entries are hooked. */
  function Patched(symbols: map<string, Word>, ram: map<Word, Word>, es: seq<Entry>, n: nat, a: Word): Word
    requires n <= |es|
  {
    var j := Last(symbols, es, n, a);
    if a == 0 || j < 0 then Load(ram, a) else BranchWord(a, es[j].newfunc)
  }

  lemma {:induction false} HookFirstText(symbols: map<string, Word>, t: Table, n: nat, a: Word)
    requires n <= |t.es|
    ensures Load(HookFirst(symbols, t, n).m.ram, a) == Patched(symbols, t.m.ram, t.es, n, a)
    ensures HookFirst(symbols, t, n).es[n..] == t.es[n..]
  {
    hide BranchWord;
    if n > 0 {
      HookFirstText(symbols, t, n - 1, a);
      assert t.es[n - 1..][0] == t.es[n - 1];
      assert HookFirst(symbols, t, n - 1).es[n - 1..][0] == t.es[n - 1];
    }
  }

  /** An entry after hooking: where its function is, and the word its function had before its turn. */
  lemma {:induction false} HookFirstEntry(symbols: map<string, Word>, t: Table, n: nat, j: nat)
    requires j < n <= |t.es|
    ensures var e := HookFirst(symbols, t, n).es[j];
            && e.target == Home(symbols, t.es[j]) && e.name == t.es[j].name && e.newfunc == t.es[j].newfunc
            && (e.target != 0 ==> && e.asm0 == Patched(symbols, t.m.ram, t.es, j, e.target)
                                  && e.jmp == LDR_PC && e.targetCont == Wrap(e.target + 4))
  {
    hide BranchWord;
    if j < n - 1 {
      HookFirstEntry(symbols, t, n - 1, j);
    } else {
      HookFirstText(symbols, t, j, Home(symbols, t.es[j]));
      assert t.es[j..][0] == t.es[j];
      assert HookFirst(symbols, t, j).es[j..][0] == t.es[j];
    }
  }

  /** The last of the first n entries whose target is a, or -1. */
  function LastTarget(es: seq<Entry>, n: nat, a: Word): (j: int)
    requires n <= |es|
    ensures -1 <= j < n
    ensures j >= 0 ==> es[j].target == a
    ensures forall i :: j < i < n ==> es[i].target != a
  {
    if n == 0 then -1 else if es[n - 1].target == a then n - 1 else LastTarget(es, n - 1, a)
  }

  lemma {:induction false} UnhookFirstText(m: Memory, es: seq<Entry>, n: nat, a: Word)
    requires n <= |es|
    ensures var j := LastTarget(es, n, a);
            Load(UnhookFirst(m, es, n).ram, a) == if a == 0 || j < 0 then Load(m.ram, a) else es[j].asm0
  {
    if n > 0 { UnhookFirstText(m, es, n - 1, a); }
  }

  /** No two entries are for the same function. */
  predicate Distinct(symbols: map<string, Word>, es: seq<Entry>, n: nat)
    requires n <= |es|
  {
    forall i, j :: 0 <= i < j < n && Home(symbols, es[i]) != 0 ==> Home(symbols, es[i]) != Home(symbols, es[j])
  }

  /** No function starts with the very branch that hooking it would write. */
  predicate NotYetHooked(symbols: map<string, Word>, t: Table, n: nat)
    requires n <= |t.es|
  {
    forall i, j :: 0 <= i < n && 0 <= j < n ==>
      Load(t.m.ram, Home(symbols, t.es[i])) != BranchWord(Home(symbols, t.es[i]), t.es[j].newfunc)
  }

  function RoundTrip(symbols: map<string, Word>, t: Table, n: nat): Memory
    requires n <= |t.es|
  {
    var h := HookFirst(symbols, t, n);
    UnhookFirst(h.m, h.es, n)
  }

  /** The word at a after hooking and unhooking everything: what the last entry for it had saved. */
  lemma RoundTripText(symbols: map<string, Word>, t: Table, n: nat, a: Word)
    requires n <= |t.es|
    ensures var j := Last(symbols, t.es, n, a);
            Load(RoundTrip(symbols, t, n).ram, a)
            == if j < 0 then Load(t.m.ram, a) else Patched(symbols, t.m.ram, t.es, j, a)
  {
    var h := HookFirst(symbols, t, n);
    forall j | 0 <= j < n ensures h.es[j].target == Home(symbols, t.es[j]) {
      HookFirstEntry(symbols, t, n, j);
    }
    var j := Last(symbols, t.es, n, a);
    assert j == LastTarget(h.es, n, a);
    UnhookFirstText(h.m, h.es, n, a);
    if j >= 0 { HookFirstEntry(symbols, t, n, j); }
    HookFirstText(symbols, t, n, a);
  }

  /** hook_exit undoes hook_init exactly if no two entries share a function: both loops run forward, so
      the second of two leaves the branch of the first. */
  lemma RoundTripRestoresIff(symbols: map<string, Word>, t: Table, n: nat)
    requires n <= |t.es| && NotYetHooked(symbols, t, n)
    ensures (forall a: Word :: Load(RoundTrip(symbols, t, n).ram, a) == Load(t.m.ram, a))
        <==> Distinct(symbols, t.es, n)
  {
    hide BranchWord, RoundTrip;
    if Distinct(symbols, t.es, n) {
      forall a: Word ensures Load(RoundTrip(symbols, t, n).ram, a) == Load(t.m.ram, a) {
        RoundTripText(symbols, t, n, a);
      }
    } else {
      var i, j :| 0 <= i < j < n && Home(symbols, t.es[i]) != 0 && Home(symbols, t.es[i]) == Home(symbols, t.es[j]);
      var a := Home(symbols, t.es[i]);
      RoundTripText(symbols, t, n, a);
      var l := Last(symbols, t.es, n, a);
      var p := Last(symbols, t.es, l, a);
      assert l >= j && p >= i;
    }
  }

  // ---------------------------------------------------------------- the module

  datatype State = State(t: Table, hooked: bool)

  /** A write to the hook_enable file (its length, whether copying it fails, the number in it, whether the
      symbols can be bound), or the instruction side caching a word. */
  datatype Event =
    | Write(len: nat, fault: bool, value: Option<nat>, bound: bool)
    | Fill(a: Word)

  function HookInit(symbols: map<string, Word>, t: Table, n: nat, bound: bool): (r: Table)
    requires n <= |t.es|
    ensures |r.es| == |t.es|
  {
    if bound then HookFirst(symbols, t, n) else t
  }

  function HookExit(t: Table, n: nat): (r: Table)
    requires n <= |t.es|
    ensures |r.es| == |t.es|
  {
    Table(UnhookFirst(t.m, t.es, n), t.es)
  }

  const BUFFER_SIZE := 32

  function After(symbols: map<string, Word>, s: State, n: nat, ev: Event): (r: State)
    requires n <= |s.t.es|
    ensures |r.t.es| == |s.t.es|
  {
    match ev
    case Fill(a) => State(Table(Memory(s.t.m.ram, s.t.m.icache[a := Load(s.t.m.ram, a)]), s.t.es), s.hooked)
    case Write(len, fault, value, bound) =>
      if len >= BUFFER_SIZE || fault || value.None? then s
      else if value.value == 0 && s.hooked then State(HookExit(s.t, n), false)
      else if value.value != 0 && !s.hooked then State(HookInit(symbols, s.t, n, bound), true)
      else s
  }

  function AfterAll(symbols: map<string, Word>, s: State, n: nat, evs: seq<Event>): (r: State)
    requires n <= |s.t.es|
    ensures |r.t.es| == |s.t.es|
  {
    if evs == [] then s else After(symbols, AfterAll(symbols, s, n, evs[..|evs| - 1]), n, evs[|evs| - 1])
  }

  /** Loading the module, with or without hooking at once. */
  function Start(symbols: map<string, Word>, t: Table, n: nat, hookEnable: bool, bound: bool): (r: State)
    requires n <= |t.es|
    ensures |r.t.es| == |t.es|
  {
    if hookEnable then State(HookInit(symbols, t, n, bound), true) else State(t, false)
  }

  /** Unloading it. */
  function Exit(s: State, n: nat): (r: State)
    requires n <= |s.t.es|
  {
    if s.hooked then State(HookExit(s.t, n), s.hooked) else s
  }

  /** What a user of the file sees: hooks off; on; or taken for on, but the symbols were not found. */
  datatype Mode = Off | Failed | On

  function ModeAfter(mode: Mode, ev: Event): Mode {
    match ev
    case Fill(_) => mode
    case Write(len, fault, value, bound) =>
      if len >= BUFFER_SIZE || fault || value.None? then mode
      else if value.value == 0 then Off
      else if mode != Off then mode
      else if bound then On else Failed
  }

  function FinalMode(mode: Mode, evs: seq<Event>): Mode {
    if evs == [] then mode else ModeAfter(FinalMode(mode, evs[..|evs| - 1]), evs[|evs| - 1])
  }

  /** The word at a that a mode promises. */
  function Promised(symbols: map<string, Word>, t0: Table, n: nat, mode: Mode, a: Word): Word
    requires n <= |t0.es|
  {
    if mode == On then Patched(symbols, t0.m.ram, t0.es, n, a) else Load(t0.m.ram, a)
  }

  /** A table as HOOK_INIT makes it: no entry resolved, no two for the same function. */
  ghost predicate Fresh(symbols: map<string, Word>, t: Table, n: nat) {
    && Ends(t.es, n) && Distinct(symbols, t.es, n)
    && (forall i :: 0 <= i < n ==> t.es[i].target == 0)
    && forall a: Word :: Coherent(t.m, a)
  }

  /** Entries once resolved stay so, and hold their functions' original words and the way back. */
  ghost predicate Settled(symbols: map<string, Word>, t0: Table, e: Entry, e0: Entry) {
    && e.name == e0.name && e.newfunc == e0.newfunc
    && (e.target != 0 ==> && e.target == Home(symbols, e0) && e.asm0 == Load(t0.m.ram, e.target)
                          && e.jmp == LDR_PC && e.targetCont == Wrap(e.target + 4))
  }

  ghost predicate Inv(symbols: map<string, Word>, t0: Table, n: nat, s: State, mode: Mode)
    requires Ends(t0.es, n)
  {
    && |s.t.es| == |t0.es| && s.hooked == (mode != Off)
    && (forall i :: 0 <= i < n ==> Settled(symbols, t0, s.t.es[i], t0.es[i]))
    && (mode == On ==> forall i :: 0 <= i < n ==> s.t.es[i].target == Home(symbols, t0.es[i]))
    && (forall a: Word :: Load(s.t.m.ram, a) == Promised(symbols, t0, n, mode, a))
    && (forall a: Word :: Coherent(s.t.m, a))
  }

  lemma SameHomes(symbols: map<string, Word>, t0: Table, n: nat, t: Table, a: Word)
    requires Fresh(symbols, t0, n) && |t.es| == |t0.es|
    requires forall i :: 0 <= i < n ==> Settled(symbols, t0, t.es[i], t0.es[i])
    requires forall b: Word :: Load(t.m.ram, b) == Load(t0.m.ram, b)
    ensures forall k :: 0 <= k <= n ==> Last(symbols, t.es, k, a) == Last(symbols, t0.es, k, a)
    ensures forall k :: 0 <= k <= n ==> Patched(symbols, t.m.ram, t.es, k, a) == Patched(symbols, t0.m.ram, t0.es, k, a)
  {
    hide BranchWord;
    forall i | 0 <= i < n ensures Home(symbols, t.es[i]) == Home(symbols, t0.es[i]) {
      assert Settled(symbols, t0, t.es[i], t0.es[i]);
    }
    forall k | 0 <= k <= n ensures Last(symbols, t.es, k, a) == Last(symbols, t0.es, k, a) {
    }
  }

  lemma PatchCoherent(m: Memory, a: Word, w: Word)
    requires forall b: Word :: Coherent(m, b)
    ensures forall b: Word :: Coherent(Patch(m, a, w), b)
  {
    forall b: Word ensures Coherent(Patch(m, a, w), b) {
      assert Coherent(m, b);
    }
  }

  lemma {:induction false} HookFirstCoherent(symbols: map<string, Word>, t: Table, n: nat)
    requires n <= |t.es| && forall a: Word :: Coherent(t.m, a)
    ensures forall a: Word :: Coherent(HookFirst(symbols, t, n).m, a)
  {
    hide BranchWord;
    if n > 0 {
      HookFirstCoherent(symbols, t, n - 1);
      var before := HookFirst(symbols, t, n - 1);
      var a := Home(symbols, before.es[n - 1]);
      PatchCoherent(before.m, a, BranchWord(a, before.es[n - 1].newfunc));
    }
  }

  lemma {:induction false} UnhookFirstCoherent(m: Memory, es: seq<Entry>, n: nat)
    requires n <= |es| && forall a: Word :: Coherent(m, a)
    ensures forall a: Word :: Coherent(UnhookFirst(m, es, n), a)
  {
    if n > 0 {
      UnhookFirstCoherent(m, es, n - 1);
      PatchCoherent(UnhookFirst(m, es, n - 1), es[n - 1].target, es[n - 1].asm0);
    }
  }

  lemma InitKeepsInvariant(symbols: map<string, Word>, t0: Table, n: nat, t: Table, bound: bool)
    requires Fresh(symbols, t0, n) && Inv(symbols, t0, n, State(t, false), Off)
    ensures Inv(symbols, t0, n, State(HookInit(symbols, t, n, bound), true), if bound then On else Failed)
  {
    hide BranchWord;
    if bound {
      var h := HookFirst(symbols, t, n);
      HookFirstCoherent(symbols, t, n);
      forall a: Word ensures Load(h.m.ram, a) == Promised(symbols, t0, n, On, a) {
        HookFirstText(symbols, t, n, a);
        SameHomes(symbols, t0, n, t, a);
      }
      forall i | 0 <= i < n
        ensures Settled(symbols, t0, h.es[i], t0.es[i]) && h.es[i].target == Home(symbols, t0.es[i])
      {
        var a := Home(symbols, t0.es[i]);
        assert Settled(symbols, t0, t.es[i], t0.es[i]);
        HookFirstEntry(symbols, t, n, i);
        SameHomes(symbols, t0, n, t, a);
        assert a != 0 ==> Last(symbols, t0.es, i, a) == -1;
      }
    }
  }

  lemma ExitKeepsInvariant(symbols: map<string, Word>, t0: Table, n: nat, t: Table, mode: Mode)
    requires Fresh(symbols, t0, n) && mode != Off && Inv(symbols, t0, n, State(t, true), mode)
    ensures Inv(symbols, t0, n, State(HookExit(t, n), false), Off)
  {
    hide BranchWord;
    UnhookFirstCoherent(t.m, t.es, n);
    forall a: Word ensures Load(UnhookFirst(t.m, t.es, n).ram, a) == Load(t0.m.ram, a) {
      UnhookFirstText(t.m, t.es, n, a);
      var j := LastTarget(t.es, n, a);
      if a != 0 && j >= 0 {
        assert Settled(symbols, t0, t.es[j], t0.es[j]);
      } else if mode == On && a != 0 {
        assert Last(symbols, t0.es, n, a) < 0;
      }
    }
  }

  lemma StepKeepsInvariant(symbols: map<string, Word>, t0: Table, n: nat, s: State, mode: Mode, ev: Event)
    requires Fresh(symbols, t0, n) && Inv(symbols, t0, n, s, mode)
    ensures Inv(symbols, t0, n, After(symbols, s, n, ev), ModeAfter(mode, ev))
  {
    hide BranchWord, Patched;
    match ev
    case Fill(a) =>
      var next := After(symbols, s, n, ev);
      forall b: Word ensures Coherent(next.t.m, b) { assert Coherent(s.t.m, b); }
    case Write(len, fault, value, bound) =>
      if len < BUFFER_SIZE && !fault && value.Some? {
        if value.value == 0 && s.hooked {
          ExitKeepsInvariant(symbols, t0, n, s.t, mode);
        } else if value.value != 0 && !s.hooked {
          InitKeepsInvariant(symbols, t0, n, s.t, bound);
        }
      }
  }

  /** Main theorem.  Whatever is written to the file, the flag and the code in memory follow the mode: the
      code is the original, or has exactly the entries' first words replaced by their branches; and the
      processor never runs a word that is no longer in memory. */
  lemma {:induction false} EveryRunFollowsMode(symbols: map<string, Word>, t0: Table, n: nat, hookEnable: bool,
                                               bound: bool, evs: seq<Event>)
    requires Fresh(symbols, t0, n)
    ensures var mode := FinalMode(if !hookEnable then Off else if bound then On else Failed, evs);
            Inv(symbols, t0, n, AfterAll(symbols, Start(symbols, t0, n, hookEnable, bound), n, evs), mode)
    decreases |evs|
  {
    hide BranchWord, Patched, Inv;
    if evs == [] {
      assert Inv(symbols, t0, n, State(t0, false), Off) by { StartsOff(symbols, t0, n); }
      if hookEnable { InitKeepsInvariant(symbols, t0, n, t0, bound); }
    } else {
      var k := |evs| - 1;
      EveryRunFollowsMode(symbols, t0, n, hookEnable, bound, evs[..k]);
      StepKeepsInvariant(symbols, t0, n, AfterAll(symbols, Start(symbols, t0, n, hookEnable, bound), n, evs[..k]),
                         FinalMode(if !hookEnable then Off else if bound then On else Failed, evs[..k]), evs[k]);
    }
  }

  lemma StartsOff(symbols: map<string, Word>, t0: Table, n: nat)
    requires Fresh(symbols, t0, n)
    ensures Inv(symbols, t0, n, State(t0, false), Off)
  {
    hide BranchWord, Patched;
  }

  /** Unloading the module after any run leaves the code as it was, in memory and on the instruction side. */
  lemma UnloadingRestores(symbols: map<string, Word>, t0: Table, n: nat, hookEnable: bool, bound: bool, evs: seq<Event>)
    requires Fresh(symbols, t0, n)
    ensures var end := Exit(AfterAll(symbols, Start(symbols, t0, n, hookEnable, bound), n, evs), n);
            forall a: Word :: Load(end.t.m.ram, a) == Load(t0.m.ram, a) && Fetch(end.t.m, a) == Load(t0.m.ram, a)
  {
    hide BranchWord, Patched, UnhookFirst;
    var mode := FinalMode(if !hookEnable then Off else if bound then On else Failed, evs);
    var s := AfterAll(symbols, Start(symbols, t0, n, hookEnable, bound), n, evs);
    EveryRunFollowsMode(symbols, t0, n, hookEnable, bound, evs);
    if s.hooked { ExitKeepsInvariant(symbols, t0, n, s.t, mode); }
    forall a: Word
      ensures var m := Exit(s, n).t.m; Load(m.ram, a) == Load(t0.m.ram, a) && Fetch(m, a) == Load(t0.m.ram, a)
    {
      assert Coherent(Exit(s, n).t.m, a);
    }
  }

  /** After any run that ends with the hooks on, a call of a hooked function runs its replacement, provided
      that is in the branch's reach. */
  lemma HookedRunDiverts(isa: Isa, symbols: map<string, Word>, t0: Table, n: nat, hookEnable: bool, bound: bool,
                         evs: seq<Event>, i: nat, t: Word, rest: Rest)
    requires Fresh(symbols, t0, n) && i < n && t == Home(symbols, t0.es[i]) != 0
    requires FinalMode(if !hookEnable then Off else if bound then On else Failed, evs) == On
    requires Distance(t, t0.es[i].newfunc) % 4 == 0 && -0x200_0000 <= Distance(t, t0.es[i].newfunc) < 0x200_0000
    ensures var s := AfterAll(symbols, Start(symbols, t0, n, hookEnable, bound), n, evs);
            HookCode.Step(isa, s.t.m, Cpu(t, rest)) == Cpu(t0.es[i].newfunc, rest)
  {
    hide BranchWord, Distance, BranchTarget, AfterAll;
    EveryRunFollowsMode(symbols, t0, n, hookEnable, bound, evs);
    var s := AfterAll(symbols, Start(symbols, t0, n, hookEnable, bound), n, evs);
    BranchReachesIff(t, t0.es[i].newfunc);
    assert Last(symbols, t0.es, n, t) == i;
    assert Coherent(s.t.m, t);
    assert Load(s.t.m.ram, t) == Promised(symbols, t0, n, On, t);
  }

  /** And the replacement can still call the original: with the one hook the module has, and nothing
      harmful on the instruction side of the entry at h, HOOK_INVOKE after any such run does, state for state, what
      the function did before the module was loaded. */
  lemma HookedRunInvokesOriginal(isa: Isa, symbols: map<string, Word>, t0: Table, hookEnable: bool, bound: bool,
                                 evs: seq<Event>, s: State, before: Memory, t: Word, h: Word, w: Word, rest: Rest,
                                 steps: nat)
    requires Fresh(symbols, t0, 1) && t == Home(symbols, t0.es[0]) != 0 && Apart(t, h)
    requires FinalMode(if !hookEnable then Off else if bound then On else Failed, evs) == On
    requires s == AfterAll(symbols, Start(symbols, t0, 1, hookEnable, bound), 1, evs) && Harmless(s.t.m.icache, h, t, w)
    requires before == Seen(t0.m, h, t0.es[0]) && w == Load(t0.m.ram, t)
    requires PositionFree(isa, w, t, h) && steps >= 1
    requires forall i :: 1 <= i < steps ==> Clear(before, t, h, HookCode.Run(isa, before, Cpu(t, rest), i).pc)
    ensures HookCode.Run(isa, Seen(s.t.m, h, s.t.es[0]), Cpu(h, rest), steps + Detour(isa, w, t, rest))
         == HookCode.Run(isa, before, Cpu(t, rest), steps)
  {
    EveryRunFollowsMode(symbols, t0, 1, hookEnable, bound, evs);
    InvokeIsSetUp(symbols, t0, s, t, h);
    TrampolineIsOriginal(isa, before, Seen(s.t.m, h, s.t.es[0]), t, h, w, rest, steps);
  }

  lemma InvokeIsSetUp(symbols: map<string, Word>, t0: Table, s: State, t: Word, h: Word)
    requires Fresh(symbols, t0, 1) && t == Home(symbols, t0.es[0]) != 0 && Apart(t, h)
    requires Inv(symbols, t0, 1, s, On) && Harmless(s.t.m.icache, h, t, Load(t0.m.ram, t))
    ensures Trampolined(Seen(t0.m, h, t0.es[0]), Seen(s.t.m, h, s.t.es[0]), t, h, Load(t0.m.ram, t))
  {
    hide BranchWord;
    var before, after := Seen(t0.m, h, t0.es[0]), Seen(s.t.m, h, s.t.es[0]);
    assert Settled(symbols, t0, s.t.es[0], t0.es[0]);
    forall a: Word | a != t && a !in {h, h + 4, h + 8}
      ensures Load(before.ram, a) == Load(after.ram, a) && Fetch(before, a) == Fetch(after, a)
    {
      assert Last(symbols, t0.es, 1, a) == -1;
      assert Load(s.t.m.ram, a) == Promised(symbols, t0, 1, On, a);
      assert Coherent(t0.m, a) && Coherent(s.t.m, a);
    }
    assert Coherent(t0.m, t);
  }

  // ---------------------------------------------------------------- the module's state in place

  class Module {
    var ram: map<Word, Word>
    var icache: map<Word, Word>
    var hooked: bool
    const gHi: array<Entry>
    const symbols: map<string, Word>
    /** How many hooks there are in front of the end mark. */
    ghost const n: nat

    ghost predicate Valid()
      reads this, gHi
    {
      Ends(gHi[..], n)
    }

    ghost function Now(): State
      reads this, gHi
    {
      State(Table(Memory(ram, icache), gHi[..]), hooked)
    }

    constructor (symbols: map<string, Word>, ram: map<Word, Word>, icache: map<Word, Word>, gHi: array<Entry>,
                 ghost n: nat)
      requires Ends(gHi[..], n)
      ensures Valid() && Now() == State(Table(Memory(ram, icache), gHi[..]), false)
      ensures this.symbols == symbols && this.gHi == gHi && this.n == n
    {
      this.symbols, this.ram, this.icache, this.gHi, this.n := symbols, ram, icache, gHi, n;
      hooked := false;
    }

    method Poke(a: Word, w: Word)
      modifies this`ram, this`icache
      ensures Memory(ram, icache) == Patch(Memory(old(ram), old(icache)), a, w)
    {
      ram := ram[a := w];
      icache := icache - {a};
    }

    method Hook(i: nat) returns (rc: int)
      requires i < gHi.Length
      modifies this`ram, this`icache, gHi
      ensures var h := HookOne(symbols, Memory(old(ram), old(icache)), old(gHi[i]));
              && Memory(ram, icache) == h.m && gHi[..] == old(gHi[..])[i := h.e] && rc == if h.ok then 0 else -1
    {
      hide BranchWord;
      var hi := gHi[i];
      if hi.target == 0 {
        hi := hi.(target := Lookup(symbols, hi.name));
        if hi.target == 0 {
          return -1;
        }
      }
      hi := hi.(asm0 := Load(ram, hi.target));
      Poke(hi.target, BranchWord(hi.target, hi.newfunc));
      hi := hi.(jmp := LDR_PC, targetCont := Wrap(hi.target + 4));
      gHi[i] := hi;
      rc := 0;
    }

    method Unhook(i: nat) returns (rc: int)
      requires i < gHi.Length
      modifies this`ram, this`icache
      ensures rc == 0 && Memory(ram, icache) == UnhookOne(Memory(old(ram), old(icache)), gHi[i])
    {
      if gHi[i].target != 0 {
        Poke(gHi[i].target, gHi[i].asm0);
      }
      rc := 0;
    }

    method HookAll(bound: bool) returns (rc: int)
      requires Valid()
      modifies this`ram, this`icache, gHi
      ensures Valid() && rc == if bound then 0 else -19
      ensures Now().t == HookInit(symbols, old(Now()).t, n, bound)
    {
      hide HookOne;
      if !bound {
        return -19;
      }
      ghost var before := Now().t;
      var i := 0;
      while gHi[i].newfunc != 0
        invariant i <= n && Valid()
        invariant Now().t == HookFirst(symbols, before, i)
        decreases n - i
      {
        ghost var newfuncs := gHi[i].newfunc;
        var _ := Hook(i);
        assert gHi[i].newfunc == newfuncs by { KeepsNewfunc(symbols, HookFirst(symbols, before, i), i); }
        i := i + 1;
      }
      rc := 0;
    }

    method UnhookAll()
      requires Valid()
      modifies this`ram, this`icache
      ensures Valid() && Now().t == HookExit(old(Now()).t, n)
    {
      ghost var before := Now().t;
      var i := 0;
      while gHi[i].newfunc != 0
        invariant i <= n && Valid()
        invariant Now().t == Table(UnhookFirst(before.m, before.es, i), before.es)
        decreases n - i
      {
        var _ := Unhook(i);
        i := i + 1;
      }
    }

    /** What the write returns is the length, -ENOSPC or -EFAULT, whether or not hooking succeeded. */
    method ProcHookWrite(len: nat, fault: bool, value: Option<nat>, bound: bool) returns (rc: int)
      requires Valid()
      modifies this, gHi
      ensures Valid() && Now() == After(symbols, old(Now()), n, Write(len, fault, value, bound))
      ensures rc == if len >= BUFFER_SIZE then -28 else if fault then -14 else len
    {
      if len >= BUFFER_SIZE {
        return -28;
      }
      if fault {
        return -14;
      }
      if value.Some? {
        var newval := value.value;
        if newval == 0 && hooked {
          UnhookAll();
          hooked := false;
        } else if newval != 0 && !hooked {
          var _ := HookAll(bound);
          hooked := true;
        }
      }
      rc := len;
    }

    method BacklightInit(hookEnable: bool, bound: bool)
      requires Valid() && !hooked
      modifies this, gHi
      ensures Valid() && Now() == Start(symbols, old(Now()).t, n, hookEnable, bound)
    {
      if hookEnable {
        var _ := HookAll(bound);
        hooked := true;
      }
    }

    method BacklightExit()
      requires Valid()
      modifies this
      ensures Valid() && Now() == Exit(old(Now()), n)
    {
      if hooked {
        UnhookAll();
      }
    }
  }

  lemma KeepsNewfunc(symbols: map<string, Word>, t: Table, i: nat)
    requires i < |t.es|
    ensures HookOne(symbols, t.m, t.es[i]).e.newfunc == t.es[i].newfunc
  {
  }
}
