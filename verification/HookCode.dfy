/** The ARM code patching of modules/sources/backlight/hook.c: one word of a function is replaced by a branch,
    and the word it replaced moves into a trampoline in front of a jump back.  The meaning of both is given by
    a small step semantics of ARM, section A8.8 of ARM DDI 0406C. */
module HookCode {
  import opened Basics

  function Wrap(x: int): (w: Word)
    ensures 0 <= x < 0x1_0000_0000 ==> w == x
  {
    x % 0x1_0000_0000
  }

  /** `struct hook_info` of hook.h: the first three words are the trampoline. */
  datatype Entry = Entry(asm0: Word, jmp: Word, targetCont: Word, target: Word, name: Option<string>, newfunc: Word)

  /** Memory and what the instruction side has cached of it.  Words that are not mapped read as 0. */
  datatype Memory = Memory(ram: map<Word, Word>, icache: map<Word, Word>)

  function Load(ram: map<Word, Word>, a: Word): Word {
    if a in ram then ram[a] else 0
  }

  function Fetch(m: Memory, a: Word): Word {
    if a in m.icache then m.icache[a] else Load(m.ram, a)
  }

  predicate Coherent(m: Memory, a: Word) {
    a in m.icache ==> m.icache[a] == Load(m.ram, a)
  }

  // ---------------------------------------------------------------- hook and unhook

  /** The branch instruction as hook() computes it: the mask keeps the low 24 bits of the quotient. */
  function BranchWord(target: Word, newfunc: Word): Word {
    0xea00_0000 + (Wrap(newfunc - (target + 8)) / 4) % 0x100_0000
  }

  const LDR_PC: Word := 0xe51f_f004

  /** The address of a kernel symbol, 0 for an unknown one. */
  function Lookup(symbols: map<string, Word>, name: Option<string>): Word {
    if name.Some? && name.value in symbols then symbols[name.value] else 0
  }

  function Home(symbols: map<string, Word>, e: Entry): Word {
    if e.target != 0 then e.target else Lookup(symbols, e.name)
  }

  /** One word of code is written, and the instruction side of it is flushed. */
  function Patch(m: Memory, a: Word, w: Word): Memory {
    Memory(m.ram[a := w], m.icache - {a})
  }

  datatype Hooked = Hooked(m: Memory, e: Entry, ok: bool)

  function HookOne(symbols: map<string, Word>, m: Memory, e: Entry): Hooked {
    var t := Home(symbols, e);
    if t == 0 then Hooked(m, e, false)
    else Hooked(Patch(m, t, BranchWord(t, e.newfunc)),
                Entry(Load(m.ram, t), LDR_PC, Wrap(t + 4), t, e.name, e.newfunc), true)
  }

  function UnhookOne(m: Memory, e: Entry): Memory {
    if e.target != 0 then Patch(m, e.target, e.asm0) else m
  }

  // ---------------------------------------------------------------- the processor

  /** Everything of the processor but the program counter and the code: registers, flags, data memory. */
  datatype Rest = Rest(regs: seq<Word>, flags: Word, data: map<Word, Word>)

  datatype Cpu = Cpu(pc: Word, rest: Rest)

  datatype Effect = Effect(rest: Rest, jump: Option<Word>)

  /** What every instruction but the two below does: an instruction word, its address, the state before. */
  type Isa = (Word, Word, Rest) -> Effect

  /** B without condition: bits 31-24 are 0xEA. */
  predicate IsBranch(w: Word) {
    w / 0x100_0000 == 0xea
  }

  /** Where a B at `pc` goes: the program counter reads as pc + 8, and the 24-bit signed offset counts words. */
  function BranchTarget(pc: Word, w: Word): Word {
    Wrap(pc + 8 + 4 * Signed24(w % 0x100_0000))
  }

  function Signed24(imm24: int): int {
    if imm24 < 0x80_0000 then imm24 else imm24 - 0x100_0000
  }

  /** LDR PC, [PC, #-4] jumps to the address in the word behind it. */
  function Step(isa: Isa, m: Memory, s: Cpu): Cpu {
    var w := Fetch(m, s.pc);
    if IsBranch(w) then Cpu(BranchTarget(s.pc, w), s.rest)
    else if w == LDR_PC then Cpu(Load(m.ram, Wrap(s.pc + 4)), s.rest)
    else
      var e := isa(w, s.pc, s.rest);
      Cpu(if e.jump.Some? then e.jump.value else Wrap(s.pc + 4), e.rest)
  }

  function Run(isa: Isa, m: Memory, s: Cpu, n: nat): Cpu
    decreases n
  {
    if n == 0 then s else Run(isa, m, Step(isa, m, s), n - 1)
  }

  /** The meaning of the word does not depend on where it stands. */
  ghost predicate PositionFree(isa: Isa, w: Word, a: Word, b: Word) {
    && !IsBranch(w) && w != LDR_PC
    && forall r: Rest :: isa(w, a, r) == isa(w, b, r)
  }

  // ---------------------------------------------------------------- the branch

  /** How far the branch has to go, as a signed number of bytes. */
  function Distance(target: Word, newfunc: Word): int {
    var d := Wrap(newfunc - (target + 8));
    if d < 0x8000_0000 then d else d - 0x1_0000_0000
  }

  /** The word hook() writes is always a B, and goes to the replacement exactly if that is a whole number of
      words away and in reach. */
  lemma BranchReachesIff(target: Word, newfunc: Word)
    ensures IsBranch(BranchWord(target, newfunc))
    ensures BranchTarget(target, BranchWord(target, newfunc)) == newfunc
        <==> Distance(target, newfunc) % 4 == 0 && -0x200_0000 <= Distance(target, newfunc) < 0x200_0000
  {
    var d, x := Wrap(newfunc - (target + 8)), Distance(target, newfunc);
    var imm24 := (d / 4) % 0x100_0000;
    assert BranchWord(target, newfunc) % 0x100_0000 == imm24;
    OffsetIff(d, x, imm24);
    WrapsTogether(target + 8, 4 * Signed24(imm24), x, newfunc);
  }

  lemma OffsetIff(d: Word, x: int, imm24: int)
    requires x == if d < 0x8000_0000 then d else d - 0x1_0000_0000
    requires imm24 == (d / 4) % 0x100_0000
    ensures 4 * Signed24(imm24) == x <==> x % 4 == 0 && -0x200_0000 <= x < 0x200_0000
  {
  }

  lemma WrapsTogether(from: int, a: int, b: int, to: Word)
    requires -0x8000_0000 <= a < 0x8000_0000 && -0x8000_0000 <= b < 0x8000_0000
    requires Wrap(from + b) == to
    ensures Wrap(from + a) == to <==> a == b
  {
  }

  /** A call of the hooked function runs the replacement, whatever the instruction side had cached: hook()
      flushes the word it patches. */
  lemma HookDiverts(isa: Isa, symbols: map<string, Word>, m: Memory, e: Entry, rest: Rest)
    requires Home(symbols, e) != 0
    requires Distance(Home(symbols, e), e.newfunc) % 4 == 0
    requires -0x200_0000 <= Distance(Home(symbols, e), e.newfunc) < 0x200_0000
    ensures Step(isa, HookOne(symbols, m, e).m, Cpu(Home(symbols, e), rest)) == Cpu(e.newfunc, rest)
  {
    BranchReachesIff(Home(symbols, e), e.newfunc);
    hide BranchWord, BranchTarget, Distance;
  }

  // ---------------------------------------------------------------- the trampoline

  /** The memory as the processor sees it, with the entry itself at address h. */
  function Seen(m: Memory, h: Word, e: Entry): Memory {
    Memory(m.ram[h := e.asm0][Wrap(h + 4) := e.jmp][Wrap(h + 8) := e.targetCont], m.icache)
  }

  /** The function's first word is not part of the trampoline. */
  ghost predicate Apart(t: Word, h: Word) {
    h + 8 < 0x1_0000_0000 && (t < h || h + 8 < t)
  }

  /** An instruction that is none of the words hooking changes, nor loads its address from one of them. */
  ghost predicate Clear(m: Memory, t: Word, h: Word, pc: Word) {
    && pc != t && pc != h && pc != h + 4 && pc != h + 8
    && (Fetch(m, pc) == LDR_PC ==> Wrap(pc + 4) != t && !(h <= Wrap(pc + 4) <= h + 8))
  }

  /** An instruction at `a` that only goes to t + 4: the jump back of the trampoline, or a branch there. */
  predicate GoesBack(word: Word, a: Word, t: Word) {
    word == LDR_PC || (IsBranch(word) && BranchTarget(a, word) == Wrap(t + 4))
  }

  /** What the instruction side has cached of the trampoline's two instructions does no harm.  hook() flushes
      only the word of the hooked function. */
  predicate Harmless(icache: map<Word, Word>, h: Word, t: Word, w: Word)
    requires h + 4 < 0x1_0000_0000
  {
    && (h in icache ==> icache[h] == w)
    && (h + 4 in icache ==> GoesBack(icache[h + 4], h + 4, t))
  }

  /** How many more steps the trampoline takes: its jump back, unless the first instruction jumped away. */
  function Detour(isa: Isa, w: Word, a: Word, rest: Rest): nat {
    if isa(w, a, rest).jump.None? then 1 else 0
  }

  lemma RunSplits(isa: Isa, m: Memory, s: Cpu, k: nat, n: nat)
    ensures Run(isa, m, s, k + n) == Run(isa, m, Run(isa, m, s, k), n)
    decreases k
  {
    if k > 0 {
      assert k + n > 0 && k + n - 1 == (k - 1) + n;
      RunSplits(isa, m, Step(isa, m, s), k - 1, n);
    }
  }

  /** Two memories that only differ in the function's first word and the trampoline. */
  ghost predicate Agree(before: Memory, after: Memory, t: Word, h: Word) {
    && (forall a: Word :: a != t && a !in {h, h + 4, h + 8} ==> Load(before.ram, a) == Load(after.ram, a))
    && (forall a: Word :: a != t && a !in {h, h + 4, h + 8} ==> Fetch(before, a) == Fetch(after, a))
  }

  /** `after` has the trampoline for the function at t of `before`, which starts with w. */
  ghost predicate Trampolined(before: Memory, after: Memory, t: Word, h: Word, w: Word) {
    && Apart(t, h) && Agree(before, after, t, h) && Fetch(before, t) == w
    && Fetch(after, h) == w && GoesBack(Fetch(after, h + 4), h + 4, t) && Load(after.ram, h + 8) == Wrap(t + 4)
  }

  /** Main theorem.  HOOK_INVOKE's call of the trampoline is a call of the unpatched function: after its
      detour it is, step for step, in the same state, as long as the unpatched function stays clear of the
      four words.  So when that returns, the trampoline's run returns to the same place with the same results. */
  lemma TrampolineIsOriginal(isa: Isa, before: Memory, after: Memory, t: Word, h: Word, w: Word, rest: Rest, n: nat)
    requires Trampolined(before, after, t, h, w) && PositionFree(isa, w, t, h)
    requires n >= 1
    requires forall i :: 1 <= i < n ==> Clear(before, t, h, Run(isa, before, Cpu(t, rest), i).pc)
    ensures Run(isa, after, Cpu(h, rest), n + Detour(isa, w, t, rest)) == Run(isa, before, Cpu(t, rest), n)
  {
    var k := 1 + Detour(isa, w, t, rest);
    var s := Step(isa, before, Cpu(t, rest));
    TrampolineArrives(isa, before, after, t, h, w, rest);
    hide Agree, Clear, PositionFree;
    RunSplits(isa, after, Cpu(h, rest), k, n - 1);
    assert forall i {:trigger Run(isa, before, s, i)} :: 0 <= i < n - 1 ==>
        Run(isa, before, Cpu(t, rest), i + 1) == Run(isa, before, s, i);
    SameRun(isa, before, after, t, h, s, n - 1);
  }

  /** The trampoline's first instructions do what the function's first instruction did. */
  lemma TrampolineArrives(isa: Isa, before: Memory, after: Memory, t: Word, h: Word, w: Word, rest: Rest)
    requires Trampolined(before, after, t, h, w) && PositionFree(isa, w, t, h)
    ensures Run(isa, after, Cpu(h, rest), 1 + Detour(isa, w, t, rest)) == Step(isa, before, Cpu(t, rest))
  {
    var first := Step(isa, after, Cpu(h, rest));
    assert isa(w, h, rest) == isa(w, t, rest);
    assert Run(isa, after, first, 0) == first;
    if isa(w, t, rest).jump.None? {
      var second := Step(isa, after, first);
      assert Run(isa, after, second, 0) == second;
      assert Run(isa, after, first, 1) == second;
    }
  }

  /** What hook() leaves is such a trampoline. */
  lemma HookTrampolines(symbols: map<string, Word>, m: Memory, e: Entry, t: Word, h: Word)
    requires t == Home(symbols, e) != 0 && Apart(t, h) && Coherent(m, t)
    requires Harmless(m.icache, h, t, Load(m.ram, t))
    ensures var now := HookOne(symbols, m, e);
            Trampolined(Seen(m, h, e), Seen(now.m, h, now.e), t, h, Load(m.ram, t))
  {
    hide BranchWord, BranchTarget;
  }

  lemma {:induction false} SameRun(isa: Isa, before: Memory, after: Memory, t: Word, h: Word, s: Cpu, n: nat)
    requires Apart(t, h)
    requires Agree(before, after, t, h)
    requires forall i :: 0 <= i < n ==> Clear(before, t, h, Run(isa, before, s, i).pc)
    ensures Run(isa, after, s, n) == Run(isa, before, s, n)
    decreases n
  {
    if n > 0 {
      assert Run(isa, before, s, 0) == s;
      assert Clear(before, t, h, s.pc);
      var next := Step(isa, before, s);
      assert Step(isa, after, s) == next;
      forall i | 0 <= i < n - 1 ensures Clear(before, t, h, Run(isa, before, next, i).pc) {
        assert Run(isa, before, s, i + 1) == Run(isa, before, next, i);
      }
      SameRun(isa, before, after, t, h, next, n - 1);
    }
  }

  // ---------------------------------------------------------------- when the trampoline works

  /** Through the trampoline, every instruction set in which the first word does not depend on its place gets
      from any state to where the function's first instruction gets. */
  ghost predicate Enters(before: Memory, after: Memory, t: Word, h: Word, w: Word) {
    forall isa: Isa, rest: Rest :: PositionFree(isa, w, t, h) ==>
      Run(isa, after, Cpu(h, rest), 1 + Detour(isa, w, t, rest)) == Step(isa, before, Cpu(t, rest))
  }

  /** An instruction set whose every instruction leaves its word in the flags and goes on, or jumps to 0. */
  function Marking(jumps: bool): Isa {
    (word: Word, _: Word, r: Rest) => Effect(r.(flags := word), if jumps then Some(0) else None)
  }

  lemma TwoSteps(isa: Isa, m: Memory, s: Cpu)
    ensures Run(isa, m, s, 1) == Step(isa, m, s)
    ensures Run(isa, m, s, 2) == Step(isa, m, Step(isa, m, s))
  {
    var next := Step(isa, m, s);
    assert Run(isa, m, next, 0) == next;
    assert Run(isa, m, next, 1) == Run(isa, m, Step(isa, m, next), 0);
  }

  /** A wrong first word shows: the instruction that only marks and jumps leaves another mark. */
  lemma WrongFirstWord(before: Memory, after: Memory, t: Word, h: Word, w: Word)
    requires !IsBranch(w) && w != LDR_PC && Fetch(before, t) == w && Fetch(after, h) != w
    ensures !Enters(before, after, t, h, w)
  {
    var isa := Marking(true);
    var rest := Rest([], if w == 0 then 1 else 0, map[]);
    assert PositionFree(isa, w, t, h);
    TwoSteps(isa, after, Cpu(h, rest));
    assert Run(isa, after, Cpu(h, rest), 1 + Detour(isa, w, t, rest)) != Step(isa, before, Cpu(t, rest));
  }

  /** So does a wrong second word: it marks, too, or goes elsewhere. */
  lemma WrongSecondWord(before: Memory, after: Memory, t: Word, h: Word, w: Word)
    requires Apart(t, h) && !IsBranch(w) && w != LDR_PC && Fetch(before, t) == w && Fetch(after, h) == w
    requires !GoesBack(Fetch(after, h + 4), h + 4, t)
    ensures !Enters(before, after, t, h, w)
  {
    hide BranchTarget;
    var isa := Marking(false);
    var rest := Rest([], 0, map[]);
    assert PositionFree(isa, w, t, h);
    TwoSteps(isa, after, Cpu(h, rest));
    WrapInjective(t, h + 4, 4);
    assert Run(isa, after, Cpu(h, rest), 1 + Detour(isa, w, t, rest)) != Step(isa, before, Cpu(t, rest));
  }

  /** The trampoline enters the function exactly if the processor fetches the moved word and then a word
      that goes back. */
  lemma EntersIff(before: Memory, after: Memory, t: Word, h: Word, w: Word)
    requires Apart(t, h) && Agree(before, after, t, h) && Fetch(before, t) == w && !IsBranch(w) && w != LDR_PC
    requires Load(after.ram, h + 8) == Wrap(t + 4)
    ensures Enters(before, after, t, h, w) <==> Fetch(after, h) == w && GoesBack(Fetch(after, h + 4), h + 4, t)
  {
    hide Agree, GoesBack, PositionFree, Detour, Run, Step;
    if Fetch(after, h) != w {
      WrongFirstWord(before, after, t, h, w);
    } else if !GoesBack(Fetch(after, h + 4), h + 4, t) {
      WrongSecondWord(before, after, t, h, w);
    } else {
      forall isa: Isa, rest: Rest | PositionFree(isa, w, t, h)
        ensures Run(isa, after, Cpu(h, rest), 1 + Detour(isa, w, t, rest)) == Step(isa, before, Cpu(t, rest))
      {
        TrampolineArrives(isa, before, after, t, h, w, rest);
      }
    }
  }

  /** Main theorem, on the state before hook(): the trampoline it leaves works exactly if the instruction
      side has nothing harmful cached of its two instructions. */
  lemma HookWorksIff(symbols: map<string, Word>, m: Memory, e: Entry, t: Word, h: Word, w: Word)
    requires t == Home(symbols, e) != 0 && Apart(t, h) && Coherent(m, t)
    requires w == Load(m.ram, t) && !IsBranch(w) && w != LDR_PC
    ensures var now := HookOne(symbols, m, e);
            Enters(Seen(m, h, e), Seen(now.m, h, now.e), t, h, w) <==> Harmless(m.icache, h, t, w)
  {
    var now := HookOne(symbols, m, e);
    var before, after := Seen(m, h, e), Seen(now.m, h, now.e);
    OnlyFourWordsDiffer(symbols, m, e, t, h);
    assert Fetch(before, t) == w && Load(after.ram, h + 8) == Wrap(t + 4);
    assert Fetch(after, h) == if h in m.icache then m.icache[h] else w;
    assert Fetch(after, h + 4) == if h + 4 in m.icache then m.icache[h + 4] else LDR_PC;
    hide Enters, Seen, HookOne, Fetch, BranchTarget;
    EntersIff(before, after, t, h, w);
  }

  lemma OnlyFourWordsDiffer(symbols: map<string, Word>, m: Memory, e: Entry, t: Word, h: Word)
    requires t == Home(symbols, e) != 0 && Apart(t, h)
    ensures var now := HookOne(symbols, m, e); Agree(Seen(m, h, e), Seen(now.m, h, now.e), t, h)
  {
    hide BranchWord;
  }

  /** The two kinds of first words that do depend on their place.  A branch always goes elsewhere from the
      trampoline, which is also what hooking twice without unhooking would leave; LDR PC, [PC, #-4] loads its
      target from the trampoline's second word, and goes to the same place exactly if the function's second
      word is that very instruction. */
  lemma PlacedFirstWord(isa: Isa, symbols: map<string, Word>, m: Memory, e: Entry, t: Word, h: Word, w: Word,
                        rest: Rest)
    requires t == Home(symbols, e) != 0 && Apart(t, h) && Coherent(m, t)
    requires w == Load(m.ram, t) && (h in m.icache ==> m.icache[h] == w)
    ensures var now := HookOne(symbols, m, e);
            var there, here := Step(isa, Seen(m, h, e), Cpu(t, rest)), Step(isa, Seen(now.m, h, now.e), Cpu(h, rest));
            && (IsBranch(w) ==> here != there)
            && (w == LDR_PC ==> (here == there <==> Load(Seen(m, h, e).ram, Wrap(t + 4)) == LDR_PC))
  {
    hide BranchWord;
    var now := HookOne(symbols, m, e);
    assert Fetch(Seen(m, h, e), t) == w && Fetch(Seen(now.m, h, now.e), h) == w;
    assert Load(Seen(now.m, h, now.e).ram, h + 4) == LDR_PC;
    WrapInjective(h, t, 8 + 4 * Signed24(w % 0x100_0000));
  }

  lemma WrapInjective(a: Word, b: Word, off: int)
    requires a != b
    ensures Wrap(a + off) != Wrap(b + off)
  {
  }

  /** One way to fail: a branch to itself, cached of one of the trampoline's instructions. */
  lemma StaleTrampolineHangs(isa: Isa, symbols: map<string, Word>, m: Memory, e: Entry, h: Word, a: Word, rest: Rest,
                             n: nat)
    requires a == h || a == h + 4
    requires a in m.icache && m.icache[a] == 0xeaff_fffe && a != Home(symbols, e)
    ensures var now := HookOne(symbols, m, e); Run(isa, Seen(now.m, h, now.e), Cpu(a, rest), n) == Cpu(a, rest)
    decreases n
  {
    var now := HookOne(symbols, m, e);
    var seen := Seen(now.m, h, now.e);
    assert Step(isa, seen, Cpu(a, rest)) == Cpu(a, rest);
    if n > 0 { StaleTrampolineHangs(isa, symbols, m, e, h, a, rest, n - 1); }
  }
}
