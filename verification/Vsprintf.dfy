/** The number formatter of bootstrap/hboot/vsprintf.c: what it prints, how long that is, and that the
    value can be read back from it. */
module Vsprintf {

  const TWO_32 := 0x1_0000_0000
  const TWO_31 := 0x8000_0000

  /** The type argument, bit by bit. */
  datatype Flags = Flags(zeropad: bool, sign: bool, plus: bool, space: bool, left: bool, special: bool, small: bool)

  /** A C int on this machine. */
  predicate IsInt(n: int) { -TWO_31 <= n < TWO_31 }

  /** The bits of an int read as unsigned. */
  function Unsigned(n: int): nat
    requires IsInt(n)
  {
    if n < 0 then n + TWO_32 else n
  }

  predicate Negative(num: int, f: Flags) { f.sign && num < 0 }

  /** What the digits show: the magnitude of a signed number, the unsigned reading of any other. */
  function Magnitude(num: int, f: Flags): nat
    requires IsInt(num)
  {
    if Negative(num, f) then -num else Unsigned(num)
  }

  // ---------------------------------------------------------------- digits

  function Positional(u: nat, base: nat): (ds: seq<nat>)
    requires base >= 2
    ensures forall i :: 0 <= i < |ds| ==> ds[i] < base
    decreases u
  {
    if u == 0 then [] else Positional(u / base, base) + [u % base]
  }

  /** The digits of u, most significant first. */
  function Digits(u: nat, base: nat): (ds: seq<nat>)
    requires base >= 2
    ensures |ds| >= 1
    ensures forall i :: 0 <= i < |ds| ==> ds[i] < base
  {
    if u == 0 then [0] else Positional(u, base)
  }

  /** The number that digits spell out behind what was read before. */
  function Value(acc: nat, ds: seq<nat>, base: nat): nat
    decreases ds
  {
    if ds == [] then acc else Value(acc * base + ds[0], ds[1..], base)
  }

  lemma {:induction false} ValueSnoc(acc: nat, ds: seq<nat>, d: nat, base: nat)
    ensures Value(acc, ds + [d], base) == Value(acc, ds, base) * base + d
    decreases ds
  {
    if ds == [] {
      assert [] + [d] == [d] && [d][1..] == [];
    } else {
      assert (ds + [d])[0] == ds[0] && (ds + [d])[1..] == ds[1..] + [d];
      ValueSnoc(acc * base + ds[0], ds[1..], d, base);
    }
  }

  lemma DivMod(u: nat, base: nat, q: nat, r: nat)
    requires base >= 2 && q == u / base && r == u % base
    ensures q * base + r == u && r < base
    ensures u > 0 ==> q < u
  {
  }

  lemma PositionalSplits(u: nat, base: nat, q: nat, r: nat)
    requires base >= 2 && u > 0 && q == u / base && r == u % base
    ensures Positional(u, base) == Positional(q, base) + [r]
  {
  }

  lemma {:induction false} PositionalValue(u: nat, base: nat)
    requires base >= 2
    ensures Value(0, Positional(u, base), base) == u
    decreases u
  {
    if u > 0 {
      var q, r := u / base, u % base;
      DivMod(u, base, q, r);
      PositionalValue(q, base);
      PositionalSplits(u, base, q, r);
      ValueSnoc(0, Positional(q, base), r, base);
      hide *;
    }
  }

  lemma DigitsValue(u: nat, base: nat)
    requires base >= 2
    ensures Value(0, Digits(u, base), base) == u
  {
    if u == 0 {
      assert [0][1..] == [];
    } else {
      PositionalValue(u, base);
    }
  }

  lemma HalfBelow(u: nat, base: nat, q: nat, h: nat)
    requires base >= 2 && u < 2 * h && q == u / base
    ensures q < h
  {
    DivMod(u, base, q, u % base);
    if q >= h {
      Product(q, base, h);
      assert false;
    }
  }

  lemma Product(q: nat, base: nat, h: nat)
    requires q >= h && base >= 2
    ensures q * base >= 2 * h
  {
  }

  function Pow2(n: nat): nat { if n == 0 then 1 else 2 * Pow2(n - 1) }

  lemma {:induction false} FewDigits(u: nat, base: nat, n: nat)
    requires base >= 2 && u < Pow2(n)
    ensures |Positional(u, base)| <= n
    decreases u
  {
    if u > 0 {
      var q := u / base;
      DivMod(u, base, q, u % base);
      PositionalSplits(u, base, q, u % base);
      assert n > 0 && Pow2(n) == 2 * Pow2(n - 1);
      HalfBelow(u, base, q, Pow2(n - 1));
      FewDigits(q, base, n - 1);
      hide *;
    }
  }

  /** 32 bits never need more than 32 digits, so the 36-byte scratch buffer is large enough. */
  lemma DigitsFitScratch(u: nat, base: nat)
    requires base >= 2 && u < TWO_32
    ensures |Digits(u, base)| <= 32
  {
    assert Pow2(8) == 0x100;
    assert Pow2(16) == 0x1_0000;
    assert Pow2(24) == 0x100_0000;
    assert Pow2(32) == TWO_32;
    FewDigits(u, base, 32);
  }

  // ---------------------------------------------------------------- the printed form

  const LARGE_DIGITS := "0123456789ABCDEFGHIJKLMNOPQRSTUVWXYZ"
  const SMALL_DIGITS := "0123456789abcdefghijklmnopqrstuvwxyz"

  function DigitChar(d: nat, small: bool): char
    requires d < 36
  {
    if small then SMALL_DIGITS[d] else LARGE_DIGITS[d]
  }

  function Show(ds: seq<nat>, small: bool): (s: string)
    requires forall i :: 0 <= i < |ds| ==> ds[i] < 36
    ensures |s| == |ds| && forall i :: 0 <= i < |s| ==> s[i] == DigitChar(ds[i], small)
  {
    seq(|ds|, i requires 0 <= i < |ds| => DigitChar(ds[i], small))
  }

  function Times(c: char, n: int): (s: string)
    ensures |s| == (if n > 0 then n else 0) && forall i :: 0 <= i < |s| ==> s[i] == c
  {
    if n <= 0 then [] else seq(n, _ => c)
  }

  function Sign(num: int, f: Flags): string {
    if Negative(num, f) then "-" else if f.plus then "+" else if f.space then " " else ""
  }

  function Prefix(base: nat, f: Flags): string {
    if !f.special then "" else if base == 8 then "0" else if base == 16 then ['0', DigitChar(33, f.small)] else ""
  }

  /** The digits with the leading zeros that the precision asks for. */
  function Body(num: int, base: nat, precision: int, f: Flags): string
    requires IsInt(num) && 2 <= base <= 36
  {
    var ds := Digits(Magnitude(num, f), base);
    Times('0', precision - |ds|) + Show(ds, f.small)
  }

  /** What is printed: sign, prefix and body, with the padding where the flags want it. */
  function Layout(num: int, base: nat, size: int, precision: int, f: Flags): string
    requires IsInt(num) && 2 <= base <= 36
  {
    var sign, prefix, body := Sign(num, f), Prefix(base, f), Body(num, base, precision, f);
    var pad := size - |sign| - |prefix| - |body|;
    if f.left then sign + prefix + body + Times(' ', pad)
    else if f.zeropad then sign + prefix + Times('0', pad) + body
    else Times(' ', pad) + sign + prefix + body
  }

  function Max(a: int, b: int): int { if a > b then a else b }

  /** The printed length. */
  lemma LayoutLength(num: int, base: nat, size: int, precision: int, f: Flags)
    requires IsInt(num) && 2 <= base <= 36
    ensures |Layout(num, base, size, precision, f)|
         == Max(size, |Sign(num, f)| + |Prefix(base, f)| + Max(precision, |Digits(Magnitude(num, f), base)|))
  {
  }

  // ---------------------------------------------------------------- reading back

  function SkipSpaces(s: string): string {
    if s != [] && s[0] == ' ' then SkipSpaces(s[1..]) else s
  }

  /** The value of a digit character in a base, or the base itself if it is none. */
  function DigitOf(c: char, base: nat): nat {
    var d := if '0' <= c <= '9' then c as int - '0' as int
             else if 'a' <= c <= 'z' then c as int - 'a' as int + 10
             else if 'A' <= c <= 'Z' then c as int - 'A' as int + 10 else base;
    if d < base then d else base
  }

  function ReadDigits(acc: nat, s: string, base: nat): nat
    decreases s
  {
    if s == [] || DigitOf(s[0], base) >= base then acc
    else ReadDigits(acc * base + DigitOf(s[0], base), s[1..], base)
  }

  function ReadUnsigned(s: string, base: nat): nat {
    if base == 16 && |s| >= 2 && s[0] == '0' && (s[1] == 'x' || s[1] == 'X')
    then ReadDigits(0, s[2..], base) else ReadDigits(0, s, base)
  }

  /** An ordinary number reader: blanks, a sign, a prefix, digits. */
  function ReadNumber(s: string, base: nat): int {
    var t := SkipSpaces(s);
    if t == [] then 0
    else if t[0] == '-' then 0 - ReadUnsigned(t[1..], base)
    else if t[0] == '+' then ReadUnsigned(t[1..], base)
    else ReadUnsigned(t, base)
  }

  predicate ReadableBase(base: nat) { base == 8 || base == 10 || base == 16 }

  lemma DigitCharIsRead(d: nat, small: bool, base: nat)
    requires ReadableBase(base) && d < base
    ensures var c := DigitChar(d, small);
            DigitOf(c, base) == d && c != ' ' && c != '-' && c != '+' && c != 'x' && c != 'X' && (c == '0' <==> d == 0)
  {
    if d < 10 { DecimalDigit(d, small); } else { HexDigit(d, small); }
    hide DigitChar;
  }

  lemma DecimalDigit(d: nat, small: bool)
    requires d < 10
    ensures DigitChar(d, small) == '0' + d as char
  {
    match d
    case 0 => case 1 => case 2 => case 3 => case 4 => case 5 => case 6 => case 7 => case 8 => case _ => assert d == 9;
  }

  lemma HexDigit(d: nat, small: bool)
    requires 10 <= d < 16
    ensures DigitChar(d, small) == (if small then 'a' else 'A') + (d - 10) as char
  {
    match d
    case 10 => case 11 => case 12 => case 13 => case 14 => case _ => assert d == 15;
  }

  ghost predicate DigitsOf(ds: seq<nat>, base: nat) {
    forall i :: 0 <= i < |ds| ==> ds[i] < base
  }

  predicate Blank(tail: string) { tail == [] || tail[0] == ' ' }

  lemma {:induction false} ShownDigitsAreRead(acc: nat, ds: seq<nat>, small: bool, base: nat, tail: string)
    requires ReadableBase(base) && DigitsOf(ds, base) && Blank(tail)
    ensures ReadDigits(acc, Show(ds, small) + tail, base) == Value(acc, ds, base)
    decreases ds
  {
    hide DigitOf, DigitChar, Value;
    var s := Show(ds, small) + tail;
    if ds == [] {
      assert s == tail;
      BlankEnds(acc, tail, base);
      NoDigits(acc, base);
    } else {
      DigitCharIsRead(ds[0], small, base);
      assert s[0] == DigitChar(ds[0], small) && s[1..] == Show(ds[1..], small) + tail;
      ShownDigitsAreRead(acc * base + ds[0], ds[1..], small, base, tail);
      MoreDigits(acc, ds, base);
    }
  }

  lemma BlankEnds(acc: nat, tail: string, base: nat)
    requires Blank(tail)
    ensures ReadDigits(acc, tail, base) == acc
  {
  }

  lemma NoDigits(acc: nat, base: nat)
    ensures Value(acc, [], base) == acc
  {
  }

  lemma MoreDigits(acc: nat, ds: seq<nat>, base: nat)
    requires ds != []
    ensures Value(acc, ds, base) == Value(acc * base + ds[0], ds[1..], base)
  {
  }

  function Zeros(n: nat): (ds: seq<nat>)
    ensures |ds| == n && forall i :: 0 <= i < n ==> ds[i] == 0
  {
    seq(n, _ => 0)
  }

  lemma {:induction false} LeadingZeros(n: nat, ds: seq<nat>, base: nat)
    ensures Value(0, Zeros(n) + ds, base) == Value(0, ds, base)
  {
    if n == 0 {
      assert Zeros(0) + ds == ds;
    } else {
      assert (Zeros(n) + ds)[0] == 0 && (Zeros(n) + ds)[1..] == Zeros(n - 1) + ds;
      LeadingZeros(n - 1, ds, base);
    }
  }

  lemma {:induction false} BlanksAreSkipped(n: nat, t: string)
    requires t != [] && t[0] != ' '
    ensures SkipSpaces(Times(' ', n) + t) == t
    decreases n
  {
    if n == 0 {
      assert Times(' ', 0) + t == t;
    } else {
      assert (Times(' ', n) + t)[1..] == Times(' ', n - 1) + t;
      BlanksAreSkipped(n - 1, t);
    }
  }

  /** A digit string, possibly behind the prefix that the flags ask for, is read as its value. */
  lemma NumeralIsRead(ds: seq<nat>, base: nat, f: Flags, tail: string)
    requires ReadableBase(base) && DigitsOf(ds, base) && ds != [] && Blank(tail)
    ensures var t := Prefix(base, f) + (Show(ds, f.small) + tail);
            && t != [] && t[0] != ' ' && t[0] != '-' && t[0] != '+'
            && ReadUnsigned(t, base) == Value(0, ds, base)
  {
    hide DigitOf, DigitChar, ReadDigits, Value, Show;
    var shown := Show(ds, f.small) + tail;
    DigitCharIsRead(ds[0], f.small, base);
    if |ds| > 1 {
      DigitCharIsRead(ds[1], f.small, base);
    }
    ShownDigitsAreRead(0, ds, f.small, base, tail);
    if f.special && base == 8 {
      OctalPrefix(ds, f.small, tail);
      ShownDigitsAreRead(0, Zeros(1) + ds, f.small, base, tail);
      LeadingZeros(1, ds, base);
    } else if f.special && base == 16 {
      HexPrefix(f.small);
      assert (Prefix(base, f) + shown)[2..] == shown;
    } else {
      assert Prefix(base, f) + shown == shown;
      assert |shown| >= 2 ==> shown[1] == if |ds| > 1 then DigitChar(ds[1], f.small) else tail[0];
    }
  }

  lemma OctalPrefix(ds: seq<nat>, small: bool, tail: string)
    requires forall i :: 0 <= i < |ds| ==> ds[i] < 36
    ensures Show(Zeros(1) + ds, small) + tail == "0" + (Show(ds, small) + tail)
  {
    assert DigitChar(0, small) == '0';
  }

  lemma HexPrefix(small: bool)
    ensures DigitChar(33, small) == if small then 'x' else 'X'
  {
  }

  lemma ZerosShown(n: nat, ds: seq<nat>, small: bool)
    requires forall i :: 0 <= i < |ds| ==> ds[i] < 36
    ensures Show(Zeros(n) + ds, small) == Times('0', n) + Show(ds, small)
  {
    assert DigitChar(0, small) == '0';
    hide DigitChar;
  }

  lemma TimesTwice(c: char, a: nat, b: nat)
    ensures Times(c, a) + Times(c, b) == Times(c, a + b)
  {
  }

  lemma BodyShown(num: int, base: nat, precision: int, f: Flags, zeros: nat) returns (n: nat)
    requires IsInt(num) && 2 <= base <= 36
    ensures Times('0', zeros) + Body(num, base, precision, f)
            == Show(Zeros(n) + Digits(Magnitude(num, f), base), f.small)
  {
    hide Digits, Magnitude, Show, Times, Zeros;
    var ds := Digits(Magnitude(num, f), base);
    var more := TimesNat('0', precision - |ds|);
    n := zeros + more;
    TimesTwice('0', zeros, more);
    ZerosShown(n, ds, f.small);
    var shown := Show(ds, f.small);
    assert Times('0', zeros) + (Times('0', more) + shown) == Times('0', zeros) + Times('0', more) + shown;
  }

  lemma TimesNat(c: char, n: int) returns (p: nat)
    ensures Times(c, n) == Times(c, p) && Times(c, 0) == ""
  {
    p := if n > 0 then n else 0;
  }

  /** Blanks, the sign, the prefix, the digits behind n zeros, and blanks. */
  function Shaped(num: int, base: nat, f: Flags, a: nat, n: nat, b: nat): string
    requires IsInt(num) && 2 <= base <= 36
  {
    Times(' ', a) + (Sign(num, f) + (Prefix(base, f)
    + (Show(Zeros(n) + Digits(Magnitude(num, f), base), f.small) + Times(' ', b))))
  }

  function Padding(num: int, base: nat, size: int, precision: int, f: Flags): int
    requires IsInt(num) && 2 <= base <= 36
  {
    size - |Sign(num, f)| - |Prefix(base, f)| - |Body(num, base, precision, f)|
  }

  lemma LeftShape(num: int, base: nat, size: int, precision: int, f: Flags) returns (n: nat, b: nat)
    requires IsInt(num) && 2 <= base <= 36 && f.left
    ensures Layout(num, base, size, precision, f) == Shaped(num, base, f, 0, n, b)
  {
    hide Body, Digits, Show, Sign, Prefix, Magnitude, Zeros, Times;
    var sign, prefix, body := Sign(num, f), Prefix(base, f), Body(num, base, precision, f);
    b := TimesNat(' ', Padding(num, base, size, precision, f));
    n := BodyShown(num, base, precision, f, 0);
    var z := TimesNat('0', 0);
    assert "" + body == body;
    assert "" + (sign + (prefix + (body + Times(' ', b)))) == sign + prefix + body + Times(' ', b);
  }

  lemma ZeroShape(num: int, base: nat, size: int, precision: int, f: Flags) returns (n: nat)
    requires IsInt(num) && 2 <= base <= 36 && !f.left && f.zeropad
    ensures Layout(num, base, size, precision, f) == Shaped(num, base, f, 0, n, 0)
  {
    hide Body, Digits, Show, Sign, Prefix, Magnitude, Zeros, Times;
    var sign, prefix, body := Sign(num, f), Prefix(base, f), Body(num, base, precision, f);
    var p := TimesNat('0', Padding(num, base, size, precision, f));
    n := BodyShown(num, base, precision, f, p);
    var z := TimesNat(' ', 0);
    var shown := Times('0', p) + body;
    assert "" + (sign + (prefix + (shown + ""))) == sign + prefix + Times('0', p) + body;
  }

  lemma RightShape(num: int, base: nat, size: int, precision: int, f: Flags) returns (a: nat, n: nat)
    requires IsInt(num) && 2 <= base <= 36 && !f.left && !f.zeropad
    ensures Layout(num, base, size, precision, f) == Shaped(num, base, f, a, n, 0)
  {
    hide Body, Digits, Show, Sign, Prefix, Magnitude, Zeros, Times;
    var sign, prefix, body := Sign(num, f), Prefix(base, f), Body(num, base, precision, f);
    a := TimesNat(' ', Padding(num, base, size, precision, f));
    n := BodyShown(num, base, precision, f, 0);
    var z := TimesNat('0', 0);
    assert "" + body == body;
    assert Times(' ', a) + (sign + (prefix + (body + ""))) == Times(' ', a) + sign + prefix + body;
  }

  /** Whatever the flags, the output is blanks, the sign, the prefix, a numeral, and blanks. */
  lemma LayoutShape(num: int, base: nat, size: int, precision: int, f: Flags) returns (a: nat, n: nat, b: nat)
    requires IsInt(num) && 2 <= base <= 36
    ensures Layout(num, base, size, precision, f) == Shaped(num, base, f, a, n, b)
  {
    hide *;
    a, b := 0, 0;
    if f.left {
      n, b := LeftShape(num, base, size, precision, f);
    } else if f.zeropad {
      n := ZeroShape(num, base, size, precision, f);
    } else {
      a, n := RightShape(num, base, size, precision, f);
    }
  }

  /** Main theorem: whatever the width, precision and flags, and for every 32-bit value including the most
      negative one, an ordinary reader gets the number back from what was printed. */
  lemma PrintedNumberReadsBack(num: int, base: nat, size: int, precision: int, f: Flags)
    requires IsInt(num) && ReadableBase(base)
    ensures ReadNumber(Layout(num, base, size, precision, f), base) == if f.sign then num else Unsigned(num)
  {
    hide Digits, Show, Prefix, Zeros, Layout, ReadUnsigned, Value, SkipSpaces, Times;
    var a, n, b := LayoutShape(num, base, size, precision, f);
    var ds := Digits(Magnitude(num, f), base);
    var numeral := Prefix(base, f) + (Show(Zeros(n) + ds, f.small) + Times(' ', b));
    var sign := Sign(num, f);
    NumeralIsRead(Zeros(n) + ds, base, f, Times(' ', b));
    LeadingZeros(n, ds, base);
    DigitsValue(Magnitude(num, f), base);
    if sign == "" {
      assert sign + numeral == numeral;
      BlanksAreSkipped(a, numeral);
    } else if sign == " " {
      assert Times(' ', a) + (" " + numeral) == Times(' ', a + 1) + numeral;
      BlanksAreSkipped(a + 1, numeral);
    } else {
      BlanksAreSkipped(a, sign + numeral);
      assert (sign + numeral)[1..] == numeral;
    }
  }

  // ---------------------------------------------------------------- number()

  /** n times the character; like the source's loop it counts n down as it looks at it, once more than it
      writes. */
  method Pad(str: string, c: char, n: int) returns (out: string, left: int)
    ensures out == str + Times(c, n)
    ensures left == if n > 0 then -1 else n - 1
  {
    out, left := str, n;
    while left > 0
      invariant left <= n && (left >= 0 || left == n)
      invariant out == str + Times(c, n - if left > 0 then left else 0)
      decreases left
    {
      left := left - 1;
      out := out + [c];
    }
    left := left - 1;
  }

  /** do_div */
  method DoDiv(num: nat, base: nat) returns (res: nat, quotient: nat)
    requires base >= 2
    ensures quotient * base + res == num && res < base
  {
    res := num % base;
    quotient := num / base;
    DivMod(num, base, quotient, res);
  }

  lemma OnlyQuotient(u: nat, base: nat, q: nat, r: nat)
    requires base >= 2 && q * base + r == u && r < base
    ensures q == u / base && r == u % base
  {
    var d := u / base - q;
    DivMod(u, base, u / base, u % base);
    assert d * base == (u / base) * base - q * base;
    Multiple(d, base);
  }

  lemma Multiple(d: int, base: int)
    requires base > 0
    ensures d >= 1 ==> d * base >= base
    ensures d <= -1 ==> d * base <= -base
  {
  }

  lemma DigitStep(u: nat, base: nat, q: nat, r: nat, low: seq<nat>, all: seq<nat>)
    requires base >= 2 && u > 0 && q * base + r == u && r < base
    requires Positional(u, base) + low == all
    ensures Positional(q, base) + ([r] + low) == all && q < u && r < base && |all| >= 1 + |low|
  {
    OnlyQuotient(u, base, q, r);
    PositionalSplits(u, base, q, r);
    DivMod(u, base, q, r);
    assert (Positional(q, base) + [r]) + low == Positional(q, base) + ([r] + low);
    hide *;
  }

  lemma DigitEnd(base: nat, low: seq<nat>, all: seq<nat>)
    requires base >= 2 && Positional(0, base) + low == all
    ensures low == all
  {
    assert [] + low == low;
  }

  method DigitLoop(num: nat, base: nat, small: bool, tmp: array<char>, ghost all: seq<nat>) returns (i: nat)
    requires 2 <= base <= 36 && Positional(num, base) == all && |all| <= tmp.Length
    modifies tmp
    ensures i == |all| && forall k :: 0 <= k < i ==> all[k] < 36
    ensures forall k :: 0 <= k < i ==> tmp[k] == DigitChar(all[i - 1 - k], small)
  {
    hide DigitChar, Positional;
    i := 0;
    var u := num;
    ghost var low: seq<nat> := [];
    assert Positional(num, base) + low == all;
    while u != 0
      invariant |low| == i && Positional(u, base) + low == all
      invariant forall k :: 0 <= k < i ==> low[k] < base
      invariant forall k :: 0 <= k < i ==> tmp[k] == DigitChar(low[i - 1 - k], small)
      decreases u
    {
      var d, rest := DoDiv(u, base);
      DigitStep(u, base, rest, d, low, all);
      tmp[i] := DigitChar(d, small);
      u := rest;
      low := [d] + low;
      i := i + 1;
    }
    DigitEnd(base, low, all);
  }

  /** The digits of num, least significant first, in the 36-byte scratch buffer. */
  method Scratch(num: nat, base: nat, small: bool) returns (tmp: array<char>, i: nat)
    requires num < TWO_32 && 2 <= base <= 36
    ensures fresh(tmp) && tmp.Length == 36
    ensures i == |Digits(num, base)| <= 36
    ensures forall k :: 0 <= k < i ==> tmp[k] == DigitChar(Digits(num, base)[i - 1 - k], small)
  {
    DigitsFitScratch(num, base);
    tmp := new char[36](_ => '0');
    if num == 0 {
      tmp[0] := '0';
      i := 1;
      ZeroChar(small);
    } else {
      hide DigitChar, Positional;
      i := DigitLoop(num, base, small, tmp, Positional(num, base));
    }
  }

  /** The digits out of the scratch buffer, most significant first. */
  method WriteDigits(str: string, tmp: array<char>, count: nat, ghost ds: seq<nat>, small: bool) returns (out: string)
    requires count == |ds| <= tmp.Length
    requires forall k :: 0 <= k < count ==> ds[k] < 36
    requires forall k :: 0 <= k < count ==> tmp[k] == DigitChar(ds[count - 1 - k], small)
    ensures out == str + Show(ds, small)
  {
    hide DigitChar;
    out := str;
    var i := count;
    while i > 0
      invariant 0 <= i <= count
      invariant out == str + Show(ds, small)[..count - i]
      decreases i
    {
      i := i - 1;
      out := out + [tmp[i]];
    }
  }

  lemma ZeroChar(small: bool)
    ensures DigitChar(0, small) == '0'
  {
  }

  lemma NoPad(c: char, n: int)
    requires n <= 0
    ensures Times(c, n) == ""
  {
  }

  /** The layout with all three places where padding can go. */
  lemma LayoutIs(num: int, base: nat, size: int, precision: int, f: Flags, pad: int, lead: int, shown: string)
    requires IsInt(num) && 2 <= base <= 36
    requires var ds := Digits(Magnitude(num, f), base);
             shown == Show(ds, f.small) && lead == Max(precision, |ds|) - |ds|
             && pad == size - |Sign(num, f)| - |Prefix(base, f)| - Max(precision, |ds|)
    ensures Layout(num, base, size, precision, f) ==
            (if f.left || f.zeropad then "" else Times(' ', pad)) + Sign(num, f) + Prefix(base, f)
            + (if !f.left && f.zeropad then Times('0', pad) else "") + Times('0', lead) + shown
            + (if f.left then Times(' ', pad) else "")
  {
    hide Digits, Show, Sign, Prefix, Magnitude, Times;
    var ds := Digits(Magnitude(num, f), base);
    var sign, prefix, body := Sign(num, f), Prefix(base, f), Times('0', lead) + shown;
    if precision < |ds| {
      NoPad('0', precision - |ds|);
      NoPad('0', lead);
    }
    assert Body(num, base, precision, f) == body;
    hide Body;
    if f.left {
      assert sign + prefix + body + Times(' ', pad)
             == "" + sign + prefix + "" + Times('0', lead) + shown + Times(' ', pad);
    } else if f.zeropad {
      assert sign + prefix + Times('0', pad) + body
             == "" + sign + prefix + Times('0', pad) + Times('0', lead) + shown + "";
    } else {
      assert Times(' ', pad) + sign + prefix + body
             == Times(' ', pad) + sign + prefix + "" + Times('0', lead) + shown + "";
    }
  }

  method SignAndMagnitude(num: int, f: Flags) returns (sign: string, u: nat)
    requires IsInt(num)
    ensures sign == Sign(num, f) && u == Magnitude(num, f) < TWO_32
  {
    u := Unsigned(num);
    if f.sign && u >= TWO_31 {
      sign := "-";
      u := (TWO_32 - u) % TWO_32;
    } else {
      sign := if f.plus then "+" else if f.space then " " else "";
    }
  }

  method WritePrefix(str: string, base: nat, f: Flags) returns (out: string)
    ensures out == str + Prefix(base, f)
  {
    out := str;
    if f.special {
      if base == 8 {
        out := out + "0";
      } else if base == 16 {
        out := out + ['0', DigitChar(33, f.small)];
      }
    }
  }

  /** number().  A base outside 2..36 gives no output at all. */
  method Number(num: int, base: int, size: int, precision: int, f: Flags) returns (ok: bool, str: string)
    requires IsInt(num)
    ensures ok <==> 2 <= base <= 36
    ensures ok ==> str == Layout(num, base, size, precision, f)
  {
    hide Layout, Show, Digits, Sign, Magnitude, Times;
    str := "";
    var zeropad := f.zeropad && !f.left;
    if base < 2 || base > 36 {
      return false, str;
    }
    ok := true;
    var c := if zeropad then '0' else ' ';
    var sign, u := SignAndMagnitude(num, f);
    var room, prec := size - |sign|, precision;
    if f.special {
      if base == 16 {
        room := room - 2;
      } else if base == 8 {
        room := room - 1;
      }
    }
    assert room == size - |sign| - |Prefix(base, f)|;
    hide Prefix;
    var tmp, i := Scratch(u, base, f.small);
    ghost var ds := Digits(u, base);
    if i > prec {
      prec := i;
    }
    room := room - prec;
    ghost var pad := room;
    LayoutIs(num, base, size, precision, f, pad, prec - i, Show(ds, f.small));

    if !zeropad && !f.left {
      str, room := Pad(str, ' ', room);
      assert "" + Times(' ', pad) == Times(' ', pad);
    }
    str := WritePrefix(str + sign, base, f);
    if !f.left {
      if !zeropad {
        NoPad(c, room);
      }
      str, room := Pad(str, c, room);
    } else {
      assert str + "" == str;
    }
    var extra;
    str, extra := Pad(str, '0', prec - i);
    str := WriteDigits(str, tmp, i, ds, f.small);
    if !f.left {
      NoPad(' ', room);
    }
    str, room := Pad(str, ' ', room);
  }
}
