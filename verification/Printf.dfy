/** The directive loop of bootstrap/hboot/vsprintf.c: which directive a format spells, and what it prints. */
module Printf {
  import opened Basics
  import opened Vsprintf

  type Int32 = n: int | -0x8000_0000 <= n < 0x8000_0000

  /** What the k-th variable argument reads as, taken as an int or as a string. */
  datatype Args = Args(ints: nat -> Int32, strs: nat -> string)

  /** The text so far, how many arguments are used up, and what %n has stored. */
  datatype Out = Out(text: string, used: nat, stores: seq<nat>) {
    function Put(s: string): Out { this.(text := text + s) }
    function Take(s: string): Out { this.(text := text + s, used := used + 1) }
  }

  function At(fmt: string): char {
    if fmt == "" then '\0' else fmt[0]
  }

  function Behind(fmt: string): string {
    if fmt == "" then "" else fmt[1..]
  }

  predicate IsDigit(c: char) { '0' <= c <= '9' }

  const NO_FLAGS: Flags := Flags(false, false, false, false, false, false, false)

  predicate IsFlag(c: char) { c == '-' || c == '+' || c == ' ' || c == '#' || c == '0' }

  function SetFlag(f: Flags, c: char): Flags {
    match c
    case '-' => f.(left := true)
    case '+' => f.(plus := true)
    case ' ' => f.(space := true)
    case '#' => f.(special := true)
    case _ => f.(zeropad := true)
  }

  datatype Scanned<T> = Scanned(value: T, rest: string)

  /** The flag characters in front. */
  function ScanFlags(fmt: string, f: Flags): (r: Scanned<Flags>)
    ensures |r.rest| <= |fmt|
  {
    if fmt != "" && IsFlag(fmt[0]) then ScanFlags(fmt[1..], SetFlag(f, fmt[0])) else Scanned(f, fmt)
  }

  /** skip_atoi: the digits in front. */
  function SkipAtoi(fmt: string, acc: nat): (r: Scanned<nat>)
    ensures |r.rest| <= |fmt|
  {
    if fmt != "" && IsDigit(fmt[0]) then SkipAtoi(fmt[1..], acc * 10 + (fmt[0] as int - '0' as int))
    else Scanned(acc, fmt)
  }

  /** A directive up to its conversion character, -1 for a width or precision not given. */
  datatype Spec = Spec(flags: Flags, width: int, precision: int, used: nat)

  function Abs(n: int): nat { if n < 0 then -n else n }

  function ScanWidth(fmt: string, f: Flags, args: Args, used: nat): (r: Scanned<Spec>)
    ensures |r.rest| <= |fmt|
  {
    if IsDigit(At(fmt)) then
      var n := SkipAtoi(fmt, 0);
      Scanned(Spec(f, n.value, -1, used), n.rest)
    else if At(fmt) == '*' then
      var n := args.ints(used);
      Scanned(Spec(if n < 0 then f.(left := true) else f, Abs(n), -1, used + 1), fmt)
    else Scanned(Spec(f, -1, -1, used), fmt)
  }

  function ScanPrecision(fmt: string, s: Spec, args: Args): (r: Scanned<Spec>)
    ensures |r.rest| <= |fmt|
  {
    if At(fmt) != '.' then Scanned(s, fmt)
    else
      var next := fmt[1..];
      if IsDigit(At(next)) then
        var n := SkipAtoi(next, 0);
        Scanned(s.(precision := n.value), n.rest)
      else if At(next) == '*' then Scanned(s.(precision := Max(args.ints(s.used), 0), used := s.used + 1), next)
      else Scanned(s.(precision := 0), next)
  }

  function SkipQualifier(fmt: string): (r: string)
    ensures |r| <= |fmt|
  {
    if At(fmt) in {'h', 'l', 'L'} then fmt[1..] else fmt
  }

  /** A directive from behind its % to its conversion character. */
  function Scan(fmt: string, args: Args, used: nat): (r: Scanned<Spec>)
    ensures |r.rest| <= |fmt|
  {
    var f := ScanFlags(fmt, NO_FLAGS);
    var w := ScanWidth(f.rest, f.value, args, used);
    var p := ScanPrecision(w.rest, w.value, args);
    Scanned(p.value, SkipQualifier(p.rest))
  }

  // ---------------------------------------------------------------- what a directive prints

  function Padded(s: string, width: int, left: bool): (r: string)
    ensures |r| == Max(width, |s|)
  {
    if left then s + Times(' ', width - |s|) else Times(' ', width - |s|) + s
  }

  function Prefixed(s: string, precision: int): (r: string)
    ensures r <= s && (precision >= 0 ==> |r| <= precision)
  {
    if 0 <= precision < |s| then s[..precision] else s
  }

  function BaseOf(c: char): nat {
    if c == 'o' then 8 else if c == 'd' || c == 'i' || c == 'u' then 10 else 16
  }

  predicate IsNumeric(c: char) { c in {'o', 'p', 'x', 'X', 'd', 'i', 'u'} }

  /** The conversions of number(): the flags they add and the width of a pointer. */
  function Numeral(c: char, s: Spec, n: Int32): string
    requires IsNumeric(c)
  {
    var f := if c == 'x' then s.flags.(small := true) else if c == 'd' || c == 'i' then s.flags.(sign := true)
             else if c == 'p' && s.width == -1 then s.flags.(zeropad := true) else s.flags;
    Layout(n, BaseOf(c), if c == 'p' && s.width == -1 then 8 else s.width, s.precision, f)
  }

  function CharOf(n: int): char { (n % 0x100) as char }

  /** A conversion: `c` is '\0' at the end of the format. */
  function Convert(c: char, s: Spec, out: Out, args: Args): Out {
    var o := out.(used := s.used);
    if c == 'c' then o.Take(Padded([CharOf(args.ints(s.used))], s.width, s.flags.left))
    else if c == 's' then o.Take(Padded(Prefixed(args.strs(s.used), s.precision), s.width, s.flags.left))
    else if IsNumeric(c) then o.Take(Numeral(c, s, args.ints(s.used)))
    else if c == 'n' then o.(stores := o.stores + [|o.text|], used := s.used + 1)
    else o.Put((if c != '%' then "%" else "") + if c != '\0' then [c] else "")
  }

  /** The whole of vsprintf from `fmt` on. */
  function Format(fmt: string, out: Out, args: Args): (r: Out)
    decreases |fmt|
  {
    if fmt == "" then out
    else if fmt[0] != '%' then Format(fmt[1..], out.Put([fmt[0]]), args)
    else
      var s := Scan(fmt[1..], args, out.used);
      Format(Behind(s.rest), Convert(At(s.rest), s.value, out, args), args)
  }

  // ---------------------------------------------------------------- what a format spells

  /** A piece of a format as its writer means it: a character, or a directive with numbers for its width and
      precision. */
  datatype Piece =
    | Literal(c: char)
    | Directive(flags: string, width: Option<nat>, precision: Option<nat>, qualifier: string, conversion: char)

  predicate Proper(p: Piece) {
    match p
    case Literal(c) => c != '%'
    case Directive(flags, width, precision, qualifier, conversion) =>
      && (forall i :: 0 <= i < |flags| ==> IsFlag(flags[i]))
      && width != Some(0)
      && qualifier in {"", "h", "l", "L"}
      && conversion !in {'\0', '.', '*', 'h', 'l', 'L'} && !IsFlag(conversion) && !IsDigit(conversion)
  }

  function Number10(n: nat): string { Show(Digits(n, 10), false) }

  function WidthText(width: Option<nat>): string { if width.Some? then Number10(width.value) else "" }
  function PrecisionText(precision: Option<nat>): string {
    if precision.Some? then "." + Number10(precision.value) else ""
  }
  function Given(o: Option<nat>): int { if o.Some? then o.value else -1 }

  function Spelled(p: Piece): string {
    match p
    case Literal(c) => [c]
    case Directive(flags, width, precision, qualifier, conversion) =>
      "%" + (flags + (WidthText(width) + (PrecisionText(precision) + (qualifier + [conversion]))))
  }

  function SpelledAll(ps: seq<Piece>): string {
    if ps == [] then "" else Spelled(ps[0]) + SpelledAll(ps[1..])
  }

  function FlagsOf(flags: string, f: Flags): Flags {
    if flags == "" then f else FlagsOf(flags[1..], SetFlag(f, flags[0]))
  }

  /** What the piece adds to the output. */
  function Meaning(p: Piece, out: Out, args: Args): Out {
    match p
    case Literal(c) => out.Put([c])
    case Directive(flags, width, precision, _, conversion) =>
      Convert(conversion,
              Spec(FlagsOf(flags, NO_FLAGS), Given(width), Given(precision), out.used),
              out, args)
  }

  function MeaningAll(ps: seq<Piece>, out: Out, args: Args): Out
    decreases |ps|
  {
    if ps == [] then out else MeaningAll(ps[1..], Meaning(ps[0], out, args), args)
  }

  lemma {:induction false} FlagsAreScanned(flags: string, rest: string, f: Flags)
    requires forall i :: 0 <= i < |flags| ==> IsFlag(flags[i])
    requires rest == "" || !IsFlag(rest[0])
    ensures ScanFlags(flags + rest, f) == Scanned(FlagsOf(flags, f), rest)
    decreases |flags|
  {
    if flags == "" {
      assert "" + rest == rest;
    } else {
      assert (flags + rest)[1..] == flags[1..] + rest;
      FlagsAreScanned(flags[1..], rest, SetFlag(f, flags[0]));
    }
  }

  lemma DigitChar10(d: nat)
    requires d < 10
    ensures IsDigit(DigitChar(d, false)) && DigitChar(d, false) as int - '0' as int == d
  {
    DecimalDigit(d, false);
    hide DigitChar;
  }

  lemma {:induction false} DigitsAreSkipped(ds: seq<nat>, acc: nat, rest: string)
    requires forall i :: 0 <= i < |ds| ==> ds[i] < 10
    requires rest == "" || !IsDigit(rest[0])
    ensures SkipAtoi(Show(ds, false) + rest, acc) == Scanned(Value(acc, ds, 10), rest)
    decreases |ds|
  {
    hide DigitChar;
    var s := Show(ds, false) + rest;
    if ds == [] {
      assert s == rest;
    } else {
      DigitChar10(ds[0]);
      assert s[0] == DigitChar(ds[0], false) && s[1..] == Show(ds[1..], false) + rest;
      DigitsAreSkipped(ds[1..], acc * 10 + ds[0], rest);
    }
  }

  /** skip_atoi reads a number back that stands in front of something else. */
  lemma NumberIsSkipped(n: nat, rest: string)
    requires rest == "" || !IsDigit(rest[0])
    ensures SkipAtoi(Number10(n) + rest, 0) == Scanned(n, rest)
    ensures Number10(n) != "" && IsDigit(Number10(n)[0]) && (n > 0 ==> Number10(n)[0] != '0')
  {
    DigitsAreSkipped(Digits(n, 10), 0, rest);
    DigitsValue(n, 10);
    DigitChar10(Digits(n, 10)[0]);
    if n > 0 { LeadingDigit(n); }
  }

  lemma {:induction false} LeadingDigit(n: nat)
    requires n > 0
    ensures Positional(n, 10)[0] != 0
  {
    if n >= 10 { LeadingDigit(n / 10); }
  }

  lemma WidthIsScanned(width: Option<nat>, rest: string, f: Flags, args: Args, used: nat)
    requires rest != "" && !IsDigit(rest[0]) && rest[0] != '*'
    ensures ScanWidth(WidthText(width) + rest, f, args, used) == Scanned(Spec(f, Given(width), -1, used), rest)
  {
    if width.Some? {
      NumberIsSkipped(width.value, rest);
    } else {
      assert "" + rest == rest;
    }
  }

  lemma PointAndNumber(n: string, rest: string)
    ensures var t := ("." + n) + rest; t != "" && t[0] == '.' && t[1..] == n + rest
  {
  }

  lemma PrecisionIsScanned(precision: Option<nat>, rest: string, s: Spec, args: Args)
    requires rest != "" && !IsDigit(rest[0]) && rest[0] != '.' && s.precision == -1
    ensures ScanPrecision(PrecisionText(precision) + rest, s, args) == Scanned(s.(precision := Given(precision)), rest)
  {
    if precision.Some? {
      NumberIsSkipped(precision.value, rest);
      PointAndNumber(Number10(precision.value), rest);
      hide Number10, SkipAtoi;
      assert At(Number10(precision.value) + rest) == Number10(precision.value)[0];
    } else {
      assert "" + rest == rest;
    }
  }

  lemma QualifierIsSkipped(qualifier: string, c: char, rest: string)
    requires qualifier in {"", "h", "l", "L"} && c !in {'h', 'l', 'L'}
    ensures SkipQualifier(qualifier + ([c] + rest)) == [c] + rest
  {
    var t := qualifier + ([c] + rest);
    if qualifier == "" { assert t == [c] + rest; } else { assert t[1..] == [c] + rest; }
  }

  /** The text behind a directive's %, part by part. */
  lemma DirectiveText(p: Piece, rest: string)
    requires p.Directive?
    ensures (Spelled(p) + rest)[1..]
         == p.flags + (WidthText(p.width) + (PrecisionText(p.precision) + (p.qualifier + ([p.conversion] + rest))))
  {
    hide WidthText, PrecisionText;
  }

  /** No part can be taken for more of the part in front of it. */
  lemma PartsEnd(p: Piece, last: string)
    requires Proper(p) && p.Directive? && last != "" && last[0] == p.conversion
    ensures var t3 := p.qualifier + last;
            && t3 != "" && !IsDigit(t3[0]) && !IsFlag(t3[0]) && t3[0] != '.' && t3[0] != '*'
            && var t2 := PrecisionText(p.precision) + t3;
               && t2 != "" && !IsDigit(t2[0]) && !IsFlag(t2[0]) && t2[0] != '*'
               && var t1 := WidthText(p.width) + t2; t1 != "" && !IsFlag(t1[0])
  {
    hide Number10;
    if p.width.Some? { NumberIsSkipped(p.width.value, ""); }
  }

  lemma ScanIs(fmt: string, args: Args, used: nat, f: Flags, t1: string, w: Spec, t2: string, p: Spec, t3: string)
    requires ScanFlags(fmt, NO_FLAGS) == Scanned(f, t1)
    requires ScanWidth(t1, f, args, used) == Scanned(w, t2)
    requires ScanPrecision(t2, w, args) == Scanned(p, t3)
    ensures Scan(fmt, args, used) == Scanned(p, SkipQualifier(t3))
  {
    hide ScanFlags, ScanWidth, ScanPrecision, SkipQualifier;
  }

  /** Behind its %, a directive is scanned as it is meant, up to its conversion character. */
  lemma DirectiveIsScanned(p: Piece, rest: string, args: Args, used: nat)
    requires Proper(p) && p.Directive?
    ensures Scan((Spelled(p) + rest)[1..], args, used)
         == Scanned(Spec(FlagsOf(p.flags, NO_FLAGS), Given(p.width), Given(p.precision), used), [p.conversion] + rest)
  {
    var last := [p.conversion] + rest;
    var t3 := p.qualifier + last;
    var t2 := PrecisionText(p.precision) + t3;
    var t1 := WidthText(p.width) + t2;
    var f := FlagsOf(p.flags, NO_FLAGS);
    var w := Spec(f, Given(p.width), -1, used);
    DirectiveText(p, rest);
    PartsEnd(p, last);
    hide WidthText, PrecisionText, FlagsOf, Scan, ScanFlags, ScanWidth, ScanPrecision, SkipQualifier, Spelled, Given;
    FlagsAreScanned(p.flags, t1, NO_FLAGS);
    WidthIsScanned(p.width, t2, f, args, used);
    PrecisionIsScanned(p.precision, t3, w, args);
    QualifierIsSkipped(p.qualifier, p.conversion, rest);
    ScanIs((Spelled(p) + rest)[1..], args, used, f, t1, w, t2, w.(precision := Given(p.precision)), t3);
  }

  lemma PieceIsMeant(p: Piece, rest: string, out: Out, args: Args)
    requires Proper(p)
    ensures Format(Spelled(p) + rest, out, args) == Format(rest, Meaning(p, out, args), args)
  {
    var fmt := Spelled(p) + rest;
    if p.Literal? {
      assert fmt[1..] == rest;
    } else {
      DirectiveIsScanned(p, rest, args, out.used);
      hide Scan, Convert;
      var s := Scan(fmt[1..], args, out.used);
      assert At(s.rest) == p.conversion && Behind(s.rest) == rest;
    }
  }

  /** Main theorem: whatever a format of any number of pieces spells, vsprintf prints what it means, piece by
      piece, and uses up the arguments in order. */
  lemma {:induction false} FormatIsMeant(ps: seq<Piece>, out: Out, args: Args)
    requires forall i :: 0 <= i < |ps| ==> Proper(ps[i])
    ensures Format(SpelledAll(ps), out, args) == MeaningAll(ps, out, args)
    decreases |ps|
  {
    if ps != [] {
      PieceIsMeant(ps[0], SpelledAll(ps[1..]), out, args);
      FormatIsMeant(ps[1..], Meaning(ps[0], out, args), args);
    }
  }

  /** Together with the number formatter: a signed decimal directive, whatever its flags, width and precision,
      prints a text from which an ordinary reader gets its argument back. */
  lemma DecimalReadsBack(p: Piece, args: Args)
    requires Proper(p) && p.Directive? && (p.conversion == 'd' || p.conversion == 'i')
    ensures var out := Format(Spelled(p), Out("", 0, []), args);
            out.used == 1 && ReadNumber(out.text, 10) == args.ints(0)
  {
    var out := Out("", 0, []);
    PieceIsMeant(p, "", out, args);
    assert Spelled(p) + "" == Spelled(p);
    var s := Spec(FlagsOf(p.flags, NO_FLAGS), Given(p.width), Given(p.precision), 0);
    PrintedNumberReadsBack(args.ints(0), 10, s.width, s.precision, s.flags.(sign := true));
    hide Layout, ReadNumber;
    assert "" + Numeral(p.conversion, s, args.ints(0)) == Numeral(p.conversion, s, args.ints(0));
  }

  /** A width taken from the arguments does not work: the star is not skipped, so it ends the directive as an
      unknown conversion, and the argument is lost. */
  lemma StarIsPrinted(flags: string, rest: string, out: Out, args: Args)
    requires forall i :: 0 <= i < |flags| ==> IsFlag(flags[i])
    ensures Format("%" + (flags + ("*" + rest)), out, args)
         == Format(rest, out.(used := out.used + 1).Put("%*"), args)
  {
    var fmt := "%" + (flags + ("*" + rest));
    assert fmt[1..] == flags + ("*" + rest);
    FlagsAreScanned(flags, "*" + rest, NO_FLAGS);
    hide ScanFlags;
    var s := Scan(fmt[1..], args, out.used);
    assert s.rest == "*" + rest && s.value.used == out.used + 1;
    assert At(s.rest) == '*' && Behind(s.rest) == rest;
    assert "%" + "*" == "%*";
  }

  /** Nor does a precision, with or without a width in front: behind its point the star is treated the same
      way. */
  lemma StarPrecisionIsPrinted(flags: string, width: Option<nat>, rest: string, out: Out, args: Args)
    requires (forall i :: 0 <= i < |flags| ==> IsFlag(flags[i])) && width != Some(0)
    ensures Format("%" + (flags + (WidthText(width) + (".*" + rest))), out, args)
         == Format(rest, out.(used := out.used + 1).Put("%*"), args)
  {
    hide *;
    var t2 := ".*" + rest;
    var t1 := WidthText(width) + t2;
    var fmt := "%" + (flags + t1);
    var f := FlagsOf(flags, NO_FLAGS);
    var w := Spec(f, Given(width), -1, out.used);
    var p := w.(precision := Max(args.ints(out.used), 0), used := out.used + 1);
    assert fmt[1..] == flags + t1;
    PointEnds(t2);
    WidthEnds(width, t2);
    FlagsAreScanned(flags, t1, NO_FLAGS);
    WidthIsScanned(width, t2, f, args, out.used);
    StarAsPrecision(w, rest, args);
    ScanIs(fmt[1..], args, out.used, f, t1, w, t2, p, "*" + rest);
    UnknownStar("*" + rest, rest, out, p, args);
    FormatsDirective(fmt, out, args, p, "*" + rest);
  }

  lemma PointEnds(s: string)
    requires s != "" && s[0] == '.'
    ensures !IsFlag(s[0]) && !IsDigit(s[0]) && s[0] != '*'
  {
  }

  lemma FormatsDirective(fmt: string, out: Out, args: Args, p: Spec, rest: string)
    requires fmt != "" && fmt[0] == '%' && Scan(fmt[1..], args, out.used) == Scanned(p, rest)
    ensures Format(fmt, out, args) == Format(Behind(rest), Convert(At(rest), p, out, args), args)
  {
    hide Scan, Convert;
  }

  lemma WidthEnds(width: Option<nat>, rest: string)
    requires width != Some(0) && rest != "" && !IsFlag(rest[0])
    ensures WidthText(width) + rest != "" && !IsFlag((WidthText(width) + rest)[0])
  {
    hide Number10;
    if width.Some? { NumberIsSkipped(width.value, ""); }
  }

  lemma StarAsPrecision(w: Spec, rest: string, args: Args)
    ensures ScanPrecision(".*" + rest, w, args)
         == Scanned(w.(precision := Max(args.ints(w.used), 0), used := w.used + 1), "*" + rest)
  {
    assert (".*" + rest)[1..] == "*" + rest;
  }

  /** The star itself is an unknown conversion. */
  lemma UnknownStar(fmt: string, rest: string, out: Out, p: Spec, args: Args)
    requires fmt == "*" + rest && p.used == out.used + 1
    ensures SkipQualifier(fmt) == fmt && At(fmt) == '*' && Behind(fmt) == rest
    ensures Convert('*', p, out, args) == out.(used := out.used + 1).Put("%*")
  {
    assert "%" + "*" == "%*";
  }

  // ---------------------------------------------------------------- the loops

  method SkipFlags(fmt: string, from: nat) returns (f: Flags, i: nat)
    requires from <= |fmt|
    ensures from <= i <= |fmt| && Scanned(f, fmt[i..]) == ScanFlags(fmt[from..], NO_FLAGS)
  {
    f, i := NO_FLAGS, from;
    while i < |fmt| && IsFlag(fmt[i])
      invariant from <= i <= |fmt|
      invariant ScanFlags(fmt[i..], f) == ScanFlags(fmt[from..], NO_FLAGS)
    {
      assert fmt[i..][1..] == fmt[i + 1..];
      f := SetFlag(f, fmt[i]);
      i := i + 1;
    }
  }

  method Atoi(fmt: string, from: nat) returns (n: nat, i: nat)
    requires from <= |fmt|
    ensures from <= i <= |fmt| && Scanned(n, fmt[i..]) == SkipAtoi(fmt[from..], 0)
  {
    n, i := 0, from;
    while i < |fmt| && IsDigit(fmt[i])
      invariant from <= i <= |fmt|
      invariant SkipAtoi(fmt[i..], n) == SkipAtoi(fmt[from..], 0)
    {
      assert fmt[i..][1..] == fmt[i + 1..];
      n := n * 10 + (fmt[i] as int - '0' as int);
      i := i + 1;
    }
  }

  function CharAt(fmt: string, i: nat): char {
    if i < |fmt| then fmt[i] else '\0'
  }

  method FieldWidth(fmt: string, from: nat, f: Flags, args: Args, used: nat) returns (s: Spec, i: nat)
    requires from <= |fmt|
    ensures from <= i <= |fmt| && Scanned(s, fmt[i..]) == ScanWidth(fmt[from..], f, args, used)
  {
    s, i := Spec(f, -1, -1, used), from;
    if IsDigit(CharAt(fmt, i)) {
      var n;
      n, i := Atoi(fmt, i);
      s := s.(width := n);
    } else if CharAt(fmt, i) == '*' {
      var n: int := args.ints(used);
      s := s.(width := n, used := used + 1);
      if n < 0 {
        s := s.(width := -n, flags := f.(left := true));
      }
    }
  }

  method Precision(fmt: string, from: nat, given: Spec, args: Args) returns (s: Spec, i: nat)
    requires from <= |fmt| && given.precision == -1
    ensures from <= i <= |fmt| && Scanned(s, fmt[i..]) == ScanPrecision(fmt[from..], given, args)
  {
    s, i := given, from;
    if CharAt(fmt, i) == '.' {
      assert fmt[i..][1..] == fmt[i + 1..];
      i := i + 1;
      if IsDigit(CharAt(fmt, i)) {
        var n;
        n, i := Atoi(fmt, i);
        s := s.(precision := n);
      } else if CharAt(fmt, i) == '*' {
        s := s.(precision := args.ints(s.used), used := s.used + 1);
      }
      if s.precision < 0 {
        s := s.(precision := 0);
      }
    }
  }

  method ScanDirective(fmt: string, from: nat, args: Args, used: nat) returns (s: Spec, i: nat)
    requires from <= |fmt|
    ensures from <= i <= |fmt| && Scanned(s, fmt[i..]) == Scan(fmt[from..], args, used)
  {
    hide ScanFlags, ScanPrecision;
    var f;
    f, i := SkipFlags(fmt, from);
    s, i := FieldWidth(fmt, i, f, args, used);
    s, i := Precision(fmt, i, s, args);
    if CharAt(fmt, i) == 'h' || CharAt(fmt, i) == 'l' || CharAt(fmt, i) == 'L' {
      assert fmt[i..][1..] == fmt[i + 1..];
      i := i + 1;
    }
  }

  /** Blanks up to a field of n characters that is to hold one more; like the source's loop it counts n down
      before it looks at it. */
  method PadChar(text: string, n: int) returns (out: string, left: int)
    ensures out == text + Times(' ', n - 1) && left <= 0 && (n <= 0 ==> left == n - 1)
  {
    out, left := text, n - 1;
    while left > 0
      invariant left <= n - 1 && (left >= 0 || left == n - 1)
      invariant out == text + Times(' ', n - 1 - Max(left, 0))
      decreases left
    {
      out := out + " ";
      left := left - 1;
    }
  }

  method PrintChar(text: string, c: char, width: int, left: bool) returns (out: string)
    ensures out == text + Padded([c], width, left)
  {
    var w := width;
    out := text;
    if !left {
      out, w := PadChar(out, w);
    }
    out := out + [c];
    out, w := PadChar(out, w);
  }

  /** Blanks until `len` characters more fill a field of n; like the source's loop it counts n down as it looks
      at it, once more than it pads. */
  method PadString(text: string, len: nat, n: int) returns (out: string, left: int)
    ensures out == text + Times(' ', n - len) && left < len && left < Max(n, len)
  {
    out, left := text, n;
    while len < left
      invariant left <= n && (left >= len || left == n)
      invariant out == text + Times(' ', n - Max(left, len))
      decreases left
    {
      out := out + " ";
      left := left - 1;
    }
    left := left - 1;
  }

  method PrintString(text: string, s: string, width: int, precision: int, left: bool) returns (out: string)
    ensures out == text + Padded(Prefixed(s, precision), width, left)
  {
    var len, w := |s|, width;
    if precision >= 0 && len > precision {
      len := precision;
    }
    ghost var shown := Prefixed(s, precision);
    assert s[..len] == shown && |shown| == len;
    hide Prefixed, Times;
    out := text;
    if !left {
      out, w := PadString(out, len, w);
      NoPad(' ', w - len);
    }
    out := out + s[..len];
    ghost var before := out;
    out, w := PadString(out, len, w);
    assert !left ==> out == before;
  }

  /** The second switch. */
  method Print(c: char, spec: Spec, out: Out, args: Args) returns (r: Out)
    ensures r == Convert(c, spec, out, args)
  {
    hide Layout, Padded, Prefixed;
    var s, used := spec, spec.used;
    var text := out.text;
    if c == 'c' {
      text := PrintChar(text, CharOf(args.ints(used)), s.width, s.flags.left);
      r := Out(text, used + 1, out.stores);
    } else if c == 's' {
      text := PrintString(text, args.strs(used), s.width, s.precision, s.flags.left);
      r := Out(text, used + 1, out.stores);
    } else if IsNumeric(c) {
      if c == 'p' && s.width == -1 {
        s := s.(width := 8, flags := s.flags.(zeropad := true));
      } else if c == 'x' {
        s := s.(flags := s.flags.(small := true));
      } else if c == 'd' || c == 'i' {
        s := s.(flags := s.flags.(sign := true));
      }
      var _, digits := Number(args.ints(used), BaseOf(c), s.width, s.precision, s.flags);
      r := Out(text + digits, used + 1, out.stores);
    } else if c == 'n' {
      r := Out(text, used + 1, out.stores + [|text|]);
    } else {
      if c != '%' {
        text := text + "%";
      }
      if c != '\0' {
        text := text + [c];
      }
      r := Out(text, used, out.stores);
    }
  }

  /** vsprintf: the text, its length, and what was stored through pointers. */
  method VsprintfTo(fmt: string, args: Args) returns (out: Out, len: nat)
    requires '\0' !in fmt
    ensures out == Format(fmt, Out("", 0, []), args) && len == |out.text|
  {
    hide Scan, Convert;
    out := Out("", 0, []);
    var i: nat := 0;
    assert fmt[0..] == fmt;
    while i < |fmt|
      invariant i <= |fmt|
      invariant Format(fmt[i..], out, args) == Format(fmt, Out("", 0, []), args)
      decreases |fmt| - i
    {
      ghost var rest := fmt[i..];
      assert rest[1..] == fmt[i + 1..];
      if fmt[i] != '%' {
        out := out.Put([fmt[i]]);
      } else {
        var s, j := ScanDirective(fmt, i + 1, args, out.used);
        assert At(fmt[j..]) == CharAt(fmt, j) && Behind(fmt[j..]) == if j < |fmt| then fmt[j + 1..] else fmt[j..];
        out := Print(CharAt(fmt, j), s, out, args);
        i := if j < |fmt| then j else j - 1;
      }
      i := i + 1;
    }
    len := |out.text|;
  }
}
