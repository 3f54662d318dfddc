/** What the directives of vsprintf print, told without its flag bits and layout rules: which flag does what,
    in which base and case, and on which side the padding is. */
module Formats {
  import opened Basics
  import opened Vsprintf
  import opened Printf

  /** The text that a directive alone prints. */
  function TextOf(p: Piece, args: Args): string {
    Format(Spelled(p), Out("", 0, []), args).text
  }

  lemma Alone(p: Piece, args: Args)
    requires Proper(p) && p.Directive?
    ensures Format(Spelled(p), Out("", 0, []), args) == Meaning(p, Out("", 0, []), args)
  {
    hide Format, Spelled, Meaning;
    PieceIsMeant(p, "", Out("", 0, []), args);
    assert Spelled(p) + "" == Spelled(p);
    FormatEnds(Meaning(p, Out("", 0, []), args), args);
  }

  lemma FormatEnds(out: Out, args: Args)
    ensures Format("", out, args) == out
  {
  }

  /** The flag characters `flags` turn f into g. */
  predicate Adds(f: Flags, flags: string, g: Flags) {
    && (g.left <==> f.left || '-' in flags) && (g.plus <==> f.plus || '+' in flags)
    && (g.space <==> f.space || ' ' in flags) && (g.special <==> f.special || '#' in flags)
    && (g.zeropad <==> f.zeropad || '0' in flags) && g.sign == f.sign && g.small == f.small
  }

  lemma OneFlagAdds(f: Flags, c: char)
    requires IsFlag(c)
    ensures Adds(f, [c], SetFlag(f, c))
  {
  }

  lemma AddsThrough(f: Flags, a: string, g: Flags, b: string, h: Flags)
    requires Adds(f, a, g) && Adds(g, b, h)
    ensures Adds(f, a + b, h)
  {
  }

  /** A flag counts however often and wherever it is given. */
  lemma {:induction false} FlagsIff(flags: string, f: Flags)
    requires forall i :: 0 <= i < |flags| ==> IsFlag(flags[i])
    ensures Adds(f, flags, FlagsOf(flags, f))
    decreases |flags|
  {
    if flags != "" {
      var g := SetFlag(f, flags[0]);
      OneFlagAdds(f, flags[0]);
      hide IsFlag, SetFlag, Adds;
      FlagsIff(flags[1..], g);
      AddsThrough(f, [flags[0]], g, flags[1..], FlagsOf(flags[1..], g));
      assert flags == [flags[0]] + flags[1..];
    }
  }

  /** %c and %s: the character, or the string up to the precision, with blanks up to the width, behind it with a
      '-' and in front of it otherwise. */
  lemma TextIsPlaced(p: Piece, args: Args)
    requires Proper(p) && p.Directive? && (p.conversion == 'c' || p.conversion == 's')
    ensures var s := args.strs(0);
            var body := if p.conversion == 'c' then [(args.ints(0) % 256) as char]
                        else if p.precision.Some? && p.precision.value < |s| then s[..p.precision.value] else s;
            var blanks := Times(' ', Given(p.width) - |body|);
            TextOf(p, args) == if '-' in p.flags then body + blanks else blanks + body
    ensures Format(Spelled(p), Out("", 0, []), args).used == 1
  {
    hide Format, Spelled, Meaning, Times, Given, IsFlag;
    Alone(p, args);
    ConvertsText(p, args);
  }

  lemma ConvertsText(p: Piece, args: Args)
    requires Proper(p) && p.Directive? && (p.conversion == 'c' || p.conversion == 's')
    ensures var s := args.strs(0);
            var body := if p.conversion == 'c' then [(args.ints(0) % 256) as char]
                        else if p.precision.Some? && p.precision.value < |s| then s[..p.precision.value] else s;
            var blanks := Times(' ', Given(p.width) - |body|);
            var out := Meaning(p, Out("", 0, []), args);
            out.text == (if '-' in p.flags then body + blanks else blanks + body) && out.used == 1
  {
    FlagsIff(p.flags, NO_FLAGS);
    hide Times, FlagsOf;
    var spec := Spec(FlagsOf(p.flags, NO_FLAGS), Given(p.width), Given(p.precision), 0);
    var body := if p.conversion == 'c' then [CharOf(args.ints(0))] else Prefixed(args.strs(0), spec.precision);
    assert "" + Padded(body, spec.width, spec.flags.left) == Padded(body, spec.width, spec.flags.left);
  }

  /** %% prints one; %n stores how much has been printed; an unknown conversion prints itself. */
  lemma OtherConversions(p: Piece, out: Out, args: Args)
    requires Proper(p) && p.Directive? && p.conversion !in {'c', 's', 'o', 'p', 'x', 'X', 'd', 'i', 'u'}
    ensures Format(Spelled(p), out, args) ==
            if p.conversion == 'n' then out.(stores := out.stores + [|out.text|], used := out.used + 1)
            else if p.conversion == '%' then out.Put("%") else out.Put(['%', p.conversion])
  {
    hide Format, Spelled;
    PieceIsMeant(p, "", out, args);
    assert Spelled(p) + "" == Spelled(p);
    FormatEnds(Meaning(p, out, args), args);
    assert "" + [p.conversion] == [p.conversion] && "%" + [p.conversion] == ['%', p.conversion];
  }

  // ---------------------------------------------------------------- numbers

  function Base(c: char): nat {
    match c case 'o' => 8 case 'd' => 10 case 'i' => 10 case 'u' => 10 case _ => 16
  }

  /** The flags and the width that number() is called with. */
  function CallFlags(p: Piece): Flags
    requires p.Directive?
  {
    var f := FlagsOf(p.flags, NO_FLAGS);
    f.(small := p.conversion == 'x', sign := p.conversion == 'd' || p.conversion == 'i',
       zeropad := f.zeropad || (p.conversion == 'p' && p.width == None))
  }

  function CallWidth(p: Piece): int
    requires p.Directive?
  {
    if p.conversion == 'p' && p.width == None then 8 else Given(p.width)
  }

  lemma NumeralIs(p: Piece, n: Int32)
    requires p.Directive? && IsNumeric(p.conversion) && forall i :: 0 <= i < |p.flags| ==> IsFlag(p.flags[i])
    ensures Numeral(p.conversion, Spec(FlagsOf(p.flags, NO_FLAGS), Given(p.width), Given(p.precision), 0), n)
         == Layout(n, Base(p.conversion), CallWidth(p), Given(p.precision), CallFlags(p))
  {
    FlagsIff(p.flags, NO_FLAGS);
    hide Layout, FlagsOf;
  }

  lemma NumberIsLaidOut(p: Piece, args: Args)
    requires Proper(p) && p.Directive? && IsNumeric(p.conversion)
    ensures TextOf(p, args)
         == Layout(args.ints(0), Base(p.conversion), CallWidth(p), Given(p.precision), CallFlags(p))
    ensures Format(Spelled(p), Out("", 0, []), args).used == 1
  {
    Alone(p, args);
    NumeralIs(p, args.ints(0));
    hide Format, Spelled, Layout, FlagsOf, CallFlags, CallWidth, Base, Numeral;
    var spec := Spec(FlagsOf(p.flags, NO_FLAGS), Given(p.width), Given(p.precision), 0);
    assert "" + Numeral(p.conversion, spec, args.ints(0)) == Numeral(p.conversion, spec, args.ints(0));
  }

  lemma NumberKind(p: Piece, n: Int32)
    requires p.Directive? && IsNumeric(p.conversion)
    ensures ReadableBase(Base(p.conversion))
    ensures CallFlags(p).sign <==> p.conversion in {'d', 'i'}
    ensures IsInt(n) && Unsigned(n) == n % 0x1_0000_0000
  {
    hide FlagsOf;
  }

  /** Every numeric directive prints a text from which an ordinary reader of its base gets the argument back:
      signed for %d and %i, and as 32 unsigned bits for the others. */
  lemma NumberReadsBack(p: Piece, args: Args)
    requires Proper(p) && p.Directive? && p.conversion in {'o', 'p', 'x', 'X', 'd', 'i', 'u'}
    ensures var n := args.ints(0);
            var value := if p.conversion in {'d', 'i'} then n else n % 0x1_0000_0000;
            ReadNumber(TextOf(p, args), Base(p.conversion)) == value
  {
    assert IsNumeric(p.conversion);
    hide *;
    var n := args.ints(0);
    NumberIsLaidOut(p, args);
    NumberKind(p, n);
    PrintedNumberReadsBack(n, Base(p.conversion), CallWidth(p), Given(p.precision), CallFlags(p));
  }

  function SignText(p: Piece, n: int): string
    requires p.Directive?
  {
    if p.conversion in {'d', 'i'} && n < 0 then "-"
    else if '+' in p.flags then "+" else if ' ' in p.flags then " " else ""
  }

  function PrefixText(p: Piece): string
    requires p.Directive?
  {
    if '#' !in p.flags then ""
    else match p.conversion case 'o' => "0" case 'x' => "0x" case 'X' => "0X" case 'p' => "0X" case _ => ""
  }

  predicate NumeralChar(c: char, conversion: char) {
    || '0' <= c <= '9'
    || (conversion == 'x' && 'a' <= c <= 'f')
    || (conversion in {'X', 'p'} && 'A' <= c <= 'F')
  }

  /** The digits of a numeral: of the conversion's case, at least as many as the precision, and no zero in front
      that the precision does not ask for. */
  predicate Numerals(s: string, conversion: char, precision: int) {
    && |s| >= Max(1, precision)
    && (|s| > Max(1, precision) ==> s[0] != '0')
    && forall i :: 0 <= i < |s| ==> NumeralChar(s[i], conversion)
  }

  lemma SignIs(p: Piece, n: int)
    requires p.Directive? && forall i :: 0 <= i < |p.flags| ==> IsFlag(p.flags[i])
    ensures Sign(n, CallFlags(p)) == SignText(p, n)
  {
    FlagsIff(p.flags, NO_FLAGS);
  }

  lemma PrefixIs(p: Piece)
    requires p.Directive? && IsNumeric(p.conversion) && forall i :: 0 <= i < |p.flags| ==> IsFlag(p.flags[i])
    ensures Prefix(Base(p.conversion), CallFlags(p)) == PrefixText(p)
  {
    FlagsIff(p.flags, NO_FLAGS);
    HexPrefix(p.conversion == 'x');
    hide DigitChar;
  }

  lemma {:induction false} NoLeadingZero(u: nat, base: nat)
    requires base >= 2 && u > 0
    ensures Positional(u, base) != [] && Positional(u, base)[0] != 0
    decreases u
  {
    if u >= base {
      DivMod(u, base, u / base, u % base);
      NoLeadingZero(u / base, base);
    }
  }

  lemma DigitIsNumeral(d: nat, conversion: char)
    requires IsNumeric(conversion) && d < Base(conversion)
    ensures NumeralChar(DigitChar(d, conversion == 'x'), conversion)
    ensures DigitChar(d, conversion == 'x') == '0' <==> d == 0
  {
    if d < 10 { DecimalDigit(d, conversion == 'x'); } else { HexDigit(d, conversion == 'x'); }
    hide DigitChar;
  }

  lemma BodyIsNumerals(p: Piece, n: Int32)
    requires p.Directive? && IsNumeric(p.conversion)
    ensures Numerals(Body(n, Base(p.conversion), Given(p.precision), CallFlags(p)), p.conversion, Given(p.precision))
  {
    var base, f, u := Base(p.conversion), CallFlags(p), Magnitude(n, CallFlags(p));
    var ds := Digits(u, base);
    if u > 0 { NoLeadingZero(u, base); }
    assert |ds| > 1 ==> ds[0] != 0;
    assert f.small == (p.conversion == 'x');
    hide Digits, DigitChar, FlagsOf, Magnitude, NumeralChar;
    forall i | 0 <= i < |ds| ensures NumeralChar(DigitChar(ds[i], f.small), p.conversion) {
      DigitIsNumeral(ds[i], p.conversion);
    }
    DigitIsNumeral(0, p.conversion);
    DigitIsNumeral(ds[0], p.conversion);
  }

  /** A number in its field: blanks up to the width behind it, or zeros between its head and its digits, or
      blanks in front. */
  function Placed(head: string, digits: string, width: int, behind: bool, zeros: bool): string {
    var pad := width - |head| - |digits|;
    if behind then head + digits + Times(' ', pad)
    else if zeros then head + Times('0', pad) + digits
    else Times(' ', pad) + head + digits
  }

  lemma LayoutPlaces(n: Int32, base: nat, width: int, precision: int, f: Flags, head: string, digits: string)
    requires IsInt(n) && 2 <= base <= 36
    requires head == Sign(n, f) + Prefix(base, f) && digits == Body(n, base, precision, f)
    ensures Layout(n, base, width, precision, f) == Placed(head, digits, width, f.left, f.zeropad)
  {
    hide Sign, Prefix, Body, Times;
    var sign, prefix := Sign(n, f), Prefix(base, f);
    var pad := width - |sign| - |prefix| - |digits|;
    assert Times(' ', pad) + sign + prefix + digits == Times(' ', pad) + (sign + prefix) + digits;
  }

  lemma PaddingFlags(p: Piece)
    requires p.Directive? && forall i :: 0 <= i < |p.flags| ==> IsFlag(p.flags[i])
    ensures CallFlags(p).left <==> '-' in p.flags
    ensures CallFlags(p).zeropad <==> '0' in p.flags || (p.conversion == 'p' && p.width == None)
    ensures CallWidth(p) == if p.conversion == 'p' && p.width == None then 8 else Given(p.width)
  {
    FlagsIff(p.flags, NO_FLAGS);
    hide FlagsOf;
  }

  /** Where a number stands in its field: sign, prefix and digits together; blanks up to the width behind them
      with a '-', zeros between prefix and digits with a '0' alone, and blanks in front otherwise.  A pointer
      without a width is filled with zeros to 8. */
  lemma NumberIsPlaced(p: Piece, args: Args) returns (digits: string)
    requires Proper(p) && p.Directive? && IsNumeric(p.conversion)
    ensures Numerals(digits, p.conversion, Given(p.precision))
    ensures var pointer := p.conversion == 'p' && p.width == None;
            var head := SignText(p, args.ints(0)) + PrefixText(p);
            TextOf(p, args) == Placed(head, digits, if pointer then 8 else Given(p.width),
                                      '-' in p.flags, '0' in p.flags || pointer)
  {
    assert forall i :: 0 <= i < |p.flags| ==> IsFlag(p.flags[i]);
    hide *;
    var n, base, f := args.ints(0), Base(p.conversion), CallFlags(p);
    NumberKind(p, n);
    ReadableFits(base);
    digits := Body(n, base, Given(p.precision), f);
    NumberIsLaidOut(p, args);
    SignIs(p, n);
    PrefixIs(p);
    BodyIsNumerals(p, n);
    PaddingFlags(p);
    LayoutPlaces(n, base, CallWidth(p), Given(p.precision), f, SignText(p, n) + PrefixText(p), digits);
  }

  lemma ReadableFits(base: nat)
    requires ReadableBase(base)
    ensures 2 <= base <= 36
  {
  }
}
