/** The bounded formatter: vsnprintf and the emitters below it (kernel/libc_stubs.c). */
module Format {
  import opened Arithmetic
  import opened Base

  // ---- Numerals ----

  const DECIMAL := "0123456789"
  const LOWER_HEX := "0123456789abcdef"
  const UPPER_HEX := "0123456789ABCDEF"

  ghost predicate IsAlphabet(digits: string) {
    |digits| >= 2 && NoDuplicates(digits)
  }

  lemma AlphabetsAreFine()
    ensures IsAlphabet(DECIMAL) && |DECIMAL| == 10
    ensures IsAlphabet(LOWER_HEX) && |LOWER_HEX| == 16
    ensures IsAlphabet(UPPER_HEX) && |UPPER_HEX| == 16
  {
  }

  /** The numeral of `v`, most significant digit first. */
  function Numeral(v: nat, digits: string): string
    requires |digits| >= 2
  {
    if v < |digits| then [digits[v]] else Numeral(v / |digits|, digits) + [digits[v % |digits|]]
  }

  function DigitValue(c: char, digits: string): nat {
    if digits == "" || digits[0] == c then 0 else 1 + DigitValue(c, digits[1..])
  }

  /** Reading a numeral back. */
  function Read(s: string, digits: string): nat
    decreases |s|
  {
    if s == "" then 0 else Read(s[..|s| - 1], digits) * |digits| + DigitValue(s[|s| - 1], digits)
  }

  lemma {:induction false} DigitReadsBack(d: nat, digits: string)
    requires d < |digits| && NoDuplicates(digits)
    ensures DigitValue(digits[d], digits) == d
    decreases |digits|
  {
    if d > 0 {
      assert forall i, j :: 0 <= i < j < |digits| - 1 ==> digits[1..][i] == digits[i + 1] && digits[1..][j] == digits[j + 1];
      DigitReadsBack(d - 1, digits[1..]);
    }
  }

  lemma NumeralStep(v: nat, digits: string)
    requires |digits| >= 2
    ensures Numeral(v, digits) == if v < |digits| then [digits[v]] else Numeral(v / |digits|, digits) + [digits[v % |digits|]]
  {
  }

  lemma ReadStep(s: string, c: char, digits: string)
    ensures Read(s + [c], digits) == Read(s, digits) * |digits| + DigitValue(c, digits)
  {
    assert (s + [c])[..|s|] == s;
  }

  /** A numeral reads back as its number, in every base. */
  lemma {:induction false} NumeralReadsBack(v: nat, digits: string)
    requires IsAlphabet(digits)
    ensures Read(Numeral(v, digits), digits) == v
    decreases v
  {
    hide Numeral, Read, DigitValue;
    NumeralStep(v, digits);
    Division(v, |digits|);
    SmallQuotient(v, |digits|);
    QuotientShrinks(v, |digits|);
    DigitReadsBack(v % |digits|, digits);
    if v < |digits| {
      ReadStep("", digits[v], digits);
      ReadNothing(digits);
      assert "" + [digits[v]] == [digits[v]];
    } else {
      NumeralReadsBack(v / |digits|, digits);
      ReadStep(Numeral(v / |digits|, digits), digits[v % |digits|], digits);
    }
  }

  lemma ReadNothing(digits: string)
    ensures Read("", digits) == 0
  {
  }

  lemma {:induction false} NumeralLength(v: nat, digits: string, k: nat)
    requires |digits| >= 2 && v < TwoTo(k) && k > 0
    ensures |Numeral(v, digits)| <= k
    decreases k
  {
    if v >= |digits| {
      assert v / |digits| <= v / 2 by {
        QuotientShrinks(v, |digits|);
      }
      NumeralLength(v / |digits|, digits, k - 1);
    }
  }

  /** The digit buffer of emit_unsigned, 32 characters, is large enough for every 32-bit number in every base. */
  lemma NumeralsFit(v: nat, digits: string)
    requires |digits| >= 2 && v < TWO_32
    ensures |Numeral(v, digits)| <= 32
  {
    assert TwoTo(8) == 256;
    assert TwoTo(16) == 65536;
    assert TwoTo(24) == 0x100_0000;
    NumeralLength(v, digits, 32);
  }

  // ---- What a format means ----

  /** Arguments by the type with which va_arg takes them; a missing string is a NULL pointer. */
  datatype Arg = Str(s: Option<string>) | Chr(code: int) | Int(i: int) | Uns(u: nat) | Ptr(p: nat)

  /** The conversions that take an argument. */
  predicate Takes(spec: char) {
    spec in "scdiuxXp"
  }

  /** The argument has the type and range that the conversion takes. The least int has no negation. */
  predicate Suits(spec: char, arg: Arg) {
    match spec
    case 's' => arg.Str?
    case 'c' => arg.Chr?
    case 'd' => arg.Int? && -0x8000_0000 < arg.i < 0x8000_0000
    case 'i' => arg.Int? && -0x8000_0000 < arg.i < 0x8000_0000
    case 'p' => arg.Ptr? && arg.p < TWO_32
    case _ => arg.Uns? && arg.u < TWO_32
  }

  function Signed(i: int): string {
    if i < 0 then "-" + Numeral(-i, DECIMAL) else Numeral(i, DECIMAL)
  }

  function Converted(spec: char, arg: Arg): string
    requires Takes(spec) && Suits(spec, arg)
  {
    match spec
    case 's' => if arg.s.None? then "(null)" else arg.s.value
    case 'c' => [(arg.code % 256) as char]
    case 'd' => Signed(arg.i)
    case 'i' => Signed(arg.i)
    case 'u' => Numeral(arg.u, DECIMAL)
    case 'x' => Numeral(arg.u, LOWER_HEX)
    case 'X' => Numeral(arg.u, UPPER_HEX)
    case _ => "0x" + Numeral(arg.p, LOWER_HEX)
  }

  /** Characters after a '%' that belong to the conversion. */
  function SpecLength(fmt: string): nat
    requires |fmt| >= 2
  {
    if fmt[1] == 'l' then 3 else 2
  }

  /** No conversion is cut off by the end of the format, and the arguments suit the conversions in order. */
  predicate WellFormed(fmt: string, args: seq<Arg>)
    decreases |fmt|
  {
    if fmt == "" then true
    else if fmt[0] != '%' then WellFormed(fmt[1..], args)
    else if |fmt| < 2 then false
    else if fmt[1] == '%' then WellFormed(fmt[2..], args)
    else
      var n := SpecLength(fmt);
      && n <= |fmt|
      && var spec := fmt[n - 1];
         if Takes(spec) then args != [] && Suits(spec, args[0]) && WellFormed(fmt[n..], args[1..])
         else WellFormed(fmt[n..], args)
  }

  /** The whole text, whatever the size of the buffer. */
  function Render(fmt: string, args: seq<Arg>): string
    requires WellFormed(fmt, args)
    decreases |fmt|
  {
    if fmt == "" then ""
    else if fmt[0] != '%' then [fmt[0]] + Render(fmt[1..], args)
    else if fmt[1] == '%' then "%" + Render(fmt[2..], args)
    else
      var n := SpecLength(fmt);
      var spec := fmt[n - 1];
      if Takes(spec) then Converted(spec, args[0]) + Render(fmt[n..], args[1..])
      else ['%', spec] + Render(fmt[n..], args)
  }

  /** Reading a signed decimal back. */
  function ReadSigned(s: string): int {
    if s != "" && s[0] == '-' then -(Read(s[1..], DECIMAL) as int) else Read(s, DECIMAL)
  }

  lemma {:induction false} NumeralStarts(v: nat, digits: string)
    requires |digits| >= 2
    ensures Numeral(v, digits) != "" && Numeral(v, digits)[0] in digits
    decreases v
  {
    hide Numeral;
    NumeralStep(v, digits);
    Division(v, |digits|);
    SmallQuotient(v, |digits|);
    QuotientShrinks(v, |digits|);
    if v >= |digits| {
      NumeralStarts(v / |digits|, digits);
      assert Numeral(v, digits)[0] == Numeral(v / |digits|, digits)[0];
    }
  }

  /** Signed conversions read back as their number. */
  lemma SignedReadsBack(i: int)
    ensures ReadSigned(Signed(i)) == i
  {
    hide Numeral, Read;
    AlphabetsAreFine();
    var n: nat := if i < 0 then -i else i;
    NumeralReadsBack(n, DECIMAL);
    NumeralStarts(n, DECIMAL);
    assert ("-" + Numeral(n, DECIMAL))[1..] == Numeral(n, DECIMAL);
    assert '-' !in DECIMAL;
  }

  // ---- What the text of a conversion says, read character by character ----

  datatype Letters = NoLetters | LowerCase | UpperCase

  /** The digit that a character stands for. */
  function DigitOf(c: char, letters: Letters): Option<nat> {
    if '0' <= c <= '9' then Some(c as nat - '0' as nat)
    else if letters == LowerCase && 'a' <= c <= 'f' then Some(10 + (c as nat - 'a' as nat))
    else if letters == UpperCase && 'A' <= c <= 'F' then Some(10 + (c as nat - 'A' as nat))
    else None
  }

  /** `s` is `v` written in base `base`, without leading zeros. */
  ghost predicate Denotes(s: string, base: nat, letters: Letters, v: nat)
    decreases |s|
  {
    && s != "" && DigitOf(s[|s| - 1], letters).Some?
    && var d := DigitOf(s[|s| - 1], letters).value;
       d < base && if |s| == 1 then v == d else exists q: nat :: q > 0 && v == q * base + d && Denotes(s[..|s| - 1], base, letters, q)
  }

  /** `text` is what conversion `spec` makes of `arg`. */
  ghost predicate Conveys(spec: char, arg: Arg, text: string) {
    match spec
    case 's' => arg.Str? && text == (match arg.s case None => "(null)" case Some(s) => s)
    case 'c' => arg.Chr? && |text| == 1 && text[0] as int == arg.code % 256
    case 'u' => arg.Uns? && Denotes(text, 10, NoLetters, arg.u)
    case 'x' => arg.Uns? && Denotes(text, 16, LowerCase, arg.u)
    case 'X' => arg.Uns? && Denotes(text, 16, UpperCase, arg.u)
    case 'p' => arg.Ptr? && |text| > 2 && text[0] == '0' && text[1] == 'x' && Denotes(text[2..], 16, LowerCase, arg.p)
    case _ =>
      && (spec == 'd' || spec == 'i') && arg.Int?
      && if arg.i >= 0 then Denotes(text, 10, NoLetters, arg.i) else |text| > 1 && text[0] == '-' && Denotes(text[1..], 10, NoLetters, -arg.i)
  }

  /** `text` is what the format makes of the arguments: ordinary characters and "%%" stand for themselves, a conversion for its
    * argument, and an unknown one is repeated. */
  ghost predicate Shows(fmt: string, args: seq<Arg>, text: string)
    decreases |fmt|
  {
    if fmt == "" then text == ""
    else if fmt[0] != '%' then text != "" && text[0] == fmt[0] && Shows(fmt[1..], args, text[1..])
    else if |fmt| < 2 then false
    else if fmt[1] == '%' then text != "" && text[0] == '%' && Shows(fmt[2..], args, text[1..])
    else
      var n := if fmt[1] == 'l' then 3 else 2;
      && n <= |fmt|
      && var spec := fmt[n - 1];
         if spec in {'s', 'c', 'd', 'i', 'u', 'x', 'X', 'p'} then
           args != [] && exists k :: 0 <= k <= |text| && Conveys(spec, args[0], text[..k]) && Shows(fmt[n..], args[1..], text[k..])
         else |text| >= 2 && text[0] == '%' && text[1] == spec && Shows(fmt[n..], args, text[2..])
  }

  /** The characters of an alphabet are the digits in order. */
  ghost predicate InOrder(digits: string, letters: Letters) {
    forall d :: 0 <= d < |digits| ==> DigitOf(digits[d], letters) == Some(d)
  }

  lemma DecimalDigit(d: nat)
    requires d < 10
    ensures DECIMAL[d] as nat == '0' as nat + d
  {
  }

  lemma DecimalInOrder()
    ensures InOrder(DECIMAL, NoLetters) && InOrder(DECIMAL, LowerCase) && InOrder(DECIMAL, UpperCase)
  {
    forall d | 0 <= d < |DECIMAL| ensures DECIMAL[d] as nat == '0' as nat + d {
      DecimalDigit(d);
    }
  }

  lemma LowerInOrder()
    ensures InOrder(LOWER_HEX, LowerCase)
  {
    assert LOWER_HEX == DECIMAL + "abcdef";
    DecimalInOrder();
    forall d | 0 <= d < |LOWER_HEX| ensures DigitOf(LOWER_HEX[d], LowerCase) == Some(d) {
      if d < 10 {
        assert LOWER_HEX[d] == DECIMAL[d];
      } else {
        assert LOWER_HEX[d] == "abcdef"[d - 10];
      }
    }
  }

  lemma UpperInOrder()
    ensures InOrder(UPPER_HEX, UpperCase)
  {
    assert UPPER_HEX == DECIMAL + "ABCDEF";
    DecimalInOrder();
    forall d | 0 <= d < |UPPER_HEX| ensures DigitOf(UPPER_HEX[d], UpperCase) == Some(d) {
      if d < 10 {
        assert UPPER_HEX[d] == DECIMAL[d];
      } else {
        assert UPPER_HEX[d] == "ABCDEF"[d - 10];
      }
    }
  }

  lemma {:induction false} NumeralDenotes(v: nat, digits: string, letters: Letters)
    requires |digits| >= 2 && InOrder(digits, letters)
    ensures Denotes(Numeral(v, digits), |digits|, letters, v)
    decreases v
  {
    hide Numeral, InOrder;
    NumeralStep(v, digits);
    Division(v, |digits|);
    SmallQuotient(v, |digits|);
    QuotientShrinks(v, |digits|);
    DigitHere(digits, letters, v % |digits|);
    if v < |digits| {
      DenotesOne(digits[v], |digits|, letters, v);
    } else {
      NumeralDenotes(v / |digits|, digits, letters);
      DenotesMore(Numeral(v / |digits|, digits), digits[v % |digits|], |digits|, letters, v / |digits|, v % |digits|);
    }
  }

  lemma DigitHere(digits: string, letters: Letters, d: nat)
    requires InOrder(digits, letters) && d < |digits|
    ensures DigitOf(digits[d], letters) == Some(d)
  {
  }

  lemma DenotesOne(c: char, base: nat, letters: Letters, d: nat)
    requires DigitOf(c, letters) == Some(d) && d < base
    ensures Denotes([c], base, letters, d)
  {
  }

  lemma DenotesMore(s: string, c: char, base: nat, letters: Letters, q: nat, d: nat)
    requires Denotes(s, base, letters, q) && q > 0 && DigitOf(c, letters) == Some(d) && d < base
    ensures Denotes(s + [c], base, letters, q * base + d)
  {
    assert (s + [c])[..|s|] == s;
  }

  /** A number is written in one way only. */
  lemma {:induction false} DenotesOnce(s: string, s': string, base: nat, letters: Letters, v: nat)
    requires base >= 2 && Denotes(s, base, letters, v) && Denotes(s', base, letters, v)
    ensures s == s'
    decreases |s|
  {
    hide Denotes, DigitOf, Quotient, Remainder;
    DenotesLast(s, base, letters, v);
    DenotesLast(s', base, letters, v);
    if v >= base {
      DenotesOnce(s[..|s| - 1], s'[..|s'| - 1], base, letters, Quotient(v, base));
    }
    assert s == s[..|s| - 1] + [s[|s| - 1]] && s' == s'[..|s'| - 1] + [s'[|s'| - 1]];
    SameDigit(s[|s| - 1], s'[|s'| - 1], letters);
  }

  lemma SameDigit(c: char, c': char, letters: Letters)
    requires DigitOf(c, letters) == DigitOf(c', letters) != None
    ensures c == c'
  {
  }

  lemma DenotesLast(s: string, base: nat, letters: Letters, v: nat)
    requires base >= 2 && Denotes(s, base, letters, v)
    ensures s != "" && DigitOf(s[|s| - 1], letters) == Some(Remainder(v, base))
    ensures |s| == 1 <==> v < base
    ensures v >= base ==> Denotes(s[..|s| - 1], base, letters, Quotient(v, base))
  {
    hide DigitOf;
    var d := DigitOf(s[|s| - 1], letters).value;
    if |s| > 1 {
      var q := LeadingDigits(s, base, letters, v, d);
      Below(1, q, base);
      QuotientIs(v, base, q, d);
    } else {
      SmallQuotient(v, base);
    }
  }

  lemma LeadingDigits(s: string, base: nat, letters: Letters, v: nat, d: nat) returns (q: nat)
    requires Denotes(s, base, letters, v) && |s| > 1 && DigitOf(s[|s| - 1], letters) == Some(d)
    ensures q > 0 && v == q * base + d && d < base && Denotes(s[..|s| - 1], base, letters, q)
  {
    q :| q > 0 && v == q * base + d && Denotes(s[..|s| - 1], base, letters, q);
  }

  lemma DecimalDenotes(v: nat)
    ensures Denotes(Numeral(v, DECIMAL), 10, NoLetters, v)
  {
    hide Numeral, Denotes, InOrder;
    DecimalInOrder();
    NumeralDenotes(v, DECIMAL, NoLetters);
  }

  lemma LowerDenotes(v: nat)
    ensures Denotes(Numeral(v, LOWER_HEX), 16, LowerCase, v)
  {
    hide Numeral, Denotes, InOrder;
    LowerInOrder();
    NumeralDenotes(v, LOWER_HEX, LowerCase);
  }

  lemma UpperDenotes(v: nat)
    ensures Denotes(Numeral(v, UPPER_HEX), 16, UpperCase, v)
  {
    hide Numeral, Denotes, InOrder;
    UpperInOrder();
    NumeralDenotes(v, UPPER_HEX, UpperCase);
  }

  lemma AfterPrefix(prefix: string, s: string)
    requires s != ""
    ensures |prefix + s| > |prefix| && (prefix + s)[|prefix|..] == s
  {
  }

  lemma SignedConveys(i: int)
    ensures var text := Signed(i);
      if i >= 0 then Denotes(text, 10, NoLetters, i) else |text| > 1 && text[0] == '-' && Denotes(text[1..], 10, NoLetters, -i)
  {
    hide Numeral, Denotes;
    var n: nat := if i < 0 then -i else i;
    DecimalDenotes(n);
    NumeralStarts(n, DECIMAL);
    AfterPrefix("-", Numeral(n, DECIMAL));
  }

  /** Every conversion says what it should. */
  lemma ConversionsConvey(spec: char, arg: Arg)
    requires Takes(spec) && Suits(spec, arg)
    ensures Conveys(spec, arg, Converted(spec, arg))
  {
    hide Numeral, Denotes, Signed;
    match spec {
      case 'u' => DecimalDenotes(arg.u);
      case 'x' => LowerDenotes(arg.u);
      case 'X' => UpperDenotes(arg.u);
      case 'p' =>
        LowerDenotes(arg.p);
        NumeralStarts(arg.p, LOWER_HEX);
        AfterPrefix("0x", Numeral(arg.p, LOWER_HEX));
      case 's' =>
      case 'c' =>
      case _ => SignedConveys(arg.i);
    }
  }

  /** A conversion has one text. */
  lemma ConveysOnce(spec: char, arg: Arg, s: string, s': string)
    requires Conveys(spec, arg, s) && Conveys(spec, arg, s')
    ensures s == s'
  {
    hide Denotes;
    match spec {
      case 'u' => DenotesOnce(s, s', 10, NoLetters, arg.u);
      case 'x' => DenotesOnce(s, s', 16, LowerCase, arg.u);
      case 'X' => DenotesOnce(s, s', 16, UpperCase, arg.u);
      case 'p' =>
        DenotesOnce(s[2..], s'[2..], 16, LowerCase, arg.p);
        assert s == "0x" + s[2..] && s' == "0x" + s'[2..];
      case 's' =>
      case 'c' =>
      case _ =>
        if arg.i >= 0 {
          DenotesOnce(s, s', 10, NoLetters, arg.i);
        } else {
          DenotesOnce(s[1..], s'[1..], 10, NoLetters, -arg.i);
          assert s == "-" + s[1..] && s' == "-" + s'[1..];
        }
    }
  }

  /** The text that is produced is what the format makes of the arguments ... */
  lemma {:induction false} RenderShows(fmt: string, args: seq<Arg>)
    requires WellFormed(fmt, args)
    ensures Shows(fmt, args, Render(fmt, args))
    decreases |fmt|
  {
    hide Suits, Converted, Conveys;
    var text := Render(fmt, args);
    if fmt != "" {
      if fmt[0] != '%' {
        RenderShows(fmt[1..], args);
        assert text[1..] == Render(fmt[1..], args);
      } else if fmt[1] == '%' {
        RenderShows(fmt[2..], args);
        assert text[1..] == Render(fmt[2..], args);
      } else {
        var n := SpecLength(fmt);
        var spec := fmt[n - 1];
        if Takes(spec) {
          RenderShows(fmt[n..], args[1..]);
          ConversionsConvey(spec, args[0]);
          var k := |Converted(spec, args[0])|;
          assert text[..k] == Converted(spec, args[0]) && text[k..] == Render(fmt[n..], args[1..]);
        } else {
          RenderShows(fmt[n..], args);
          assert text[2..] == Render(fmt[n..], args);
        }
      }
    }
  }

  /** ... and nothing else is. */
  lemma {:induction false} ShowsOnce(fmt: string, args: seq<Arg>, text: string, text': string)
    requires Shows(fmt, args, text) && Shows(fmt, args, text')
    ensures text == text'
    decreases |fmt|
  {
    hide Conveys;
    if fmt != "" {
      if fmt[0] != '%' {
        ShowsOnce(fmt[1..], args, text[1..], text'[1..]);
      } else if fmt[1] == '%' {
        ShowsOnce(fmt[2..], args, text[1..], text'[1..]);
      } else {
        var n := if fmt[1] == 'l' then 3 else 2;
        var spec := fmt[n - 1];
        if spec in {'s', 'c', 'd', 'i', 'u', 'x', 'X', 'p'} {
          var k :| 0 <= k <= |text| && Conveys(spec, args[0], text[..k]) && Shows(fmt[n..], args[1..], text[k..]);
          var k' :| 0 <= k' <= |text'| && Conveys(spec, args[0], text'[..k']) && Shows(fmt[n..], args[1..], text'[k'..]);
          ConveysOnce(spec, args[0], text[..k], text'[..k']);
          ShowsOnce(fmt[n..], args[1..], text[k..], text'[k'..]);
          assert text == text[..k] + text[k..] && text' == text'[..k'] + text'[k'..];
        } else {
          ShowsOnce(fmt[n..], args, text[2..], text'[2..]);
          assert text == text[..2] + text[2..] && text' == text'[..2] + text'[2..];
        }
      }
    }
  }

  // ---- Digits are produced least significant first ----

  function Backwards(s: string): (r: string)
    ensures |r| == |s|
    decreases |s|
  {
    if s == "" then "" else [s[|s| - 1]] + Backwards(s[..|s| - 1])
  }

  lemma BackwardsAdd(s: string, c: char)
    ensures Backwards(s + [c]) == [c] + Backwards(s)
  {
    assert (s + [c])[..|s|] == s;
  }

  /** The digits that are still to come. */
  function Pending(rest: nat, digits: string): string
    requires |digits| >= 2
  {
    if rest == 0 then "" else Numeral(rest, digits)
  }

  lemma PendingStep(rest: nat, digits: string)
    requires rest > 0 && |digits| >= 2
    ensures Pending(rest, digits) == Pending(Quotient(rest, |digits|), digits) + [digits[Remainder(rest, |digits|)]]
    ensures Quotient(rest, |digits|) < rest
  {
    hide Numeral;
    NumeralStep(rest, digits);
    SmallQuotient(rest, |digits|);
    QuotientShrinks(rest, |digits|);
  }

  /** The first half of emit_unsigned: the digits go into a local buffer. */
  method FillDigits(digit: array<char>, v: nat, digits: string) returns (idx: nat)
    requires v < TWO_32 && |digits| >= 2 && digits[0] == '0' && digit.Length == 32
    modifies digit
    ensures idx <= 32 && Backwards(digit[..idx]) == Numeral(v, digits)
  {
    hide Numeral, Pending, Backwards, Quotient, Remainder;
    NumeralsFit(v, digits);
    idx := 0;
    if v == 0 {
      digit[0] := '0';
      ZeroIsOneDigit(digit[..1], digits);
      return 1;
    }
    PendingIs(v, digits);
    var rest: nat := v;
    while rest > 0 && idx < 32
      invariant 0 <= idx <= 32
      invariant Numeral(v, digits) == Pending(rest, digits) + Backwards(digit[..idx])
    {
      ghost var done := digit[..idx];
      PendingStep(rest, digits);
      digit[idx] := digits[Remainder(rest, |digits|)];
      BackwardsAdd(done, digit[idx]);
      assert digit[..idx + 1] == done + [digit[idx]];
      rest := Quotient(rest, |digits|);
      idx := idx + 1;
    }
    PendingIs(rest, digits);
  }

  lemma PendingIs(rest: nat, digits: string)
    requires |digits| >= 2
    ensures rest == 0 <==> Pending(rest, digits) == ""
    ensures rest > 0 ==> Pending(rest, digits) == Numeral(rest, digits)
    ensures Backwards("") == ""
  {
    hide Numeral;
    NumeralStep(rest, digits);
  }

  lemma ZeroIsOneDigit(s: string, digits: string)
    requires s == "0" && |digits| >= 2 && digits[0] == '0'
    ensures Backwards(s) == Numeral(0, digits)
  {
    assert s[..0] == "";
  }

  // ---- The output buffer ----

  function Min(a: nat, b: nat): nat {
    if a <= b then a else b
  }

  /** What a buffer of `size` characters holds afterwards: as much of the text as fits before a final NUL. */
  function Stored(before: string, size: nat, text: string): string
    requires size <= |before|
  {
    if size == 0 then before
    else
      var n := Min(size - 1, |text|);
      text[..n] + ['\0'] + before[n + 1..]
  }

  /** vsnprintf's dst, avail and total, which the emitters update through pointers. */
  class Sink {
    const buf: array<char>
    const room: nat
    var dst: nat
    var avail: nat
    var total: nat
    /** Everything emitted so far, stored or not, and what the buffer held at first. */
    ghost var out: string
    ghost const was: string

    ghost predicate Valid()
      reads this, buf
    {
      && room <= buf.Length == |was|
      && total == |out| && dst == Min(room, |out|) && avail == room - dst
      && buf[..dst] == out[..dst] && buf[dst..] == was[dst..]
    }

    constructor (buf: array<char>, room: nat)
      requires room <= buf.Length
      ensures Valid() && out == "" && this.buf == buf && this.room == room && was == buf[..]
    {
      this.buf, this.room, was := buf, room, buf[..];
      dst, avail, total, out := 0, room, 0, "";
    }

    method EmitChar(c: char)
      requires Valid()
      modifies this, buf
      ensures Valid() && out == old(out) + [c]
    {
      if avail > 0 {
        buf[dst] := c;
        dst := dst + 1;
        avail := avail - 1;
      }
      total := total + 1;
      out := out + [c];
    }

    method EmitString(s: Option<string>)
      requires Valid()
      modifies this, buf
      ensures Valid() && out == old(out) + if s.None? then "(null)" else s.value
    {
      var text := if s.None? then "(null)" else s.value;
      var i := 0;
      while i < |text|
        invariant 0 <= i <= |text| && Valid() && out == old(out) + text[..i]
      {
        EmitChar(text[i]);
        i := i + 1;
      }
    }

    method EmitUnsigned(v: nat, digits: string)
      requires Valid() && v < TWO_32 && |digits| >= 2 && digits[0] == '0'
      modifies this, buf
      ensures Valid() && out == old(out) + Numeral(v, digits)
    {
      hide Numeral;
      var digit := new char[32];
      var idx := FillDigits(digit, v, digits);
      var i := (idx as int) - 1;
      while i >= 0
        invariant -1 <= i < idx <= 32 && Valid()
        invariant out + Backwards(digit[..i + 1]) == old(out) + Numeral(v, digits)
      {
        assert digit[..i + 1][..i] == digit[..i];
        EmitChar(digit[i]);
        i := i - 1;
      }
    }

    /** The NUL at the end. */
    method Terminate(size: nat)
      requires Valid() && room == (if size > 0 then size - 1 else 0) && size <= buf.Length
      modifies buf
      ensures total == |out| && buf[..] == Stored(was, size, out)
    {
      if size > 0 {
        buf[dst] := '\0';
      }
      assert buf[..] == buf[..dst] + buf[dst..];
    }

    /** The switch over the conversions that take an argument. */
    method Convert(spec: char, arg: Arg)
      requires Valid() && Takes(spec) && Suits(spec, arg)
      modifies this, buf
      ensures Valid() && out == old(out) + Converted(spec, arg) && Conveys(spec, arg, out[|old(out)|..])
    {
      hide Numeral, Valid, Conveys;
      ConversionsConvey(spec, arg);
      match spec {
        case 's' => EmitString(arg.s);
        case 'c' => EmitChar((arg.code % 256) as char);
        case 'd' => EmitSigned(arg.i);
        case 'i' => EmitSigned(arg.i);
        case 'u' => EmitUnsigned(arg.u, DECIMAL);
        case 'x' => EmitUnsigned(arg.u, LOWER_HEX);
        case 'X' => EmitUnsigned(arg.u, UPPER_HEX);
        case _ =>
          EmitChar('0');
          EmitChar('x');
          EmitUnsigned(arg.p, LOWER_HEX);
      }
      assert out[|old(out)|..] == Converted(spec, arg);
    }

    method EmitSigned(i: int)
      requires Valid() && -0x8000_0000 < i < 0x8000_0000
      modifies this, buf
      ensures Valid() && out == old(out) + Signed(i)
    {
      hide Numeral;
      var v := i;
      if v < 0 {
        EmitChar('-');
        v := -v;
      }
      EmitUnsigned(v, DECIMAL);
    }
  }

  // ---- vsnprintf ----

  /** One piece of the format: a character, "%%", or a conversion. */
  lemma Step(format: string, args: seq<Arg>, f: nat, a: nat)
    requires f < |format| && a <= |args| && WellFormed(format[f..], args[a..])
    ensures var text := Render(format[f..], args[a..]);
      if format[f] != '%' then
        WellFormed(format[f + 1..], args[a..]) && text == [format[f]] + Render(format[f + 1..], args[a..])
      else
        && f + 1 < |format|
        && if format[f + 1] == '%' then
             WellFormed(format[f + 2..], args[a..]) && text == "%" + Render(format[f + 2..], args[a..])
           else
             var end := f + if format[f + 1] == 'l' then 3 else 2;
             && end <= |format|
             && var spec := format[end - 1];
                if Takes(spec) then
                  && a < |args| && Suits(spec, args[a]) && WellFormed(format[end..], args[a + 1..])
                  && text == Converted(spec, args[a]) + Render(format[end..], args[a + 1..])
                else
                  WellFormed(format[end..], args[a..]) && text == ['%', spec] + Render(format[end..], args[a..])
  {
    hide Suits, Converted, Takes;
    var g := format[f..];
    assert g[1..] == format[f + 1..];
    if g[0] == '%' {
      assert g[2..] == format[f + 2..];
      assert |g| >= 3 ==> g[3..] == format[f + 3..];
      assert args[a..] != [] ==> args[a..][1..] == args[a + 1..];
    }
  }

  /** `text` is what the format makes of the arguments, and nothing else is. */
  ghost predicate IsTheText(format: string, args: seq<Arg>, text: string) {
    Shows(format, args, text) && forall other :: Shows(format, args, other) ==> other == text
  }

  /** The buffer holds as much of `text` as fits before a final NUL, and the rest of it is as it was. */
  ghost predicate Holds(before: string, after: string, size: nat, text: string) {
    && |after| == |before| && size <= |before|
    && if size == 0 then after == before
       else
         var n := if |text| < size then |text| else size - 1;
         after[..n] == text[..n] && after[n] == '\0' && after[n + 1..] == before[n + 1..]
  }

  lemma OnlyRenderShows(format: string, args: seq<Arg>)
    requires WellFormed(format, args)
    ensures IsTheText(format, args, Render(format, args))
  {
    hide Shows, Render, WellFormed;
    RenderShows(format, args);
    forall other | Shows(format, args, other) ensures other == Render(format, args) {
      ShowsOnce(format, args, other, Render(format, args));
    }
  }

  lemma StoredHolds(before: string, size: nat, text: string)
    requires size <= |before|
    ensures Holds(before, Stored(before, size, text), size, text)
  {
  }

  /** The loop over the format. */
  method EmitFormat(sink: Sink, format: string, args: seq<Arg>)
    requires sink.Valid() && WellFormed(format, args)
    modifies sink, sink.buf
    ensures sink.Valid() && sink.out == old(sink.out) + Render(format, args)
  {
    hide Render, WellFormed, Converted, Suits, Takes, Conveys, Sink.Valid;
    var f, a := 0, 0;
    assert format[0..] == format && args[0..] == args;
    while f < |format|
      invariant 0 <= f <= |format| && 0 <= a <= |args|
      invariant sink.Valid() && WellFormed(format[f..], args[a..])
      invariant old(sink.out) + Render(format, args) == sink.out + Render(format[f..], args[a..])
    {
      Step(format, args, f, a);
      ghost var before := sink.out;
      if format[f] != '%' {
        sink.EmitChar(format[f]);
        f := f + 1;
        Joins(before, [format[f - 1]], Render(format[f..], args[a..]));
        continue;
      }
      f := f + 1;
      if format[f] == '%' {
        sink.EmitChar('%');
        f := f + 1;
        Joins(before, "%", Render(format[f..], args[a..]));
        continue;
      }
      if format[f] == 'l' {
        f := f + 1;
      }
      var spec := format[f];
      f := f + 1;
      if Takes(spec) {
        sink.Convert(spec, args[a]);
        a := a + 1;
        Joins(before, Converted(spec, args[a - 1]), Render(format[f..], args[a..]));
      } else {
        sink.EmitChar('%');
        sink.EmitChar(spec);
        Joins(before, ['%', spec], Render(format[f..], args[a..]));
      }
    }
    RenderEnd(args[a..]);
    assert format[f..] == "";
  }

  method Vsnprintf(str: array<char>, size: nat, format: string, args: seq<Arg>) returns (total: nat)
    requires size <= str.Length && WellFormed(format, args)
    modifies str
    ensures total == |Render(format, args)|
    ensures str[..] == Stored(old(str[..]), size, Render(format, args))
    ensures IsTheText(format, args, Render(format, args)) && Holds(old(str[..]), str[..], size, Render(format, args))
  {
    hide IsTheText, Holds, Render, WellFormed, Stored, Sink.Valid;
    var sink := new Sink(str, if size > 0 then size - 1 else 0);
    EmitFormat(sink, format, args);
    assert sink.out == Render(format, args);
    sink.Terminate(size);
    total := sink.total;
    OnlyRenderShows(format, args);
    StoredHolds(old(str[..]), size, Render(format, args));
  }

  lemma Joins(out: string, piece: string, rest: string)
    ensures out + (piece + rest) == (out + piece) + rest
  {
  }

  lemma RenderEnd(args: seq<Arg>)
    ensures WellFormed("", args) && Render("", args) == ""
  {
  }

  /** The text does not depend on the size, so a smaller buffer holds a prefix of what a larger one holds, and two sizes
    * above the length of the text give the same string. */
  lemma SizesAgree(before: string, size: nat, before': string, size': nat, text: string)
    requires 0 < size <= size' && size <= |before| && size' <= |before'|
    ensures var (n, n') := (Min(size - 1, |text|), Min(size' - 1, |text|));
      && Stored(before, size, text)[..n] <= Stored(before', size', text)[..n']
      && Stored(before, size, text)[n] == '\0'
      && (|text| < size ==> Stored(before, size, text)[..n + 1] == Stored(before', size', text)[..n' + 1])
  {
  }
}
