/** Decimal64 as text: the parser's grammar, and Intel's printed form. */
module Bid64Text {
  import opened Common
  import opened Bid64
  import opened Texts

  predicate IsBlank(c: char) { c == ' ' || c == '\t' }

  predicate IsSign(c: char) { c == '+' || c == '-' }

  // ---- the parser -------------------------------------------------------

  function SkipBlanks(text: string, i: nat): (j: nat)
    ensures i <= j
    decreases |text| - i
  {
    if IsBlank(At(text, i)) then SkipBlanks(text, i + 1) else i
  }

  /** How many digits of the coefficient are kept. */
  const KEPT := 34

  datatype Mantissa = Mantissa(coefficient: nat, exponent: int, digits: nat, seenPoint: bool, any: bool)

  const BLANK := Mantissa(0, 0, 0, false, false)

  function TakeDigit(m: Mantissa, d: nat): Mantissa {
    if m.digits < KEPT then
      var c := m.coefficient * 10 + d;
      m.(coefficient := c,
         digits := if c != 0 then m.digits + 1 else m.digits,
         exponent := if m.seenPoint then m.exponent - 1 else m.exponent,
         any := true)
    else
      m.(exponent := if m.seenPoint then m.exponent else m.exponent + 1, any := true)
  }

  predicate Goes(c: char, m: Mantissa) { IsDigit(c) || (c == '.' && !m.seenPoint) }

  function TakeChar(m: Mantissa, c: char): Mantissa
    requires Goes(c, m)
  {
    if IsDigit(c) then TakeDigit(m, DigitOf(c)) else m.(seenPoint := true)
  }

  function ScanMantissa(text: string, i: nat, m: Mantissa): (r: (nat, Mantissa))
    decreases |text| - i
  {
    if Goes(At(text, i), m) then ScanMantissa(text, i + 1, TakeChar(m, At(text, i))) else (i, m)
  }

  /** An exponent is not grown past six digits. */
  function GrowExponent(e: nat, d: nat): nat { if e < 100000 then e * 10 + d else e }

  function ScanExponent(text: string, i: nat, e: nat): (nat, nat)
    decreases |text| - i
  {
    if IsDigit(At(text, i)) then ScanExponent(text, i + 1, GrowExponent(e, DigitOf(At(text, i)))) else (i, e)
  }

  function Signed(negative: bool, e: nat): int { if negative then -(e as int) else e }

  /** The exponent part, if there is one: where it ends and its value; nothing where it has no digit. */
  function ExponentPart(text: string, i: nat): Option<(nat, int)> {
    if At(text, i) != 'e' && At(text, i) != 'E' then Some((i, 0))
    else
      var j := if IsSign(At(text, i + 1)) then i + 2 else i + 1;
      if !IsDigit(At(text, j)) then None
      else
        var (end, e) := ScanExponent(text, j, 0);
        Some((end, Signed(At(text, i + 1) == '-', e)))
  }

  function Number(text: string, i: nat, negative: bool): Bits {
    var (j, m) := ScanMantissa(text, i, BLANK);
    if !m.any then QUIET_NAN
    else
      match ExponentPart(text, j)
      case None => QUIET_NAN
      case Some((k, e)) =>
        if At(text, SkipBlanks(text, k)) != '\0' then QUIET_NAN
        else Encoded(negative, m.coefficient, if m.coefficient == 0 then 0 else m.exponent + e)
  }

  function Parsed(text: Option<string>): Bits {
    if text.None? then QUIET_NAN
    else
      var s := text.value;
      var start := SkipBlanks(s, 0);
      var negative := At(s, start) == '-';
      var i := if IsSign(At(s, start)) then start + 1 else start;
      if Starts(s, i, "NaN") || Starts(s, i, "nan") || Starts(s, i, "SNaN") then SignBit(negative) + QUIET_NAN
      else if Starts(s, i, "Inf") || Starts(s, i, "inf") then SignBit(negative) + INFINITY
      else Number(s, i, negative)
  }

  method ScanNumber(text: string, i: nat) returns (end: nat, m: Mantissa)
    ensures (end, m) == ScanMantissa(text, i, BLANK)
  {
    end := i;
    var coefficient, exponent, digits := 0, 0, 0;
    var seenPoint, any := false, false;
    m := BLANK;
    while At(text, end) != '\0'
      invariant coefficient >= 0 && digits >= 0
      invariant m == Mantissa(coefficient, exponent, digits, seenPoint, any)
      invariant ScanMantissa(text, end, m) == ScanMantissa(text, i, BLANK)
      decreases |text| - end
    {
      var c := At(text, end);
      if '0' <= c <= '9' {
        any := true;
        if digits < KEPT {
          coefficient := coefficient * 10 + (c as int - '0' as int);
          if coefficient != 0 {
            digits := digits + 1;
          }
          if seenPoint {
            exponent := exponent - 1;
          }
        } else if !seenPoint {
          exponent := exponent + 1;
        }
      } else if c == '.' && !seenPoint {
        seenPoint := true;
      } else {
        break;
      }
      m := Mantissa(coefficient, exponent, digits, seenPoint, any);
      end := end + 1;
    }
  }

  method Blanks(text: string, i: nat) returns (j: nat)
    ensures j == SkipBlanks(text, i)
  {
    j := i;
    while At(text, j) == ' ' || At(text, j) == '\t'
      invariant SkipBlanks(text, j) == SkipBlanks(text, i)
      decreases |text| - j
    {
      j := j + 1;
    }
  }

  method ReadExponent(text: string, i: nat) returns (part: Option<(nat, int)>)
    ensures part == ExponentPart(text, i)
  {
    if At(text, i) != 'e' && At(text, i) != 'E' {
      return Some((i, 0));
    }
    var j := i + 1;
    var negative := false;
    if At(text, j) == '+' || At(text, j) == '-' {
      negative := At(text, j) == '-';
      j := j + 1;
    }
    if At(text, j) < '0' || At(text, j) > '9' {
      return None;
    }
    var e, k: nat := 0, j;
    while '0' <= At(text, k) <= '9'
      invariant e >= 0 && ScanExponent(text, k, e) == ScanExponent(text, j, 0)
      decreases |text| - k
    {
      if e < 100000 {
        e := e * 10 + (At(text, k) as int - '0' as int);
      }
      k := k + 1;
    }
    part := Some((k, Signed(negative, e)));
  }

  method ReadNumber(text: string, i: nat, negative: bool) returns (bits: Bits)
    ensures bits == Number(text, i, negative)
  {
    var j, m := ScanNumber(text, i);
    if !m.any {
      return QUIET_NAN;
    }
    var part := ReadExponent(text, j);
    if part.None? {
      return QUIET_NAN;
    }
    var exponent := m.exponent + part.value.1;
    var end := Blanks(text, part.value.0);
    if At(text, end) != '\0' {
      return QUIET_NAN;
    }
    if m.coefficient == 0 {
      exponent := 0;
    }
    bits := Encode(negative, m.coefficient, exponent);
  }

  method FromString(text: Option<string>) returns (bits: Bits)
    ensures bits == Parsed(text)
  {
    if text.None? {
      return QUIET_NAN;
    }
    var s := text.value;
    var i := Blanks(s, 0);
    var negative := false;
    if At(s, i) == '+' || At(s, i) == '-' {
      negative := At(s, i) == '-';
      i := i + 1;
    }
    if Starts(s, i, "NaN") || Starts(s, i, "nan") || Starts(s, i, "SNaN") {
      return SignBit(negative) + QUIET_NAN;
    }
    if Starts(s, i, "Inf") || Starts(s, i, "inf") {
      return SignBit(negative) + INFINITY;
    }
    bits := ReadNumber(s, i, negative);
  }

  // ---- the printed form -------------------------------------------------

  function SignOf(negative: bool): string { if negative then "-" else "+" }

  /** Coefficient digits, E, signed exponent. */
  function NumberText(c: nat, e: int): string { Digits(c) + ("E" + (SignOf(e < 0) + Digits(Abs(e)))) }

  function Printed(bits: Bits): string {
    var d := Decode(bits);
    SignOf(d.negative) +
    match d
    case NaN(_) => "NaN"
    case Inf(_) => "Inf"
    case Finite(_, c, e) => NumberText(c, e)
  }

  // ---- reading what is printed ------------------------------------------

  lemma {:induction false} DigitsFew(n: nat, k: nat)
    requires k >= 1 && n < Pow10(k)
    ensures |Digits(n)| <= k
  {
    if n >= 10 {
      assert k >= 2 && n / 10 < Pow10(k - 1);
      DigitsFew(n / 10, k - 1);
    }
  }

  /** Reading the digits of a number in takes the mantissa to that number. */
  lemma {:induction false} ScanDigits(text: string, i: nat, n: nat)
    requires Starts(text, i, Digits(n)) && |Digits(n)| < KEPT
    ensures ScanMantissa(text, i, BLANK) ==
            ScanMantissa(text, i + |Digits(n)|, Mantissa(n, 0, if n == 0 then 0 else |Digits(n)|, false, true))
  {
    DigitsAre(n);
    var last := |Digits(n)| - 1;
    StartsAt(text, i, Digits(n), last);
    if n >= 10 {
      StartsParts(text, i, Digits(n / 10), [DigitChar(n % 10)]);
      ScanDigits(text, i, n / 10);
    }
  }

  lemma {:induction false} ScanExponentDigits(text: string, i: nat, n: nat)
    requires Starts(text, i, Digits(n)) && n < 1000000
    ensures ScanExponent(text, i, 0) == ScanExponent(text, i + |Digits(n)|, n)
  {
    DigitsAre(n);
    var last := |Digits(n)| - 1;
    StartsAt(text, i, Digits(n), last);
    if n >= 10 {
      StartsParts(text, i, Digits(n / 10), [DigitChar(n % 10)]);
      ScanExponentDigits(text, i, n / 10);
    }
  }

  lemma ExponentRead(text: string, i: nat, e: int)
    requires Starts(text, i, "E" + (SignOf(e < 0) + Digits(Abs(e)))) && Abs(e) < 1000000
    requires |text| == i + 2 + |Digits(Abs(e))|
    ensures ExponentPart(text, i) == Some((|text|, e))
  {
    StartsAt(text, i, "E" + (SignOf(e < 0) + Digits(Abs(e))), 0);
    StartsParts(text, i, "E", SignOf(e < 0) + Digits(Abs(e)));
    StartsAt(text, i + 1, SignOf(e < 0) + Digits(Abs(e)), 0);
    StartsParts(text, i + 1, SignOf(e < 0), Digits(Abs(e)));
    DigitsAre(Abs(e));
    StartsAt(text, i + 2, Digits(Abs(e)), 0);
    ScanExponentDigits(text, i + 2, Abs(e));
  }

  lemma SixteenDigits()
    ensures Pow10(16) == MAX_COEFFICIENT + 1
  {
    assert Pow10(4) == 10000;
    Pow10Adds(4, 4);
    Pow10Adds(8, 8);
  }

  /** The digits of a coefficient, and what stops them. */
  lemma MantissaRead(text: string, i: nat, c: nat)
    requires c <= MAX_COEFFICIENT && Starts(text, i, Digits(c)) && At(text, i + |Digits(c)|) == 'E'
    ensures ScanMantissa(text, i, BLANK) ==
            (i + |Digits(c)|, Mantissa(c, 0, if c == 0 then 0 else |Digits(c)|, false, true))
  {
    SixteenDigits();
    DigitsFew(c, 16);
    ScanDigits(text, i, c);
  }

  lemma NumberRead(text: string, i: nat, negative: bool, c: nat, e: int)
    requires c <= MAX_COEFFICIENT && Abs(e) < 1000000
    requires Starts(text, i, NumberText(c, e)) && |text| == i + |NumberText(c, e)|
    ensures Number(text, i, negative) == Encoded(negative, c, if c == 0 then 0 else e)
  {
    var tail := "E" + (SignOf(e < 0) + Digits(Abs(e)));
    StartsParts(text, i, Digits(c), tail);
    StartsAt(text, i + |Digits(c)|, tail, 0);
    MantissaRead(text, i, c);
    ExponentRead(text, i + |Digits(c)|, e);
  }

  /** A number is none of the words. */
  lemma NotAWord(text: string, i: nat)
    requires IsDigit(At(text, i))
    ensures !Starts(text, i, "NaN") && !Starts(text, i, "nan") && !Starts(text, i, "SNaN")
    ensures !Starts(text, i, "Inf") && !Starts(text, i, "inf")
  {
    StartsFirst(text, i, "NaN");
    StartsFirst(text, i, "nan");
    StartsFirst(text, i, "SNaN");
    StartsFirst(text, i, "Inf");
    StartsFirst(text, i, "inf");
  }

  lemma SignedRead(text: string, negative: bool, c: nat, e: int)
    requires c <= MAX_COEFFICIENT && Abs(e) < 1000000
    requires text == SignOf(negative) + NumberText(c, e)
    ensures Parsed(Some(text)) == Number(text, 1, negative) == Encoded(negative, c, if c == 0 then 0 else e)
  {
    var body := NumberText(c, e);
    assert Starts(text, 0, text);
    StartsParts(text, 0, SignOf(negative), body);
    StartsAt(text, 0, SignOf(negative), 0);
    DigitsAre(c);
    StartsAt(text, 1, body, 0);
    NotAWord(text, 1);
    NumberRead(text, 1, negative, c, e);
  }

  /** What is printed of a finite word is read as its encoding, a zero with its exponent dropped. */
  lemma FiniteRead(bits: Bits)
    requires IsFinite(bits)
    ensures var d := Decode(bits);
            Parsed(Some(Printed(bits))) == Encoded(d.negative, d.coefficient, if d.coefficient == 0 then 0 else d.exponent)
  {
    var d := Decode(bits);
    ExponentInRange(bits);
    SignedRead(Printed(bits), d.negative, d.coefficient, d.exponent);
  }

  lemma WordRead(bits: Bits)
    requires !IsFinite(bits)
    ensures Parsed(Some(Printed(bits))) ==
            SignBit(Decode(bits).negative) + if Decode(bits).NaN? then QUIET_NAN else INFINITY
  {
    var text, word := Printed(bits), if Decode(bits).NaN? then "NaN" else "Inf";
    var sign := SignOf(Decode(bits).negative);
    assert text == sign + word && Starts(text, 0, text);
    StartsParts(text, 0, sign, word);
    StartsAt(text, 0, sign, 0);
    StartsAt(text, 1, word, 0);
    if Decode(bits).Inf? {
      StartsFirst(text, 1, "NaN");
      StartsFirst(text, 1, "nan");
      StartsFirst(text, 1, "SNaN");
    }
  }

  /** The words that survive printing: canonical numbers, but not a zero with an exponent, and the plain specials. */
  predicate Printable(bits: Bits) {
    match Decode(bits)
    case NaN(negative) => bits == SignBit(negative) + QUIET_NAN
    case Inf(negative) => bits == SignBit(negative) + INFINITY
    case Finite(_, c, e) => Spelled(bits) <= MAX_COEFFICIENT && (c != 0 || e == 0)
  }

  /** Printing and reading back gives the same word exactly when it is printable; so for every canonical non-zero number. */
  lemma PrintThenParse(bits: Bits)
    ensures Parsed(Some(Printed(bits))) == bits <==> Printable(bits)
  {
    if !IsFinite(bits) {
      WordRead(bits);
    } else {
      var d := Decode(bits);
      FiniteRead(bits);
      ExponentInRange(bits);
      if Spelled(bits) <= MAX_COEFFICIENT {
        PackUnpacked(bits);
        EncodeThenDecode(d.negative, d.coefficient, if d.coefficient == 0 then 0 else d.exponent);
      } else {
        EncodeThenDecode(d.negative, 0, 0);
        UnpackPacked(d.negative, 0, 0);
      }
    }
  }

  /** A zero with an exponent loses it. */
  lemma ZeroLosesExponent(negative: bool, e: int)
    requires MIN_EXPONENT <= e <= MAX_EXPONENT && e != 0
    ensures Parsed(Some(Printed(Packed(negative, 0, e)))) == Packed(negative, 0, 0) != Packed(negative, 0, e)
  {
    UnpackPacked(negative, 0, e);
    FiniteRead(Packed(negative, 0, e));
    EncodeThenDecode(negative, 0, 0);
    UnpackPacked(negative, 0, 0);
  }

  /** The largest significand the bits can spell is no number's, and reads back as zero; a NaN's payload is lost. */
  lemma OddWordsAreLost()
    ensures var word: Bits := 3 * TWO_61 + BIAS * TWO_51 + (TWO_51 - 1); Parsed(Some(Printed(word))) != word
    ensures Parsed(Some(Printed(QUIET_NAN + 1))) != QUIET_NAN + 1
  {
    var word: Bits := 3 * TWO_61 + BIAS * TWO_51 + (TWO_51 - 1);
    assert Spelled(word) > MAX_COEFFICIENT && IsFinite(word);
    PrintThenParse(word);
    PrintThenParse(QUIET_NAN + 1);
  }

  // ---- reading a decimal ------------------------------------------------

  /** Digits that fit are all taken in; past a point each counts the exponent down. */
  lemma {:induction false} ScanAllDigits(text: string, i: nat, s: string, m: Mantissa) returns (end: Mantissa)
    requires Starts(text, i, s) && AllDigits(s) && m.digits + |s| <= KEPT
    ensures end.coefficient == SpellsOn(m.coefficient, s) && end.seenPoint == m.seenPoint
    ensures end.exponent == (if m.seenPoint then m.exponent - |s| else m.exponent)
    ensures end.digits <= m.digits + |s| && end.any == (m.any || s != "")
    ensures ScanMantissa(text, i, m) == ScanMantissa(text, i + |s|, end)
  {
    if s == "" {
      end := m;
    } else {
      var front, last := s[..|s| - 1], s[|s| - 1];
      assert s == front + [last];
      StartsParts(text, i, front, [last]);
      StartsAt(text, i, s, |s| - 1);
      var before := ScanAllDigits(text, i, front, m);
      end := TakeDigit(before, DigitOf(last));
    }
  }

  lemma ScanDecimal(text: string, a: string, b: string) returns (m: Mantissa)
    requires AllDigits(a) && AllDigits(b) && |a| + |b| <= KEPT && |text| == |a| + 1 + |b|
    requires Starts(text, 0, a) && At(text, |a|) == '.' && Starts(text, |a| + 1, b)
    ensures ScanMantissa(text, 0, BLANK) == (|text|, m)
    ensures m.coefficient == SpellsOn(SpellsOn(0, a), b) && m.exponent == -|b| && (|a| + |b| > 0 ==> m.any)
  {
    var whole := ScanAllDigits(text, 0, a, BLANK);
    var pointed := whole.(seenPoint := true);
    m := ScanAllDigits(text, |a| + 1, b, pointed);
  }

  lemma WholeTextNumber(text: string, negative: bool, m: Mantissa)
    requires ScanMantissa(text, 0, BLANK) == (|text|, m) && m.any
    ensures Number(text, 0, negative) == Encoded(negative, m.coefficient, if m.coefficient == 0 then 0 else m.exponent)
  {
  }

  /** A decimal of up to thirty-four digits is read as the value it spells: its digits, scaled by those after the point. */
  lemma DecimalRead(a: string, b: string, negative: bool)
    requires AllDigits(a) && AllDigits(b) && 1 <= |a| + |b| <= KEPT
    ensures AllDigits(a + b)
    ensures var c := SpellsOn(0, a + b);
            Number(a + ("." + b), 0, negative) == Encoded(negative, c, if c == 0 then 0 else -|b|)
  {
    var text := a + ("." + b);
    assert Starts(text, 0, text);
    StartsParts(text, 0, a, "." + b);
    StartsParts(text, |a|, ".", b);
    StartsAt(text, |a|, ".", 0);
    var m := ScanDecimal(text, a, b);
    SpellsAppend(0, a, b);
    WholeTextNumber(text, negative, m);
  }
}
