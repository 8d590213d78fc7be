/** What any text at all is read as, from its own characters: the grammar, its digits, and what is turned away. */
module Bid64TextRules {
  import opened Bid64
  import opened Bid64Text
  import opened Common
  import N = Numerals
  import opened Texts

  // ---- a number as it stands in a text ----------------------------------

  predicate Spaces(text: string, i: nat, j: nat) {
    i <= j <= |text| && forall k :: i <= k < j ==> text[k] == ' ' || text[k] == '\t'
  }

  /** Blanks, perhaps a sign, a decimal, perhaps an exponent, and blanks to the end. */
  predicate Numeral(text: string, n: N.Layout) {
    && Spaces(text, 0, n.sign) && N.Signed(text, n) && N.Decimal(text, n) && N.Power(text, n) && Spaces(text, n.end, |text|)
  }

  /** How many noughts a run of digits begins with. */
  function Noughts(s: string): (k: nat)
    ensures k <= |s|
  {
    if s != "" && s[0] == '0' then 1 + Noughts(s[1..]) else 0
  }

  /** How many digits of a run count: its noughts, and so many from the first other digit on. */
  function Counted(s: string, width: nat): (k: nat)
    ensures k <= |s|
  {
    if |s| <= Noughts(s) + width then |s| else Noughts(s) + width
  }

  /** The first thirty-four figures, read as one number. */
  function Coefficient(text: string, n: N.Layout): nat
    requires N.Pointed(text, n)
  {
    N.FiguresAreDigits(text, n);
    var s := n.Figures(text);
    SpellsOn(0, s[..Counted(s, 34)])
  }

  /** The exponent written: its first six figures. */
  function Written(text: string, n: N.Layout): int
    requires N.Power(text, n) && n.end <= |text|
  {
    if n.power == n.end then 0
    else
      var s := text[n.power..n.end];
      var e: int := SpellsOn(0, s[..Counted(s, 6)]);
      if text[n.letter + 1] == '-' then -e else e
  }

  /** The exponent of the coefficient: the figures before the point, less those counted, and the exponent written. */
  function Place(text: string, n: N.Layout): int
    requires N.Decimal(text, n) && N.Power(text, n) && n.end <= |text|
  {
    n.point - n.whole - Counted(n.Figures(text), 34) + Written(text, n)
  }

  // ---- the digits a run spells ------------------------------------------

  lemma {:induction false} NoughtsAre(s: string, k: nat)
    requires k <= Noughts(s)
    ensures k < Noughts(s) ==> s[k] == '0'
    ensures k == Noughts(s) < |s| ==> s[k] != '0'
  {
    if k > 0 {
      NoughtsAre(s[1..], k - 1);
    }
  }

  lemma Decade(value: nat, d: nat, low: nat, high: nat)
    requires low <= value < high && d < 10
    ensures 10 * low <= 10 * value + d < 10 * high
  {
  }

  /** How large the first digits of a run are: nothing for its noughts, then a decade for each. */
  lemma {:induction false} SpellsWide(s: string, k: nat)
    requires AllDigits(s) && k <= |s|
    ensures k <= Noughts(s) ==> SpellsOn(0, s[..k]) == 0
    ensures k > Noughts(s) ==> Pow10(k - Noughts(s) - 1) <= SpellsOn(0, s[..k]) < Pow10(k - Noughts(s))
  {
    if k > 0 {
      SpellsWide(s, k - 1);
      assert s[..k][..k - 1] == s[..k - 1];
      if k - 1 <= Noughts(s) {
        NoughtsAre(s, k - 1);
        assert Pow10(0) == 1 && Pow10(1) == 10;
      } else {
        var u := k - Noughts(s);
        Decade(SpellsOn(0, s[..k - 1]), DigitOf(s[k - 1]), Pow10(u - 2), Pow10(u - 1));
      }
    }
  }

  // ---- the mantissa -----------------------------------------------------

  /** What has been read after k figures, the point standing after so many of them. */
  function After(s: string, k: nat, point: nat, pointed: bool): Mantissa
    requires AllDigits(s) && k <= |s|
  {
    var kept := Min(k, Counted(s, 34));
    Mantissa(SpellsOn(0, s[..kept]),
             Max(0, Min(k, point) - Counted(s, 34)) - Max(0, kept - point),
             Max(0, kept - Noughts(s)), pointed, k > 0)
  }

  lemma CountedFigure(s: string, k: nat, point: nat, pointed: bool)
    requires AllDigits(s) && k < Counted(s, 34) && (pointed <==> k >= point)
    ensures TakeDigit(After(s, k, point, pointed), DigitOf(s[k])) == After(s, k + 1, point, pointed)
  {
    SpellsWide(s, k + 1);
    assert s[..k + 1][..k] == s[..k];
    var next := SpellsOn(0, s[..k + 1]);
    assert next == 10 * SpellsOn(0, s[..k]) + DigitOf(s[k]);
    assert next != 0 <==> k + 1 > Noughts(s);
  }

  lemma DroppedFigure(s: string, k: nat, point: nat, pointed: bool)
    requires AllDigits(s) && Counted(s, 34) <= k < |s| && (pointed <==> k >= point)
    ensures TakeDigit(After(s, k, point, pointed), DigitOf(s[k])) == After(s, k + 1, point, pointed)
  {
  }

  /** The text from i on shows the figures from k to j. */
  predicate Shows(text: string, i: nat, s: string, k: nat, j: nat)
    requires k <= j <= |s|
  {
    forall t :: k <= t < j ==> At(text, i + t - k) == s[t]
  }

  lemma {:induction false} ScanFigures(text: string, i: nat, s: string, k: nat, j: nat, point: nat, pointed: bool)
    requires AllDigits(s) && k <= j <= |s| && Shows(text, i, s, k, j)
    requires if pointed then point <= k else j <= point
    ensures ScanMantissa(text, i, After(s, k, point, pointed)) == ScanMantissa(text, i + j - k, After(s, j, point, pointed))
    decreases j - k
  {
    if k < j {
      assert At(text, i + k - k) == s[k];
      if k < Counted(s, 34) {
        CountedFigure(s, k, point, pointed);
      } else {
        DroppedFigure(s, k, point, pointed);
      }
      forall t | k + 1 <= t < j ensures At(text, i + 1 + t - (k + 1)) == s[t] {
        assert At(text, i + t - k) == s[t];
      }
      ScanFigures(text, i + 1, s, k + 1, j, point, pointed);
    }
  }

  lemma StopsHere(text: string, i: nat, m: Mantissa)
    requires !IsDigit(At(text, i)) && (At(text, i) != '.' || m.seenPoint)
    ensures ScanMantissa(text, i, m) == (i, m)
  {
  }

  lemma FiguresShown(text: string, n: N.Layout)
    requires N.Pointed(text, n)
    ensures var s, point := n.Figures(text), n.point - n.whole;
            |s| == point + n.letter - n.part && Shows(text, n.whole, s, 0, point) && Shows(text, n.part, s, point, |s|)
  {
  }

  lemma PointRead(text: string, i: nat, s: string, point: nat)
    requires AllDigits(s) && point <= |s| && At(text, i) == '.'
    ensures ScanMantissa(text, i, After(s, point, point, false)) == ScanMantissa(text, i + 1, After(s, point, point, true))
  {
    assert After(s, point, point, false).(seenPoint := true) == After(s, point, point, true);
  }

  lemma DecimalScanned(text: string, n: N.Layout) returns (m: Mantissa)
    requires N.Pointed(text, n) && !IsDigit(At(text, n.letter)) && (At(text, n.letter) != '.' || n.part > n.point)
    ensures ScanMantissa(text, n.whole, BLANK) == (n.letter, m) && (m.any <==> N.Decimal(text, n))
    ensures m.coefficient == Coefficient(text, n)
    ensures m.exponent == n.point - n.whole - Counted(n.Figures(text), 34)
  {
    var s, point := n.Figures(text), n.point - n.whole;
    N.FiguresAreDigits(text, n);
    FiguresShown(text, n);
    m := FiguresScanned(text, n, s, point);
  }

  lemma FiguresScanned(text: string, n: N.Layout, s: string, point: nat) returns (m: Mantissa)
    requires AllDigits(s) && |s| == point + n.letter - n.part && n.part <= n.letter && n.point == n.whole + point
    requires Shows(text, n.whole, s, 0, point) && Shows(text, n.part, s, point, |s|)
    requires n.part == n.point == n.letter || (n.part == n.point + 1 && At(text, n.point) == '.')
    requires !IsDigit(At(text, n.letter)) && (At(text, n.letter) != '.' || n.part > n.point)
    ensures ScanMantissa(text, n.whole, BLANK) == (n.letter, m) && (m.any <==> s != "")
    ensures m.coefficient == SpellsOn(0, s[..Counted(s, 34)]) && m.exponent == point - Counted(s, 34)
  {
    assert s[..0] == "" && After(s, 0, point, false) == BLANK;
    ScanFigures(text, n.whole, s, 0, point, point, false);
    m := After(s, |s|, point, n.part > n.point);
    if n.part > n.point {
      PointRead(text, n.point, s, point);
      ScanFigures(text, n.part, s, point, |s|, point, true);
    }
    StopsHere(text, n.letter, m);
  }

  // ---- the exponent -----------------------------------------------------

  lemma OneMore(s: string, k: nat)
    requires AllDigits(s) && k < |s|
    ensures GrowExponent(SpellsOn(0, s[..Min(k, Counted(s, 6))]), DigitOf(s[k])) == SpellsOn(0, s[..Min(k + 1, Counted(s, 6))])
  {
    var kept := Counted(s, 6);
    assert Pow10(5) == 100000;
    if k < kept {
      SpellsWide(s, k);
      Pow10Grows(Max(0, k - Noughts(s)), 5);
      assert s[..k + 1][..k] == s[..k];
    } else {
      SpellsWide(s, kept);
    }
  }

  lemma {:induction false} ScanPower(text: string, i: nat, s: string, k: nat)
    requires AllDigits(s) && k <= |s| && Shows(text, i, s, k, |s|) && !IsDigit(At(text, i + |s| - k))
    ensures ScanExponent(text, i, SpellsOn(0, s[..Min(k, Counted(s, 6))])) == (i + |s| - k, SpellsOn(0, s[..Counted(s, 6)]))
    decreases |s| - k
  {
    if k < |s| {
      assert At(text, i + k - k) == s[k];
      OneMore(s, k);
      forall t | k + 1 <= t < |s| ensures At(text, i + 1 + t - (k + 1)) == s[t] {
        assert At(text, i + t - k) == s[t];
      }
      ScanPower(text, i + 1, s, k + 1);
    }
  }

  lemma PowerRead(text: string, n: N.Layout)
    requires N.Power(text, n) && n.end <= |text| && !IsDigit(At(text, n.end))
    requires n.power == n.end ==> At(text, n.end) != 'e' && At(text, n.end) != 'E'
    ensures ExponentPart(text, n.letter) == Some((n.end, Written(text, n)))
  {
    if n.power != n.end {
      var s := text[n.power..n.end];
      assert s[..0] == "" && s[0] == text[n.power];
      ScanPower(text, n.power, s, 0);
    }
  }

  // ---- the whole text ---------------------------------------------------

  lemma {:induction false} SpacesSkipped(text: string, i: nat, j: nat)
    requires Spaces(text, i, j) && !IsBlank(At(text, j))
    ensures SkipBlanks(text, i) == j
    decreases j - i
  {
    if i < j {
      SpacesSkipped(text, i + 1, j);
    }
  }

  lemma NoWordHere(text: string, i: nat)
    requires IsDigit(At(text, i)) || At(text, i) == '.'
    ensures !Starts(text, i, "NaN") && !Starts(text, i, "nan") && !Starts(text, i, "SNaN")
    ensures !Starts(text, i, "Inf") && !Starts(text, i, "inf")
  {
    StartsFirst(text, i, "NaN");
    StartsFirst(text, i, "nan");
    StartsFirst(text, i, "SNaN");
    StartsFirst(text, i, "Inf");
    StartsFirst(text, i, "inf");
  }

  lemma NumeralNumber(text: string, n: N.Layout, negative: bool)
    requires Numeral(text, n)
    ensures Number(text, n.whole, negative) ==
            Encoded(negative, Coefficient(text, n), if Coefficient(text, n) == 0 then 0 else Place(text, n))
  {
    var m := DecimalScanned(text, n);
    PowerRead(text, n);
    SpacesSkipped(text, n.end, |text|);
  }

  /** Every numeral, of any length, is read as the number its figures and its exponent say, and encoded. */
  lemma NumeralRead(text: string, n: N.Layout)
    requires Numeral(text, n)
    ensures var c := Coefficient(text, n);
            Parsed(Some(text)) == Encoded(At(text, n.sign) == '-', c, if c == 0 then 0 else Place(text, n))
  {
    assert IsDigit(At(text, n.whole)) || At(text, n.whole) == '.';
    SpacesSkipped(text, 0, n.sign);
    NoWordHere(text, n.whole);
    NumeralNumber(text, n, At(text, n.sign) == '-');
  }

  // ---- the words, and everything else -----------------------------------

  /** After blanks and perhaps a sign the text goes on with this word; anything may follow it. */
  predicate Names(text: string, sign: nat, i: nat, word: string) {
    Spaces(text, 0, sign) && (i == sign || (i == sign + 1 && N.SignAt(text, sign))) && Starts(text, i, word)
  }

  ghost predicate NamesNaN(text: string, sign: nat, i: nat) {
    Names(text, sign, i, "NaN") || Names(text, sign, i, "nan") || Names(text, sign, i, "SNaN")
  }

  ghost predicate NamesInfinity(text: string, sign: nat, i: nat) {
    Names(text, sign, i, "Inf") || Names(text, sign, i, "inf")
  }

  lemma SignBitIs(negative: bool)
    ensures SignBit(negative) == if negative then 0x8000_0000_0000_0000 else 0
  {
  }

  lemma WordFirst(text: string, i: nat)
    requires Starts(text, i, "NaN") || Starts(text, i, "nan") || Starts(text, i, "SNaN") ||
             Starts(text, i, "Inf") || Starts(text, i, "inf")
    ensures At(text, i) in "NnSIi"
  {
    StartsFirst(text, i, "NaN");
    StartsFirst(text, i, "nan");
    StartsFirst(text, i, "SNaN");
    StartsFirst(text, i, "Inf");
    StartsFirst(text, i, "inf");
  }

  lemma NoBoth(text: string, i: nat)
    requires Starts(text, i, "Inf") || Starts(text, i, "inf")
    ensures !Starts(text, i, "NaN") && !Starts(text, i, "nan") && !Starts(text, i, "SNaN")
  {
    StartsFirst(text, i, "Inf");
    StartsFirst(text, i, "inf");
    StartsFirst(text, i, "NaN");
    StartsFirst(text, i, "nan");
    StartsFirst(text, i, "SNaN");
  }

  /** The words, with a minus for the sign bit: a quiet NaN and an infinity, whatever follows them. */
  lemma WordsRead(text: string, sign: nat, i: nat)
    requires NamesNaN(text, sign, i) || NamesInfinity(text, sign, i)
    ensures var bit := if At(text, sign) == '-' then 0x8000_0000_0000_0000 else 0;
            Parsed(Some(text)) == bit + if NamesNaN(text, sign, i) then 0x7c00_0000_0000_0000 else 0x7800_0000_0000_0000
  {
    WordFirst(text, i);
    SpacesSkipped(text, 0, sign);
    if !NamesNaN(text, sign, i) {
      NoBoth(text, i);
    }
    SignBitIs(At(text, sign) == '-');
  }

  lemma {:induction false} SpacesEnd(text: string, i: nat)
    requires i <= |text|
    ensures Spaces(text, i, SkipBlanks(text, i))
    decreases |text| - i
  {
    if IsBlank(At(text, i)) {
      SpacesEnd(text, i + 1);
    }
  }

  lemma {:induction false} RunEnds(text: string, i: nat) returns (j: nat)
    requires i <= |text|
    ensures N.DigitRun(text, i, j) && !IsDigit(At(text, j))
    decreases |text| - i
  {
    j := i;
    if IsDigit(At(text, i)) {
      j := RunEnds(text, i + 1);
    }
  }

  /** Whatever stands at a place, its longest run of digits with one point has a layout. */
  lemma Laid(text: string, sign: nat, whole: nat) returns (n: N.Layout)
    requires whole <= |text|
    ensures n.sign == sign && n.whole == whole && N.Pointed(text, n)
    ensures !IsDigit(At(text, n.letter)) && (At(text, n.letter) != '.' || n.part > n.point)
  {
    var point := RunEnds(text, whole);
    n := N.Layout(sign, whole, point, point, point, point, point);
    if point < |text| && text[point] == '.' {
      var letter := RunEnds(text, point + 1);
      n := N.Layout(sign, whole, point, point + 1, letter, letter, letter);
    }
  }

  lemma {:induction false} PowerEnds(text: string, i: nat, e: nat)
    requires i <= |text|
    ensures N.DigitRun(text, i, ScanExponent(text, i, e).0)
    ensures IsDigit(At(text, i)) ==> i < ScanExponent(text, i, e).0
    decreases |text| - i
  {
    if IsDigit(At(text, i)) {
      PowerEnds(text, i + 1, GrowExponent(e, DigitOf(At(text, i))));
    }
  }

  lemma PowerLaid(text: string, n: N.Layout) returns (p: N.Layout)
    requires n.letter <= |text| && ExponentPart(text, n.letter).Some?
    ensures p == n.(power := p.power, end := p.end) && N.Power(text, p) && p.end <= |text|
    ensures p.end == ExponentPart(text, n.letter).value.0
  {
    if At(text, n.letter) != 'e' && At(text, n.letter) != 'E' {
      p := n.(power := n.letter, end := n.letter);
    } else {
      var j := if IsSign(At(text, n.letter + 1)) then n.letter + 2 else n.letter + 1;
      PowerEnds(text, j, 0);
      p := n.(power := j, end := ScanExponent(text, j, 0).0);
    }
  }

  /** A number that is not turned away stands in the text. */
  lemma NumberStands(text: string, sign: nat, whole: nat, negative: bool) returns (n: N.Layout)
    requires '\0' !in text && Spaces(text, 0, sign) && whole <= |text|
    requires whole == sign || (whole == sign + 1 && N.SignAt(text, sign))
    requires Number(text, whole, negative) != QUIET_NAN
    ensures Numeral(text, n)
  {
    var start := Laid(text, sign, whole);
    var m := DecimalScanned(text, start);
    n := PowerLaid(text, start);
    SpacesEnd(text, n.end);
  }

  /** A text that is no numeral and starts with no word is read as a quiet NaN; so is no text at all. */
  lemma OthersRefused(text: string)
    requires '\0' !in text && forall n: N.Layout :: !Numeral(text, n)
    requires forall sign: nat, i: nat :: !NamesNaN(text, sign, i) && !NamesInfinity(text, sign, i)
    ensures Parsed(Some(text)) == 0x7c00_0000_0000_0000 == Parsed(None)
  {
    var sign := SkipBlanks(text, 0);
    SpacesEnd(text, 0);
    var i := if IsSign(At(text, sign)) then sign + 1 else sign;
    assert !NamesNaN(text, sign, i) && !NamesInfinity(text, sign, i);
    var negative := At(text, sign) == '-';
    if Number(text, i, negative) != QUIET_NAN {
      var n := NumberStands(text, sign, i, negative);
    }
  }
}
