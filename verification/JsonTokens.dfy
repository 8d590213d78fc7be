/** The tokens of a JSON text, from its own characters: blanks, strings and numbers, and what they say. */
module JsonTokens {
  import opened Common
  import opened Texts
  import Bid64
  import J = JsonRoundTrip
  import N = Numerals
  import P = JsonParser

  /** Blanks from i to j, and none at j. */
  predicate Gap(text: string, i: nat, j: nat)
    decreases |text| - i
  {
    if i < |text| && (text[i] == ' ' || text[i] == '\n' || text[i] == '\r' || text[i] == '\t') then Gap(text, i + 1, j)
    else i == j <= |text|
  }

  predicate ShowsAt(text: string, i: int, c: char) { 0 <= i < |text| && text[i] == c }

  // ---- strings ----------------------------------------------------------

  /** One character of a string as it is written, and what it says. */
  datatype Piece =
    | Raw(c: char)
    | Short(letter: char, c: char)
    | Coded(word: string, bytes: string)

  predicate ShortMeans(letter: char, c: char) {
    || (letter == '"' && c == '"') || (letter == '\\' && c == '\\') || (letter == '/' && c == '/')
    || (letter == 'b' && c == 8 as char) || (letter == 'f' && c == 12 as char)
    || (letter == 'n' && c == 10 as char) || (letter == 'r' && c == 13 as char) || (letter == 't' && c == 9 as char)
  }

  /** The value of a hexadecimal digit of either case; nothing for any other character. */
  function Hexit(c: char): Option<nat> {
    if '0' <= c <= '9' then Some(c as int - 48)
    else if 'A' <= c <= 'F' then Some(c as int - 55)
    else if 'a' <= c <= 'f' then Some(c as int - 87)
    else None
  }

  /** A code point's bytes in UTF-8. */
  predicate BytesOf(bytes: string, code: nat) {
    || (code < 128 && |bytes| == 1 && bytes[0] as int == code)
    || (128 <= code < 2048 && |bytes| == 2 && bytes[0] as int == 192 + code / 64 && bytes[1] as int == 128 + code % 64)
    || (2048 <= code < 65536 && |bytes| == 3 && bytes[0] as int == 224 + code / 4096
        && bytes[1] as int == 128 + code / 64 % 64 && bytes[2] as int == 128 + code % 64)
  }

  predicate AllHex(word: string) {
    |word| == 4 && Hexit(word[0]).Some? && Hexit(word[1]).Some? && Hexit(word[2]).Some? && Hexit(word[3]).Some?
  }

  /** The number four digits spell, most significant first. */
  function FourHex(word: string): nat
    requires AllHex(word)
  {
    4096 * Hexit(word[0]).value + 256 * Hexit(word[1]).value + 16 * Hexit(word[2]).value + Hexit(word[3]).value
  }

  /** Four digits are the code point they spell; any other four characters, what the C library makes of them. */
  predicate CodeMeans(word: string, bytes: string) {
    if AllHex(word) then BytesOf(bytes, FourHex(word)) else bytes == P.Utf8(P.HexNumber(word))
  }

  function Width(p: Piece): nat {
    match p
    case Raw(_) => 1
    case Short(_, _) => 2
    case Coded(_, _) => 6
  }

  predicate PieceAt(text: string, i: nat, p: Piece) {
    match p
    case Raw(c) => ShowsAt(text, i, c) && c != '"' && c != '\\'
    case Short(letter, c) => ShowsAt(text, i, '\\') && ShowsAt(text, i + 1, letter) && ShortMeans(letter, c)
    case Coded(word, bytes) =>
      i + 6 <= |text| && text[i] == '\\' && text[i + 1] == 'u' && text[i + 2..i + 6] == word && CodeMeans(word, bytes)
  }

  predicate PiecesAt(text: string, i: nat, pieces: seq<Piece>, j: int)
    decreases |pieces|
  {
    if pieces == [] then i == j else PieceAt(text, i, pieces[0]) && PiecesAt(text, i + Width(pieces[0]), pieces[1..], j)
  }

  /** The pieces between two quotes. */
  predicate QuotedAt(text: string, from: nat, pieces: seq<Piece>, to: nat) {
    ShowsAt(text, from, '"') && PiecesAt(text, from + 1, pieces, to - 1) && ShowsAt(text, to - 1, '"')
  }

  function Says(p: Piece): string {
    match p
    case Raw(c) => [c]
    case Short(_, c) => [c]
    case Coded(_, bytes) => bytes
  }

  function Said(pieces: seq<Piece>): string { if pieces == [] then "" else Says(pieces[0]) + Said(pieces[1..]) }

  // ---- numbers ----------------------------------------------------------

  /** A character that a number would go on with. */
  predicate GoesOn(text: string, i: nat) {
    i < |text| && ('0' <= text[i] <= '9' || text[i] == '.' || text[i] == 'e' || text[i] == 'E' || text[i] == '+' || text[i] == '-')
  }

  predicate NumberAt(text: string, n: N.Layout) {
    N.Signed(text, n) && N.Decimal(text, n) && N.Power(text, n) && n.end <= |text| && !GoesOn(text, n.end)
  }

  /** The exponent written after a number. */
  function Written(text: string, n: N.Layout): int
    requires N.Power(text, n) && n.end <= |text|
  {
    if n.power == n.end then 0
    else
      var e: int := SpellsOn(0, text[n.power..n.end]);
      if text[n.letter + 1] == '-' then -e else e
  }

  /** A number times a power of ten. */
  function Shifted(figures: nat, e: int): real {
    if e >= 0 then figures as real * Bid64.Pow10(e) as real else figures as real / Bid64.Pow10(-e) as real
  }

  /** All its digits, scaled by the exponent written less the digits past the point. */
  function Worth(text: string, n: N.Layout): real
    requires NumberAt(text, n)
  {
    N.FiguresAreDigits(text, n);
    var x := Shifted(SpellsOn(0, n.Figures(text)), Written(text, n) - (n.letter - n.part));
    if ShowsAt(text, n.sign, '-') then -x else x
  }

  // ---- strings, both ways -----------------------------------------------

  lemma OrAdds(x: bv8)
    requires x < 64
    ensures (0x80 | x) as int == 128 + x as int
    ensures x < 32 ==> (0xC0 | x) as int == 192 + x as int
    ensures x < 16 ==> (0xE0 | x) as int == 224 + x as int
  {
    assert 0x80 | x == 0x80 + x;
    assert x < 32 ==> 0xC0 | x == 0xC0 + x;
    assert x < 16 ==> 0xE0 | x == 0xE0 + x;
  }

  lemma MarkedIs(x: nat)
    requires x < 64
    ensures P.Marked(0x80, x) as int == 128 + x
    ensures x < 32 ==> P.Marked(0xC0, x) as int == 192 + x
    ensures x < 16 ==> P.Marked(0xE0, x) as int == 224 + x
  {
    assert x % 256 == x;
    OrAdds(x as bv8);
  }

  /** The bytes of a code point are its own, and no others are. */
  lemma BytesAre(code: nat, bytes: string)
    requires code < 65536
    ensures BytesOf(bytes, code) <==> bytes == P.Utf8(code)
  {
    if code < 128 {
    } else if code < 2048 {
      MarkedIs(code / 64);
      MarkedIs(code % 64);
    } else {
      MarkedIs(code / 4096);
      MarkedIs(code / 64 % 64);
      MarkedIs(code % 64);
    }
  }

  lemma HexitIs(c: char)
    ensures Hexit(c).Some? <==> P.IsHex(c)
    ensures Hexit(c).Some? ==> Hexit(c).value == P.HexOf(c) < 16
  {
  }

  /** Where a digit comes first there are no blanks and no sign; and where one comes second, no prefix. */
  lemma DigitsAtOnce(word: string)
    requires |word| == 4 && P.IsHex(word[0]) && P.IsHex(word[1])
    ensures P.HexNumber(word) == P.HexRun(word, 0, 0) % 0x1_0000_0000
  {
  }

  lemma HexRunOn(word: string, k: nat, value: nat, d: nat)
    requires k < |word| && Hexit(word[k]) == Some(d)
    ensures P.HexRun(word, k, value) == P.HexRun(word, k + 1, 16 * value + d)
  {
    HexitIs(word[k]);
    J.HexRunFrom(word, k, value);
  }

  lemma HexRunEnds(word: string, k: nat, value: nat)
    requires k == |word|
    ensures P.HexRun(word, k, value) == value
  {
    J.HexRunFrom(word, k, value);
  }

  lemma HexRunLast(word: string, k: nat, value: nat, c: nat, d: nat)
    requires k + 2 == |word| && Hexit(word[k]) == Some(c) && Hexit(word[k + 1]) == Some(d)
    ensures P.HexRun(word, k, value) == 256 * value + 16 * c + d
  {
    HexRunOn(word, k, value, c);
    HexRunOn(word, k + 1, 16 * value + c, d);
    HexRunEnds(word, k + 2, 16 * (16 * value + c) + d);
  }

  lemma HexRunFour(word: string, k: nat, a: nat, b: nat, c: nat, d: nat)
    requires k == 0 && |word| == 4 && Hexit(word[0]) == Some(a) && Hexit(word[1]) == Some(b)
    requires Hexit(word[2]) == Some(c) && Hexit(word[3]) == Some(d)
    ensures P.HexRun(word, k, 0) == 4096 * a + 256 * b + 16 * c + d
  {
    HexRunOn(word, k, 0, a);
    HexRunOn(word, k + 1, 16 * 0 + a, b);
    HexRunLast(word, k + 2, 16 * (16 * 0 + a) + b, c, d);
  }

  lemma HexWordIs(word: string, a: nat, b: nat, c: nat, d: nat)
    requires |word| == 4 && Hexit(word[0]) == Some(a) && Hexit(word[1]) == Some(b)
    requires Hexit(word[2]) == Some(c) && Hexit(word[3]) == Some(d) && a < 16 && b < 16 && c < 16 && d < 16
    ensures P.HexNumber(word) == 4096 * a + 256 * b + 16 * c + d
  {
    HexRunFour(word, 0, a, b, c, d);
    HexitIs(word[0]);
    HexitIs(word[1]);
    DigitsAtOnce(word);
  }

  lemma HexWord(word: string)
    requires AllHex(word)
    ensures P.HexNumber(word) == FourHex(word) < 65536
  {
    HexitIs(word[0]);
    HexitIs(word[1]);
    HexitIs(word[2]);
    HexitIs(word[3]);
    HexWordIs(word, Hexit(word[0]).value, Hexit(word[1]).value, Hexit(word[2]).value, Hexit(word[3]).value);
  }

  lemma CodeIs(word: string, bytes: string)
    requires |word| == 4
    ensures CodeMeans(word, bytes) <==> bytes == P.Utf8(P.HexNumber(word))
  {
    if AllHex(word) {
      HexWord(word);
      BytesAre(P.HexNumber(word), bytes);
    }
  }

  lemma ShortIs(letter: char, c: char)
    ensures ShortMeans(letter, c) <==> P.Letter(letter) == Some(c)
  {
  }

  lemma PieceRead(text: string, i: nat, p: Piece, out: string)
    requires PieceAt(text, i, p)
    ensures P.ParseChars(text, i, out) == P.ParseChars(text, i + Width(p), out + Says(p))
  {
    match p
    case Raw(_) =>
    case Short(letter, c) => ShortIs(letter, c);
    case Coded(word, bytes) => CodeIs(word, bytes);
  }

  /** A reader takes in each piece as what it says, wherever it stands. */
  ghost predicate Takes(text: string, read: (nat, string) -> P.Parsed<string>, p: Piece) {
    forall i: nat, out :: PieceAt(text, i, p) ==> read(i, out) == read(i + Width(p), out + Says(p))
  }

  lemma {:induction false} PieceByPiece(text: string, read: (nat, string) -> P.Parsed<string>, i: nat,
          pieces: seq<Piece>, j: nat, out: string)
    requires PiecesAt(text, i, pieces, j) && forall k :: 0 <= k < |pieces| ==> Takes(text, read, pieces[k])
    ensures read(i, out) == read(j, out + Said(pieces))
    decreases |pieces|
  {
    if pieces == [] {
      assert out + "" == out;
    } else {
      assert Takes(text, read, pieces[0]);
      PieceByPiece(text, read, i + Width(pieces[0]), pieces[1..], j, out + Says(pieces[0]));
      Associates(out, Says(pieces[0]), Said(pieces[1..]));
    }
  }

  lemma PiecesRead(text: string, i: nat, pieces: seq<Piece>, j: nat)
    requires PiecesAt(text, i, pieces, j)
    ensures P.ParseChars(text, i, "") == P.ParseChars(text, j, Said(pieces))
  {
    var read: (nat, string) -> P.Parsed<string> := (i: nat, out: string) => P.ParseChars(text, i, out);
    forall k | 0 <= k < |pieces| ensures Takes(text, read, pieces[k]) {
      forall i: nat, out | PieceAt(text, i, pieces[k])
        ensures read(i, out) == read(i + Width(pieces[k]), out + Says(pieces[k]))
      {
        PieceRead(text, i, pieces[k], out);
      }
    }
    PieceByPiece(text, read, i, pieces, j, "");
    assert "" + Said(pieces) == Said(pieces);
  }

  /** A quoted string says what its pieces say. */
  lemma QuotedRead(text: string, from: nat, pieces: seq<Piece>, to: nat)
    requires QuotedAt(text, from, pieces, to)
    ensures P.ParseString(text, from) == P.Ok(Said(pieces), to)
  {
    PiecesRead(text, from + 1, pieces, to - 1);
  }

  /** What the parser took as the next character. */
  lemma PieceStands(text: string, i: nat, out: string) returns (p: Piece)
    requires P.ParseChars(text, i, out).Ok? && !ShowsAt(text, i, '"')
    ensures PieceAt(text, i, p) && P.ParseChars(text, i, out) == P.ParseChars(text, i + Width(p), out + Says(p))
    ensures i + Width(p) <= |text|
  {
    if text[i] != '\\' {
      p := Raw(text[i]);
    } else if text[i + 1] == 'u' {
      var word := text[i + 2..i + 6];
      p := Coded(word, P.Utf8(P.HexNumber(word)));
      CodeIs(word, p.bytes);
    } else {
      p := Short(text[i + 1], P.Letter(text[i + 1]).value);
      ShortIs(p.letter, p.c);
    }
  }

  lemma OnePieceMore(text: string, i: nat, p: Piece, rest: seq<Piece>, j: int, out: string)
    requires PieceAt(text, i, p) && PiecesAt(text, i + Width(p), rest, j)
    ensures PiecesAt(text, i, [p] + rest, j) && out + Said([p] + rest) == out + Says(p) + Said(rest)
  {
    assert ([p] + rest)[1..] == rest;
    Associates(out, Says(p), Said(rest));
  }

  lemma QuoteEnds(text: string, i: nat, out: string)
    requires ShowsAt(text, i, '"')
    ensures P.ParseChars(text, i, out) == P.Ok(out, i + 1)
  {
  }

  lemma NoPieces(text: string, i: nat, out: string)
    ensures PiecesAt(text, i, [], i) && out + Said([]) == out
  {
  }

  /** What the parser took up to the closing quote, and what it says. */
  lemma {:induction false} PiecesStand(text: string, i: nat, out: string, value: string, to: nat)
    returns (pieces: seq<Piece>)
    requires P.ParseChars(text, i, out) == P.Ok(value, to)
    ensures PiecesAt(text, i, pieces, to - 1) && ShowsAt(text, to - 1, '"') && value == out + Said(pieces)
    decreases |text| - i
  {
    if ShowsAt(text, i, '"') {
      pieces := [];
      QuoteEnds(text, i, out);
      NoPieces(text, i, out);
    } else {
      var p := PieceStands(text, i, out);
      var rest := PiecesStand(text, i + Width(p), out + Says(p), value, to);
      pieces := [p] + rest;
      OnePieceMore(text, i, p, rest, to - 1, out);
    }
  }

  lemma QuotedStands(text: string, from: nat, value: string, to: nat) returns (pieces: seq<Piece>)
    requires P.ParseString(text, from) == P.Ok(value, to)
    ensures QuotedAt(text, from, pieces, to) && value == Said(pieces)
  {
    pieces := PiecesStand(text, from + 1, "", value, to);
    assert "" + Said(pieces) == Said(pieces);
  }

  /** Where a string goes wrong after whole pieces, and how: no quote, half an escape, or a letter that is none. */
  lemma StringRefused(text: string, from: nat, pieces: seq<Piece>, i: nat)
    requires ShowsAt(text, from, '"') && PiecesAt(text, from + 1, pieces, i)
    ensures i >= |text| ==> P.ParseString(text, from) == P.Err(P.UnterminatedString, i)
    ensures ShowsAt(text, i, '\\') && i + 1 == |text| ==> P.ParseString(text, from) == P.Err(P.BadEscape, i + 1)
    ensures ShowsAt(text, i, '\\') && ShowsAt(text, i + 1, 'u') && i + 6 > |text| ==>
      P.ParseString(text, from) == P.Err(P.BadUnicodeEscape, i + 2)
    ensures ShowsAt(text, i, '\\') && i + 1 < |text| && text[i + 1] !in "\"\\/bfnrtu" ==>
      P.ParseString(text, from) == P.Err(P.BadEscape, i + 2)
  {
    PiecesRead(text, from + 1, pieces, i);
  }

  // ---- numbers, both ways -----------------------------------------------

  lemma {:induction false} RunIs(w: string, i: nat, j: nat)
    requires N.DigitRun(w, i, j) && !IsDigit(At(w, j))
    ensures P.DigitsEnd(w, i) == j
    decreases j - i
  {
    if i < j {
      RunIs(w, i + 1, j);
    }
  }

  lemma RunStands(w: string, i: nat)
    requires i <= |w|
    ensures N.DigitRun(w, i, P.DigitsEnd(w, i))
  {
    var j := P.DigitsEnd(w, i);
    forall k | i <= k < j ensures '0' <= w[k] <= '9' {
      assert IsDigit(At(w, k));
    }
  }

  lemma TenTimes(x: real, p: real)
    requires p > 0.0
    ensures x / p / 10.0 == x / (10.0 * p)
  {
  }

  lemma {:induction false} ScaledDownIs(n: nat, k: nat)
    ensures P.ScaledDown(n, k) == n as real / Bid64.Pow10(k) as real
  {
    if k > 0 {
      ScaledDownIs(n, k - 1);
      TenTimes(n as real, Bid64.Pow10(k - 1) as real);
    }
  }

  lemma ScaledIs(n: nat, e: int)
    ensures P.Scaled(n, e) == Shifted(n, e)
  {
    if e < 0 {
      ScaledDownIs(n, -e);
    }
  }

  lemma PowerRead(w: string, n: N.Layout)
    requires N.Power(w, n) && n.letter <= n.end == |w|
    ensures P.DecimalExponent(w, n.letter) == Some(Written(w, n))
  {
    if n.power < n.end {
      RunIs(w, n.power, n.end);
    }
  }

  /** The runs of digits of a token. */
  lemma FiguresRead(w: string, n: N.Layout)
    requires N.Decimal(w, n) && N.Power(w, n) && n.end == |w|
    ensures P.DigitsEnd(w, n.whole) == n.point && P.DigitsEnd(w, n.part) == n.letter
    ensures At(w, n.point) == '.' <==> n.part > n.point
  {
    RunIs(w, n.whole, n.point);
    RunIs(w, n.part, n.letter);
  }

  lemma FiguresSpell(w: string, n: N.Layout)
    requires N.Pointed(w, n)
    ensures AllDigits(w[n.whole..n.point]) && AllDigits(w[n.part..n.letter]) && AllDigits(n.Figures(w))
    ensures SpellsOn(SpellsOn(0, w[n.whole..n.point]), w[n.part..n.letter]) == SpellsOn(0, n.Figures(w))
  {
    SpellsAppend(0, w[n.whole..n.point], w[n.part..n.letter]);
  }

  function RunsIn(n: N.Layout): P.Runs { P.Runs(n.whole, n.point, n.part, n.letter) }

  /** The runs of digits the parser finds in a token. */
  lemma RunsFound(w: string, n: N.Layout)
    requires n.whole == (if At(w, 0) == '-' || At(w, 0) == '+' then 1 else 0)
    requires n.whole <= n.point <= n.part <= n.letter <= |w| && n.point - n.whole + n.letter - n.part > 0
    requires P.DigitsEnd(w, n.whole) == n.point && P.DigitsEnd(w, n.part) == n.letter
    requires n.part == n.point + (if At(w, n.point) == '.' then 1 else 0) && (n.part == n.point ==> n.letter == n.point)
    ensures P.RunsOf(w) == Some(RunsIn(n))
  {
  }

  lemma TokenParts(w: string, n: N.Layout)
    requires NumberAt(w, n) && n.sign == 0 && n.end == |w|
    ensures n.whole == (if At(w, 0) == '-' || At(w, 0) == '+' then 1 else 0)
    ensures n.whole <= n.point <= n.part <= n.letter <= |w| && n.point - n.whole + n.letter - n.part > 0
    ensures P.DigitsEnd(w, n.whole) == n.point && P.DigitsEnd(w, n.part) == n.letter
    ensures n.part == n.point + (if At(w, n.point) == '.' then 1 else 0) && (n.part == n.point ==> n.letter == n.point)
    ensures P.DecimalExponent(w, n.letter) == Some(Written(w, n))
  {
    FiguresRead(w, n);
    PowerRead(w, n);
  }

  lemma WorthIs(w: string, n: N.Layout, figures: nat, e: int)
    requires NumberAt(w, n) && n.sign == 0 && AllDigits(n.Figures(w))
    requires figures == SpellsOn(0, n.Figures(w)) && e == Written(w, n) - (n.letter - n.part)
    ensures var x := P.Scaled(figures, e); Worth(w, n) == if At(w, 0) == '-' then -x else x
  {
    ScaledIs(figures, e);
  }

  lemma ValuedIs(w: string, n: N.Layout, figures: nat, e: int)
    requires N.Decimal(w, n) && figures == SpellsOn(0, n.Figures(w)) && AllDigits(n.Figures(w)) && P.Digital(w, RunsIn(n))
    ensures var x := P.Scaled(figures, e - (n.letter - n.part));
            P.Valued(w, RunsIn(n), e) == if At(w, 0) == '-' then -x else x
  {
    FiguresSpell(w, n);
    assert P.Span(w, n.whole, n.point) == w[n.whole..n.point] && P.Span(w, n.part, n.letter) == w[n.part..n.letter];
  }

  lemma ValuedWorth(w: string, n: N.Layout, e: int)
    requires NumberAt(w, n) && n.sign == 0 && n.end == |w| && e == Written(w, n) && P.Digital(w, RunsIn(n))
    ensures P.Valued(w, RunsIn(n), e) == Worth(w, n)
  {
    N.FiguresAreDigits(w, n);
    var figures := SpellsOn(0, n.Figures(w));
    ValuedIs(w, n, figures, e);
    WorthIs(w, n, figures, e - (n.letter - n.part));
  }

  /** A whole token that is a number is read as its worth. */
  lemma TokenRead(w: string, n: N.Layout)
    requires NumberAt(w, n) && n.sign == 0 && n.end == |w|
    ensures P.DecimalOf(w) == Some(Worth(w, n))
  {
    TokenParts(w, n);
    RunsFound(w, n);
    ValuedWorth(w, n, Written(w, n));
  }

  lemma PowerStands(w: string, i: nat) returns (power: nat)
    requires i <= |w| && P.DecimalExponent(w, i).Some?
    ensures forall n: N.Layout :: n.letter == i && n.power == power && n.end == |w| ==> N.Power(w, n)
  {
    power := if i == |w| then i else if At(w, i + 1) == '-' || At(w, i + 1) == '+' then i + 2 else i + 1;
    if i < |w| {
      RunStands(w, power);
    }
  }

  /** A token the parser takes for a number is one. */
  lemma TokenStands(w: string) returns (n: N.Layout)
    requires P.DecimalOf(w).Some?
    ensures NumberAt(w, n) && n.sign == 0 && n.end == |w|
  {
    var whole := if At(w, 0) == '-' || At(w, 0) == '+' then 1 else 0;
    var point := P.DigitsEnd(w, whole);
    RunStands(w, whole);
    var pointed := At(w, point) == '.' && point < |w|;
    var part := if pointed then point + 1 else point;
    var letter := if pointed then P.DigitsEnd(w, part) else point;
    RunStands(w, part);
    var power := PowerStands(w, letter);
    n := N.Layout(0, whole, point, part, letter, power, |w|);
  }

  /** The same number further on in a text. */
  function Moved(n: N.Layout, base: nat): N.Layout {
    N.Layout(n.sign + base, n.whole + base, n.point + base, n.part + base, n.letter + base, n.power + base, n.end + base)
  }

  lemma RunMoved(text: string, base: nat, w: string, i: nat, j: nat)
    requires base + |w| <= |text| && text[base..base + |w|] == w
    ensures N.DigitRun(w, i, j) ==> N.DigitRun(text, i + base, j + base) && text[i + base..j + base] == w[i..j]
    ensures i <= j <= |w| && N.DigitRun(text, i + base, j + base) ==> N.DigitRun(w, i, j)
  {
    forall k | 0 <= k < |w| ensures text[base + k] == w[k] {
      assert text[base..base + |w|][k] == w[k];
    }
    if i <= j <= |w| && N.DigitRun(text, i + base, j + base) {
      forall k | i <= k < j ensures '0' <= w[k] <= '9' {
        assert '0' <= text[base + k] <= '9';
      }
    }
  }

  lemma CharMoved(text: string, base: nat, w: string, i: nat)
    requires base + |w| <= |text| && text[base..base + |w|] == w
    ensures i < |w| ==> text[i + base] == w[i]
  {
    if i < |w| {
      assert text[base..base + |w|][i] == w[i];
    }
  }

  lemma PowerMoved(text: string, base: nat, w: string, n: N.Layout)
    requires base + |w| <= |text| && text[base..base + |w|] == w && n.end == |w| && N.Ordered(n)
    ensures N.Power(w, n) <==> N.Power(text, Moved(n, base))
    ensures N.Power(w, n) ==> Written(w, n) == Written(text, Moved(n, base))
  {
    RunMoved(text, base, w, n.power, n.end);
    CharMoved(text, base, w, n.letter);
    CharMoved(text, base, w, n.letter + 1);
  }

  lemma FiguresMoved(text: string, base: nat, w: string, n: N.Layout)
    requires base + |w| <= |text| && text[base..base + |w|] == w && n.end == |w| && N.Ordered(n)
    ensures N.Decimal(w, n) <==> N.Decimal(text, Moved(n, base))
    ensures N.Decimal(w, n) ==> n.Figures(w) == Moved(n, base).Figures(text)
  {
    RunMoved(text, base, w, n.whole, n.point);
    RunMoved(text, base, w, n.part, n.letter);
    CharMoved(text, base, w, n.point);
  }

  lemma SignMoved(text: string, base: nat, w: string, n: N.Layout)
    requires base + |w| <= |text| && text[base..base + |w|] == w && n.end == |w| && N.Ordered(n)
    ensures N.Signed(w, n) && n.sign < |w| <==> N.Signed(text, Moved(n, base)) && n.sign < |w|
    ensures n.sign < |w| ==> (ShowsAt(w, n.sign, '-') <==> ShowsAt(text, n.sign + base, '-'))
  {
    CharMoved(text, base, w, n.sign);
  }

  lemma DecimalNotEmpty(w: string, n: N.Layout)
    requires N.Decimal(w, n) && n.sign <= n.whole
    ensures n.sign < n.letter <= |w|
  {
  }

  /** A number on its own is a number in a text that does not go on with it, and the other way round. */
  lemma NumberMoved(text: string, base: nat, w: string, n: N.Layout)
    requires base + |w| <= |text| && text[base..base + |w|] == w && n.end == |w| && !GoesOn(text, base + |w|)
    requires N.Ordered(n)
    ensures NumberAt(w, n) <==> NumberAt(text, Moved(n, base))
  {
    PowerMoved(text, base, w, n);
    FiguresMoved(text, base, w, n);
    SignMoved(text, base, w, n);
    if N.Decimal(w, n) {
      DecimalNotEmpty(w, n);
    }
  }

  lemma SameWorth(text: string, n: N.Layout, w: string, m: N.Layout)
    requires NumberAt(text, n) && NumberAt(w, m) && n.letter - n.part == m.letter - m.part
    requires n.Figures(text) == m.Figures(w) && Written(text, n) == Written(w, m)
    requires ShowsAt(text, n.sign, '-') <==> ShowsAt(w, m.sign, '-')
    ensures Worth(text, n) == Worth(w, m)
  {
  }

  lemma WorthMoved(text: string, base: nat, w: string, n: N.Layout)
    requires base + |w| <= |text| && text[base..base + |w|] == w && n.end == |w| && N.Ordered(n)
    requires NumberAt(w, n) && NumberAt(text, Moved(n, base))
    ensures Worth(w, n) == Worth(text, Moved(n, base))
  {
    PowerMoved(text, base, w, n);
    FiguresMoved(text, base, w, n);
    DecimalNotEmpty(w, n);
    SignMoved(text, base, w, n);
    SameWorth(w, n, text, Moved(n, base));
  }

  /** The same number on its own. */
  function Alone(n: N.Layout): N.Layout
    requires N.Ordered(n)
  {
    var d := n.sign;
    N.Layout(0, n.whole - d, n.point - d, n.part - d, n.letter - d, n.power - d, n.end - d)
  }

  lemma AllGoOn(text: string, n: N.Layout)
    requires NumberAt(text, n)
    ensures N.Ordered(n) && n.sign < n.end
    ensures forall k :: n.sign <= k < n.end ==> P.InNumber(At(text, k))
    ensures !P.InNumber(At(text, n.end))
  {
  }

  /** Standing in the text, a number's token is read as its worth. */
  lemma StandingRead(text: string, n: N.Layout)
    requires NumberAt(text, n) && N.Ordered(n)
    ensures P.DecimalOf(text[n.sign..n.end]) == Some(Worth(text, n))
  {
    var w, m := text[n.sign..n.end], Alone(n);
    assert Moved(m, n.sign) == n;
    NumberMoved(text, n.sign, w, m);
    WorthMoved(text, n.sign, w, m);
    TokenRead(w, m);
  }

  lemma NumberEnds(text: string, n: N.Layout)
    requires NumberAt(text, n)
    ensures N.Ordered(n) && n.sign < n.end
    ensures P.NumberEnd(text, if At(text, n.sign) == '-' then n.sign + 1 else n.sign) == n.end
  {
    AllGoOn(text, n);
    J.NumberEndIs(text, if At(text, n.sign) == '-' then n.sign + 1 else n.sign, n.end);
  }

  /** A number in a text is read as its worth, up to where it stops. */
  lemma NumberRead(text: string, n: N.Layout)
    requires NumberAt(text, n)
    ensures P.ParseNumber(text, n.sign) == P.Ok(P.Number(Worth(text, n)), n.end)
  {
    NumberEnds(text, n);
    StandingRead(text, n);
  }

  lemma {:induction false} EndStops(text: string, p: nat)
    ensures !P.InNumber(At(text, P.NumberEnd(text, p)))
    decreases |text| - p
  {
    if P.InNumber(At(text, p)) {
      EndStops(text, p + 1);
    }
  }

  lemma NumberStands(text: string, pos: nat, v: P.Value, to: nat) returns (n: N.Layout)
    requires pos <= |text| && P.ParseNumber(text, pos) == P.Ok(v, to)
    ensures NumberAt(text, n) && n.sign == pos && n.end == to && v == P.Number(Worth(text, n))
  {
    EndStops(text, if At(text, pos) == '-' then pos + 1 else pos);
    var w := text[pos..to];
    var m := TokenStands(w);
    AllGoOn(w, m);
    TokenRead(w, m);
    n := Moved(m, pos);
    NumberMoved(text, pos, w, m);
    WorthMoved(text, pos, w, m);
  }

  /** Where a number goes wrong, and how: nothing that a number goes on with, or no number before that stops. */
  lemma NumberRefused(text: string, pos: nat, end: nat)
    requires pos <= end <= |text| && (forall k :: pos <= k < end ==> GoesOn(text, k)) && !GoesOn(text, end)
    requires forall n: N.Layout :: n.sign == pos && n.end == end ==> !NumberAt(text, n)
    ensures P.ParseNumber(text, pos) == if end == pos then P.Err(P.ExpectedValue, pos) else P.Err(P.BadNumber, end)
  {
    var from := if At(text, pos) == '-' then pos + 1 else pos;
    assert pos < end ==> GoesOn(text, pos);
    forall k | from <= k < end ensures P.InNumber(At(text, k)) {
      assert GoesOn(text, k);
    }
    J.NumberEndIs(text, from, end);
    if P.ParseNumber(text, pos).Ok? {
      var n := NumberStands(text, pos, P.ParseNumber(text, pos).value, end);
    }
  }

  // ---- blanks -----------------------------------------------------------

  lemma {:induction false} GapIs(text: string, i: nat, j: nat)
    requires Gap(text, i, j)
    ensures P.Skip(text, i) == j && i <= j <= |text|
    decreases |text| - i
  {
    if P.IsSpace(At(text, i)) {
      GapIs(text, i + 1, j);
    }
  }

  lemma {:induction false} GapStands(text: string, i: nat)
    requires i <= |text|
    ensures Gap(text, i, P.Skip(text, i))
    decreases |text| - i
  {
    if P.IsSpace(At(text, i)) {
      GapStands(text, i + 1);
    }
  }
}
