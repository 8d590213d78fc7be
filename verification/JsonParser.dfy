/** The recursive-descent JSON parser. */
module JsonParser {
  import opened Common
  import opened Texts
  import Bid64

  datatype Value =
    | Null
    | Bool(b: bool)
    | Number(x: real)
    | NotANumber
    | Infinite
    | Str(s: string)
    | Arr(items: seq<Value>)
    | Obj(members: map<string, Value>)

  datatype Entry = Entry(name: string, value: Value)

  datatype Problem =
    | TrailingCharacters
    | UnexpectedCharacter
    | BadLiteral
    | UnterminatedString
    | BadEscape
    | BadUnicodeEscape
    | ExpectedValue
    | BadNumber

  /** A value and where the cursor is after it, or the exception and the offset it names. */
  datatype Parsed<+T> = Ok(value: T, pos: nat) | Err(problem: Problem, at: nat)

  predicate IsSpace(c: char) { c == ' ' || c == '\n' || c == '\r' || c == '\t' }

  function Skip(text: string, pos: nat): (p: nat)
    ensures pos <= p && (pos <= |text| ==> p <= |text|) && !IsSpace(At(text, p))
    decreases |text| - pos
  {
    if IsSpace(At(text, pos)) then Skip(text, pos + 1) else pos
  }

  // ---- strings ----------------------------------------------------------

  predicate IsHex(c: char) { '0' <= c <= '9' || 'a' <= c <= 'f' || 'A' <= c <= 'F' }

  function HexOf(c: char): nat
    requires IsHex(c)
  {
    if c <= '9' then c as int - '0' as int
    else if c <= 'F' then c as int - 'A' as int + 10
    else c as int - 'a' as int + 10
  }

  function HexRun(w: string, i: nat, value: nat): nat
    decreases |w| - i
  {
    if IsHex(At(w, i)) then HexRun(w, i + 1, value * 16 + HexOf(At(w, i))) else value
  }

  function BlankEnd(w: string, i: nat): nat
    decreases |w| - i
  {
    if At(w, i) == ' ' || '\t' <= At(w, i) <= '\r' then BlankEnd(w, i + 1) else i
  }

  /** What the C library reads in base sixteen: blanks, a sign, a prefix, and as many digits as there are. */
  function HexNumber(w: string): nat {
    var i := BlankEnd(w, 0);
    var j := if At(w, i) == '+' || At(w, i) == '-' then i + 1 else i;
    var k := if At(w, j) == '0' && (At(w, j + 1) == 'x' || At(w, j + 1) == 'X') && IsHex(At(w, j + 2)) then j + 2 else j;
    var value := HexRun(w, k, 0);
    (if At(w, i) == '-' then 0x1_0000_0000 - value % 0x1_0000_0000 else value) % 0x1_0000_0000
  }

  /** The low byte of a word, or-ed with the marker bits of its place. */
  function Marked(marker: bv8, word: nat): char { (marker | ((word % 256) as bv8)) as char }

  /** A code point as one, two or three bytes. */
  function Utf8(code: nat): string {
    if code < 0x80 then [code as char]
    else if code < 0x800 then [Marked(0xC0, code / 64), Marked(0x80, code % 64)]
    else [Marked(0xE0, code / 4096), Marked(0x80, code / 64 % 64), Marked(0x80, code % 64)]
  }

  /** The character an escape of one letter stands for. */
  function Letter(e: char): Option<char> {
    match e
    case '"' => Some('"')
    case '\\' => Some('\\')
    case '/' => Some('/')
    case 'b' => Some('\U{08}')
    case 'f' => Some('\U{0c}')
    case 'n' => Some('\n')
    case 'r' => Some('\r')
    case 't' => Some('\t')
    case _ => None
  }

  /** The characters of a string, up to and past its closing quote. */
  function ParseChars(text: string, pos: nat, out: string): (r: Parsed<string>)
    ensures r.Ok? ==> pos < r.pos <= |text|
    decreases |text| - pos, 1
  {
    if pos >= |text| then Err(UnterminatedString, pos)
    else if text[pos] == '"' then Ok(out, pos + 1)
    else if text[pos] != '\\' then ParseChars(text, pos + 1, out + [text[pos]])
    else ParseEscape(text, pos, out)
  }

  /** The rest of a string from a backslash on. */
  function ParseEscape(text: string, pos: nat, out: string): (r: Parsed<string>)
    requires pos < |text|
    ensures r.Ok? ==> pos < r.pos <= |text|
    decreases |text| - pos, 0
  {
    if pos + 1 >= |text| then Err(BadEscape, pos + 1)
    else if text[pos + 1] == 'u' then
      if pos + 6 > |text| then Err(BadUnicodeEscape, pos + 2)
      else ParseChars(text, pos + 6, out + Utf8(HexNumber(text[pos + 2..pos + 6])))
    else
      match Letter(text[pos + 1])
      case None => Err(BadEscape, pos + 2)
      case Some(c) => ParseChars(text, pos + 2, out + [c])
  }

  function ParseString(text: string, pos: nat): (r: Parsed<string>)
    ensures r.Ok? ==> pos < r.pos <= |text|
  {
    if At(text, pos) != '"' then Err(UnexpectedCharacter, pos) else ParseChars(text, pos + 1, "")
  }

  // ---- numbers ----------------------------------------------------------

  predicate InNumber(c: char) { IsDigit(c) || c == '.' || c == 'e' || c == 'E' || c == '+' || c == '-' }

  function NumberEnd(text: string, pos: nat): (p: nat)
    ensures pos <= p && (pos <= |text| ==> p <= |text|)
    decreases |text| - pos
  {
    if InNumber(At(text, pos)) then NumberEnd(text, pos + 1) else pos
  }

  function DigitsEnd(w: string, i: nat): (j: nat)
    ensures i <= j && (i <= |w| ==> j <= |w|) && forall k :: i <= k < j ==> IsDigit(At(w, k))
    decreases |w| - i
  {
    if IsDigit(At(w, i)) then DigitsEnd(w, i + 1) else i
  }

  /** The digits from i to j. */
  function Span(w: string, i: nat, j: nat): (s: string)
    requires i <= j <= |w| && forall k :: i <= k < j ==> IsDigit(At(w, k))
    ensures AllDigits(s)
  {
    assert forall k :: i <= k < j ==> At(w, k) == w[k];
    w[i..j]
  }

  function Scaled(n: nat, e: int): real {
    if e >= 0 then n as real * Bid64.Pow10(e) as real else ScaledDown(n, -e)
  }

  function ScaledDown(n: nat, k: nat): real
    decreases k
  {
    if k == 0 then n as real else ScaledDown(n, k - 1) / 10.0
  }

  /** A token's digits before the point and after it, by where they stand. */
  datatype Runs = Runs(start: nat, whole: nat, from: nat, end: nat)

  predicate Digital(w: string, r: Runs) {
    && r.start <= r.whole <= r.from <= r.end <= |w|
    && (forall k :: r.start <= k < r.whole ==> IsDigit(At(w, k))) && (forall k :: r.from <= k < r.end ==> IsDigit(At(w, k)))
  }

  /** The runs a token begins with; nothing where there is no digit at all. */
  function RunsOf(w: string): (o: Option<Runs>)
    ensures o.Some? ==> Digital(w, o.value)
  {
    var start := if At(w, 0) == '-' || At(w, 0) == '+' then 1 else 0;
    if start > |w| then None
    else
      var whole := DigitsEnd(w, start);
      var pointed := At(w, whole) == '.' && whole < |w|;
      var from := if pointed then whole + 1 else whole;
      var end := if pointed then DigitsEnd(w, from) else whole;
      if whole == start && end == from then None else Some(Runs(start, whole, from, end))
  }

  /** The value of a token's two runs of digits and its exponent. */
  function Valued(w: string, r: Runs, e: int): real
    requires Digital(w, r)
  {
    var x := Scaled(SpellsOn(SpellsOn(0, Span(w, r.start, r.whole)), Span(w, r.from, r.end)), e - (r.end - r.from));
    if At(w, 0) == '-' then -x else x
  }

  /** A whole token read as a decimal, or nothing if any of it is left over. */
  function DecimalOf(w: string): Option<real> {
    match RunsOf(w)
    case None => None
    case Some(r) =>
      match DecimalExponent(w, r.end)
      case None => None
      case Some(e) => Some(Valued(w, r, e))
  }

  /** The exponent at the end of a token; nothing if the token does not end with one, or at once. */
  function DecimalExponent(w: string, i: nat): Option<int>
    requires i <= |w|
  {
    if i == |w| then Some(0)
    else if w[i] != 'e' && w[i] != 'E' then None
    else
      var start := if At(w, i + 1) == '-' || At(w, i + 1) == '+' then i + 2 else i + 1;
      if start >= |w| || DigitsEnd(w, start) != |w| then None
      else
        var e := SpellsOn(0, Span(w, start, |w|));
        Some(if At(w, i + 1) == '-' then -(e as int) else e)
  }

  function ParseNumber(text: string, pos: nat): (r: Parsed<Value>)
    requires pos <= |text|
    ensures r.Ok? ==> pos < r.pos <= |text|
  {
    var p := NumberEnd(text, if At(text, pos) == '-' then pos + 1 else pos);
    if p == pos then Err(ExpectedValue, pos)
    else
      match DecimalOf(text[pos..p])
      case None => Err(BadNumber, p)
      case Some(x) => Ok(Number(x), p)
  }

  // ---- values -----------------------------------------------------------

  function ParseWord(text: string, pos: nat, word: string, value: Value): (r: Parsed<Value>)
    requires word != ""
    ensures r.Ok? ==> pos < r.pos <= |text|
  {
    if Starts(text, pos, word) then Ok(value, pos + |word|) else Err(BadLiteral, pos)
  }

  function ParseValue(text: string, pos: nat): (r: Parsed<Value>)
    requires pos <= |text|
    ensures r.Ok? ==> pos < r.pos <= |text|
    decreases |text| - pos, 2
  {
    ParseToken(text, Skip(text, pos))
  }

  /** A value with no blanks before it: its first character says which kind. */
  function ParseToken(text: string, p: nat): (r: Parsed<Value>)
    requires p <= |text|
    ensures r.Ok? ==> p < r.pos <= |text|
    decreases |text| - p, 1
  {
    match At(text, p)
    case '{' => ParseObject(text, p)
    case '[' => ParseArray(text, p)
    case '"' => (match ParseString(text, p) case Err(problem, at) => Err(problem, at) case Ok(s, q) => Ok(Str(s), q))
    case 't' => ParseWord(text, p, "true", Bool(true))
    case 'f' => ParseWord(text, p, "false", Bool(false))
    case 'n' => ParseWord(text, p, "null", Null)
    case 'N' => ParseWord(text, p, "NaN", NotANumber)
    case 'I' => ParseWord(text, p, "Infinity", Infinite)
    case _ => ParseNumber(text, p)
  }

  function ParseArray(text: string, pos: nat): (r: Parsed<Value>)
    requires pos < |text|
    ensures r.Ok? ==> pos < r.pos <= |text|
    decreases |text| - pos, 0
  {
    var p := Skip(text, pos + 1);
    if At(text, p) == ']' then Ok(Arr([]), p + 1) else ParseItems(text, p, [])
  }

  /** The rest of an array, from a value on. */
  function ParseItems(text: string, pos: nat, out: seq<Value>): (r: Parsed<Value>)
    requires pos <= |text|
    ensures r.Ok? ==> pos < r.pos <= |text|
    decreases |text| - pos, 3
  {
    match ParseValue(text, pos)
    case Err(problem, at) => Err(problem, at)
    case Ok(v, q) =>
      var p := Skip(text, q);
      if At(text, p) == ',' then ParseItems(text, p + 1, out + [v])
      else if At(text, p) == ']' then Ok(Arr(out + [v]), p + 1)
      else Err(UnexpectedCharacter, p)
  }

  function ParseObject(text: string, pos: nat): (r: Parsed<Value>)
    requires pos < |text|
    ensures r.Ok? ==> pos < r.pos <= |text|
    decreases |text| - pos, 0
  {
    var p := Skip(text, pos + 1);
    if At(text, p) == '}' then Ok(Obj(map[]), p + 1) else ParseMembers(text, p, map[])
  }

  /** A name, its colon and its value. */
  function ParseMember(text: string, pos: nat): (r: Parsed<Entry>)
    requires pos <= |text|
    ensures r.Ok? ==> pos < r.pos <= |text|
    decreases |text| - pos, 3
  {
    match ParseString(text, Skip(text, pos))
    case Err(problem, at) => Err(problem, at)
    case Ok(name, q) =>
      var colon := Skip(text, q);
      if At(text, colon) != ':' then Err(UnexpectedCharacter, colon)
      else
        match ParseValue(text, colon + 1)
        case Err(problem, at) => Err(problem, at)
        case Ok(v, end) => Ok(Entry(name, v), end)
  }

  /** The rest of an object, from a name on. A name seen again takes the new value. */
  function ParseMembers(text: string, pos: nat, out: map<string, Value>): (r: Parsed<Value>)
    requires pos <= |text|
    ensures r.Ok? ==> pos < r.pos <= |text|
    decreases |text| - pos, 4
  {
    match ParseMember(text, pos)
    case Err(problem, at) => Err(problem, at)
    case Ok(m, q) =>
      var p := Skip(text, q);
      if At(text, p) == ',' then ParseMembers(text, p + 1, out[m.name := m.value])
      else if At(text, p) == '}' then Ok(Obj(out[m.name := m.value]), p + 1)
      else Err(UnexpectedCharacter, p)
  }

  /** One value and nothing after it but blanks. */
  function ParseDocument(text: string): Parsed<Value> {
    match ParseValue(text, 0)
    case Err(problem, at) => Err(problem, at)
    case Ok(v, q) =>
      var p := Skip(text, q);
      if p != |text| then Err(TrailingCharacters, p) else Ok(v, p)
  }

  // ---- the parser itself ------------------------------------------------

  /** pos moves over the text; a failure names where it stood. */
  class Parser {
    const text: string
    var pos: nat

    constructor (text: string)
      ensures this.text == text && pos == 0
    {
      this.text := text;
      pos := 0;
    }

    function Peek(): char
      reads this
    {
      At(text, pos)
    }

    method Document() returns (r: Parsed<Value>)
      requires pos == 0
      modifies this
      ensures r == ParseDocument(text)
    {
      r := ReadValue();
      if r.Ok? {
        SkipSpace();
        r := if pos != |text| then Err(TrailingCharacters, pos) else Ok(r.value, pos);
      }
    }

    method SkipSpace()
      requires pos <= |text|
      modifies this
      ensures pos == Skip(text, old(pos)) && pos <= |text|
    {
      while pos < |text| && (text[pos] == ' ' || text[pos] == '\n' || text[pos] == '\r' || text[pos] == '\t')
        invariant pos <= |text| && Skip(text, pos) == Skip(text, old(pos))
        decreases |text| - pos
      {
        pos := pos + 1;
      }
    }

    method ReadWord(word: string, value: Value) returns (r: Parsed<Value>)
      requires pos <= |text| && word != ""
      modifies this
      ensures r == ParseWord(text, old(pos), word, value)
      ensures r.Ok? ==> pos == r.pos
    {
      if pos + |word| <= |text| && text[pos..pos + |word|] == word {
        pos := pos + |word|;
        return Ok(value, pos);
      }
      r := Err(BadLiteral, pos);
    }

    method ReadValue() returns (r: Parsed<Value>)
      requires pos <= |text|
      modifies this
      ensures r == ParseValue(text, old(pos))
      ensures r.Ok? ==> pos == r.pos
      decreases |text| - pos, 1
    {
      SkipSpace();
      var c := Peek();
      match c {
        case '{' => r := ReadObject();
        case '[' => r := ReadArray();
        case '"' =>
          var s := ReadString();
          r := if s.Ok? then Ok(Str(s.value), s.pos) else Err(s.problem, s.at);
        case 't' => r := ReadWord("true", Bool(true));
        case 'f' => r := ReadWord("false", Bool(false));
        case 'n' => r := ReadWord("null", Null);
        case 'N' => r := ReadWord("NaN", NotANumber);
        case 'I' => r := ReadWord("Infinity", Infinite);
        case _ => r := ReadNumber();
      }
    }

    method ReadArray() returns (r: Parsed<Value>)
      requires pos < |text| && Peek() == '['
      modifies this
      ensures r == ParseArray(text, old(pos))
      ensures r.Ok? ==> pos == r.pos
      decreases |text| - pos, 0
    {
      ghost var start := pos;
      pos := pos + 1;
      SkipSpace();
      if Peek() == ']' {
        pos := pos + 1;
        return Ok(Arr([]), pos);
      }
      var out: seq<Value> := [];
      while true
        invariant start < pos <= |text|
        invariant ParseItems(text, pos, out) == ParseArray(text, start)
        decreases |text| - pos
      {
        var v := ReadValue();
        if v.Err? {
          return v;
        }
        out := out + [v.value];
        SkipSpace();
        if Peek() == ',' {
          pos := pos + 1;
          continue;
        }
        if Peek() != ']' {
          return Err(UnexpectedCharacter, pos);
        }
        pos := pos + 1;
        return Ok(Arr(out), pos);
      }
    }

    method ReadObject() returns (r: Parsed<Value>)
      requires pos < |text| && Peek() == '{'
      modifies this
      ensures r == ParseObject(text, old(pos))
      ensures r.Ok? ==> pos == r.pos
      decreases |text| - pos, 0
    {
      ghost var start := pos;
      pos := pos + 1;
      SkipSpace();
      r := Ok(Obj(map[]), pos + 1);
      if Peek() == '}' {
        pos := pos + 1;
        return;
      }
      var out: map<string, Value> := map[];
      var more := true;
      while more
        invariant more ==> start < pos <= |text| && ParseMembers(text, pos, out) == ParseObject(text, start)
        invariant !more ==> r == ParseObject(text, start) && (r.Ok? ==> pos == r.pos)
        decreases if more then |text| - pos + 1 else 0
      {
        more, out, r := NextMember(out);
      }
    }

    /** One turn of the loop: another member and a comma, or the end of the object. */
    method NextMember(out: map<string, Value>) returns (more: bool, out': map<string, Value>, r: Parsed<Value>)
      requires pos <= |text|
      modifies this
      ensures more ==> old(pos) < pos <= |text| && ParseMembers(text, pos, out') == ParseMembers(text, old(pos), out)
      ensures !more ==> r == ParseMembers(text, old(pos), out) && (r.Ok? ==> pos == r.pos)
      decreases |text| - pos, 3
    {
      more, out', r := false, out, Err(UnexpectedCharacter, pos);
      var m := ReadMember();
      if m.Err? {
        r := Err(m.problem, m.at);
        return;
      }
      out' := out[m.value.name := m.value.value];
      SkipSpace();
      if Peek() == ',' {
        pos := pos + 1;
        more := true;
      } else if Peek() != '}' {
        r := Err(UnexpectedCharacter, pos);
      } else {
        pos := pos + 1;
        r := Ok(Obj(out'), pos);
      }
    }

    method ReadMember() returns (r: Parsed<Entry>)
      requires pos <= |text|
      modifies this
      ensures r == ParseMember(text, old(pos))
      ensures r.Ok? ==> pos == r.pos
      decreases |text| - pos, 2
    {
      SkipSpace();
      var name := ReadString();
      if name.Err? {
        return Err(name.problem, name.at);
      }
      SkipSpace();
      if Peek() != ':' {
        return Err(UnexpectedCharacter, pos);
      }
      pos := pos + 1;
      var v := ReadValue();
      r := if v.Ok? then Ok(Entry(name.value, v.value), v.pos) else Err(v.problem, v.at);
    }

    method ReadString() returns (r: Parsed<string>)
      requires pos <= |text|
      modifies this
      ensures r == ParseString(text, old(pos))
      ensures r.Ok? ==> pos == r.pos
    {
      if Peek() != '"' {
        return Err(UnexpectedCharacter, pos);
      }
      ghost var start := pos;
      pos := pos + 1;
      var out := "";
      while true
        invariant start < pos <= |text|
        invariant ParseChars(text, pos, out) == ParseString(text, start)
        decreases |text| - pos
      {
        if pos >= |text| {
          return Err(UnterminatedString, pos);
        }
        var c := text[pos];
        pos := pos + 1;
        if c == '"' {
          return Ok(out, pos);
        }
        if c != '\\' {
          out := out + [c];
          continue;
        }
        if pos >= |text| {
          return Err(BadEscape, pos);
        }
        var e := text[pos];
        pos := pos + 1;
        if e == 'u' {
          if pos + 4 > |text| {
            return Err(BadUnicodeEscape, pos);
          }
          out := out + Utf8(HexNumber(text[pos..pos + 4]));
          pos := pos + 4;
        } else {
          var letter := Letter(e);
          if letter.None? {
            return Err(BadEscape, pos);
          }
          out := out + [letter.value];
        }
      }
    }

    method ReadNumber() returns (r: Parsed<Value>)
      requires pos <= |text|
      modifies this
      ensures r == ParseNumber(text, old(pos))
      ensures r.Ok? ==> pos == r.pos
    {
      var start := pos;
      if Peek() == '-' {
        pos := pos + 1;
      }
      ghost var from := pos;
      while pos < |text| && InNumber(text[pos])
        invariant from <= pos <= |text| && NumberEnd(text, pos) == NumberEnd(text, from)
        decreases |text| - pos
      {
        pos := pos + 1;
      }
      if start == pos {
        return Err(ExpectedValue, pos);
      }
      var x := DecimalOf(text[start..pos]);
      r := if x.None? then Err(BadNumber, pos) else Ok(Number(x.value), pos);
    }
  }
}
