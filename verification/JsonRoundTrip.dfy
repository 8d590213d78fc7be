/** Parsing what the writer wrote gives back the value that was written. */
module JsonRoundTrip {
  import opened Common
  import opened Texts
  import W = JsonWriter
  import P = JsonParser

  // ---- what a written value reads as ------------------------------------

  /** An object keeps the last value of each name, and not their order. */
  function ToValue(t: W.Tree): P.Value {
    match t
    case Null => P.Null
    case Bool(b) => P.Bool(b)
    case Int(n) => P.Number(n as real)
    case Str(s) => P.Str(s)
    case Arr(items) => P.Arr(ToValues(items))
    case Obj(members) => P.Obj(ToMembers(members))
  }

  function ToValues(items: seq<W.Tree>): seq<P.Value> {
    seq(|items|, i requires 0 <= i < |items| => ToValue(items[i]))
  }

  function ToMembers(members: seq<W.Member>): map<string, P.Value> {
    if members == [] then map[]
    else
      var last := members[|members| - 1];
      ToMembers(members[..|members| - 1])[last.name := ToValue(last.value)]
  }

  lemma {:induction false} NamesRead(members: seq<W.Member>, name: string)
    ensures name in ToMembers(members) <==> exists i :: 0 <= i < |members| && members[i].name == name
  {
    if members != [] {
      var n := |members| - 1;
      NamesRead(members[..n], name);
      if i :| 0 <= i < n && members[i].name == name {
        assert members[..n][i].name == name;
      }
      assert members[n].name == name ==> name in ToMembers(members);
    }
  }

  /** With distinct names nothing of an object is lost: each name, and no other, reads as the value written under it. */
  lemma {:induction false} DistinctNamesKept(members: seq<W.Member>, i: nat)
    requires forall j, k :: 0 <= j < k < |members| ==> members[j].name != members[k].name
    requires i < |members|
    ensures members[i].name in ToMembers(members) && ToMembers(members)[members[i].name] == ToValue(members[i].value)
  {
    var n := |members| - 1;
    if i < n {
      DistinctNamesKept(members[..n], i);
    }
  }

  // ---- strings ----------------------------------------------------------

  lemma HexOfChar(d: nat)
    requires d < 16
    ensures P.IsHex(W.HexChar(d)) && P.HexOf(W.HexChar(d)) == d
  {
  }

  lemma HexRunFrom(w: string, i: nat, value: nat)
    ensures P.HexRun(w, i, value) == if P.IsHex(At(w, i)) then P.HexRun(w, i + 1, value * 16 + P.HexOf(At(w, i))) else value
  {
  }

  /** The four digits of a control character are read back as it. */
  lemma ControlCode(d: nat)
    requires d < 32
    ensures P.HexNumber(['0', '0', W.HexChar(d / 16), W.HexChar(d % 16)]) == d
  {
    var w := ['0', '0', W.HexChar(d / 16), W.HexChar(d % 16)];
    HexOfChar(d / 16);
    HexOfChar(d % 16);
    HexRunFrom(w, 0, 0);
    HexRunFrom(w, 1, 0);
    HexRunFrom(w, 2, 0);
    HexRunFrom(w, 3, d / 16);
    HexRunFrom(w, 4, d);
  }

  lemma ControlRead(text: string, pos: nat, c: char, out: string)
    requires c < ' ' && Starts(text, pos, ['\\', 'u', '0', '0', W.HexChar(c as int / 16), W.HexChar(c as int % 16)])
    ensures P.ParseChars(text, pos, out) == P.ParseChars(text, pos + 6, out + [c])
  {
    var word := ['\\', 'u', '0', '0', W.HexChar(c as int / 16), W.HexChar(c as int % 16)];
    StartsAt(text, pos, word, 0);
    StartsAt(text, pos, word, 1);
    assert text[pos + 2..pos + 6] == text[pos..pos + 6][2..6] == word[2..6];
    ControlCode(c as int);
    assert word[2..6] == ['0', '0', W.HexChar(c as int / 16), W.HexChar(c as int % 16)];
  }

  /** Each character is read back from its escape. */
  lemma CharRead(text: string, pos: nat, c: char, out: string)
    requires Starts(text, pos, W.EscapeChar(c))
    ensures P.ParseChars(text, pos, out) == P.ParseChars(text, pos + |W.EscapeChar(c)|, out + [c])
  {
    var word := W.EscapeChar(c);
    if |word| == 6 {
      ControlRead(text, pos, c, out);
    } else {
      StartsAt(text, pos, word, 0);
      if |word| == 2 {
        StartsAt(text, pos, word, 1);
      }
    }
  }

  function Concat(words: seq<string>): string {
    if words == [] then "" else Concat(words[..|words| - 1]) + words[|words| - 1]
  }

  function Escapes(s: string): seq<string> { seq(|s|, i requires 0 <= i < |s| => W.EscapeChar(s[i])) }

  lemma {:induction false} EscapesConcat(s: string)
    ensures W.EscapeAll(s) == Concat(Escapes(s))
  {
    if s != "" {
      var n := |s| - 1;
      EscapesConcat(s[..n]);
      assert s == s[..n] + [s[n]];
      W.EscapeMore(s[..n], s[n]);
      assert Escapes(s)[..n] == Escapes(s[..n]);
    }
  }

  /** A reader takes this word in as that character, wherever they stand. */
  ghost predicate Takes(text: string, read: (nat, string) -> P.Parsed<string>, word: string, c: char) {
    forall p: nat, out :: Starts(text, p, word) ==> read(p, out) == read(p + |word|, out + [c])
  }

  /** Any reader that takes each word in as its character takes all of them in as the string. */
  lemma {:induction false} WordByWord(text: string, read: (nat, string) -> P.Parsed<string>, pos: nat, words: seq<string>, s: string)
    requires |words| == |s| && forall k :: 0 <= k < |s| ==> Takes(text, read, words[k], s[k])
    requires Starts(text, pos, Concat(words))
    ensures read(pos, "") == read(pos + |Concat(words)|, s)
  {
    if s != "" {
      var n := |s| - 1;
      StartsParts(text, pos, Concat(words[..n]), words[n]);
      WordByWord(text, read, pos, words[..n], s[..n]);
      assert Takes(text, read, words[n], s[n]) && s == s[..n] + [s[n]];
    }
  }

  lemma CharsRead(text: string, pos: nat, s: string)
    requires Starts(text, pos, W.EscapeAll(s))
    ensures P.ParseChars(text, pos, "") == P.ParseChars(text, pos + |W.EscapeAll(s)|, s)
  {
    var read: (nat, string) -> P.Parsed<string> := (p: nat, out: string) => P.ParseChars(text, p, out);
    forall k | 0 <= k < |s| ensures Takes(text, read, Escapes(s)[k], s[k]) {
      forall p: nat, out | Starts(text, p, Escapes(s)[k]) ensures read(p, out) == read(p + |Escapes(s)[k]|, out + [s[k]]) {
        CharRead(text, p, s[k], out);
      }
    }
    EscapesConcat(s);
    WordByWord(text, read, pos, Escapes(s), s);
  }

  lemma StringRead(text: string, pos: nat, s: string)
    requires Starts(text, pos, W.Quoted(s))
    ensures P.ParseString(text, pos) == P.Ok(s, pos + |W.Quoted(s)|)
  {
    var body := W.EscapeAll(s);
    StartsParts(text, pos, "\"" + body, "\"");
    StartsParts(text, pos, "\"", body);
    StartsAt(text, pos, "\"", 0);
    StartsAt(text, pos + 1 + |body|, "\"", 0);
    CharsRead(text, pos + 1, s);
  }

  // ---- numbers ----------------------------------------------------------

  lemma {:induction false} NumberEndIs(text: string, p: nat, q: nat)
    requires p <= q && (forall k :: p <= k < q ==> P.InNumber(At(text, k))) && !P.InNumber(At(text, q))
    ensures P.NumberEnd(text, p) == q
    decreases q - p
  {
    if p < q {
      NumberEndIs(text, p + 1, q);
    }
  }

  lemma {:induction false} DigitsEndIs(w: string, i: nat)
    requires i <= |w| && forall k :: i <= k < |w| ==> IsDigit(w[k])
    ensures P.DigitsEnd(w, i) == |w|
    decreases |w| - i
  {
    if i < |w| {
      DigitsEndIs(w, i + 1);
    }
  }

  /** The text of an integer is all digits but for its sign. */
  lemma DecimalIs(n: int)
    ensures var w, start := W.Decimal(n), if n < 0 then 1 else 0;
            && |w| > start && w[start..] == Digits(Abs(n))
            && (forall k :: start <= k < |w| ==> IsDigit(w[k]))
            && (n < 0 ==> w[0] == '-')
  {
    DigitsAre(Abs(n));
    var w, start := W.Decimal(n), if n < 0 then 1 else 0;
    assert w[start..] == Digits(Abs(n));
    forall k | start <= k < |w| ensures IsDigit(w[k]) {
      assert w[k] == Digits(Abs(n))[k - start];
    }
  }

  /** A token that is digits and perhaps a minus is the whole number they spell. */
  lemma DecimalReads(n: int)
    ensures P.DecimalOf(W.Decimal(n)) == Some(n as real)
  {
    var w, start := W.Decimal(n), if n < 0 then 1 else 0;
    DecimalIs(n);
    DigitsSpell(Abs(n));
    DigitsEndIs(w, start);
    assert P.Span(w, start, |w|) == Digits(Abs(n)) && P.Span(w, |w|, |w|) == "";
    assert P.Scaled(Abs(n), 0) == Abs(n) as real;
  }

  lemma NumberRead(text: string, pos: nat, n: int)
    requires Starts(text, pos, W.Decimal(n)) && !P.InNumber(At(text, pos + |W.Decimal(n)|))
    ensures P.ParseNumber(text, pos) == P.Ok(P.Number(n as real), pos + |W.Decimal(n)|)
  {
    var w := W.Decimal(n);
    var from := if At(text, pos) == '-' then pos + 1 else pos;
    DecimalIs(n);
    StartsAt(text, pos, w, 0);
    forall k | from <= k < pos + |w| ensures P.InNumber(At(text, k)) {
      StartsAt(text, pos, w, k - pos);
    }
    NumberEndIs(text, from, pos + |w|);
    DecimalReads(n);
  }

  // ---- values -----------------------------------------------------------

  /** What may stand after a value in written text: a comma, a closing bracket, or the end. */
  predicate Follows(c: char) { c == ',' || c == ']' || c == '}' || c == '\0' }

  /** A written value starts with no blank, and with no closing bracket. */
  lemma FirstChar(t: W.Tree)
    ensures W.Render(t) != "" && !P.IsSpace(W.Render(t)[0]) && W.Render(t)[0] != ']'
    ensures t.Int? ==> IsDigit(W.Render(t)[0]) || W.Render(t)[0] == '-'
  {
    if t.Int? {
      DecimalIs(t.n);
    }
  }

  /** The rest of a list: each text after a comma. */
  function Rest(parts: seq<string>): string { if parts == [] then "" else "," + (parts[0] + Rest(parts[1..])) }

  lemma {:induction false} RestMore(parts: seq<string>, last: string)
    ensures Rest(parts + [last]) == Rest(parts) + ("," + last)
  {
    if parts == [] {
      assert [last][1..] == [] && last + "" == last;
    } else {
      var rest := Rest(parts[1..]);
      RestMore(parts[1..], last);
      assert (parts + [last])[1..] == parts[1..] + [last];
      Associates(parts[0], rest, "," + last);
      Associates(",", parts[0] + rest, "," + last);
    }
  }

  /** Joined from the back, read from the front. */
  lemma {:induction false} JoinedIsRest(parts: seq<string>)
    requires parts != []
    ensures W.Joined(parts) == parts[0] + Rest(parts[1..])
  {
    var n := |parts| - 1;
    if n == 0 {
      assert parts[..0] == [] && "" + "" + parts[0] == parts[0] && parts[0] + "" == parts[0];
    } else {
      JoinedIsRest(parts[..n]);
      RestMore(parts[1..n], parts[n]);
      assert parts[..n][1..] == parts[1..n] && parts[1..] == parts[1..n] + [parts[n]];
      Associates(parts[0] + Rest(parts[1..n]), ",", parts[n]);
      Associates(parts[0], Rest(parts[1..n]), "," + parts[n]);
    }
  }

  // ---- the parser's turns, one at a time --------------------------------

  lemma NoSkip(text: string, pos: nat)
    requires !P.IsSpace(At(text, pos))
    ensures P.Skip(text, pos) == pos
  {
  }

  lemma ItemsTurn(text: string, pos: nat, out: seq<P.Value>, v: P.Value, q: nat)
    requires pos <= |text| && P.ParseValue(text, pos) == P.Ok(v, q)
    ensures At(text, q) == ',' ==> q + 1 <= |text| && P.ParseItems(text, pos, out) == P.ParseItems(text, q + 1, out + [v])
    ensures At(text, q) == ']' ==> P.ParseItems(text, pos, out) == P.Ok(P.Arr(out + [v]), q + 1)
  {
    if At(text, q) == ',' || At(text, q) == ']' {
      NoSkip(text, q);
    }
  }

  lemma MembersTurn(text: string, pos: nat, out: map<string, P.Value>, m: P.Entry, q: nat)
    requires pos <= |text| && P.ParseMember(text, pos) == P.Ok(m, q)
    ensures At(text, q) == ',' ==>
      q + 1 <= |text| && P.ParseMembers(text, pos, out) == P.ParseMembers(text, q + 1, out[m.name := m.value])
    ensures At(text, q) == '}' ==> P.ParseMembers(text, pos, out) == P.Ok(P.Obj(out[m.name := m.value]), q + 1)
  {
    if At(text, q) == ',' || At(text, q) == '}' {
      NoSkip(text, q);
    }
  }

  lemma MemberTurn(text: string, pos: nat, name: string, q: nat, v: P.Value, end: nat)
    requires pos <= |text| && At(text, pos) == '"' && P.ParseString(text, pos) == P.Ok(name, q)
    requires q < |text| && At(text, q) == ':' && P.ParseValue(text, q + 1) == P.Ok(v, end)
    ensures P.ParseMember(text, pos) == P.Ok(P.Entry(name, v), end)
  {
    NoSkip(text, pos);
    NoSkip(text, q);
  }

  lemma ArrayTurn(text: string, pos: nat)
    requires pos < |text| && !P.IsSpace(At(text, pos + 1))
    ensures P.ParseArray(text, pos) ==
            if At(text, pos + 1) == ']' then P.Ok(P.Arr([]), pos + 2) else P.ParseItems(text, pos + 1, [])
  {
    NoSkip(text, pos + 1);
  }

  lemma ObjectTurn(text: string, pos: nat)
    requires pos < |text| && !P.IsSpace(At(text, pos + 1))
    ensures P.ParseObject(text, pos) ==
            if At(text, pos + 1) == '}' then P.Ok(P.Obj(map[]), pos + 2) else P.ParseMembers(text, pos + 1, map[])
  {
    NoSkip(text, pos + 1);
  }

  lemma ValueTurn(text: string, pos: nat)
    requires pos <= |text| && !P.IsSpace(At(text, pos))
    ensures IsDigit(At(text, pos)) || At(text, pos) == '-' ==> P.ParseValue(text, pos) == P.ParseNumber(text, pos)
    ensures At(text, pos) == '[' ==> P.ParseValue(text, pos) == P.ParseArray(text, pos)
    ensures At(text, pos) == '{' ==> P.ParseValue(text, pos) == P.ParseObject(text, pos)
    ensures At(text, pos) == '"' && P.ParseString(text, pos).Ok? ==>
      P.ParseValue(text, pos) == P.Ok(P.Str(P.ParseString(text, pos).value), P.ParseString(text, pos).pos)
    ensures Starts(text, pos, "null") ==> P.ParseValue(text, pos) == P.Ok(P.Null, pos + 4)
    ensures Starts(text, pos, "true") ==> P.ParseValue(text, pos) == P.Ok(P.Bool(true), pos + 4)
    ensures Starts(text, pos, "false") ==> P.ParseValue(text, pos) == P.Ok(P.Bool(false), pos + 5)
  {
    NoSkip(text, pos);
    assert P.ParseValue(text, pos) == P.ParseToken(text, pos);
    StartsFirst(text, pos, "null");
    StartsFirst(text, pos, "true");
    StartsFirst(text, pos, "false");
  }

  // ---- what each turn reads ---------------------------------------------

  /** A list as it stands in the text, from its first item to its bracket. */
  function ListText(parts: seq<string>, bracket: string): string
    requires parts != []
  {
    parts[0] + (Rest(parts[1..]) + bracket)
  }

  lemma ListHead(text: string, pos: nat, parts: seq<string>, bracket: string)
    requires parts != [] && |bracket| == 1 && Starts(text, pos, ListText(parts, bracket))
    ensures Starts(text, pos, parts[0])
    ensures |parts| == 1 ==> At(text, pos + |parts[0]|) == bracket[0] && |ListText(parts, bracket)| == |parts[0]| + 1
    ensures |parts| > 1 ==> At(text, pos + |parts[0]|) == ','
    ensures |parts| > 1 ==> Starts(text, pos + |parts[0]| + 1, ListText(parts[1..], bracket))
    ensures |parts| > 1 ==> |ListText(parts, bracket)| == |parts[0]| + 1 + |ListText(parts[1..], bracket)|
  {
    var tail := Rest(parts[1..]) + bracket;
    StartsParts(text, pos, parts[0], tail);
    StartsAt(text, pos + |parts[0]|, tail, 0);
    if |parts| > 1 {
      var next := parts[1..];
      Associates(",", next[0] + Rest(next[1..]), bracket);
      Associates(next[0], Rest(next[1..]), bracket);
      assert tail == "," + ListText(next, bracket);
      StartsParts(text, pos + |parts[0]|, ",", ListText(next, bracket));
    }
  }

  lemma JoinedIsList(parts: seq<string>, bracket: string)
    requires parts != []
    ensures W.Joined(parts) + bracket == ListText(parts, bracket)
  {
    JoinedIsRest(parts);
    Associates(parts[0], Rest(parts[1..]), bracket);
  }

  /** Part k of a list stands at its place, with a comma or the bracket after it and the next place behind that. */
  predicate StandsAt(text: string, parts: seq<string>, places: seq<nat>, bracket: char, k: nat)
    requires k < |parts| && |places| == |parts| + 1
  {
    && Starts(text, places[k], parts[k])
    && places[k + 1] == places[k] + |parts[k]| + 1 <= |text|
    && At(text, places[k] + |parts[k]|) == if k + 1 == |parts| then bracket else ','
  }

  predicate Stands(text: string, parts: seq<string>, places: seq<nat>, bracket: char) {
    && |places| == |parts| + 1
    && forall k :: 0 <= k < |parts| ==> StandsAt(text, parts, places, bracket, k)
  }

  /** Where the parts of a list stand. */
  lemma {:induction false} ListStands(text: string, pos: nat, parts: seq<string>, bracket: string) returns (places: seq<nat>)
    requires parts != [] && |bracket| == 1 && Starts(text, pos, ListText(parts, bracket))
    ensures Stands(text, parts, places, bracket[0])
    ensures places[0] == pos && places[|parts|] == pos + |ListText(parts, bracket)|
    decreases |parts|
  {
    ListHead(text, pos, parts, bracket);
    if |parts| == 1 {
      places := [pos, pos + |parts[0]| + 1];
    } else {
      var rest := ListStands(text, pos + |parts[0]| + 1, parts[1..], bracket);
      places := [pos] + rest;
      forall k | 0 <= k < |parts| ensures StandsAt(text, parts, places, bracket[0], k) {
        if k > 0 {
          assert StandsAt(text, parts[1..], rest, bracket[0], k - 1);
        }
      }
    }
  }

  lemma ItemParsed(text: string, items: seq<W.Tree>, places: seq<nat>, k: nat, end: nat)
    requires k < |items| && Stands(text, W.Renders(items), places, ']') && end == places[k] + |W.Render(items[k])|
    ensures places[k] <= |text| && P.ParseValue(text, places[k]) == P.Ok(ToValue(items[k]), end)
    ensures places[k + 1] == end + 1 <= |text| && At(text, end) == if k + 1 == |items| then ']' else ','
    decreases items, 0
  {
    assert StandsAt(text, W.Renders(items), places, ']', k);
    ValueRead(text, places[k], items[k]);
  }

  /** One item of a list, and what the parser is left with. */
  lemma ItemRead(text: string, items: seq<W.Tree>, places: seq<nat>, k: nat, out: seq<P.Value>)
    requires k < |items| && Stands(text, W.Renders(items), places, ']')
    ensures places[k] <= |text| && places[k + 1] <= |text|
    ensures P.ParseItems(text, places[k], out) ==
            var more := out + [ToValue(items[k])];
            if k + 1 == |items| then P.Ok(P.Arr(more), places[k + 1]) else P.ParseItems(text, places[k + 1], more)
    decreases items, 1
  {
    var end := places[k] + |W.Render(items[k])|;
    ItemParsed(text, items, places, k, end);
    ItemsTurn(text, places[k], out, ToValue(items[k]), end);
  }

  /** With the items before k read, the parser reads the others and the bracket, and returns the whole array. */
  lemma {:induction false} ItemsRead(text: string, items: seq<W.Tree>, places: seq<nat>, k: nat, out: seq<P.Value>)
    requires k < |items| && Stands(text, W.Renders(items), places, ']') && out == ToValues(items)[..k]
    ensures places[k] <= |text| && P.ParseItems(text, places[k], out) == P.Ok(P.Arr(ToValues(items)), places[|items|])
    decreases items, 2, |items| - k
  {
    var more := out + [ToValue(items[k])];
    assert more == ToValues(items)[..k + 1];
    ItemRead(text, items, places, k, out);
    if k + 1 < |items| {
      ItemsRead(text, items, places, k + 1, more);
    } else {
      assert more == ToValues(items);
    }
  }

  lemma MemberFirst(m: W.Member)
    ensures W.RenderMember(m) != "" && W.RenderMember(m)[0] == '"' && W.Quoted(m.name) != "" && W.Quoted(m.name)[0] == '"'
  {
  }

  /** A name, its colon and its value, as they stand in the text. */
  lemma MemberParts(text: string, pos: nat, m: W.Member)
    requires Starts(text, pos, W.RenderMember(m))
    ensures var colon := pos + |W.Quoted(m.name)|;
            && pos < colon < |text| && At(text, pos) == '"' && At(text, colon) == ':'
            && Starts(text, pos, W.Quoted(m.name)) && Starts(text, colon + 1, W.Render(m.value))
            && pos + |W.RenderMember(m)| == colon + 1 + |W.Render(m.value)|
  {
    var name, value := W.Quoted(m.name), W.Render(m.value);
    MemberFirst(m);
    StartsParts(text, pos, name + ":", value);
    StartsParts(text, pos, name, ":");
    StartsAt(text, pos, name, 0);
    StartsAt(text, pos + |name|, ":", 0);
  }

  lemma NameRead(text: string, pos: nat, m: W.Member, colon: nat)
    requires Starts(text, pos, W.RenderMember(m)) && colon == pos + |W.Quoted(m.name)|
    ensures At(text, pos) == '"' && colon < |text| && At(text, colon) == ':'
    ensures P.ParseString(text, pos) == P.Ok(m.name, colon)
  {
    MemberParts(text, pos, m);
    StringRead(text, pos, m.name);
  }

  lemma AfterNameRead(text: string, pos: nat, m: W.Member, colon: nat, end: nat)
    requires Starts(text, pos, W.RenderMember(m)) && colon == pos + |W.Quoted(m.name)|
    requires end == pos + |W.RenderMember(m)| && Follows(At(text, end))
    ensures colon < |text| && P.ParseValue(text, colon + 1) == P.Ok(ToValue(m.value), end)
    decreases m, 2
  {
    MemberParts(text, pos, m);
    ValueRead(text, colon + 1, m.value);
  }

  lemma MemberRead(text: string, pos: nat, m: W.Member, end: nat)
    requires Starts(text, pos, W.RenderMember(m)) && end == pos + |W.RenderMember(m)| && Follows(At(text, end))
    ensures P.ParseMember(text, pos) == P.Ok(P.Entry(m.name, ToValue(m.value)), end)
    decreases m, 3
  {
    var colon := pos + |W.Quoted(m.name)|;
    NameRead(text, pos, m, colon);
    AfterNameRead(text, pos, m, colon, end);
    MemberTurn(text, pos, m.name, colon, ToValue(m.value), end);
  }

  /** One member of an object, and what the parser is left with. */
  lemma NextMemberRead(text: string, members: seq<W.Member>, places: seq<nat>, k: nat, out: map<string, P.Value>)
    requires k < |members| && Stands(text, W.MemberTexts(members), places, '}')
    ensures places[k] <= |text| && places[k + 1] <= |text|
    ensures P.ParseMembers(text, places[k], out) ==
            var more := out[members[k].name := ToValue(members[k].value)];
            if k + 1 == |members| then P.Ok(P.Obj(more), places[k + 1]) else P.ParseMembers(text, places[k + 1], more)
    decreases members, 0
  {
    assert StandsAt(text, W.MemberTexts(members), places, '}', k);
    var end := places[k] + |W.RenderMember(members[k])|;
    MemberRead(text, places[k], members[k], end);
    MembersTurn(text, places[k], out, P.Entry(members[k].name, ToValue(members[k].value)), end);
  }

  /** What has been read after one more member. */
  lemma OneMoreMember(members: seq<W.Member>, k: nat)
    requires k < |members|
    ensures ToMembers(members[..k])[members[k].name := ToValue(members[k].value)] == ToMembers(members[..k + 1])
    ensures k + 1 == |members| ==> members[..k + 1] == members
  {
    assert members[..k + 1][..k] == members[..k];
  }

  /** With the members before k read, the parser reads the others and the bracket, and returns the whole object. */
  lemma {:induction false} MembersRead(text: string, members: seq<W.Member>, places: seq<nat>, k: nat, out: map<string, P.Value>)
    requires k < |members| && Stands(text, W.MemberTexts(members), places, '}') && out == ToMembers(members[..k])
    ensures places[k] <= |text| && P.ParseMembers(text, places[k], out) == P.Ok(P.Obj(ToMembers(members)), places[|members|])
    decreases members, 1, |members| - k
  {
    NextMemberRead(text, members, places, k, out);
    OneMoreMember(members, k);
    if k + 1 < |members| {
      MembersRead(text, members, places, k + 1, out[members[k].name := ToValue(members[k].value)]);
    }
  }

  lemma ArrayRead(text: string, pos: nat, items: seq<W.Tree>)
    requires Starts(text, pos, "[" + W.RenderItems(items) + "]")
    ensures P.ParseArray(text, pos) == P.Ok(P.Arr(ToValues(items)), pos + |W.RenderItems(items)| + 2)
    decreases items, 3
  {
    Associates("[", W.RenderItems(items), "]");
    StartsParts(text, pos, "[", W.RenderItems(items) + "]");
    if items == [] {
      assert W.RenderItems(items) + "]" == "]";
      StartsAt(text, pos + 1, "]", 0);
      assert ToValues(items) == [];
    } else {
      JoinedIsList(W.Renders(items), "]");
      assert !P.IsSpace(At(text, pos + 1)) && At(text, pos + 1) != ']' by {
        ListHead(text, pos + 1, W.Renders(items), "]");
        FirstChar(items[0]);
        StartsAt(text, pos + 1, W.Render(items[0]), 0);
      }
      var places := ListStands(text, pos + 1, W.Renders(items), "]");
      ItemsRead(text, items, places, 0, []);
    }
    ArrayTurn(text, pos);
  }

  lemma ObjectRead(text: string, pos: nat, members: seq<W.Member>)
    requires Starts(text, pos, "{" + W.RenderMembers(members) + "}")
    ensures P.ParseObject(text, pos) == P.Ok(P.Obj(ToMembers(members)), pos + |W.RenderMembers(members)| + 2)
    decreases members, 3
  {
    Associates("{", W.RenderMembers(members), "}");
    StartsParts(text, pos, "{", W.RenderMembers(members) + "}");
    if members == [] {
      assert W.RenderMembers(members) + "}" == "}";
      StartsAt(text, pos + 1, "}", 0);
    } else {
      JoinedIsList(W.MemberTexts(members), "}");
      assert At(text, pos + 1) == '"' by {
        ListHead(text, pos + 1, W.MemberTexts(members), "}");
        MemberFirst(members[0]);
        StartsAt(text, pos + 1, W.RenderMember(members[0]), 0);
      }
      var places := ListStands(text, pos + 1, W.MemberTexts(members), "}");
      assert members[..0] == [];
      MembersRead(text, members, places, 0, map[]);
    }
    ObjectTurn(text, pos);
  }

  lemma WordRead(text: string, pos: nat, t: W.Tree)
    requires (t.Null? || t.Bool?) && Starts(text, pos, W.Render(t))
    ensures P.ParseValue(text, pos) == P.Ok(ToValue(t), pos + |W.Render(t)|)
  {
    FirstChar(t);
    StartsAt(text, pos, W.Render(t), 0);
    ValueTurn(text, pos);
  }

  lemma StrRead(text: string, pos: nat, s: string)
    requires Starts(text, pos, W.Quoted(s))
    ensures P.ParseValue(text, pos) == P.Ok(P.Str(s), pos + |W.Quoted(s)|)
  {
    StringRead(text, pos, s);
    StartsAt(text, pos, W.Quoted(s), 0);
    ValueTurn(text, pos);
  }

  lemma IntRead(text: string, pos: nat, n: int)
    requires Starts(text, pos, W.Decimal(n)) && !P.InNumber(At(text, pos + |W.Decimal(n)|))
    ensures P.ParseValue(text, pos) == P.Ok(P.Number(n as real), pos + |W.Decimal(n)|)
  {
    DecimalIs(n);
    StartsAt(text, pos, W.Decimal(n), 0);
    ValueTurn(text, pos);
    NumberRead(text, pos, n);
  }

  lemma BracketFirst(text: string, pos: nat, open: string, body: string)
    requires |open| == 1 && Starts(text, pos, open + body)
    ensures pos < |text| && At(text, pos) == open[0]
  {
    StartsParts(text, pos, open, body);
    StartsAt(text, pos, open, 0);
  }

  lemma ArrRead(text: string, pos: nat, items: seq<W.Tree>)
    requires Starts(text, pos, "[" + W.RenderItems(items) + "]")
    ensures P.ParseValue(text, pos) == P.Ok(P.Arr(ToValues(items)), pos + |W.RenderItems(items)| + 2)
    decreases items, 4
  {
    Associates("[", W.RenderItems(items), "]");
    BracketFirst(text, pos, "[", W.RenderItems(items) + "]");
    ValueTurn(text, pos);
    ArrayRead(text, pos, items);
  }

  lemma ObjRead(text: string, pos: nat, members: seq<W.Member>)
    requires Starts(text, pos, "{" + W.RenderMembers(members) + "}")
    ensures P.ParseValue(text, pos) == P.Ok(P.Obj(ToMembers(members)), pos + |W.RenderMembers(members)| + 2)
    decreases members, 4
  {
    Associates("{", W.RenderMembers(members), "}");
    BracketFirst(text, pos, "{", W.RenderMembers(members) + "}");
    ValueTurn(text, pos);
    ObjectRead(text, pos, members);
  }

  /** Wherever a written value stands in a text, the parser reads it back and stops where it ends. */
  lemma {:induction false} ValueRead(text: string, pos: nat, t: W.Tree)
    requires Starts(text, pos, W.Render(t)) && Follows(At(text, pos + |W.Render(t)|))
    ensures P.ParseValue(text, pos) == P.Ok(ToValue(t), pos + |W.Render(t)|)
    decreases t, 1
  {
    match t
    case Int(n) => IntRead(text, pos, n);
    case Str(s) => StrRead(text, pos, s);
    case Arr(items) => ArrRead(text, pos, items);
    case Obj(members) => ObjRead(text, pos, members);
    case _ => WordRead(text, pos, t);
  }

  /** Parsing a written document consumes all of it and returns the value that was written. */
  lemma ParseWritten(t: W.Tree)
    ensures P.ParseDocument(W.Render(t)) == P.Ok(ToValue(t), |W.Render(t)|)
  {
    ValueRead(W.Render(t), 0, t);
  }

  /** From the calls on the writer to the parsed value. */
  lemma WriteThenParse(t: W.Tree)
    ensures W.Run(W.State("", [], false), W.Calls(t)).Some?
    ensures P.ParseDocument(W.Run(W.State("", [], false), W.Calls(t)).value.out) == P.Ok(ToValue(t), |W.Render(t)|)
  {
    W.DocumentWritten(t);
    ParseWritten(t);
  }
}
