/** What any text at all is parsed as, from its own characters: every value it spells, and nothing else. */
module JsonRules {
  import opened JsonTokens
  import opened JsonTurns
  import opened Texts
  import N = Numerals
  import P = JsonParser

  // ---- the grammar ------------------------------------------------------

  /** A value as it stands in a text, from its first character to past its last. */
  datatype Node =
    | Word(word: string, value: P.Value, from: nat, to: nat)
    | Num(parts: N.Layout, from: nat, to: nat)
    | Text(pieces: seq<Piece>, from: nat, to: nat)
    | List(items: seq<Item>, from: nat, to: nat)
    | Record(pairs: seq<Pair>, from: nat, to: nat)

  /** A value in a list, and where the comma or bracket after it stands. */
  datatype Item = Item(node: Node, stop: nat)

  datatype Pair = Pair(name: seq<Piece>, from: nat, end: nat, colon: nat, node: Node, stop: nat)

  predicate WordMeans(word: string, value: P.Value) {
    || (word == "true" && value == P.Bool(true)) || (word == "false" && value == P.Bool(false))
    || (word == "null" && value == P.Null) || (word == "NaN" && value == P.NotANumber)
    || (word == "Infinity" && value == P.Infinite)
  }

  ghost predicate Fits(text: string, n: Node)
    decreases n
  {
    match n
    case Word(word, value, from, to) => WordMeans(word, value) && to == from + |word| <= |text| && text[from..to] == word
    case Num(parts, from, to) => NumberAt(text, parts) && from == parts.sign && to == parts.end
    case Text(pieces, from, to) => QuotedAt(text, from, pieces, to)
    case List(items, from, to) =>
      && ShowsAt(text, from, '[')
      && if items == [] then to > 0 && Gap(text, from + 1, to - 1) && ShowsAt(text, to - 1, ']')
         else ItemsFit(text, from + 1, items, to)
    case Record(pairs, from, to) =>
      && ShowsAt(text, from, '{')
      && if pairs == [] then to > 0 && Gap(text, from + 1, to - 1) && ShowsAt(text, to - 1, '}')
         else PairsFit(text, from + 1, pairs, to)
  }

  ghost predicate ItemFits(text: string, pos: nat, i: Item)
    decreases i
  {
    Gap(text, pos, i.node.from) && Fits(text, i.node) && Gap(text, i.node.to, i.stop)
  }

  /** Values from pos on with blanks about them and commas between, up to and past a bracket. */
  ghost predicate ItemsFit(text: string, pos: nat, items: seq<Item>, to: nat)
    requires items != []
    decreases items
  {
    var i := items[0];
    && ItemFits(text, pos, i)
    && if |items| == 1 then ShowsAt(text, i.stop, ']') && to == i.stop + 1
       else ShowsAt(text, i.stop, ',') && ItemsFit(text, i.stop + 1, items[1..], to)
  }

  /** A name, a colon and a value, with blanks about them. */
  ghost predicate PairFits(text: string, pos: nat, p: Pair)
    decreases p
  {
    && Gap(text, pos, p.from) && QuotedAt(text, p.from, p.name, p.end)
    && Gap(text, p.end, p.colon) && ShowsAt(text, p.colon, ':')
    && Gap(text, p.colon + 1, p.node.from) && Fits(text, p.node) && Gap(text, p.node.to, p.stop)
  }

  /** Names and values with commas between, up to and past a brace. */
  ghost predicate PairsFit(text: string, pos: nat, pairs: seq<Pair>, to: nat)
    requires pairs != []
    decreases pairs
  {
    var p := pairs[0];
    && PairFits(text, pos, p)
    && if |pairs| == 1 then ShowsAt(text, p.stop, '}') && to == p.stop + 1
       else ShowsAt(text, p.stop, ',') && PairsFit(text, p.stop + 1, pairs[1..], to)
  }

  // ---- what it means ----------------------------------------------------

  ghost function Meaning(text: string, n: Node): P.Value
    requires Fits(text, n)
    decreases n
  {
    match n
    case Word(_, value, _, _) => value
    case Num(parts, _, _) => P.Number(Worth(text, parts))
    case Text(pieces, _, _) => P.Str(Said(pieces))
    case List(items, from, to) => P.Arr(if items == [] then [] else Meanings(text, from + 1, items, to))
    case Record(pairs, from, to) => P.Obj(if pairs == [] then map[] else Put(Named(text, from + 1, pairs, to), map[]))
  }

  ghost function ItemMeaning(text: string, pos: nat, i: Item): P.Value
    requires ItemFits(text, pos, i)
    decreases i
  {
    Meaning(text, i.node)
  }

  ghost function PairMeaning(text: string, pos: nat, p: Pair): P.Entry
    requires PairFits(text, pos, p)
    decreases p
  {
    P.Entry(Said(p.name), Meaning(text, p.node))
  }

  ghost function Meanings(text: string, pos: nat, items: seq<Item>, to: nat): seq<P.Value>
    requires items != [] && ItemsFit(text, pos, items, to)
    decreases items
  {
    var first := [ItemMeaning(text, pos, items[0])];
    first + if |items| == 1 then [] else Meanings(text, items[0].stop + 1, items[1..], to)
  }

  /** The names and values of an object, in order. */
  ghost function Named(text: string, pos: nat, pairs: seq<Pair>, to: nat): seq<P.Entry>
    requires pairs != [] && PairsFit(text, pos, pairs, to)
    decreases pairs
  {
    var first := [PairMeaning(text, pos, pairs[0])];
    first + if |pairs| == 1 then [] else Named(text, pairs[0].stop + 1, pairs[1..], to)
  }

  // ---- names ------------------------------------------------------------

  /** A name that no entry carries keeps what it had. */
  lemma {:induction false} OtherNamesKept(entries: seq<P.Entry>, out: map<string, P.Value>, name: string)
    requires forall k :: 0 <= k < |entries| ==> entries[k].name != name
    ensures var m := Put(entries, out); (name in m <==> name in out) && (name in out ==> m[name] == out[name])
    decreases |entries|
  {
    if entries != [] {
      OtherNamesKept(entries[1..], out[entries[0].name := entries[0].value], name);
    }
  }

  /** A name written more than once has the value written last under it. */
  lemma {:induction false} LastNameKept(entries: seq<P.Entry>, out: map<string, P.Value>, k: nat)
    requires k < |entries| && forall j :: k < j < |entries| ==> entries[j].name != entries[k].name
    ensures entries[k].name in Put(entries, out) && Put(entries, out)[entries[k].name] == entries[k].value
    decreases k
  {
    var more := out[entries[0].name := entries[0].value];
    if k == 0 {
      OtherNamesKept(entries[1..], more, entries[0].name);
    } else {
      LastNameKept(entries[1..], more, k - 1);
    }
  }

  // ---- single tokens ----------------------------------------------------

  /** The first character of a value says which kind it is. */
  predicate Begins(c: char, n: Node) {
    match n
    case Word(word, _, _, _) => word != "" && c == word[0]
    case Num(_, _, _) => '0' <= c <= '9' || c == '+' || c == '-' || c == '.'
    case Text(_, _, _) => c == '"'
    case List(_, _, _) => c == '['
    case Record(_, _, _) => c == '{'
  }

  lemma NumberFirst(text: string, n: N.Layout)
    requires NumberAt(text, n)
    ensures n.sign < |text| && ('0' <= text[n.sign] <= '9' || text[n.sign] == '+' || text[n.sign] == '-' || text[n.sign] == '.')
  {
  }

  lemma WordFirst(text: string, word: string, value: P.Value, from: nat)
    requires WordMeans(word, value) && from + |word| <= |text| && text[from..from + |word|] == word
    ensures text[from] == word[0]
  {
    assert text[from..from + |word|][0] == text[from];
  }

  lemma BeginsNoOther(c: char, n: Node)
    requires Begins(c, n) && (n.Word? ==> WordMeans(n.word, n.value))
    ensures c != ']' && c != '}' && !P.IsSpace(c)
  {
  }

  lemma FirstChar(text: string, n: Node)
    requires Fits(text, n)
    ensures n.from < |text| && Begins(text[n.from], n)
    ensures text[n.from] != ']' && text[n.from] != '}' && !P.IsSpace(text[n.from])
  {
    match n {
      case Word(word, value, from, _) => WordFirst(text, word, value, from);
      case Num(parts, _, _) => NumberFirst(text, parts);
      case _ =>
    }
    BeginsNoOther(text[n.from], n);
  }

  lemma WordRead(text: string, word: string, value: P.Value, from: nat)
    requires WordMeans(word, value) && from + |word| <= |text| && text[from..from + |word|] == word
    ensures P.ParseToken(text, from) == P.Ok(value, from + |word|)
  {
    WordFirst(text, word, value, from);
  }

  lemma NumTurn(text: string, p: nat, v: P.Value, to: nat)
    requires p < |text| && ('0' <= text[p] <= '9' || text[p] == '+' || text[p] == '-' || text[p] == '.')
    requires P.ParseNumber(text, p) == P.Ok(v, to)
    ensures P.ParseToken(text, p) == P.Ok(v, to)
  {
    var c := At(text, p);
    assert c != '{' && c != '[' && c != '"' && c != 't' && c != 'f' && c != 'n' && c != 'N' && c != 'I';
  }

  lemma NumRead(text: string, n: N.Layout)
    requires NumberAt(text, n)
    ensures P.ParseToken(text, n.sign) == P.Ok(P.Number(Worth(text, n)), n.end)
  {
    NumberFirst(text, n);
    NumberRead(text, n);
    NumTurn(text, n.sign, P.Number(Worth(text, n)), n.end);
  }

  lemma TextRead(text: string, from: nat, pieces: seq<Piece>, to: nat)
    requires QuotedAt(text, from, pieces, to)
    ensures P.ParseToken(text, from) == P.Ok(P.Str(Said(pieces)), to)
  {
    QuotedRead(text, from, pieces, to);
  }

  lemma LeafTurn(text: string, n: Node)
    requires Fits(text, n) && (n.Word? || n.Num? || n.Text?)
    ensures P.ParseToken(text, n.from) == P.Ok(Meaning(text, n), n.to)
  {
    match n
    case Word(word, value, from, to) => WordRead(text, word, value, from);
    case Num(parts, _, _) => NumRead(text, parts);
    case Text(pieces, from, to) => TextRead(text, from, pieces, to);
  }

  lemma WordStands(text: string, p: nat, word: string, value: P.Value, v: P.Value, to: nat)
    requires WordMeans(word, value) && P.ParseWord(text, p, word, value) == P.Ok(v, to)
    ensures Fits(text, Word(word, value, p, to)) && v == value
  {
  }

  lemma LeafStands(text: string, p: nat, v: P.Value, to: nat) returns (n: Node)
    requires p <= |text| && !ShowsAt(text, p, '[') && !ShowsAt(text, p, '{') && P.ParseToken(text, p) == P.Ok(v, to)
    ensures Fits(text, n) && n.from == p && n.to == to && v == Meaning(text, n)
  {
    match At(text, p) {
      case '"' =>
        var pieces := QuotedStands(text, p, P.ParseString(text, p).value, to);
        n := Text(pieces, p, to);
      case 't' =>
        WordStands(text, p, "true", P.Bool(true), v, to);
        n := Word("true", P.Bool(true), p, to);
      case 'f' =>
        WordStands(text, p, "false", P.Bool(false), v, to);
        n := Word("false", P.Bool(false), p, to);
      case 'n' =>
        WordStands(text, p, "null", P.Null, v, to);
        n := Word("null", P.Null, p, to);
      case 'N' =>
        WordStands(text, p, "NaN", P.NotANumber, v, to);
        n := Word("NaN", P.NotANumber, p, to);
      case 'I' =>
        WordStands(text, p, "Infinity", P.Infinite, v, to);
        n := Word("Infinity", P.Infinite, p, to);
      case _ =>
        var parts := NumberStands(text, p, v, to);
        n := Num(parts, p, to);
    }
  }

  // ---- lists and objects as turns ---------------------------------------

  lemma MeaningsAre(text: string, pos: nat, items: seq<Item>, to: nat)
    requires items != [] && ItemsFit(text, pos, items, to)
    ensures ItemFits(text, pos, items[0])
    ensures if |items| == 1 then ShowsAt(text, items[0].stop, ']') && to == items[0].stop + 1
            else ShowsAt(text, items[0].stop, ',') && ItemsFit(text, items[0].stop + 1, items[1..], to)
    ensures Meanings(text, pos, items, to) ==
            [ItemMeaning(text, pos, items[0])] + if |items| == 1 then [] else Meanings(text, items[0].stop + 1, items[1..], to)
  {
  }

  lemma OneItemMore(text: string, pos: nat, items: seq<Item>, to: nat)
    requires items != [] && ItemFits(text, pos, items[0])
    requires if |items| == 1 then ShowsAt(text, items[0].stop, ']') && to == items[0].stop + 1
             else ShowsAt(text, items[0].stop, ',') && ItemsFit(text, items[0].stop + 1, items[1..], to)
    ensures ItemsFit(text, pos, items, to)
  {
  }

  lemma NamedAre(text: string, pos: nat, pairs: seq<Pair>, to: nat)
    requires pairs != [] && PairsFit(text, pos, pairs, to)
    ensures PairFits(text, pos, pairs[0])
    ensures if |pairs| == 1 then ShowsAt(text, pairs[0].stop, '}') && to == pairs[0].stop + 1
            else ShowsAt(text, pairs[0].stop, ',') && PairsFit(text, pairs[0].stop + 1, pairs[1..], to)
    ensures Named(text, pos, pairs, to) ==
            [PairMeaning(text, pos, pairs[0])] + if |pairs| == 1 then [] else Named(text, pairs[0].stop + 1, pairs[1..], to)
  {
  }

  lemma OnePairMore(text: string, pos: nat, pairs: seq<Pair>, to: nat)
    requires pairs != [] && PairFits(text, pos, pairs[0])
    requires if |pairs| == 1 then ShowsAt(text, pairs[0].stop, '}') && to == pairs[0].stop + 1
             else ShowsAt(text, pairs[0].stop, ',') && PairsFit(text, pairs[0].stop + 1, pairs[1..], to)
    ensures PairsFit(text, pos, pairs, to)
  {
  }

  // ---- what a text spells is what it is parsed as -----------------------

  /** The turn that an item as it stands makes. */
  lemma ItemMakes(text: string, takes: Turn<P.Value> -> bool, pos: nat, i: Item) returns (t: Turn<P.Value>)
    requires ItemFits(text, pos, i) && Values(text, takes)
    ensures takes(t) && t.pos == pos && t.took == ItemMeaning(text, pos, i) && t.stop == i.stop
    decreases i, 0
  {
    GapIs(text, pos, i.node.from);
    GapIs(text, i.node.to, i.stop);
    NodeRead(text, i.node);
    t := Turn(pos, Meaning(text, i.node), i.node.to, i.stop);
    assert TakesValue(text, t);
  }

  lemma {:induction false} ItemsMake(text: string, takes: Turn<P.Value> -> bool, pos: nat, items: seq<Item>, to: nat)
    returns (turns: seq<Turn<P.Value>>)
    requires items != [] && ItemsFit(text, pos, items, to) && Values(text, takes)
    ensures Turns(text, takes, turns, ']', to) && turns[0].pos == pos && Taken(turns) == Meanings(text, pos, items, to)
    decreases items, 1
  {
    MeaningsAre(text, pos, items, to);
    var t := ItemMakes(text, takes, pos, items[0]);
    var rest := [];
    if |items| > 1 {
      rest := ItemsMake(text, takes, t.stop + 1, items[1..], to);
    }
    TurnsMore(text, takes, t, rest, ']', to);
    TakenMore(t, rest);
    turns := [t] + rest;
  }

  lemma PairParts(text: string, pos: nat, p: Pair)
    requires PairFits(text, pos, p)
    ensures pos <= |text| && P.Skip(text, pos) == p.from && P.ParseString(text, p.from) == P.Ok(Said(p.name), p.end)
    ensures P.Skip(text, p.end) == p.colon && ShowsAt(text, p.colon, ':')
    ensures P.Skip(text, p.colon + 1) == p.node.from && P.Skip(text, p.node.to) == p.stop && Fits(text, p.node)
    ensures PairMeaning(text, pos, p) == P.Entry(Said(p.name), Meaning(text, p.node))
  {
    GapIs(text, pos, p.from);
    QuotedRead(text, p.from, p.name, p.end);
    GapIs(text, p.end, p.colon);
    GapIs(text, p.colon + 1, p.node.from);
    GapIs(text, p.node.to, p.stop);
  }

  lemma PairValueRead(text: string, colon: nat, n: Node)
    requires colon < |text| && P.Skip(text, colon + 1) == n.from && Fits(text, n)
    ensures P.ParseValue(text, colon + 1) == P.Ok(Meaning(text, n), n.to)
    decreases n, 3
  {
    NodeRead(text, n);
    AfterGap(text, colon + 1, n.from);
  }

  lemma PairPartsRead(text: string, pos: nat, p: Pair, e: P.Entry)
    requires PairFits(text, pos, p) && e == PairMeaning(text, pos, p)
    ensures pos <= |text| && P.Skip(text, pos) == p.from && P.ParseString(text, p.from) == P.Ok(e.name, p.end)
    ensures P.Skip(text, p.end) == p.colon && ShowsAt(text, p.colon, ':') && P.Skip(text, p.node.to) == p.stop
    ensures P.ParseValue(text, p.colon + 1) == P.Ok(e.value, p.node.to)
    decreases p, 0
  {
    PairParts(text, pos, p);
    PairValueRead(text, p.colon, p.node);
  }

  /** The turn that a pair as it stands makes. */
  lemma PairMakes(text: string, takes: Turn<P.Entry> -> bool, pos: nat, p: Pair) returns (t: Turn<P.Entry>)
    requires PairFits(text, pos, p) && Entries(text, takes)
    ensures takes(t) && t.pos == pos && t.took == PairMeaning(text, pos, p) && t.stop == p.stop
    decreases p, 1
  {
    t := Turn(pos, PairMeaning(text, pos, p), p.node.to, p.stop);
    PairPartsRead(text, pos, p, t.took);
    PairTakes(text, takes, t, p.from, p.end, p.colon);
  }

  lemma {:induction false} PairsMake(text: string, takes: Turn<P.Entry> -> bool, pos: nat, pairs: seq<Pair>, to: nat)
    returns (turns: seq<Turn<P.Entry>>)
    requires pairs != [] && PairsFit(text, pos, pairs, to) && Entries(text, takes)
    ensures Turns(text, takes, turns, '}', to) && turns[0].pos == pos && Taken(turns) == Named(text, pos, pairs, to)
    decreases pairs, 2
  {
    NamedAre(text, pos, pairs, to);
    var t := PairMakes(text, takes, pos, pairs[0]);
    var rest := [];
    if |pairs| > 1 {
      rest := PairsMake(text, takes, t.stop + 1, pairs[1..], to);
    }
    TurnsMore(text, takes, t, rest, '}', to);
    TakenMore(t, rest);
    turns := [t] + rest;
  }

  /** Where a list or an object that is not empty goes on. */
  lemma ListStarts(text: string, n: Node)
    requires Fits(text, n) && n.List? && n.items != []
    ensures ShowsAt(text, n.from, '[') && ItemsFit(text, n.from + 1, n.items, n.to)
    ensures P.Skip(text, n.from + 1) == n.items[0].node.from && !ShowsAt(text, n.items[0].node.from, ']')
    ensures Meaning(text, n) == P.Arr(Meanings(text, n.from + 1, n.items, n.to))
  {
    var i := n.items[0];
    assert ItemFits(text, n.from + 1, i);
    GapIs(text, n.from + 1, i.node.from);
    FirstChar(text, i.node);
  }

  lemma RecordStarts(text: string, n: Node)
    requires Fits(text, n) && n.Record? && n.pairs != []
    ensures ShowsAt(text, n.from, '{') && PairsFit(text, n.from + 1, n.pairs, n.to)
    ensures P.Skip(text, n.from + 1) == n.pairs[0].from && !ShowsAt(text, n.pairs[0].from, '}')
    ensures Meaning(text, n) == P.Obj(Put(Named(text, n.from + 1, n.pairs, n.to), map[]))
  {
    assert PairFits(text, n.from + 1, n.pairs[0]);
    GapIs(text, n.from + 1, n.pairs[0].from);
  }

  lemma EmptyRead(text: string, n: Node)
    requires Fits(text, n) && (n.List? || n.Record?) && (n.List? ==> n.items == []) && (n.Record? ==> n.pairs == [])
    ensures P.ParseToken(text, n.from) == P.Ok(Meaning(text, n), n.to)
  {
    GapIs(text, n.from + 1, n.to - 1);
    if n.List? {
      ListTurn(text, n.from, n.to - 1);
    } else {
      RecordTurn(text, n.from, n.to - 1);
    }
  }

  lemma ListRead(text: string, n: Node)
    requires Fits(text, n) && n.List? && n.items != []
    ensures P.ParseToken(text, n.from) == P.Ok(Meaning(text, n), n.to)
    decreases n, 1
  {
    var takes := ValueTaker(text);
    ListStarts(text, n);
    var turns := ItemsMake(text, takes, n.from + 1, n.items, n.to);
    ListByTurns(text, takes, n.from, n.items[0].node.from, turns, n.to);
  }

  lemma RecordRead(text: string, n: Node)
    requires Fits(text, n) && n.Record? && n.pairs != []
    ensures P.ParseToken(text, n.from) == P.Ok(Meaning(text, n), n.to)
    decreases n, 1
  {
    var takes := EntryTaker(text);
    RecordStarts(text, n);
    var turns := PairsMake(text, takes, n.from + 1, n.pairs, n.to);
    RecordByTurns(text, takes, n.from, n.pairs[0].from, turns, n.to);
  }

  /** A value that a text spells is what the parser returns for it, whatever stands around it. */
  lemma {:induction false} NodeRead(text: string, n: Node)
    requires Fits(text, n)
    ensures n.from < |text| && !P.IsSpace(text[n.from])
    ensures P.ParseToken(text, n.from) == P.Ok(Meaning(text, n), n.to)
    decreases n, 2
  {
    FirstChar(text, n);
    if n.List? && n.items != [] {
      ListRead(text, n);
    } else if n.Record? && n.pairs != [] {
      RecordRead(text, n);
    } else if n.List? || n.Record? {
      EmptyRead(text, n);
    } else {
      LeafTurn(text, n);
    }
  }

  // ---- and what is parsed is spelled ------------------------------------

  /** The item that a turn stands for. */
  lemma ItemStands(text: string, takes: Turn<P.Value> -> bool, t: Turn<P.Value>) returns (i: Item)
    requires takes(t) && Values(text, takes) && t.pos <= |text|
    ensures ItemFits(text, t.pos, i) && t.took == ItemMeaning(text, t.pos, i) && i.stop == t.stop
    decreases |text| - t.pos, 2
  {
    assert TakesValue(text, t);
    GapStands(text, t.pos);
    GapStands(text, t.end);
    var n := NodeStands(text, P.Skip(text, t.pos), t.took, t.end);
    i := Item(n, t.stop);
  }

  lemma ItemGoesOn(text: string, takes: Turn<P.Value> -> bool, t: Turn<P.Value>)
    requires takes(t) && Values(text, takes)
    ensures t.pos < t.stop <= |text|
  {
    assert TakesValue(text, t);
    TurnGoesOn(text, t, P.ParseValue(text, t.pos));
  }

  lemma {:induction false} ItemsStand(text: string, takes: Turn<P.Value> -> bool, turns: seq<Turn<P.Value>>,
          pos: nat, to: nat)
    returns (items: seq<Item>)
    requires Turns(text, takes, turns, ']', to) && Values(text, takes) && pos == turns[0].pos <= |text|
    ensures items != [] && ItemsFit(text, pos, items, to) && Meanings(text, pos, items, to) == Taken(turns)
    decreases |text| - pos, 3
  {
    var t := turns[0];
    assert takes(t) && Linked(text, turns, 0, ']', to);
    ItemGoesOn(text, takes, t);
    var i := ItemStands(text, takes, t);
    var rest: seq<Item> := [];
    if |turns| > 1 {
      TurnsLess(text, takes, turns, ']', to);
      rest := ItemsStand(text, takes, turns[1..], t.stop + 1, to);
    }
    items := [i] + rest;
    assert items[1..] == rest;
    OneItemMore(text, pos, items, to);
    MeaningsAre(text, pos, items, to);
  }

  /** The places of a turn's string, colon and value, and its string's pieces. */
  datatype Places = Places(from: nat, pieces: seq<Piece>, q: nat, colon: nat, next: nat)

  predicate Placed(text: string, t: Turn<P.Entry>, at: Places) {
    && Gap(text, t.pos, at.from) && QuotedAt(text, at.from, at.pieces, at.q) && t.took.name == Said(at.pieces)
    && Gap(text, at.q, at.colon) && ShowsAt(text, at.colon, ':') && Gap(text, at.colon + 1, at.next)
    && Gap(text, t.end, t.stop)
  }

  lemma PairPlaces(text: string, takes: Turn<P.Entry> -> bool, t: Turn<P.Entry>) returns (at: Places)
    requires takes(t) && Entries(text, takes)
    ensures Placed(text, t, at)
    ensures t.pos < at.next <= |text| && P.ParseToken(text, at.next) == P.Ok(t.took.value, t.end)
  {
    var from, q, colon := PairTaken(text, takes, t);
    var next := P.Skip(text, colon + 1);
    GapStands(text, t.pos);
    GapStands(text, q);
    GapStands(text, colon + 1);
    GapStands(text, t.end);
    AfterGap(text, colon + 1, next);
    var pieces := QuotedStands(text, from, t.took.name, q);
    at := Places(from, pieces, q, colon, next);
  }

  lemma PairIs(text: string, t: Turn<P.Entry>, at: Places, n: Node) returns (p: Pair)
    requires Placed(text, t, at) && Fits(text, n) && n.from == at.next && n.to == t.end
    requires t.took.value == Meaning(text, n)
    ensures PairFits(text, t.pos, p) && t.took == PairMeaning(text, t.pos, p) && p.stop == t.stop
  {
    p := Pair(at.pieces, at.from, at.q, at.colon, n, t.stop);
  }

  /** The pair that a turn stands for. */
  lemma PairStands(text: string, takes: Turn<P.Entry> -> bool, t: Turn<P.Entry>) returns (p: Pair)
    requires takes(t) && Entries(text, takes) && t.pos <= |text|
    ensures PairFits(text, t.pos, p) && t.took == PairMeaning(text, t.pos, p) && p.stop == t.stop
    decreases |text| - t.pos, 2
  {
    var at := PairPlaces(text, takes, t);
    var n := NodeStands(text, at.next, t.took.value, t.end);
    p := PairIs(text, t, at, n);
  }

  lemma PairGoesOn(text: string, takes: Turn<P.Entry> -> bool, t: Turn<P.Entry>)
    requires takes(t) && Entries(text, takes)
    ensures t.pos < t.stop <= |text|
  {
    assert TakesEntry(text, t);
    TurnGoesOn(text, t, P.ParseMember(text, t.pos));
  }

  lemma {:induction false} PairsStand(text: string, takes: Turn<P.Entry> -> bool, turns: seq<Turn<P.Entry>>,
          pos: nat, to: nat)
    returns (pairs: seq<Pair>)
    requires Turns(text, takes, turns, '}', to) && Entries(text, takes) && pos == turns[0].pos <= |text|
    ensures pairs != [] && PairsFit(text, pos, pairs, to) && Named(text, pos, pairs, to) == Taken(turns)
    decreases |text| - pos, 3
  {
    var t := turns[0];
    assert takes(t) && Linked(text, turns, 0, '}', to);
    PairGoesOn(text, takes, t);
    var p := PairStands(text, takes, t);
    var rest: seq<Pair> := [];
    if |turns| > 1 {
      TurnsLess(text, takes, turns, '}', to);
      rest := PairsStand(text, takes, turns[1..], t.stop + 1, to);
    }
    pairs := [p] + rest;
    assert pairs[1..] == rest;
    OnePairMore(text, pos, pairs, to);
    NamedAre(text, pos, pairs, to);
  }

  lemma ListStands(text: string, p: nat, v: P.Value, to: nat) returns (n: Node)
    requires ShowsAt(text, p, '[') && P.ParseToken(text, p) == P.Ok(v, to)
    ensures Fits(text, n) && n.from == p && n.to == to && v == Meaning(text, n)
    decreases |text| - p, 0
  {
    var next := P.Skip(text, p + 1);
    if ShowsAt(text, next, ']') {
      GapStands(text, p + 1);
      ListTurn(text, p, next);
      n := List([], p, to);
    } else {
      var takes := ValueTaker(text);
      var turns := ListTurned(text, takes, p, next, v, to);
      var items := ItemsStand(text, takes, turns, p + 1, to);
      n := List(items, p, to);
    }
  }

  lemma RecordStands(text: string, p: nat, v: P.Value, to: nat) returns (n: Node)
    requires ShowsAt(text, p, '{') && P.ParseToken(text, p) == P.Ok(v, to)
    ensures Fits(text, n) && n.from == p && n.to == to && v == Meaning(text, n)
    decreases |text| - p, 0
  {
    var next := P.Skip(text, p + 1);
    if ShowsAt(text, next, '}') {
      GapStands(text, p + 1);
      RecordTurn(text, p, next);
      n := Record([], p, to);
    } else {
      var takes := EntryTaker(text);
      var turns := RecordTurned(text, takes, p, next, v, to);
      var pairs := PairsStand(text, takes, turns, p + 1, to);
      n := Record(pairs, p, to);
    }
  }

  /** Whatever the parser returns for a value, the text spells it. */
  lemma {:induction false} NodeStands(text: string, p: nat, v: P.Value, to: nat) returns (n: Node)
    requires p <= |text| && P.ParseToken(text, p) == P.Ok(v, to)
    ensures Fits(text, n) && n.from == p && n.to == to && v == Meaning(text, n)
    decreases |text| - p, 1
  {
    if ShowsAt(text, p, '[') {
      n := ListStands(text, p, v, to);
    } else if ShowsAt(text, p, '{') {
      n := RecordStands(text, p, v, to);
    } else {
      n := LeafStands(text, p, v, to);
    }
  }

  // ---- documents --------------------------------------------------------

  /** One value, with nothing but blanks before it and after it. */
  ghost predicate Spells(text: string, n: Node) {
    Fits(text, n) && Gap(text, 0, n.from) && Gap(text, n.to, |text|)
  }

  /** A document that spells a value is parsed as it. */
  lemma SpelledIsParsed(text: string, n: Node)
    requires Spells(text, n)
    ensures P.ParseDocument(text) == P.Ok(Meaning(text, n), |text|)
  {
    GapIs(text, 0, n.from);
    NodeRead(text, n);
    AfterGap(text, 0, n.from);
    GapIs(text, n.to, |text|);
  }

  /** And a document that is parsed at all spells what it is parsed as. */
  lemma ParsedIsSpelled(text: string) returns (n: Node)
    requires P.ParseDocument(text).Ok?
    ensures Spells(text, n) && P.ParseDocument(text) == P.Ok(Meaning(text, n), |text|)
  {
    var r := P.ParseValue(text, 0);
    GapStands(text, 0);
    GapStands(text, r.pos);
    AfterGap(text, 0, P.Skip(text, 0));
    n := NodeStands(text, P.Skip(text, 0), r.value, r.pos);
  }

  /** So a document is accepted exactly when it spells a value. */
  lemma AcceptedIff(text: string)
    ensures P.ParseDocument(text).Ok? <==> exists n :: Spells(text, n)
  {
    if P.ParseDocument(text).Ok? {
      var n := ParsedIsSpelled(text);
    }
    if n :| Spells(text, n) {
      SpelledIsParsed(text, n);
    }
  }

  /** A word that begins like a literal and is none is refused where it starts. */
  lemma LiteralRefused(text: string, p: nat)
    requires p < |text|
    ensures text[p] == 't' && !Starts(text, p, "true") ==> P.ParseToken(text, p) == P.Err(P.BadLiteral, p)
    ensures text[p] == 'f' && !Starts(text, p, "false") ==> P.ParseToken(text, p) == P.Err(P.BadLiteral, p)
    ensures text[p] == 'n' && !Starts(text, p, "null") ==> P.ParseToken(text, p) == P.Err(P.BadLiteral, p)
    ensures text[p] == 'N' && !Starts(text, p, "NaN") ==> P.ParseToken(text, p) == P.Err(P.BadLiteral, p)
    ensures text[p] == 'I' && !Starts(text, p, "Infinity") ==> P.ParseToken(text, p) == P.Err(P.BadLiteral, p)
  {
  }

  /** A value and something else after it is refused where that stands. */
  lemma TrailingRefused(text: string, n: Node, stop: nat)
    requires Fits(text, n) && Gap(text, 0, n.from) && Gap(text, n.to, stop) && stop < |text|
    ensures P.ParseDocument(text) == P.Err(P.TrailingCharacters, stop)
  {
    GapIs(text, 0, n.from);
    NodeRead(text, n);
    AfterGap(text, 0, n.from);
    GapIs(text, n.to, stop);
  }
}
