/** The parser's loops over a list and an object, turn by turn. */
module JsonTurns {
  import opened Common
  import opened JsonTokens
  import P = JsonParser

  /**
   * One turn of a loop: where it began, what it took, where that ended, and where the comma or bracket after it
   * stood.
   */
  datatype Turn<T> = Turn(pos: nat, took: T, end: nat, stop: nat)

  /** The turns lead from one to the next by commas, and the last one to past the bracket. */
  predicate Linked<T>(text: string, turns: seq<Turn<T>>, k: nat, closing: char, to: nat)
    requires k < |turns|
  {
    if k + 1 < |turns| then ShowsAt(text, turns[k].stop, ',') && turns[k + 1].pos == turns[k].stop + 1
    else ShowsAt(text, turns[k].stop, closing) && to == turns[k].stop + 1
  }

  /** Linked turns, each of which takes what a turn may. */
  ghost predicate Turns<T(!new)>(text: string, takes: Turn<T> -> bool, turns: seq<Turn<T>>, closing: char, to: nat) {
    turns != [] && forall k :: 0 <= k < |turns| ==> takes(turns[k]) && Linked(text, turns, k, closing, to)
  }

  lemma TurnsMore<T(!new)>(text: string, takes: Turn<T> -> bool, t: Turn<T>, rest: seq<Turn<T>>, closing: char, to: nat)
    requires takes(t)
    requires if rest == [] then ShowsAt(text, t.stop, closing) && to == t.stop + 1
             else ShowsAt(text, t.stop, ',') && Turns(text, takes, rest, closing, to) && rest[0].pos == t.stop + 1
    ensures Turns(text, takes, [t] + rest, closing, to)
  {
    var turns := [t] + rest;
    forall k | 0 <= k < |turns| ensures takes(turns[k]) && Linked(text, turns, k, closing, to) {
      if k > 0 {
        assert turns[k] == rest[k - 1] && takes(rest[k - 1]) && Linked(text, rest, k - 1, closing, to);
      }
    }
  }

  lemma TurnsLess<T(!new)>(text: string, takes: Turn<T> -> bool, turns: seq<Turn<T>>, closing: char, to: nat)
    requires Turns(text, takes, turns, closing, to) && |turns| > 1
    ensures Turns(text, takes, turns[1..], closing, to) && turns[1].pos == turns[0].stop + 1 && ShowsAt(text, turns[0].stop, ',')
  {
    assert Linked(text, turns, 0, closing, to);
    var rest := turns[1..];
    forall k | 0 <= k < |rest| ensures takes(rest[k]) && Linked(text, rest, k, closing, to) {
      assert takes(turns[k + 1]) && Linked(text, turns, k + 1, closing, to);
    }
  }

  /** What the turns took. */
  function Taken<T>(turns: seq<Turn<T>>): seq<T> { if turns == [] then [] else [turns[0].took] + Taken(turns[1..]) }

  lemma TakenMore<T>(t: Turn<T>, rest: seq<Turn<T>>)
    ensures Taken([t] + rest) == [t.took] + Taken(rest)
  {
    assert ([t] + rest)[1..] == rest;
  }

  /** Each value under its name, over what was there. */
  function Put(entries: seq<P.Entry>, out: map<string, P.Value>): map<string, P.Value> {
    if entries == [] then out else Put(entries[1..], out[entries[0].name := entries[0].value])
  }

  lemma PutMore(e: P.Entry, rest: seq<P.Entry>, out: map<string, P.Value>)
    ensures Put([e] + rest, out) == Put(rest, out[e.name := e.value])
  {
    assert ([e] + rest)[1..] == rest;
  }

  // ---- one turn ---------------------------------------------------------

  predicate TakesValue(text: string, t: Turn<P.Value>) {
    t.pos <= |text| && P.ParseValue(text, t.pos) == P.Ok(t.took, t.end) && P.Skip(text, t.end) == t.stop
  }

  predicate TakesEntry(text: string, t: Turn<P.Entry>) {
    t.pos <= |text| && P.ParseMember(text, t.pos) == P.Ok(t.took, t.end) && P.Skip(text, t.end) == t.stop
  }

  /** Whatever takes a value or an entry is a turn, and nothing else is. */
  ghost predicate Values(text: string, takes: Turn<P.Value> -> bool) {
    forall t {:trigger TakesValue(text, t)} :: takes(t) <==> TakesValue(text, t)
  }

  ghost predicate Entries(text: string, takes: Turn<P.Entry> -> bool) {
    forall t {:trigger TakesEntry(text, t)} :: takes(t) <==> TakesEntry(text, t)
  }

  lemma ValueTaker(text: string) returns (takes: Turn<P.Value> -> bool)
    ensures Values(text, takes)
  {
    takes := t => TakesValue(text, t);
  }

  lemma EntryTaker(text: string) returns (takes: Turn<P.Entry> -> bool)
    ensures Entries(text, takes)
  {
    takes := t => TakesEntry(text, t);
  }

  /** A comma goes on with the list, a bracket ends it. */
  lemma ItemsTurn(text: string, t: Turn<P.Value>, out: seq<P.Value>)
    requires TakesValue(text, t)
    ensures t.stop <= |text|
    ensures ShowsAt(text, t.stop, ',') ==> P.ParseItems(text, t.pos, out) == P.ParseItems(text, t.stop + 1, out + [t.took])
    ensures ShowsAt(text, t.stop, ']') ==> P.ParseItems(text, t.pos, out) == P.Ok(P.Arr(out + [t.took]), t.stop + 1)
    ensures P.ParseItems(text, t.pos, out).Ok? ==> ShowsAt(text, t.stop, ',') || ShowsAt(text, t.stop, ']')
  {
  }

  lemma MembersTurn(text: string, t: Turn<P.Entry>, out: map<string, P.Value>)
    requires TakesEntry(text, t)
    ensures t.stop <= |text|
    ensures var more := out[t.took.name := t.took.value];
            && (ShowsAt(text, t.stop, ',') ==> P.ParseMembers(text, t.pos, out) == P.ParseMembers(text, t.stop + 1, more))
            && (ShowsAt(text, t.stop, '}') ==> P.ParseMembers(text, t.pos, out) == P.Ok(P.Obj(more), t.stop + 1))
            && (P.ParseMembers(text, t.pos, out).Ok? ==> ShowsAt(text, t.stop, ',') || ShowsAt(text, t.stop, '}'))
  {
  }

  /** Anything else after a value, or a value that goes wrong, ends the list with that problem; so for an object. */
  lemma ItemsRefused(text: string, pos: nat, out: seq<P.Value>)
    requires pos <= |text|
    ensures var r := P.ParseValue(text, pos);
            && (r.Err? ==> P.ParseItems(text, pos, out) == P.Err(r.problem, r.at))
            && (r.Ok? && !ShowsAt(text, P.Skip(text, r.pos), ',') && !ShowsAt(text, P.Skip(text, r.pos), ']') ==>
                  P.ParseItems(text, pos, out) == P.Err(P.UnexpectedCharacter, P.Skip(text, r.pos)))
  {
  }

  lemma MembersRefused(text: string, pos: nat, out: map<string, P.Value>)
    requires pos <= |text|
    ensures var r := P.ParseMember(text, pos);
            && (r.Err? ==> P.ParseMembers(text, pos, out) == P.Err(r.problem, r.at))
            && (r.Ok? && !ShowsAt(text, P.Skip(text, r.pos), ',') && !ShowsAt(text, P.Skip(text, r.pos), '}') ==>
                  P.ParseMembers(text, pos, out) == P.Err(P.UnexpectedCharacter, P.Skip(text, r.pos)))
  {
  }

  lemma TurnGoesOn<T>(text: string, t: Turn<T>, parsed: P.Parsed<T>)
    requires t.pos <= |text| && parsed == P.Ok(t.took, t.end) && t.pos < t.end <= |text|
    requires P.Skip(text, t.end) == t.stop
    ensures t.pos < t.stop <= |text|
  {
  }

  // ---- turns are what a loop does ---------------------------------------

  lemma ListStep(text: string, takes: Turn<P.Value> -> bool, turns: seq<Turn<P.Value>>, out: seq<P.Value>, to: nat)
    requires Values(text, takes) && Turns(text, takes, turns, ']', to)
    ensures turns[0].pos <= |text|
    ensures |turns| == 1 ==> P.ParseItems(text, turns[0].pos, out) == P.Ok(P.Arr(out + [turns[0].took]), to)
    ensures |turns| > 1 ==> turns[1].pos <= |text|
    ensures |turns| > 1 ==> P.ParseItems(text, turns[0].pos, out) == P.ParseItems(text, turns[1].pos, out + [turns[0].took])
  {
    assert takes(turns[0]) && Linked(text, turns, 0, ']', to);
    ItemsTurn(text, turns[0], out);
  }

  lemma {:induction false} ListLoop(text: string, takes: Turn<P.Value> -> bool, turns: seq<Turn<P.Value>>,
          out: seq<P.Value>, to: nat)
    requires Values(text, takes) && Turns(text, takes, turns, ']', to)
    ensures turns[0].pos <= |text| && P.ParseItems(text, turns[0].pos, out) == P.Ok(P.Arr(out + Taken(turns)), to)
    decreases |turns|
  {
    var took, rest := turns[0].took, turns[1..];
    ListStep(text, takes, turns, out, to);
    Associates(out, [took], Taken(rest));
    if rest != [] {
      TurnsLess(text, takes, turns, ']', to);
      ListLoop(text, takes, rest, out + [took], to);
    } else {
      assert out + [took] + Taken(rest) == out + [took];
    }
  }

  lemma RecordStep(text: string, takes: Turn<P.Entry> -> bool, turns: seq<Turn<P.Entry>>, out: map<string, P.Value>,
          to: nat)
    requires Entries(text, takes) && Turns(text, takes, turns, '}', to)
    ensures turns[0].pos <= |text| && (|turns| > 1 ==> turns[1].pos <= |text|)
    ensures var more := out[turns[0].took.name := turns[0].took.value];
            P.ParseMembers(text, turns[0].pos, out) ==
            if |turns| == 1 then P.Ok(P.Obj(more), to) else P.ParseMembers(text, turns[1].pos, more)
  {
    assert takes(turns[0]) && Linked(text, turns, 0, '}', to);
    MembersTurn(text, turns[0], out);
  }

  lemma {:induction false} RecordLoop(text: string, takes: Turn<P.Entry> -> bool, turns: seq<Turn<P.Entry>>,
          out: map<string, P.Value>, to: nat)
    requires Entries(text, takes) && Turns(text, takes, turns, '}', to)
    ensures turns[0].pos <= |text| && P.ParseMembers(text, turns[0].pos, out) == P.Ok(P.Obj(Put(Taken(turns), out)), to)
    decreases |turns|
  {
    var took, rest := turns[0].took, turns[1..];
    RecordStep(text, takes, turns, out, to);
    PutMore(took, Taken(rest), out);
    if rest != [] {
      TurnsLess(text, takes, turns, '}', to);
      RecordLoop(text, takes, rest, out[took.name := took.value], to);
    }
  }

  /** And what a loop does is turns. */
  lemma {:induction false} ListTook(text: string, takes: Turn<P.Value> -> bool, pos: nat, out: seq<P.Value>,
          r: P.Value, to: nat)
    returns (turns: seq<Turn<P.Value>>)
    requires Values(text, takes) && pos <= |text| && P.ParseItems(text, pos, out) == P.Ok(r, to)
    ensures Turns(text, takes, turns, ']', to) && turns[0].pos == pos && r == P.Arr(out + Taken(turns))
    decreases |text| - pos
  {
    var v := P.ParseValue(text, pos);
    var t := Turn(pos, v.value, v.pos, P.Skip(text, v.pos));
    assert TakesValue(text, t);
    ItemsTurn(text, t, out);
    var rest := [];
    if !ShowsAt(text, t.stop, ']') {
      rest := ListTook(text, takes, t.stop + 1, out + [t.took], r, to);
      Associates(out, [t.took], Taken(rest));
    }
    TurnsMore(text, takes, t, rest, ']', to);
    TakenMore(t, rest);
    turns := [t] + rest;
  }

  lemma {:induction false} RecordTook(text: string, takes: Turn<P.Entry> -> bool, pos: nat, out: map<string,
          P.Value>, r: P.Value, to: nat)
    returns (turns: seq<Turn<P.Entry>>)
    requires Entries(text, takes) && pos <= |text| && P.ParseMembers(text, pos, out) == P.Ok(r, to)
    ensures Turns(text, takes, turns, '}', to) && turns[0].pos == pos && r == P.Obj(Put(Taken(turns), out))
    decreases |text| - pos
  {
    var m := P.ParseMember(text, pos);
    var t := Turn(pos, m.value, m.pos, P.Skip(text, m.pos));
    assert TakesEntry(text, t);
    MembersTurn(text, t, out);
    var rest := [];
    if !ShowsAt(text, t.stop, '}') {
      rest := RecordTook(text, takes, t.stop + 1, out[t.took.name := t.took.value], r, to);
    }
    TurnsMore(text, takes, t, rest, '}', to);
    TakenMore(t, rest);
    PutMore(t.took, Taken(rest), out);
    turns := [t] + rest;
  }

  // ---- brackets ---------------------------------------------------------

  lemma SkipTwice(text: string, i: nat)
    requires i <= |text|
    ensures P.Skip(text, P.Skip(text, i)) == P.Skip(text, i)
  {
  }

  lemma ListTurn(text: string, from: nat, next: nat)
    requires ShowsAt(text, from, '[') && P.Skip(text, from + 1) == next
    ensures ShowsAt(text, next, ']') ==> P.ParseToken(text, from) == P.Ok(P.Arr([]), next + 1)
    ensures !ShowsAt(text, next, ']') ==> P.ParseToken(text, from) == P.ParseItems(text, from + 1, [])
  {
    SkipTwice(text, from + 1);
    assert P.ParseValue(text, from + 1) == P.ParseValue(text, next);
    assert P.ParseItems(text, from + 1, []) == P.ParseItems(text, next, []);
  }

  lemma RecordTurn(text: string, from: nat, next: nat)
    requires ShowsAt(text, from, '{') && P.Skip(text, from + 1) == next
    ensures ShowsAt(text, next, '}') ==> P.ParseToken(text, from) == P.Ok(P.Obj(map[]), next + 1)
    ensures !ShowsAt(text, next, '}') ==> P.ParseToken(text, from) == P.ParseMembers(text, from + 1, map[])
  {
    SkipTwice(text, from + 1);
    assert P.ParseMember(text, from + 1) == P.ParseMember(text, next);
    assert P.ParseMembers(text, from + 1, map[]) == P.ParseMembers(text, next, map[]);
  }

  /** A list that is not empty is its turns, both ways. */
  lemma ListByTurns(text: string, takes: Turn<P.Value> -> bool, from: nat, next: nat, turns: seq<Turn<P.Value>>,
          to: nat)
    requires ShowsAt(text, from, '[') && P.Skip(text, from + 1) == next && !ShowsAt(text, next, ']')
    requires Values(text, takes) && Turns(text, takes, turns, ']', to) && turns[0].pos == from + 1
    ensures P.ParseToken(text, from) == P.Ok(P.Arr(Taken(turns)), to)
  {
    ListTurn(text, from, next);
    ListLoop(text, takes, turns, [], to);
    assert [] + Taken(turns) == Taken(turns);
  }

  lemma ListTurned(text: string, takes: Turn<P.Value> -> bool, from: nat, next: nat, v: P.Value, to: nat)
    returns (turns: seq<Turn<P.Value>>)
    requires ShowsAt(text, from, '[') && P.Skip(text, from + 1) == next && !ShowsAt(text, next, ']')
    requires Values(text, takes) && P.ParseToken(text, from) == P.Ok(v, to)
    ensures Turns(text, takes, turns, ']', to) && turns[0].pos == from + 1 && v == P.Arr(Taken(turns))
  {
    ListTurn(text, from, next);
    turns := ListTook(text, takes, from + 1, [], v, to);
    assert [] + Taken(turns) == Taken(turns);
  }

  lemma RecordByTurns(text: string, takes: Turn<P.Entry> -> bool, from: nat, next: nat, turns: seq<Turn<P.Entry>>,
          to: nat)
    requires ShowsAt(text, from, '{') && P.Skip(text, from + 1) == next && !ShowsAt(text, next, '}')
    requires Entries(text, takes) && Turns(text, takes, turns, '}', to) && turns[0].pos == from + 1
    ensures P.ParseToken(text, from) == P.Ok(P.Obj(Put(Taken(turns), map[])), to)
  {
    RecordTurn(text, from, next);
    RecordLoop(text, takes, turns, map[], to);
  }

  lemma RecordTurned(text: string, takes: Turn<P.Entry> -> bool, from: nat, next: nat, v: P.Value, to: nat)
    returns (turns: seq<Turn<P.Entry>>)
    requires ShowsAt(text, from, '{') && P.Skip(text, from + 1) == next && !ShowsAt(text, next, '}')
    requires Entries(text, takes) && P.ParseToken(text, from) == P.Ok(v, to)
    ensures Turns(text, takes, turns, '}', to) && turns[0].pos == from + 1 && v == P.Obj(Put(Taken(turns), map[]))
  {
    RecordTurn(text, from, next);
    turns := RecordTook(text, takes, from + 1, map[], v, to);
  }

  // ---- a name and its value ---------------------------------------------

  lemma PairTurn(text: string, pos: nat, from: nat, name: string, q: nat, colon: nat, v: P.Value, end: nat)
    requires pos <= |text| && P.Skip(text, pos) == from && P.ParseString(text, from) == P.Ok(name, q)
    requires P.Skip(text, q) == colon && ShowsAt(text, colon, ':') && P.ParseValue(text, colon + 1) == P.Ok(v, end)
    ensures P.ParseMember(text, pos) == P.Ok(P.Entry(name, v), end)
  {
  }

  /** A string, a colon and a value make a turn of the loop over an object. */
  lemma PairTakes(text: string, takes: Turn<P.Entry> -> bool, t: Turn<P.Entry>, from: nat, q: nat, colon: nat)
    requires Entries(text, takes) && t.pos <= |text| && P.Skip(text, t.pos) == from
    requires P.ParseString(text, from) == P.Ok(t.took.name, q) && P.Skip(text, q) == colon && ShowsAt(text, colon, ':')
    requires P.ParseValue(text, colon + 1) == P.Ok(t.took.value, t.end) && P.Skip(text, t.end) == t.stop
    ensures takes(t)
  {
    PairTurn(text, t.pos, from, t.took.name, q, colon, t.took.value, t.end);
    assert TakesEntry(text, t);
  }

  lemma PairTaken(text: string, takes: Turn<P.Entry> -> bool, t: Turn<P.Entry>) returns (from: nat, q: nat, colon: nat)
    requires Entries(text, takes) && takes(t)
    ensures t.pos <= from <= |text| && P.Skip(text, t.pos) == from && t.end <= |text| && P.Skip(text, t.end) == t.stop
    ensures P.ParseString(text, from) == P.Ok(t.took.name, q) && q <= |text| && t.pos < colon
    ensures P.Skip(text, q) == colon && ShowsAt(text, colon, ':')
    ensures P.ParseValue(text, colon + 1) == P.Ok(t.took.value, t.end)
  {
    assert TakesEntry(text, t);
    from := P.Skip(text, t.pos);
    q := P.ParseString(text, from).pos;
    colon := P.Skip(text, q);
  }

  lemma AfterGap(text: string, i: nat, j: nat)
    requires i <= |text| && P.Skip(text, i) == j
    ensures j <= |text| && P.ParseValue(text, i) == P.ParseToken(text, j)
  {
  }
}
