/** The streaming JSON writer, and the text it should have written. */
module JsonWriter {
  import opened Common
  import opened Texts

  // ---- the text of a value ----------------------------------------------

  /** What the journal writes: members in the order they are written. */
  datatype Tree =
    | Null
    | Bool(b: bool)
    | Int(n: int)
    | Str(s: string)
    | Arr(items: seq<Tree>)
    | Obj(members: seq<Member>)

  datatype Member = Member(name: string, value: Tree)

  function HexChar(d: nat): char
    requires d < 16
  {
    if d < 10 then '0' + d as char else 'a' + (d - 10) as char
  }

  /** A character inside a string: the named escapes, \u00XX for the other control characters, and itself. */
  function EscapeChar(c: char): string {
    if c == '"' then "\\\""
    else if c == '\\' then "\\\\"
    else if c == '\n' then "\\n"
    else if c == '\r' then "\\r"
    else if c == '\t' then "\\t"
    else if c < ' ' then ['\\', 'u', '0', '0', HexChar(c as int / 16), HexChar(c as int % 16)]
    else [c]
  }

  function EscapeAll(s: string): string
    decreases |s|, 1
  {
    if s == "" then "" else EscapeLast(s)
  }

  function EscapeLast(s: string): string
    requires s != ""
    decreases |s|, 0
  {
    EscapeAll(s[..|s| - 1]) + EscapeChar(s[|s| - 1])
  }

  lemma EscapeMore(s: string, c: char)
    ensures EscapeAll(s + [c]) == EscapeAll(s) + EscapeChar(c)
  {
    assert EscapeAll(s + [c]) == EscapeLast(s + [c]);
    assert (s + [c])[..|s|] == s;
  }

  function Quoted(s: string): string { "\"" + EscapeAll(s) + "\"" }

  function Decimal(n: int): string { if n < 0 then "-" + Digits(-n) else Digits(n) }

  function Render(t: Tree): string {
    match t
    case Null => "null"
    case Bool(b) => if b then "true" else "false"
    case Int(n) => Decimal(n)
    case Str(s) => Quoted(s)
    case Arr(items) => "[" + RenderItems(items) + "]"
    case Obj(members) => "{" + RenderMembers(members) + "}"
  }

  function Comma(n: nat): string { if n > 0 then "," else "" }

  /** Texts with commas between. */
  function Joined(parts: seq<string>): string {
    if parts == [] then ""
    else Joined(parts[..|parts| - 1]) + Comma(|parts| - 1) + parts[|parts| - 1]
  }

  function Renders(items: seq<Tree>): seq<string>
    decreases items, 0
  {
    seq(|items|, i requires 0 <= i < |items| => Render(items[i]))
  }

  function RenderItems(items: seq<Tree>): string
    decreases items, 1
  {
    Joined(Renders(items))
  }

  function RenderMember(m: Member): string { Quoted(m.name) + ":" + Render(m.value) }

  function MemberTexts(members: seq<Member>): seq<string>
    decreases members, 0
  {
    seq(|members|, i requires 0 <= i < |members| => RenderMember(members[i]))
  }

  function RenderMembers(members: seq<Member>): string
    decreases members, 1
  {
    Joined(MemberTexts(members))
  }

  lemma LastItem(items: seq<Tree>)
    requires items != []
    ensures var n := |items| - 1; RenderItems(items) == RenderItems(items[..n]) + Comma(n) + Render(items[n])
  {
    assert Renders(items)[..|items| - 1] == Renders(items[..|items| - 1]);
  }

  lemma LastMember(members: seq<Member>)
    requires members != []
    ensures var n := |members| - 1; RenderMembers(members) == RenderMembers(members[..n]) + Comma(n) + RenderMember(members[n])
  {
    assert MemberTexts(members)[..|members| - 1] == MemberTexts(members[..|members| - 1]);
  }

  /** Nothing below a space is left raw in a string: section 7 of RFC 8259. */
  lemma {:induction false} EscapedIsPrintable(s: string)
    ensures forall k :: 0 <= k < |EscapeAll(s)| ==> EscapeAll(s)[k] >= ' '
  {
    if s != "" {
      var n := |s| - 1;
      EscapedIsPrintable(s[..n]);
      assert s == s[..n] + [s[n]];
      EscapeMore(s[..n], s[n]);
    }
  }

  // ---- the writer's calls -----------------------------------------------

  datatype State = State(out: string, counts: seq<int>, afterKey: bool)

  datatype Call =
    | BeginObject
    | EndObject
    | BeginArray
    | EndArray
    | Key(name: string)
    | Scalar(text: string)

  /** A comma between values of one container, and none after a key. */
  function Separated(w: State): State {
    if w.afterKey then w.(afterKey := false)
    else if w.counts == [] then w
    else
      var last := |w.counts| - 1;
      w.(out := w.out + (if w.counts[last] > 0 then "," else ""), counts := w.counts[last := w.counts[last] + 1])
  }

  function Put(w: State, text: string): State { w.(out := w.out + text) }

  function Opened(w: State, bracket: string): State {
    var s := Separated(w);
    s.(out := s.out + bracket, counts := s.counts + [0])
  }

  function Closed(w: State, bracket: string): State
    requires w.counts != []
  {
    w.(out := w.out + bracket, counts := w.counts[..|w.counts| - 1])
  }

  function Keyed(w: State, name: string): State { Put(Separated(w), Quoted(name) + ":").(afterKey := true) }

  function Valued(w: State, text: string): State { Put(Separated(w), text) }

  /** A call that closes needs something open; the others can always be made. */
  predicate Allowed(w: State, call: Call) { call.EndObject? || call.EndArray? ==> w.counts != [] }

  function Make(w: State, call: Call): State
    requires Allowed(w, call)
  {
    match call
    case BeginObject => Opened(w, "{")
    case EndObject => Closed(w, "}")
    case BeginArray => Opened(w, "[")
    case EndArray => Closed(w, "]")
    case Key(name) => Keyed(w, name)
    case Scalar(text) => Valued(w, text)
  }

  // ---- the writer itself ------------------------------------------------

  class Writer {
    var out: string
    var counts: seq<int>
    var afterKey: bool

    function View(): State
      reads this
    {
      State(out, counts, afterKey)
    }

    constructor ()
      ensures View() == State("", [], false)
    {
      out, counts, afterKey := "", [], false;
    }

    method Separate()
      modifies this
      ensures View() == Separated(old(View()))
    {
      if afterKey {
        afterKey := false;
        return;
      }
      if counts != [] {
        var last := |counts| - 1;
        if counts[last] > 0 {
          out := out + ",";
        }
        counts := counts[last := counts[last] + 1];
      }
    }

    method BeginObject()
      modifies this
      ensures View() == Make(old(View()), Call.BeginObject)
    {
      Separate();
      out := out + "{";
      counts := counts + [0];
    }

    method EndObject()
      requires counts != []
      modifies this
      ensures View() == Make(old(View()), Call.EndObject)
    {
      counts := counts[..|counts| - 1];
      out := out + "}";
    }

    method BeginArray()
      modifies this
      ensures View() == Make(old(View()), Call.BeginArray)
    {
      Separate();
      out := out + "[";
      counts := counts + [0];
    }

    method EndArray()
      requires counts != []
      modifies this
      ensures View() == Make(old(View()), Call.EndArray)
    {
      counts := counts[..|counts| - 1];
      out := out + "]";
    }

    method Key(name: string)
      modifies this
      ensures View() == Make(old(View()), Call.Key(name))
    {
      Separate();
      Escape(name);
      out := out + ":";
      afterKey := true;
    }

    method NullValue()
      modifies this
      ensures View() == Make(old(View()), Scalar(Render(Null)))
    {
      Separate();
      out := out + "null";
    }

    method BoolValue(v: bool)
      modifies this
      ensures View() == Make(old(View()), Scalar(Render(Bool(v))))
    {
      Separate();
      out := out + if v then "true" else "false";
    }

    method IntValue(v: int)
      modifies this
      ensures View() == Make(old(View()), Scalar(Render(Int(v))))
    {
      Separate();
      out := out + Decimal(v);
    }

    method StringValue(v: string)
      modifies this
      ensures View() == Make(old(View()), Scalar(Render(Str(v))))
    {
      Separate();
      Escape(v);
    }

    method Escape(text: string)
      modifies this`out
      ensures out == old(out) + Quoted(text)
    {
      out := out + "\"";
      ghost var start := out;
      for i := 0 to |text|
        invariant out == start + EscapeAll(text[..i])
      {
        assert text[..i + 1] == text[..i] + [text[i]];
        EscapeMore(text[..i], text[i]);
        ghost var before := EscapeAll(text[..i]);
        EscapeOne(text[i]);
        Associates(start, before, EscapeChar(text[i]));
      }
      assert text[..|text|] == text;
      out := out + "\"";
      Associates(old(out), "\"", EscapeAll(text));
      Associates(old(out), "\"" + EscapeAll(text), "\"");
    }

    method EscapeOne(c: char)
      modifies this`out
      ensures out == old(out) + EscapeChar(c)
    {
      match c {
        case '"' => out := out + "\\\"";
        case '\\' => out := out + "\\\\";
        case '\n' => out := out + "\\n";
        case '\r' => out := out + "\\r";
        case '\t' => out := out + "\\t";
        case _ =>
          if c < ' ' {
            out := out + ("\\u00" + [HexChar(c as int / 16), HexChar(c as int % 16)]);
          } else {
            out := out + [c];
          }
      }
    }
  }

  // ---- what a run of calls writes ---------------------------------------

  /** The calls that write one value. */
  function Calls(t: Tree): seq<Call> {
    match t
    case Arr(items) => [Call.BeginArray] + ItemCalls(items) + [Call.EndArray]
    case Obj(members) => [Call.BeginObject] + MemberCalls(members) + [Call.EndObject]
    case _ => [Scalar(Render(t))]
  }

  function ItemCalls(items: seq<Tree>): seq<Call> {
    if items == [] then [] else ItemCalls(items[..|items| - 1]) + Calls(items[|items| - 1])
  }

  function MemberCalls(members: seq<Member>): seq<Call> {
    if members == [] then []
    else
      var last := members[|members| - 1];
      MemberCalls(members[..|members| - 1]) + ([Call.Key(last.name)] + Calls(last.value))
  }

  /** A run of calls, none of which may close what is not open. */
  function Run(w: State, calls: seq<Call>): Option<State> {
    if calls == [] then Some(w)
    else
      var last := calls[|calls| - 1];
      match Run(w, calls[..|calls| - 1])
      case None => None
      case Some(v) => if Allowed(v, last) then Some(Make(v, last)) else None
  }

  lemma {:induction false} RunAppend(w: State, a: seq<Call>, b: seq<Call>)
    ensures Run(w, a + b) == match Run(w, a) case None => None case Some(v) => Run(v, b)
  {
    if b == [] {
      assert a + b == a;
    } else {
      RunAppend(w, a, b[..|b| - 1]);
      assert (a + b)[..|a + b| - 1] == a + b[..|b| - 1];
    }
  }

  lemma RunOne(w: State, call: Call)
    requires Allowed(w, call)
    ensures Run(w, [call]) == Some(Make(w, call))
  {
    assert [call][..0] == [];
  }

  /** A container that has just taken n values: the last count is n, and no key waits for its value. */
  function Filled(w: State, out: string, n: nat): State
    requires w.counts != []
  {
    w.(out := out, counts := w.counts[|w.counts| - 1 := n])
  }

  predicate Empty(w: State) { w.counts != [] && w.counts[|w.counts| - 1] == 0 && !w.afterKey }

  lemma SeparatedFilled(w: State, out: string, n: nat)
    requires Empty(w)
    ensures Separated(Filled(w, out, n)) == Filled(w, out + Comma(n), n + 1)
  {
  }

  lemma Reassociate(a: string, b: string, c: string, d: string)
    ensures ((a + b) + c) + d == a + (b + c + d)
  {
  }

  /** One more value in a container. */
  lemma OneMoreFilled(w: State, before: string, n: nat, text: string)
    requires Empty(w)
    ensures Put(Separated(Filled(w, w.out + before, n)), text) == Filled(w, w.out + (before + Comma(n) + text), n + 1)
  {
    SeparatedFilled(w, w.out + before, n);
    Reassociate(w.out, before, Comma(n), text);
  }

  lemma NoneFilled(w: State)
    requires Empty(w)
    ensures Filled(w, w.out + "", 0) == w
  {
    assert w.counts[|w.counts| - 1 := 0] == w.counts && w.out + "" == w.out;
  }

  /** The values of an array come out with a comma between each two and none before the first. */
  lemma {:induction false} ItemsWritten(w: State, items: seq<Tree>)
    requires Empty(w)
    ensures Run(w, ItemCalls(items)) == Some(Filled(w, w.out + RenderItems(items), |items|))
    decreases items, 0
  {
    if items == [] {
      NoneFilled(w);
    } else {
      var n := |items| - 1;
      ItemsWritten(w, items[..n]);
      LastItem(items);
      var v := Filled(w, w.out + RenderItems(items[..n]), n);
      RunAppend(w, ItemCalls(items[..n]), Calls(items[n]));
      ValueWritten(v, items[n]);
      OneMoreFilled(w, RenderItems(items[..n]), n, Render(items[n]));
    }
  }

  /** After its key a value is not separated again. */
  lemma KeyThenValue(v: State, name: string, text: string)
    ensures Put(Separated(Keyed(v, name)), text) == Put(Separated(v), Quoted(name) + ":" + text)
  {
    assert (Separated(v).out + (Quoted(name) + ":")) + text == Separated(v).out + (Quoted(name) + ":" + text);
    assert Separated(v).(afterKey := false) == Separated(v);
  }

  lemma MemberWritten(v: State, m: Member)
    requires !v.afterKey && v.counts != []
    ensures Run(v, [Call.Key(m.name)] + Calls(m.value)) ==
            Some(Put(Separated(v), RenderMember(m)))
    decreases m, 2
  {
    RunAppend(v, [Call.Key(m.name)], Calls(m.value));
    RunOne(v, Call.Key(m.name));
    ValueWritten(Keyed(v, m.name), m.value);
    KeyThenValue(v, m.name, Render(m.value));
  }

  lemma {:induction false} MembersWritten(w: State, members: seq<Member>)
    requires Empty(w)
    ensures Run(w, MemberCalls(members)) == Some(Filled(w, w.out + RenderMembers(members), |members|))
    decreases members, 0
  {
    if members == [] {
      NoneFilled(w);
    } else {
      var n := |members| - 1;
      MembersWritten(w, members[..n]);
      LastMember(members);
      var v := Filled(w, w.out + RenderMembers(members[..n]), n);
      RunAppend(w, MemberCalls(members[..n]), [Call.Key(members[n].name)] + Calls(members[n].value));
      MemberWritten(v, members[n]);
      OneMoreFilled(w, RenderMembers(members[..n]), n, RenderMember(members[n]));
    }
  }

  /** What a container leaves: its brackets, what it holds, and the writer outside as it was. */
  lemma ContainerWritten(w: State, open: Call, calls: seq<Call>, close: Call, body: string, n: nat)
    requires (open.BeginArray? && close.EndArray?) || (open.BeginObject? && close.EndObject?)
    requires Run(Make(w, open), calls) == Some(Filled(Make(w, open), Make(w, open).out + body, n))
    ensures Run(w, [open] + calls + [close]) ==
            Some(Put(Separated(w), if open.BeginArray? then "[" + body + "]" else "{" + body + "}"))
  {
    var v := Make(w, open);
    var full := Filled(v, v.out + body, n);
    RunOne(w, open);
    RunAppend(w, [open], calls);
    RunAppend(w, [open] + calls, [close]);
    RunOne(full, close);
    ClosedAgain(w, if open.BeginArray? then "[" else "{", body, if open.BeginArray? then "]" else "}", n);
  }

  lemma ClosedAgain(w: State, left: string, body: string, right: string, n: nat)
    ensures var v := Opened(w, left);
            Closed(Filled(v, v.out + body, n), right) == Put(Separated(w), left + body + right)
  {
    var v := Opened(w, left);
    assert Filled(v, v.out + body, n).counts[..|v.counts| - 1] == Separated(w).counts;
    Reassociate(Separated(w).out, left, body, right);
  }

  /**
   * The streamed calls for any value, in whatever container or after
   * whatever key, append its text and at most the comma before it, and
   * leave the writer ready for the next.
   */
  lemma {:induction false} ValueWritten(w: State, t: Tree)
    ensures Run(w, Calls(t)) == Some(Put(Separated(w), Render(t)))
    decreases t, 1
  {
    match t
    case Arr(items) =>
      ItemsWritten(Opened(w, "["), items);
      ContainerWritten(w, Call.BeginArray, ItemCalls(items), Call.EndArray, RenderItems(items), |items|);
    case Obj(members) =>
      MembersWritten(Opened(w, "{"), members);
      ContainerWritten(w, Call.BeginObject, MemberCalls(members), Call.EndObject, RenderMembers(members), |members|);
    case _ => RunOne(w, Scalar(Render(t)));
  }

  /** From a new writer, the whole document. */
  lemma DocumentWritten(t: Tree)
    ensures Run(State("", [], false), Calls(t)) == Some(State(Render(t), [], false))
  {
    ValueWritten(State("", [], false), t);
    assert "" + Render(t) == Render(t);
  }
}
