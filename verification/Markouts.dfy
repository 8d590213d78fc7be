/** The markout on every fill: where the price stood, each horizon after it. */
module Markouts {
  import opened Common
  import opened Orders
  import opened Toxicity

  datatype MarkoutRow = MarkoutRow(
    ts: real,
    side: Side,
    price: real,
    size: int,
    level: ToxicityLevel,
    anchorAtFill: real,
    markouts: seq<Option<real>>,
    edgeAtFill: real)
  {
    predicate Complete() { forall h :: 0 <= h < |markouts| ==> markouts[h].Some? }
  }

  /** Dollars a contract, positive in the quote's favour. */
  function Favour(side: Side, anchor: real, price: real, multiplier: real): real {
    side.Sign() as real * (anchor - price) * multiplier
  }

  datatype Tracker = Tracker(multiplier: real, horizons: seq<real>, rows: seq<MarkoutRow>, pending: seq<nat>)

  predicate Within(indices: seq<nat>, n: nat) { forall k :: 0 <= k < |indices| ==> indices[k] < n }

  predicate Ascending(indices: seq<nat>) { forall j, k :: 0 <= j < k < |indices| ==> indices[j] < indices[k] }

  predicate Valid(t: Tracker) {
    && (forall i :: 0 <= i < |t.rows| ==> |t.rows[i].markouts| == |t.horizons|)
    && Within(t.pending, |t.rows|)
    && Ascending(t.pending)
  }

  function NewRow(t: Tracker, fill: Fill, anchor: Option<real>, level: ToxicityLevel, now: real): MarkoutRow {
    var at := if anchor.Some? then anchor.value else fill.price;
    MarkoutRow(now, fill.side, fill.price, fill.size, level, at, seq(|t.horizons|, _ => None),
               Favour(fill.side, at, fill.price, t.multiplier))
  }

  function Recorded(t: Tracker, fill: Fill, anchor: Option<real>, level: ToxicityLevel, now: real): Tracker {
    t.(rows := t.rows + [NewRow(t, fill, anchor, level, now)], pending := t.pending + [|t.rows|])
  }

  /** One slot after an update: kept once written, written once its horizon has passed. */
  function Slot(was: Option<real>, row: MarkoutRow, horizon: real, multiplier: real, now: real, anchor: real): Option<real> {
    if was.None? && now - row.ts >= horizon then Some(Favour(row.side, anchor, row.price, multiplier)) else was
  }

  function Stamped(horizons: seq<real>, multiplier: real, row: MarkoutRow, now: real, anchor: real): MarkoutRow
    requires |row.markouts| == |horizons|
  {
    row.(markouts := seq(|horizons|, h requires 0 <= h < |horizons| =>
      Slot(row.markouts[h], row, horizons[h], multiplier, now, anchor)))
  }

  /** The pending rows that are, or are not, complete. */
  function Sift(pending: seq<nat>, rows: seq<MarkoutRow>, complete: bool): seq<nat>
    requires Within(pending, |rows|)
  {
    if pending == [] then []
    else
      var last := pending[|pending| - 1];
      Sift(pending[..|pending| - 1], rows, complete) + if rows[last].Complete() == complete then [last] else []
  }

  function StampedRows(t: Tracker, now: real, anchor: real): seq<MarkoutRow>
    requires Valid(t)
  {
    seq(|t.rows|, i requires 0 <= i < |t.rows| => if i in t.pending then Stamped(t.horizons, t.multiplier, t.rows[i], now, anchor) else t.rows[i])
  }

  function Updated(t: Tracker, now: real, anchor: Option<real>): Tracker
    requires Valid(t)
  {
    if anchor.None? then t
    else
      var rows := StampedRows(t, now, anchor.value);
      t.(rows := rows, pending := Sift(t.pending, rows, false))
  }

  function Completed(t: Tracker, now: real, anchor: Option<real>): seq<nat>
    requires Valid(t)
  {
    if anchor.None? then [] else Sift(t.pending, StampedRows(t, now, anchor.value), true)
  }

  lemma Front(s: seq<nat>)
    requires s != []
    ensures var front, last := s[..|s| - 1], s[|s| - 1];
            && (forall i :: i in s <==> i in front || i == last)
            && (Ascending(s) ==> Ascending(front) && forall i :: i in front ==> i < last)
  {
    assert s == s[..|s| - 1] + [s[|s| - 1]];
  }

  lemma {:induction false} SiftMembers(pending: seq<nat>, rows: seq<MarkoutRow>, complete: bool)
    requires Within(pending, |rows|)
    ensures forall i :: i in Sift(pending, rows, complete) <==> i in pending && rows[i].Complete() == complete
  {
    if pending != [] {
      Front(pending);
      SiftMembers(pending[..|pending| - 1], rows, complete);
    }
  }

  lemma {:induction false} SiftAscends(pending: seq<nat>, rows: seq<MarkoutRow>, complete: bool)
    requires Within(pending, |rows|)
    requires Ascending(pending)
    ensures Ascending(Sift(pending, rows, complete))
  {
    if pending != [] {
      var n := |pending| - 1;
      Front(pending);
      SiftAscends(pending[..n], rows, complete);
      SiftMembers(pending[..n], rows, complete);
      var sifted := Sift(pending[..n], rows, complete);
      assert forall k :: 0 <= k < |sifted| ==> sifted[k] in sifted;
    }
  }

  lemma SiftIs(pending: seq<nat>, rows: seq<MarkoutRow>, complete: bool)
    requires Within(pending, |rows|)
    requires Ascending(pending)
    ensures var sifted := Sift(pending, rows, complete);
            && Ascending(sifted) && Within(sifted, |rows|)
            && (forall i :: i in sifted <==> i in pending && rows[i].Complete() == complete)
  {
    SiftAscends(pending, rows, complete);
    SiftMembers(pending, rows, complete);
    var sifted := Sift(pending, rows, complete);
    assert forall k :: 0 <= k < |sifted| ==> sifted[k] in sifted;
  }

  /** The working of one update: the rows so far, and the pending indices sorted so far. */
  datatype Pass = Pass(rows: seq<MarkoutRow>, completed: seq<nat>, still: seq<nat>)

  /** After the first k pending rows have been stamped and sorted, one by one. */
  function PassOver(t: Tracker, k: nat, now: real, anchor: real): (pass: Pass)
    requires Valid(t) && k <= |t.pending|
    ensures |pass.rows| == |t.rows| && forall i :: 0 <= i < |t.rows| ==> |pass.rows[i].markouts| == |t.horizons|
  {
    if k == 0 then Pass(t.rows, [], []) else Passed(t, PassOver(t, k - 1, now, anchor), t.pending[k - 1], now, anchor)
  }

  function Passed(t: Tracker, pass: Pass, index: nat, now: real, anchor: real): Pass
    requires index < |pass.rows| && |pass.rows[index].markouts| == |t.horizons|
  {
    var row := Stamped(t.horizons, t.multiplier, pass.rows[index], now, anchor);
    var rows := pass.rows[index := row];
    if row.Complete() then Pass(rows, pass.completed + [index], pass.still)
    else Pass(rows, pass.completed, pass.still + [index])
  }

  lemma {:induction false} PassRows(t: Tracker, k: nat, now: real, anchor: real)
    requires Valid(t) && k <= |t.pending|
    ensures var rows, stamped := PassOver(t, k, now, anchor).rows, StampedRows(t, now, anchor);
            forall i :: 0 <= i < |t.rows| ==> rows[i] == if i in t.pending[..k] then stamped[i] else t.rows[i]
  {
    if k > 0 {
      PassRows(t, k - 1, now, anchor);
      assert t.pending[..k][..k - 1] == t.pending[..k - 1];
      Front(t.pending[..k]);
      assert t.pending[k - 1] in t.pending;
    }
  }

  lemma NextPass(t: Tracker, k: nat, now: real, anchor: real)
    requires Valid(t) && k < |t.pending|
    ensures var pass, next, index := PassOver(t, k, now, anchor), PassOver(t, k + 1, now, anchor), t.pending[k];
            var done := StampedRows(t, now, anchor)[index].Complete();
            && next.completed == pass.completed + (if done == true then [index] else [])
            && next.still == pass.still + if done == false then [index] else []
  {
    var pass, index := PassOver(t, k, now, anchor), t.pending[k];
    PassRows(t, k, now, anchor);
    assert index in t.pending;
    assert pass.rows[index] == t.rows[index];
    assert pass.completed + [] == pass.completed && pass.still + [] == pass.still;
  }

  lemma NextSifted(t: Tracker, k: nat, rows: seq<MarkoutRow>, complete: bool)
    requires Valid(t) && |rows| == |t.rows| && k < |t.pending|
    ensures Sift(t.pending[..k + 1], rows, complete) ==
            Sift(t.pending[..k], rows, complete) + if rows[t.pending[k]].Complete() == complete then [t.pending[k]] else []
  {
    assert t.pending[..k + 1][..k] == t.pending[..k];
  }

  predicate Sifted(pass: Pass, pending: seq<nat>, stamped: seq<MarkoutRow>)
    requires Within(pending, |stamped|)
  {
    pass.completed == Sift(pending, stamped, true) && pass.still == Sift(pending, stamped, false)
  }

  lemma SiftedNext(t: Tracker, k: nat, pass: Pass, next: Pass, rows: seq<MarkoutRow>)
    requires Valid(t) && |rows| == |t.rows| && k < |t.pending|
    requires Sifted(pass, t.pending[..k], rows)
    requires next.completed == pass.completed + if rows[t.pending[k]].Complete() == true then [t.pending[k]] else []
    requires next.still == pass.still + if rows[t.pending[k]].Complete() == false then [t.pending[k]] else []
    ensures Sifted(next, t.pending[..k + 1], rows)
  {
    NextSifted(t, k, rows, true);
    NextSifted(t, k, rows, false);
  }

  lemma {:induction false} PassSifts(t: Tracker, k: nat, now: real, anchor: real)
    requires Valid(t) && k <= |t.pending|
    ensures Sifted(PassOver(t, k, now, anchor), t.pending[..k], StampedRows(t, now, anchor))
  {
    if k > 0 {
      PassSifts(t, k - 1, now, anchor);
      NextPass(t, k - 1, now, anchor);
      SiftedNext(t, k - 1, PassOver(t, k - 1, now, anchor), PassOver(t, k, now, anchor), StampedRows(t, now, anchor));
    }
  }

  lemma UpdateKeepsValid(t: Tracker, now: real, anchor: Option<real>)
    requires Valid(t)
    ensures Valid(Updated(t, now, anchor))
  {
    if anchor.Some? {
      SiftIs(t.pending, StampedRows(t, now, anchor.value), false);
    }
  }

  /** Stamping and sorting row by row is stamping every pending row, then sorting. */
  lemma UpdateIsPass(t: Tracker, now: real, anchor: real)
    requires Valid(t)
    ensures var pass := PassOver(t, |t.pending|, now, anchor);
            && Updated(t, now, Some(anchor)) == t.(rows := pass.rows, pending := pass.still)
            && Completed(t, now, Some(anchor)) == pass.completed
    ensures Valid(Updated(t, now, Some(anchor)))
  {
    PassRows(t, |t.pending|, now, anchor);
    PassSifts(t, |t.pending|, now, anchor);
    UpdateKeepsValid(t, now, Some(anchor));
    assert t.pending[..|t.pending|] == t.pending;
    assert PassOver(t, |t.pending|, now, anchor).rows == StampedRows(t, now, anchor);
  }

  // ---- the tracker itself -----------------------------------------------

  class MarkoutTracker {
    const multiplier: real
    const horizons: seq<real>
    var rows: seq<MarkoutRow>
    var pending: seq<nat>

    function View(): Tracker
      reads this
    {
      Tracker(multiplier, horizons, rows, pending)
    }

    constructor (multiplier: real, horizons: seq<real>)
      ensures View() == Tracker(multiplier, horizons, [], []) && Valid(View())
    {
      this.multiplier, this.horizons := multiplier, horizons;
      rows, pending := [], [];
    }

    method Record(fill: Fill, anchor: Option<real>, level: ToxicityLevel, now: real)
      requires Valid(View())
      modifies this
      ensures Valid(View())
      ensures View() == Recorded(old(View()), fill, anchor, level, now)
    {
      var at := if anchor.Some? then anchor.value else fill.price;
      var edge := Favour(fill.side, at, fill.price, multiplier);
      rows := rows + [MarkoutRow(now, fill.side, fill.price, fill.size, level, at, seq(|horizons|, _ => None), edge)];
      pending := pending + [|rows| - 1];
    }

    /** Fill in every horizon that has elapsed, and say which rows that completed. */
    method Update(now: real, anchor: Option<real>) returns (completed: seq<nat>)
      requires Valid(View())
      modifies this
      ensures Valid(View())
      ensures View() == Updated(old(View()), now, anchor)
      ensures completed == Completed(old(View()), now, anchor)
    {
      completed := [];
      if anchor.None? {
        return;
      }
      ghost var t := View();
      var stillPending: seq<nat> := [];
      var k := 0;
      while k < |pending|
        invariant 0 <= k <= |pending| && View() == t.(rows := rows)
        invariant Pass(rows, completed, stillPending) == PassOver(t, k, now, anchor.value)
      {
        completed, stillPending := Settle(pending[k], now, anchor.value, completed, stillPending);
        k := k + 1;
      }
      pending := stillPending;
      UpdateIsPass(t, now, anchor.value);
    }

    /** Stamp one row, and sort it by whether that completed it. */
    method Settle(index: nat, now: real, anchor: real, completed: seq<nat>, still: seq<nat>)
      returns (completed': seq<nat>, still': seq<nat>)
      requires index < |rows| && |rows[index].markouts| == |horizons|
      modifies this`rows
      ensures Pass(rows, completed', still') == Passed(old(View()), Pass(old(rows), completed, still), index, now, anchor)
    {
      StampRow(index, now, anchor);
      completed', still' := completed, still;
      if rows[index].Complete() {
        completed' := completed + [index];
      } else {
        still' := still + [index];
      }
    }

    method StampRow(index: nat, now: real, anchor: real)
      requires index < |rows| && |rows[index].markouts| == |horizons|
      modifies this`rows
      ensures rows == old(rows)[index := Stamped(horizons, multiplier, old(rows[index]), now, anchor)]
    {
      ghost var was := rows[index];
      var h := 0;
      while h < |horizons|
        invariant 0 <= h <= |horizons| && |rows| == |old(rows)|
        invariant |rows[index].markouts| == |horizons|
        invariant rows == old(rows)[index := was.(markouts := rows[index].markouts)]
        invariant forall j :: 0 <= j < |horizons| ==>
          rows[index].markouts[j] == if j < h then Slot(was.markouts[j], was, horizons[j], multiplier, now, anchor) else was.markouts[j]
      {
        var row := rows[index];
        if row.markouts[h].None? && now - row.ts >= horizons[h] {
          var mark := Favour(row.side, anchor, row.price, multiplier);
          rows := rows[index := row.(markouts := row.markouts[h := Some(mark)])];
        }
        h := h + 1;
      }
      assert rows[index].markouts == Stamped(horizons, multiplier, was, now, anchor).markouts;
    }
  }

  // ---- over any run -----------------------------------------------------

  datatype Op =
    | Record(fill: Fill, anchor: Option<real>, level: ToxicityLevel, now: real)
    | Update(now: real, anchor: Option<real>)

  function Act(t: Tracker, op: Op): Tracker
    requires Valid(t)
  {
    match op
    case Record(fill, anchor, level, now) => Recorded(t, fill, anchor, level, now)
    case Update(now, anchor) => Updated(t, now, anchor)
  }

  lemma ActKeepsValid(t: Tracker, op: Op)
    requires Valid(t)
    ensures Valid(Act(t, op))
  {
    if op.Update? {
      UpdateKeepsValid(t, op.now, op.anchor);
    }
  }

  function Run(t: Tracker, ops: seq<Op>): (t': Tracker)
    requires Valid(t)
    ensures Valid(t')
  {
    if ops == [] then t
    else
      var before := Run(t, ops[..|ops| - 1]);
      ActKeepsValid(before, ops[|ops| - 1]);
      Act(before, ops[|ops| - 1])
  }

  /** Every row a run has returned as completed, in the order it did. */
  function Returned(t: Tracker, ops: seq<Op>): seq<nat>
    requires Valid(t)
  {
    if ops == [] then []
    else
      var last := ops[|ops| - 1];
      Returned(t, ops[..|ops| - 1]) +
        if last.Update? then Completed(Run(t, ops[..|ops| - 1]), last.now, last.anchor) else []
  }

  /** How many fills a run records. */
  function Records(ops: seq<Op>): nat {
    if ops == [] then 0 else Records(ops[..|ops| - 1]) + if ops[|ops| - 1].Record? then 1 else 0
  }

  /** What a run does after its i-th fill is recorded. */
  function Since(ops: seq<Op>, i: nat): seq<Op> {
    if ops == [] || Records(ops[..|ops| - 1]) <= i then []
    else Since(ops[..|ops| - 1], i) + [ops[|ops| - 1]]
  }

  /** The mark at the first anchor seen a horizon or more after a fill: the definition, read off the history. */
  function FirstMark(row: MarkoutRow, horizon: real, multiplier: real, later: seq<Op>): Option<real> {
    if later == [] then None
    else
      var earlier := FirstMark(row, horizon, multiplier, later[..|later| - 1]);
      var last := later[|later| - 1];
      if earlier.Some? then earlier
      else if last.Update? && last.anchor.Some? && last.now - row.ts >= horizon
      then Some(Favour(row.side, last.anchor.value, row.price, multiplier))
      else None
  }

  predicate Marked(t: Tracker, ops: seq<Op>, i: nat)
    requires Valid(t) && i < |t.rows|
  {
    forall h :: 0 <= h < |t.horizons| ==>
      t.rows[i].markouts[h] == FirstMark(t.rows[i], t.horizons[h], t.multiplier, Since(ops, i))
  }

  /** An anchor has been seen since the i-th fill. */
  predicate Anchored(ops: seq<Op>, i: nat) {
    exists op :: op in Since(ops, i) && op.Update? && op.anchor.Some?
  }

  /** A row is no longer pending exactly when it is complete and an update with an anchor has seen it. */
  predicate Faithful(t: Tracker, ops: seq<Op>)
    requires Valid(t)
  {
    && |t.rows| == Records(ops)
    && (forall i :: 0 <= i < |t.rows| ==> Marked(t, ops, i))
    && (forall i :: 0 <= i < |t.rows| ==> (i !in t.pending <==> t.rows[i].Complete() && Anchored(ops, i)))
  }

  lemma SinceGrows(ops: seq<Op>, last: Op, i: nat)
    ensures Since(ops + [last], i) == if i < Records(ops) then Since(ops, i) + [last] else []
    ensures Records(ops + [last]) == Records(ops) + if last.Record? then 1 else 0
    ensures Anchored(ops + [last], i) <==> i < Records(ops) && (Anchored(ops, i) || (last.Update? && last.anchor.Some?))
  {
    assert (ops + [last])[..|ops|] == ops;
    if i < Records(ops) {
      assert forall op :: op in Since(ops, i) + [last] <==> op in Since(ops, i) || op == last;
    }
  }

  /** A mark stands once made, whatever the row's other slots. */
  lemma MarkGrows(row: MarkoutRow, row': MarkoutRow, horizon: real, multiplier: real, later: seq<Op>, last: Op)
    requires row' == row.(markouts := row'.markouts)
    ensures FirstMark(row', horizon, multiplier, later + [last]) ==
            if last.Update? && last.anchor.Some?
            then Slot(FirstMark(row, horizon, multiplier, later), row, horizon, multiplier, last.now, last.anchor.value)
            else FirstMark(row, horizon, multiplier, later)
  {
    assert (later + [last])[..|later|] == later;
    MarkIgnoresSlots(row, row', horizon, multiplier, later);
  }

  lemma {:induction false} MarkIgnoresSlots(row: MarkoutRow, row': MarkoutRow, horizon: real, multiplier: real, later: seq<Op>)
    requires row' == row.(markouts := row'.markouts)
    ensures FirstMark(row', horizon, multiplier, later) == FirstMark(row, horizon, multiplier, later)
  {
    if later != [] {
      MarkIgnoresSlots(row, row', horizon, multiplier, later[..|later| - 1]);
    }
  }

  lemma RowMarked(t: Tracker, ops: seq<Op>, last: Op, i: nat)
    requires Valid(t) && Faithful(t, ops) && i < |t.rows|
    ensures Valid(Act(t, last))
    ensures Marked(Act(t, last), ops + [last], i)
  {
    ActKeepsValid(t, last);
    var t' := Act(t, last);
    var row, row' := t.rows[i], t'.rows[i];
    SinceGrows(ops, last, i);
    assert Marked(t, ops, i);
    forall h | 0 <= h < |t.horizons|
      ensures row'.markouts[h] == FirstMark(row', t.horizons[h], t.multiplier, Since(ops + [last], i))
    {
      MarkGrows(row, row', t.horizons[h], t.multiplier, Since(ops, i), last);
      assert i !in t.pending ==> row.markouts[h].Some?;
    }
  }

  lemma RecordFaithful(t: Tracker, ops: seq<Op>, last: Op)
    requires Valid(t) && Faithful(t, ops) && last.Record?
    ensures Valid(Act(t, last)) && Faithful(Act(t, last), ops + [last])
  {
    ActKeepsValid(t, last);
    var t' := Act(t, last);
    forall i | 0 <= i < |t'.rows|
      ensures Marked(t', ops + [last], i)
      ensures i !in t'.pending <==> t'.rows[i].Complete() && Anchored(ops + [last], i)
    {
      SinceGrows(ops, last, i);
      if i < |t.rows| {
        RowMarked(t, ops, last, i);
      }
    }
    SinceGrows(ops, last, 0);
  }

  lemma UpdateFaithful(t: Tracker, ops: seq<Op>, last: Op)
    requires Valid(t) && Faithful(t, ops) && last.Update?
    ensures Valid(Act(t, last)) && Faithful(Act(t, last), ops + [last])
  {
    ActKeepsValid(t, last);
    var t' := Act(t, last);
    if last.anchor.Some? {
      SiftIs(t.pending, StampedRows(t, last.now, last.anchor.value), false);
    }
    forall i | 0 <= i < |t'.rows|
      ensures Marked(t', ops + [last], i)
      ensures i !in t'.pending <==> t'.rows[i].Complete() && Anchored(ops + [last], i)
    {
      SinceGrows(ops, last, i);
      RowMarked(t, ops, last, i);
    }
    SinceGrows(ops, last, 0);
  }

  /** Over any run, every slot of every row is the first mark its history allows. */
  lemma {:induction false} RunFaithful(t: Tracker, ops: seq<Op>)
    requires t.rows == [] && t.pending == []
    ensures Faithful(Run(t, ops), ops)
  {
    if ops != [] {
      var n := |ops| - 1;
      RunFaithful(t, ops[..n]);
      assert ops == ops[..n] + [ops[n]];
      if ops[n].Record? {
        RecordFaithful(Run(t, ops[..n]), ops[..n], ops[n]);
      } else {
        UpdateFaithful(Run(t, ops[..n]), ops[..n], ops[n]);
      }
    }
  }

  /** What has been returned and what is pending share n rows out, each returned once. */
  ghost predicate Partitions(n: nat, pending: seq<nat>, returned: seq<nat>) {
    && (forall j, k :: 0 <= j < k < |returned| ==> returned[j] != returned[k])
    && (forall i :: i in returned <==> 0 <= i < n && i !in pending)
  }

  lemma Reshared(n: nat, pending: seq<nat>, pending': seq<nat>, returned: seq<nat>, more: seq<nat>)
    requires Partitions(n, pending, returned) && Within(pending, n) && Ascending(more)
    requires forall i :: i in pending <==> i in pending' || i in more
    requires forall i :: i in more ==> i !in pending'
    ensures Partitions(n, pending', returned + more)
  {
    var all := returned + more;
    forall j, k | 0 <= j < k < |all| ensures all[j] != all[k] {
      assert j < |returned| ==> all[j] in returned;
      assert k >= |returned| ==> all[k] in more;
    }
  }

  lemma StepReturns(t: Tracker, returned: seq<nat>, last: Op)
    requires Valid(t) && Partitions(|t.rows|, t.pending, returned)
    ensures Valid(Act(t, last))
    ensures Partitions(|Act(t, last).rows|, Act(t, last).pending,
                       returned + if last.Update? then Completed(t, last.now, last.anchor) else [])
  {
    ActKeepsValid(t, last);
    if last.Update? && last.anchor.Some? {
      var stamped := StampedRows(t, last.now, last.anchor.value);
      SiftIs(t.pending, stamped, true);
      SiftIs(t.pending, stamped, false);
      Reshared(|t.rows|, t.pending, Sift(t.pending, stamped, false), returned, Sift(t.pending, stamped, true));
    } else {
      assert returned + [] == returned;
    }
  }

  /**
   * Over any run, every row recorded is either pending, in order, or has
   * been returned as completed exactly once.
   */
  lemma {:induction false} ReturnedOnce(t: Tracker, ops: seq<Op>)
    requires Valid(t) && t.rows == [] && t.pending == []
    ensures Partitions(|Run(t, ops).rows|, Run(t, ops).pending, Returned(t, ops)) && Ascending(Run(t, ops).pending)
  {
    if ops != [] {
      var n := |ops| - 1;
      ReturnedOnce(t, ops[..n]);
      StepReturns(Run(t, ops[..n]), Returned(t, ops[..n]), ops[n]);
    }
  }
}
