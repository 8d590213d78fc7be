/** What one fill does to the account, and what a markout is worth: said of sizes and prices alone. */
module AccountRules {
  import opened Common
  import opened Orders
  import opened Toxicity
  import Inventory
  import M = Markouts

  // ---- one fill ---------------------------------------------------------

  /** Contracts a fill adds to the position: bought ones less sold ones. */
  function Change(f: Fill): int { if f.side == Bid then f.size else -f.size }

  /** The fill goes the way the position already does, or starts one. */
  predicate AddsTo(position: int, change: int) { position == 0 || (position > 0 <==> change > 0) }

  /** The fill takes from the position, all of it at the most. */
  predicate TakesFrom(position: int, change: int) {
    !AddsTo(position, change) && if position > 0 then position + change >= 0 else position + change <= 0
  }

  /** Whatever the fill, the position moves by it, its fee is paid, and it is counted and kept. */
  lemma FillCounts(a: Inventory.Account, f: Fill)
    ensures var b := Inventory.Book(a, f);
            && b.position == a.position + Change(f) && b.fees == a.fees + f.fees
            && b.contractsTraded == a.contractsTraded + f.size && b.fills == a.fills + [f] && b.multiplier == a.multiplier
  {
  }

  /** Adding realises nothing, and averages the price over all that is held. */
  lemma AddingAverages(a: Inventory.Account, f: Fill)
    requires AddsTo(a.position, Change(f))
    ensures var b := Inventory.Book(a, f);
            && b.realised == a.realised
            && (b.position != 0 ==> b.avgPrice * b.position as real == a.avgPrice * a.position as real + f.price * Change(f) as real)
            && (b.position == 0 ==> b.avgPrice == 0.0)
  {
    var total := a.position + Change(f);
    if total != 0 {
      Undone(a.avgPrice * a.position as real + f.price * Change(f) as real, total);
    }
  }

  lemma Undone(x: real, n: int)
    requires n != 0
    ensures x / n as real * n as real == x
  {
  }

  /** Taking realises what is closed at its gain over the average, which the rest keeps. */
  lemma TakingRealises(a: Inventory.Account, f: Fill)
    requires TakesFrom(a.position, Change(f))
    ensures var b := Inventory.Book(a, f);
            && b.realised == a.realised + (-Change(f)) as real * (f.price - a.avgPrice) * a.multiplier
            && b.avgPrice == if b.position == 0 then 0.0 else a.avgPrice
  {
    var closing, direction := Min(Abs(Change(f)), Abs(a.position)), if a.position > 0 then 1 else -1;
    assert closing as real * direction as real == (-Change(f)) as real;
  }

  /** Turning over realises the whole position, and opens the excess at the fill's price. */
  lemma TurningOver(a: Inventory.Account, f: Fill)
    requires !AddsTo(a.position, Change(f)) && !TakesFrom(a.position, Change(f))
    ensures var b := Inventory.Book(a, f);
            && b.realised == a.realised + a.position as real * (f.price - a.avgPrice) * a.multiplier
            && b.avgPrice == f.price && (b.position > 0 <==> a.position < 0)
  {
    var closing, direction := Min(Abs(Change(f)), Abs(a.position)), if a.position > 0 then 1 else -1;
    assert closing as real * direction as real == a.position as real;
  }

  /** The P&L marked: what was realised, what is held at its gain over the average, less fees. */
  lemma MarkedAt(a: Inventory.Account, mark: real)
    ensures a.TotalPnl(Some(mark)) == a.realised + a.position as real * (mark - a.avgPrice) * a.multiplier - a.fees
    ensures a.TotalPnl(None) == a.realised - a.fees
  {
  }

  // ---- markouts ---------------------------------------------------------

  /** What a contract has gained: the price's rise for a buyer, its fall for a seller, in dollars. */
  function Gained(side: Side, from: real, to: real, multiplier: real): real {
    if side == Bid then (to - from) * multiplier else (from - to) * multiplier
  }

  lemma FavourIs(side: Side, anchor: real, price: real, multiplier: real)
    ensures M.Favour(side, anchor, price, multiplier) == Gained(side, price, anchor, multiplier)
  {
  }

  /** A row starts with its fill's terms, its edge against the anchor of the moment, and no mark. */
  lemma RowStarts(t: M.Tracker, fill: Fill, anchor: Option<real>, level: ToxicityLevel, now: real)
    ensures var t' := M.Recorded(t, fill, anchor, level, now);
            && t'.rows[..|t.rows|] == t.rows && |t'.rows| == |t.rows| + 1 && t'.pending == t.pending + [|t.rows|]
            && var row := t'.rows[|t.rows|];
            && row.ts == now && row.side == fill.side && row.price == fill.price && row.size == fill.size && row.level == level
            && (anchor.Some? ==> row.anchorAtFill == anchor.value) && (anchor.None? ==> row.anchorAtFill == fill.price)
            && row.edgeAtFill == Gained(fill.side, fill.price, row.anchorAtFill, t.multiplier)
            && |row.markouts| == |t.horizons| && forall h :: 0 <= h < |t.horizons| ==> row.markouts[h] == None
  {
    var row := M.NewRow(t, fill, anchor, level, now);
    FavourIs(fill.side, row.anchorAtFill, fill.price, t.multiplier);
  }

  /** An update with an anchor, a horizon or more after the fill. */
  predicate Marks(row: M.MarkoutRow, horizon: real, op: M.Op) {
    op.Update? && op.anchor.Some? && op.now >= row.ts + horizon
  }

  predicate FirstMarking(row: M.MarkoutRow, horizon: real, later: seq<M.Op>, k: nat) {
    && k < |later| && Marks(row, horizon, later[k])
    && forall j :: 0 <= j < k ==> !Marks(row, horizon, later[j])
  }

  /** The mark is the gain at the first such update, and there is none before one. */
  lemma {:induction false} MarkIs(row: M.MarkoutRow, horizon: real, multiplier: real, later: seq<M.Op>)
    ensures var mark := M.FirstMark(row, horizon, multiplier, later);
            && (forall k: nat :: FirstMarking(row, horizon, later, k) ==>
                  mark == Some(Gained(row.side, row.price, later[k].anchor.value, multiplier)))
            && ((forall k :: 0 <= k < |later| ==> !Marks(row, horizon, later[k])) ==> mark == None)
    ensures M.FirstMark(row, horizon, multiplier, later).Some? ==> exists k :: 0 <= k < |later| && Marks(row, horizon, later[k])
  {
    if later != [] {
      var n := |later| - 1;
      MarkIs(row, horizon, multiplier, later[..n]);
      forall k: nat | FirstMarking(row, horizon, later, k) && k < n ensures FirstMarking(row, horizon, later[..n], k) {
      }
      if Marks(row, horizon, later[n]) {
        FavourIs(row.side, later[n].anchor.value, row.price, multiplier);
      }
      if M.FirstMark(row, horizon, multiplier, later[..n]).Some? {
        var k :| 0 <= k < |later[..n]| && Marks(row, horizon, later[..n][k]);
        assert Marks(row, horizon, later[k]);
      }
    }
  }
}
