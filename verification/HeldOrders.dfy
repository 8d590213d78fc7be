/** Which orders are held after a stream of records, and as what, told from the records alone. */
module HeldOrders {
  import opened Common
  import opened Orders
  import opened OrderBooks
  import opened BookBuilders

  // ---- what a record says of one order ----------------------------------

  /** A field as a signed 32-bit number. */
  function Field(x: nat): int {
    var low := x % 0x1_0000_0000;
    if low >= 0x8000_0000 then low - 0x1_0000_0000 else low
  }

  function Size(r: MboRecord): int { Field(r.size) }

  /** A record about one order that is not put aside for want of a side. */
  predicate On(r: MboRecord, id: int) { r.orderId == id && r.side.Some? }

  /** The record opens a snapshot: the book starts again. */
  predicate Opens(records: seq<MboRecord>, k: nat)
    requires k < |records|
  {
    records[k].snapshot && (k == 0 || !records[k - 1].snapshot)
  }

  /** The record leaves nothing of what was held of an order: a clear, its cancel, or a modify to nothing. */
  predicate Ends(records: seq<MboRecord>, k: nat, id: int)
    requires k < |records|
  {
    var r := records[k];
    || Opens(records, k) || r.action.Reset?
    || (On(r, id) && r.action.CancelOrder?)
    || (On(r, id) && r.action.ModifyOrder? && Size(r) <= 0)
  }

  /**
   * The record brings an order in, or gives it new terms: a priced add, or a modify that is priced or finds the
   * order held.
   */
  ghost predicate Brings(records: seq<MboRecord>, k: nat, id: int)
    requires k < |records|
    decreases |records|, 0
  {
    var r := records[k];
    && On(r, id) && Size(r) > 0
    && ((r.action.AddOrder? && r.price != UNDEF_PRICE) || (r.action.ModifyOrder? && (HeldBefore(records, k, id) || r.price != UNDEF_PRICE)))
  }

  ghost predicate HeldBefore(records: seq<MboRecord>, k: nat, id: int)
    requires k < |records|
    decreases k, 4
  {
    !Opens(records, k) && HeldAfter(records[..k], id)
  }

  /** What the records from k to m fill of an order. */
  function FilledIn(records: seq<MboRecord>, k: nat, m: nat, id: int): int
    requires k <= m <= |records|
    decreases m
  {
    if k == m then 0
    else
      var r := records[m - 1];
      FilledIn(records, k, m - 1, id) + if On(r, id) && r.action.FillOrder? then Size(r) else 0
  }

  /** What is filled of the order after record k, up to m, is less than record k's size. */
  predicate Unfilled(records: seq<MboRecord>, k: nat, m: nat, id: int)
    requires k < m <= |records|
  {
    FilledIn(records, k + 1, m, id) < Size(records[k])
  }

  /**
   * Record k brought the order in, nothing since has ended it or given it other terms, and no fill since has
   * reached its size.
   */
  ghost predicate Stands(records: seq<MboRecord>, k: nat, id: int)
    requires k < |records|
    decreases |records|, 1
  {
    && Brings(records, k, id)
    && (forall j :: k < j < |records| ==> !Ends(records, j, id) && !Brings(records, j, id))
    && (forall m :: k < m <= |records| ==> Unfilled(records, k, m, id))
  }

  ghost predicate HeldAfter(records: seq<MboRecord>, id: int)
    decreases |records|, 2
  {
    exists k :: 0 <= k < |records| && Stands(records, k, id)
  }

  /** The side of the record that first brought it in, or of a later add. */
  ghost function SideTold(records: seq<MboRecord>, k: nat, id: int): Side
    requires k < |records| && Brings(records, k, id)
    decreases k
  {
    if records[k].action.AddOrder? || !HeldBefore(records, k, id) then records[k].side.value
    else
      assert |records[..k]| == k && HeldAfter(records[..k], id);
      var j :| 0 <= j < |records[..k]| && Stands(records[..k], j, id);
      SideTold(records[..k], j, id)
  }

  /** What is told of an order that record k brought in. */
  ghost function Told(records: seq<MboRecord>, k: nat, id: int): Order
    requires k < |records| && Brings(records, k, id)
  {
    Order(SideTold(records, k, id), records[k].price, Size(records[k]) - FilledIn(records, k + 1, |records|, id))
  }

  // ---- one record more --------------------------------------------------

  function Entry(h: Held, id: int): Option<Order> { if id in h.orders then Some(h.orders[id]) else None }

  /** What one record makes of one order. */
  function Next(was: Option<Order>, r: MboRecord, id: int): Option<Order> {
    if r.action.Reset? then None
    else if !On(r, id) then was
    else
      match r.action
      case AddOrder => if r.price != UNDEF_PRICE && Size(r) > 0 then Some(Order(r.side.value, r.price, Size(r))) else was
      case CancelOrder => None
      case ModifyOrder =>
        if Size(r) <= 0 then None
        else if was.Some? then Some(Order(was.value.side, r.price, Size(r)))
        else if r.price != UNDEF_PRICE then Some(Order(r.side.value, r.price, Size(r)))
        else None
      case FillOrder => if was.Some? && Size(r) < was.value.size then Some(was.value.(size := was.value.size - Size(r))) else None
      case _ => was
  }

  lemma AddNext(h: Held, r: MboRecord, id: int)
    requires r.action.AddOrder? && r.side.Some?
    ensures Entry(OnAdd(h, r.orderId, r.side.value, r.price, Size(r)), id) == Next(Entry(h, id), r, id)
  {
  }

  lemma CancelNext(h: Held, r: MboRecord, id: int)
    requires r.action.CancelOrder? && r.side.Some?
    ensures Entry(OnCancel(h, r.orderId), id) == Next(Entry(h, id), r, id)
  {
  }

  lemma ModifyNext(h: Held, r: MboRecord, id: int)
    requires r.action.ModifyOrder? && r.side.Some?
    ensures Entry(OnModify(h, r.orderId, r.side.value, r.price, Size(r)), id) == Next(Entry(h, id), r, id)
  {
  }

  lemma FillNext(h: Held, r: MboRecord, id: int)
    requires r.action.FillOrder? && r.side.Some?
    ensures Entry(OnFill(h, r.orderId, Size(r)), id) == Next(Entry(h, id), r, id)
  {
  }

  lemma EntryNext(h: Held, r: MboRecord, id: int)
    ensures Entry(Edited(h, r), id) == Next(Entry(h, id), r, id)
  {
    assert ToInt32(r.size) == Size(r);
    if !r.action.Reset? && r.side.Some? {
      match r.action
      case AddOrder => AddNext(h, r, id);
      case CancelOrder => CancelNext(h, r, id);
      case ModifyOrder => ModifyNext(h, r, id);
      case FillOrder => FillNext(h, r, id);
      case _ =>
    }
  }

  // ---- the telling, one record further ----------------------------------

  lemma Earlier(records: seq<MboRecord>, k: nat, id: int)
    requires k < |records| - 1
    ensures var before := records[..|records| - 1];
            && before[..k] == records[..k]
            && (Ends(records, k, id) <==> Ends(before, k, id)) && (Brings(records, k, id) <==> Brings(before, k, id))
  {
    assert records[..|records| - 1][..k] == records[..k];
  }

  lemma {:induction false} FilledEarlier(records: seq<MboRecord>, k: nat, m: nat, id: int)
    requires k <= m < |records|
    ensures FilledIn(records, k, m, id) == FilledIn(records[..|records| - 1], k, m, id)
    decreases m
  {
    if k < m {
      FilledEarlier(records, k, m - 1, id);
    }
  }

  lemma UnfilledEarlier(records: seq<MboRecord>, k: nat, m: nat, id: int)
    requires k < m < |records|
    ensures Unfilled(records, k, m, id) <==> Unfilled(records[..|records| - 1], k, m, id)
  {
    FilledEarlier(records, k + 1, m, id);
  }

  /**
   * An order brought in earlier stands unless the last record ends it, gives it other terms, or fills the rest of
   * it.
   */
  lemma StandsStill(records: seq<MboRecord>, k: nat, id: int)
    requires k < |records| - 1
    ensures var n := |records| - 1;
            Stands(records, k, id) <==>
            Stands(records[..n], k, id) && !Ends(records, n, id) && !Brings(records, n, id) && Unfilled(records, k, n + 1, id)
  {
    var n := |records| - 1;
    forall j | k <= j < n
      ensures Ends(records, j, id) <==> Ends(records[..n], j, id)
      ensures Brings(records, j, id) <==> Brings(records[..n], j, id)
    {
      Earlier(records, j, id);
    }
    forall m | k < m <= n ensures Unfilled(records, k, m, id) <==> Unfilled(records[..n], k, m, id) {
      UnfilledEarlier(records, k, m, id);
    }
  }

  lemma StandsNow(records: seq<MboRecord>, id: int)
    requires records != []
    ensures Stands(records, |records| - 1, id) <==> Brings(records, |records| - 1, id)
  {
    var n := |records| - 1;
    assert FilledIn(records, n + 1, n + 1, id) == 0;
  }

  lemma SideEarlier(records: seq<MboRecord>, k: nat, id: int)
    requires k < |records| - 1 && Brings(records, k, id)
    ensures Brings(records[..|records| - 1], k, id)
    ensures SideTold(records, k, id) == SideTold(records[..|records| - 1], k, id)
  {
    Earlier(records, k, id);
  }

  /** Two records cannot both be the one that stands. */
  lemma StandsOnce(records: seq<MboRecord>, j: nat, k: nat, id: int)
    requires j < |records| && k < |records| && Stands(records, j, id) && Stands(records, k, id)
    ensures j == k
  {
  }

  /** A held order that is modified keeps the side it was told on. */
  lemma SideKept(records: seq<MboRecord>, k: nat, j: nat, id: int)
    requires k < |records| && Brings(records, k, id) && !records[k].action.AddOrder? && HeldBefore(records, k, id)
    requires j < |records[..k]| && Stands(records[..k], j, id)
    ensures SideTold(records, k, id) == SideTold(records[..k], j, id)
  {
    forall i | 0 <= i < |records[..k]| && Stands(records[..k], i, id) ensures i == j {
      StandsOnce(records[..k], i, j, id);
    }
  }

  /**
   * An entry is what is told: there is one exactly when some record brought it in and it stands, and then on those
   * terms.
   */
  ghost predicate AsTold(records: seq<MboRecord>, id: int, entry: Option<Order>) {
    && (entry.Some? <==> HeldAfter(records, id))
    && forall k :: 0 <= k < |records| && Stands(records, k, id) ==> entry == Some(Told(records, k, id))
  }

  /** What the last record finds. */
  function Found(records: seq<MboRecord>, entry: Option<Order>): Option<Order>
    requires records != []
  {
    if Opens(records, |records| - 1) then None else entry
  }

  lemma BroughtNow(records: seq<MboRecord>, id: int, entry: Option<Order>)
    requires records != [] && AsTold(records[..|records| - 1], id, entry) && Brings(records, |records| - 1, id)
    ensures AsTold(records, id, Next(Found(records, entry), records[|records| - 1], id))
  {
    var n := |records| - 1;
    var was, r := Found(records, entry), records[n];
    StandsNow(records, id);
    forall k | 0 <= k < n ensures !Stands(records, k, id) {
      StandsStill(records, k, id);
    }
    assert FilledIn(records, n + 1, n + 1, id) == 0;
    assert HeldBefore(records, n, id) <==> was.Some?;
    assert Told(records, n, id).side == if r.action.AddOrder? || was.None? then r.side.value else was.value.side by {
      if !r.action.AddOrder? && was.Some? {
        assert HeldAfter(records[..n], id);
        var j :| 0 <= j < |records[..n]| && Stands(records[..n], j, id);
        SideKept(records, n, j, id);
        assert entry == Some(Told(records[..n], j, id));
      }
    }
  }

  lemma StoodOn(records: seq<MboRecord>, id: int, entry: Option<Order>, k: nat)
    requires records != [] && AsTold(records[..|records| - 1], id, entry) && !Brings(records, |records| - 1, id)
    requires k < |records| - 1 && Stands(records[..|records| - 1], k, id) && !Ends(records, |records| - 1, id)
    ensures var next := Next(entry, records[|records| - 1], id);
            if Unfilled(records, k, |records|, id) then Brings(records, k, id) && next == Some(Told(records, k, id)) else next == None
  {
    var n := |records| - 1;
    var before, r := records[..n], records[n];
    Earlier(records, k, id);
    SideEarlier(records, k, id);
    FilledEarlier(records, k + 1, n, id);
    assert entry == Some(Told(before, k, id));
    assert Unfilled(before, k, n, id);
    assert HeldAfter(before, id) && HeldBefore(records, n, id);
  }

  lemma NotBroughtNow(records: seq<MboRecord>, id: int, entry: Option<Order>)
    requires records != [] && AsTold(records[..|records| - 1], id, entry) && !Brings(records, |records| - 1, id)
    ensures AsTold(records, id, Next(Found(records, entry), records[|records| - 1], id))
  {
    var n := |records| - 1;
    var before, r, next := records[..n], records[n], Next(Found(records, entry), records[n], id);
    StandsNow(records, id);
    assert HeldBefore(records, n, id) <==> Found(records, entry).Some?;
    forall k | 0 <= k < n
      ensures Stands(records, k, id) <==> Stands(before, k, id) && !Ends(records, n, id) && Unfilled(records, k, n + 1, id)
    {
      StandsStill(records, k, id);
    }
    if Ends(records, n, id) || !HeldAfter(before, id) {
      assert next == None;
    } else {
      assert HeldAfter(before, id);
      var k :| 0 <= k < |before| && Stands(before, k, id);
      StoodOn(records, id, entry, k);
      forall j | 0 <= j < n && Stands(records, j, id) ensures next == Some(Told(records, j, id)) {
        StoodOn(records, id, entry, j);
      }
      if next.Some? {
        assert Stands(records, k, id);
      }
    }
  }

  /**
   * An order is held exactly when what the records say of it still stands, on the side, at the price and for the
   * size they say.
   */
  lemma {:induction false} HeldAsTold(records: seq<MboRecord>, id: int)
    ensures AsTold(records, id, Entry(Run(Builder(EMPTY, false, false), records).held, id))
  {
    if records != [] {
      var n := |records| - 1;
      var start, r := Builder(EMPTY, false, false), records[n];
      var b := Run(start, records[..n]);
      HeldAsTold(records[..n], id);
      CompleteAfterSnapshot(start, records[..n]);
      assert Entry(Flagged(b, r.snapshot).held, id) == Found(records, Entry(b.held, id));
      EntryNext(Flagged(b, r.snapshot).held, r, id);
      if Brings(records, n, id) {
        BroughtNow(records, id, Entry(b.held, id));
      } else {
        NotBroughtNow(records, id, Entry(b.held, id));
      }
    }
  }

  // ---- where sizes are what feeds send ----------------------------------

  predicate FillsForward(records: seq<MboRecord>) { forall r :: r in records && r.action.FillOrder? ==> Size(r) >= 0 }

  lemma {:induction false} FilledForward(records: seq<MboRecord>, k: nat, m: nat, id: int)
    requires k <= m <= |records| && FillsForward(records)
    ensures FilledIn(records, k, m, id) <= FilledIn(records, k, |records|, id)
    decreases |records| - m
  {
    if m < |records| {
      assert records[m] in records;
      FilledForward(records, k, m + 1, id);
    }
  }

  /** No later record ends the order or gives it other terms. */
  ghost predicate Undisturbed(records: seq<MboRecord>, k: nat, id: int)
    requires k < |records|
  {
    forall j :: k < j < |records| ==> !Ends(records, j, id) && !Brings(records, j, id)
  }

  /** With no negative fill, an order stands exactly while the fills since sum to less than its size. */
  lemma StandsBySum(records: seq<MboRecord>, k: nat, id: int)
    requires k < |records| && FillsForward(records)
    ensures Stands(records, k, id) <==>
            Brings(records, k, id) && Undisturbed(records, k, id) && FilledIn(records, k + 1, |records|, id) < Size(records[k])
  {
    if Stands(records, k, id) {
      assert Unfilled(records, k, |records|, id);
    }
    if FilledIn(records, k + 1, |records|, id) < Size(records[k]) {
      forall m | k < m <= |records| ensures Unfilled(records, k, m, id) {
        FilledForward(records, k + 1, m, id);
      }
    }
  }

  // ---- what else a record does ------------------------------------------

  /** A record counts as dropped exactly when it cancels, modifies or fills an order that is not held. */
  lemma DroppedIff(h: Held, r: MboRecord)
    ensures Edited(h, r).dropped ==
            h.dropped + if r.side.Some? && r.orderId !in h.orders && (r.action.CancelOrder? || r.action.ModifyOrder? || r.action.FillOrder?)
                        then 1 else 0
  {
  }

  /**
   * Only a trade record yields a trade: of its size, at its price in points, bought where the bid side aggressed
   * and sold where the ask did.
   */
  lemma TradeTold(r: MboRecord)
    ensures Tape(r).Some? <==> r.action == Match
    ensures Tape(r).Some? ==>
              var t := Tape(r).value;
              && t.price * 1_000_000_000.0 == r.price as real && t.size == Size(r)
              && t.aggressor == if r.side == Some(Bid) then 1 else if r.side == Some(Ask) then -1 else 0
  {
    Points(r.price as real);
  }

  lemma Points(x: real)
    ensures x / PRICE_SCALE * 1_000_000_000.0 == x
  {
  }

  // ---- what a record of ten levels says of one price --------------------

  /** The row quotes this price on this side, for something. */
  predicate Speaks(row: BidAskPair, side: Side, price: int) {
    && price != 9223372036854775807
    && if side.Bid? then row.bidPrice == price && row.bidSize > 0 else row.askPrice == price && row.askSize > 0
  }

  /** The last row to do so. */
  predicate SpeaksLast(levels: seq<BidAskPair>, side: Side, price: int, k: nat) {
    k < |levels| && Speaks(levels[k], side, price) && forall j :: k < j < |levels| ==> !Speaks(levels[j], side, price)
  }

  /** The level that a row gives a side, if what it gives it is something once cut to 32 bits. */
  predicate Gives(row: BidAskPair, side: Side, level: Option<PriceLevel>) {
    var price, size, count := if side.Bid? then row.bidPrice else row.askPrice,
                              Field(if side.Bid? then row.bidSize else row.askSize),
                              Field(if side.Bid? then row.bidCount else row.askCount);
    level == if size > 0 then Some(PriceLevel(price, size, count)) else None
  }

  /** A price stands as the last row that quotes it gives it, and one that no row quotes does not stand. */
  lemma {:induction false} LevelTold(levels: seq<BidAskPair>, side: Side, price: int)
    ensures forall k: nat :: SpeaksLast(levels, side, price, k) ==> Gives(levels[k], side, LastWord(levels, side, price))
    ensures (forall k: nat :: !SpeaksLast(levels, side, price, k)) ==> LastWord(levels, side, price) == None
    decreases |levels|
  {
    if levels != [] {
      var n := |levels| - 1;
      if Speaks(levels[n], side, price) {
        assert SpeaksLast(levels, side, price, n);
      } else {
        LevelTold(levels[..n], side, price);
        forall k: nat ensures SpeaksLast(levels, side, price, k) <==> SpeaksLast(levels[..n], side, price, k) {
          assert forall j :: 0 <= j < n ==> levels[..n][j] == levels[j];
        }
      }
    }
  }
}
