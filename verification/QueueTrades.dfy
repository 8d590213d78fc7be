/** What the simulated exchange does to one resting order, said of prices, sizes and volumes alone. */
module QueueTrades {
  import opened Common
  import opened Orders
  import opened Coherence
  import opened Pipeline
  import opened QueuePosition
  import X = SimulatedExchange

  // ---- where an order joins the queue -----------------------------------

  /** The first row at a price, to within the slack. */
  predicate FirstAt(rows: seq<Level>, price: real, k: nat) {
    && k < |rows| && -EPSILON < rows[k].price - price < EPSILON
    && forall j :: 0 <= j < k ==> !(-EPSILON < rows[j].price - price < EPSILON)
  }

  predicate NoneAt(rows: seq<Level>, price: real) {
    forall j :: 0 <= j < |rows| ==> !(-EPSILON < rows[j].price - price < EPSILON)
  }

  lemma {:induction false} LevelSizeIs(rows: seq<Level>, price: real)
    ensures forall k: nat :: FirstAt(rows, price, k) ==> X.LevelSize(rows, price) == Some(rows[k].size)
    ensures NoneAt(rows, price) ==> X.LevelSize(rows, price) == None
  {
    if rows != [] && !(-EPSILON < rows[0].price - price < EPSILON) {
      LevelSizeIs(rows[1..], price);
      forall k: nat | FirstAt(rows, price, k) ensures X.LevelSize(rows, price) == Some(rows[k].size) {
        forall j | 0 <= j < k - 1 ensures !(-EPSILON < rows[1..][j].price - price < EPSILON) {
          assert rows[1..][j] == rows[j + 1];
        }
        assert FirstAt(rows[1..], price, k - 1);
      }
      if NoneAt(rows, price) {
        forall j | 0 <= j < |rows[1..]| ensures !(-EPSILON < rows[1..][j].price - price < EPSILON) {
          assert rows[1..][j] == rows[j + 1];
        }
      }
    }
  }

  /** What stands in front of a new order: nothing at the front, and else the size shown at its price. */
  ghost predicate JoinsBehind(x: X.Exchange, side: Side, price: real, queue: int) {
    if x.front || x.snapshot.None? then queue == 0
    else
      var rows := if side.Bid? then x.snapshot.value.bids else x.snapshot.value.asks;
      && (forall k: nat :: FirstAt(rows, price, k) ==> queue == rows[k].size)
      && (NoneAt(rows, price) ==> queue == 0)
  }

  lemma QueueIs(x: X.Exchange, side: Side, price: real)
    ensures JoinsBehind(x, side, price, X.QueueAt(x, side, price))
  {
    if !x.front && x.snapshot.Some? {
      LevelSizeIs(x.snapshot.value.Rows(side), price);
    }
  }

  /** A new order rests last, untraded, where its price puts it; the others are as they were. */
  lemma PlaceMeans(x: X.Exchange, side: Side, price: real, size: int)
    ensures var x' := X.Place(x, side, price, size);
            && |x'.orders| == |x.orders| + 1 && x'.orders[..|x.orders|] == x.orders
            && var o := x'.orders[|x.orders|];
            && o.id == x.nextId && o.side == side && o.price == price && o.size == size && o.filled == 0 && o.active
            && JoinsBehind(x, side, price, o.queueAhead)
            && x'.events == x.events + [Ack(x.nextId)] && x'.nextId == x.nextId + 1 && x'.sent == x.sent + 1
  {
    QueueIs(x, side, price);
  }

  /**
   * A replaced order keeps its fills and rests for the new size at the new
   * price. It keeps its place exactly when neither the price moved nor the
   * size left grew.
   */
  lemma ReplaceMeans(x: X.Exchange, i: nat, price: real, size: int)
    requires i < |x.orders| && i == X.IndexOf(x.orders, x.orders[i].id) && x.orders[i].active
    ensures var o := x.orders[i];
            var x' := X.Replace(x, o.id, price, size);
            && |x'.orders| == |x.orders| && x'.orders == x.orders[i := x'.orders[i]]
            && var o' := x'.orders[i];
            && o'.id == o.id && o'.side == o.side && o'.price == price && o'.filled == o.filled && o'.active
            && o'.size - o'.filled == size
            && (if price != o.price || size > o.size - o.filled then JoinsBehind(x, o.side, price, o'.queueAhead)
                else o'.queueAhead == o.queueAhead)
            && x'.events == x.events + [Ack(o.id)] && x'.sent == x.sent + 1
  {
    QueueIs(x, x.orders[i].side, price);
  }

  lemma {:induction false} CompactedIs(orders: seq<X.SimOrder>, o: X.SimOrder)
    ensures o in X.Compacted(orders) <==> o in orders && o.active
  {
    if orders != [] {
      CompactedIs(orders[..|orders| - 1], o);
      assert orders == orders[..|orders| - 1] + [orders[|orders| - 1]];
    }
  }

  /** A cancel ends a live order and says so, and every other live order is left; it only counts where there is none. */
  lemma CancelMeans(x: X.Exchange, id: int, i: nat)
    requires i < |x.orders| && x.orders[i].id == id && x.orders[i].active && i == X.IndexOf(x.orders, id)
    ensures var x' := X.Cancel(x, id);
            && (forall o :: o in x'.orders <==> o in x.orders[..i] + x.orders[i + 1..] && o.active)
            && x' == x.(orders := x'.orders, events := x.events + [Cancelled(id)], sent := x.sent + 1)
  {
    var ended := x.orders[i := x.orders[i].(active := false)];
    forall o ensures o in X.Compacted(ended) <==> o in x.orders[..i] + x.orders[i + 1..] && o.active {
      CompactedIs(ended, o);
      assert ended == x.orders[..i] + [ended[i]] + x.orders[i + 1..];
    }
  }

  lemma NothingToCancel(x: X.Exchange, id: int, price: real, size: int)
    requires forall o :: o in x.orders ==> o.id != id || !o.active
    ensures X.Cancel(x, id) == X.Replace(x, id, price, size) == x.(sent := x.sent + 1)
  {
    var i := X.IndexOf(x.orders, id);
    assert i < |x.orders| ==> x.orders[i] in x.orders;
  }

  // ---- one book, one trade ----------------------------------------------

  /** The other side of the book has come to the order's price. */
  predicate Crossed(o: X.SimOrder, s: BookSnapshot)
    requires s.TwoSided()
  {
    if o.side.Bid? then s.asks[0].price <= o.price + EPSILON else s.bids[0].price >= o.price - EPSILON
  }

  /**
   * A two-sided book fills an order it crosses whole; of any other it only shortens the queue, to what is shown at
   * its price.
   */
  lemma BookMeans(o: X.SimOrder, s: BookSnapshot)
    requires o.active && o.size > o.filled && s.TwoSided()
    ensures var r, rows := X.Respond(o, X.Book(s)), if o.side.Bid? then s.bids else s.asks;
            && r.id == o.id && r.side == o.side && r.price == o.price && r.size == o.size
            && (Crossed(o, s) ==> r.filled == o.size && !r.active)
            && (!Crossed(o, s) ==> r.filled == o.filled && r.active)
            && (forall k: nat :: FirstAt(rows, o.price, k) ==> r.queueAhead == if rows[k].size < o.queueAhead then rows[k].size else o.queueAhead)
            && (NoneAt(rows, o.price) ==> r.queueAhead == o.queueAhead)
  {
    LevelSizeIs(s.Rows(o.side), o.price);
  }

  /** The trade took liquidity from the order's side. */
  predicate Against(o: X.SimOrder, t: Trade) { t.aggressor == if o.side.Bid? then -1 else 1 }

  predicate AtPrice(o: X.SimOrder, t: Trade) { Against(o, t) && -EPSILON < t.price - o.price < EPSILON }

  /** Past the order's price: it must have been filled first. */
  predicate Through(o: X.SimOrder, t: Trade) {
    Against(o, t) && if o.side.Bid? then t.price < o.price - EPSILON else t.price > o.price + EPSILON
  }

  /**
   * A trade through the price fills the order whole, one at it eats the queue and then the order, and any other
   * leaves it.
   */
  lemma TradeMeans(o: X.SimOrder, t: Trade)
    requires o.active && o.size > o.filled && o.queueAhead >= 0 && t.size >= 0
    ensures var r := X.Respond(o, X.Tape(t));
            && r.id == o.id && r.side == o.side && r.price == o.price && r.size == o.size
            && (Through(o, t) ==> r.filled == o.size && !r.active)
            && (AtPrice(o, t) ==>
                  && r.filled == o.filled + Min(o.size - o.filled, Max(0, t.size - o.queueAhead))
                  && r.queueAhead == Max(0, o.queueAhead - t.size) && (r.active <==> r.filled < o.size))
            && (!Through(o, t) && !AtPrice(o, t) ==> r == o)
  {
  }

  // ---- any number of trades ---------------------------------------------

  /** What has traded at an order's price, against it. */
  function VolumeAt(o: X.SimOrder, trades: seq<Trade>): int {
    if trades == [] then 0
    else
      var last := trades[|trades| - 1];
      VolumeAt(o, trades[..|trades| - 1]) + if AtPrice(o, last) then last.size else 0
  }

  predicate AnyThrough(o: X.SimOrder, trades: seq<Trade>) { exists t :: t in trades && Through(o, t) }

  predicate Sized(trades: seq<Trade>) { forall t :: t in trades ==> t.size >= 0 }

  lemma {:induction false} VolumeNonNegative(o: X.SimOrder, trades: seq<Trade>)
    requires Sized(trades)
    ensures VolumeAt(o, trades) >= 0
  {
    if trades != [] {
      VolumeNonNegative(o, trades[..|trades| - 1]);
    }
  }

  /**
   * How much of an order a tape has filled: all of it through its price, and at its price what is left over the
   * queue.
   */
  function FilledBy(o: X.SimOrder, trades: seq<Trade>): int {
    if AnyThrough(o, trades) then o.size - o.filled
    else Min(o.size - o.filled, Max(0, VolumeAt(o, trades) - o.queueAhead))
  }

  lemma AnyThroughMore(o: X.SimOrder, trades: seq<Trade>)
    requires trades != []
    ensures AnyThrough(o, trades) <==> AnyThrough(o, trades[..|trades| - 1]) || Through(o, trades[|trades| - 1])
  {
    var n := |trades| - 1;
    assert trades == trades[..n] + [trades[n]];
  }

  /** What an order has been filled by, and what still rests of it, after part of a tape. */
  predicate StandsAs(o: X.SimOrder, filled: int, left: Option<X.SimOrder>, trades: seq<Trade>) {
    && filled == FilledBy(o, trades)
    && match left
       case None => filled == o.size - o.filled
       case Some(r) =>
         && filled < o.size - o.filled
         && r == o.(filled := o.filled + filled, queueAhead := Max(0, o.queueAhead - VolumeAt(o, trades)))
  }

  ghost predicate Stands(x: X.Exchange, x': X.Exchange, o: X.SimOrder, trades: seq<Trade>) {
    ExchangeOk(x') && StandsAs(o, FilledOn(x', o.id) - FilledOn(x, o.id), OrderOn(x', o.id), trades)
  }

  lemma VolumeMore(o: X.SimOrder, trades: seq<Trade>, t: Trade)
    ensures VolumeAt(o, trades + [t]) == VolumeAt(o, trades) + if AtPrice(o, t) then t.size else 0
    ensures AnyThrough(o, trades + [t]) <==> AnyThrough(o, trades) || Through(o, t)
  {
    var all := trades + [t];
    assert all[..|trades|] == trades && all[|trades|] == t;
    AnyThroughMore(o, all);
  }

  /** Eating a queue twice is eating it once for both volumes. */
  lemma EatenTwice(left: int, queue: int, first: int, second: int)
    requires left > 0 && queue >= 0 && first >= 0 && second >= 0
    requires Min(left, Max(0, first - queue)) < left
    ensures var eaten, behind := Min(left, Max(0, first - queue)), Max(0, queue - first);
            && eaten + Min(left - eaten, Max(0, second - behind)) == Min(left, Max(0, first + second - queue))
            && Max(0, behind - second) == Max(0, queue - first - second)
  {
  }

  /** What the next trade makes of an order that has come so far. */
  lemma NextTrade(o: X.SimOrder, r: X.SimOrder, trades: seq<Trade>, t: Trade)
    requires o.active && o.size > o.filled && o.queueAhead >= 0 && t.size >= 0 && VolumeAt(o, trades) >= 0
    requires FilledBy(o, trades) < o.size - o.filled
    requires r == o.(filled := o.filled + FilledBy(o, trades), queueAhead := Max(0, o.queueAhead - VolumeAt(o, trades)))
    ensures var all, r' := trades + [t], X.Respond(r, X.Tape(t));
            && r'.filled == o.filled + FilledBy(o, all)
            && (r'.active <==> FilledBy(o, all) < o.size - o.filled)
            && (r'.active ==> r' == o.(filled := o.filled + FilledBy(o, all), queueAhead := Max(0, o.queueAhead - VolumeAt(o, all))))
  {
    VolumeMore(o, trades, t);
    TradeMeans(r, t);
    EatenTwice(o.size - o.filled, o.queueAhead, VolumeAt(o, trades), t.size);
  }

  lemma NeverLess(o: X.SimOrder, trades: seq<Trade>, t: Trade)
    requires FilledBy(o, trades) == o.size - o.filled && t.size >= 0
    ensures FilledBy(o, trades + [t]) == o.size - o.filled
  {
    VolumeMore(o, trades, t);
  }

  /** What one trade makes of an order, or of there being none left. */
  function After(left: Option<X.SimOrder>, t: Trade): Option<X.SimOrder> {
    if left.Some? && X.Respond(left.value, X.Tape(t)).active then Some(X.Respond(left.value, X.Tape(t))) else None
  }

  function FilledMore(left: Option<X.SimOrder>, t: Trade): int {
    if left.Some? then X.Respond(left.value, X.Tape(t)).filled - left.value.filled else 0
  }

  lemma StandsOn(o: X.SimOrder, filled: int, left: Option<X.SimOrder>, trades: seq<Trade>, t: Trade)
    requires StandsAs(o, filled, left, trades) && Sized(trades) && t.size >= 0
    requires o.queueAhead >= 0 && o.active && o.size > o.filled
    ensures StandsAs(o, filled + FilledMore(left, t), After(left, t), trades + [t])
  {
    VolumeNonNegative(o, trades);
    if left.Some? {
      NextTrade(o, left.value, trades, t);
    } else {
      NeverLess(o, trades, t);
    }
  }

  lemma IdleStands(o: X.SimOrder, filled: int, left: Option<X.SimOrder>, trades: seq<Trade>, t: Trade)
    requires StandsAs(o, filled, left, trades) && t.aggressor == 0
    ensures StandsAs(o, filled, left, trades + [t])
  {
    VolumeMore(o, trades, t);
  }

  lemma OneMoreTrade(x: X.Exchange, x': X.Exchange, o: X.SimOrder, trades: seq<Trade>, t: Trade, clock: real)
    requires Stands(x, x', o, trades) && Sized(trades) && t.size >= 0 && o.queueAhead >= 0 && o.active
    requires o.size > o.filled
    ensures Stands(x, X.OnMarket(x', X.Tape(t), clock), o, trades + [t])
  {
    var filled, left := FilledOn(x', o.id) - FilledOn(x, o.id), OrderOn(x', o.id);
    if t.aggressor == 0 {
      IdleSame(x', X.Tape(t), clock);
      IdleStands(o, filled, left, trades, t);
    } else {
      OrderMoves(x', X.Tape(t), clock, o.id);
      FilledMoves(x', X.Tape(t), clock, o.id);
      StandsOn(o, filled, left, trades, t);
    }
  }

  /**
   * Over any tape, with no book between: an order is filled whole once a
   * trade has gone through it, and otherwise by what has traded at its price
   * over the queue it found; what still rests waits behind what is left of it.
   */
  lemma {:induction false} TapeMeans(x: X.Exchange, o: X.SimOrder, trades: seq<Trade>, clock: real)
    requires ExchangeOk(x) && OrderOn(x, o.id) == Some(o) && o.queueAhead >= 0 && Sized(trades)
    ensures Stands(x, TapeFolded(x, trades, clock), o, trades)
  {
    OrderOnRests(x, o.id);
    if trades != [] {
      var n := |trades| - 1;
      assert trades == trades[..n] + [trades[n]];
      TapeMeans(x, o, trades[..n], clock);
      assert trades[n] in trades;
      OneMoreTrade(x, TapeFolded(x, trades[..n], clock), o, trades[..n], trades[n], clock);
    }
  }

  /** What a two-sided book makes of an order that rests, or of there being none left. */
  lemma BookNext(x: X.Exchange, s: BookSnapshot, clock: real, id: int)
    requires ExchangeOk(x) && s.TwoSided()
    requires OrderOn(x, id).Some? ==> OrderOn(x, id).value.active && OrderOn(x, id).value.size > OrderOn(x, id).value.filled
    ensures var x', left := X.OnMarket(x, X.Book(s), clock), OrderOn(x, id);
            var crossed := left.Some? && Crossed(left.value, s);
            && (OrderOn(x', id).None? <==> left.None? || crossed)
            && FilledOn(x', id) == FilledOn(x, id) + if crossed then left.value.size - left.value.filled else 0
  {
    OrderMoves(x, X.Book(s), clock, id);
    FilledMoves(x, X.Book(s), clock, id);
    if OrderOn(x, id).Some? {
      BookMeans(OrderOn(x, id).value, s);
    }
  }

  /** A step's whole tape reaches an order first, and its book finds what the tape has left. */
  lemma MarketMeans(s: Session, i: Input, o: X.SimOrder) returns (filled: int, left: Option<X.SimOrder>)
    requires ExchangeOk(s.desk.exchange) && OrderOn(s.desk.exchange, o.id) == Some(o) && o.queueAhead >= 0
    requires Sized(i.trades) && i.snapshot.TwoSided()
    ensures StandsAs(o, filled, left, i.trades)
    ensures var x, x' := s.desk.exchange, MarketSeen(s, i).desk.exchange;
            var crossed := left.Some? && Crossed(left.value, i.snapshot);
            && (OrderOn(x', o.id).None? <==> left.None? || crossed)
            && FilledOn(x', o.id) == FilledOn(x, o.id) + if crossed then o.size - o.filled else filled
  {
    var x := s.desk.exchange;
    var taped := TapeFolded(x, i.trades, i.clock);
    TapeMeans(x, o, i.trades, i.clock);
    filled, left := FilledOn(taped, o.id) - FilledOn(x, o.id), OrderOn(taped, o.id);
    OrderOnRests(x, o.id);
    BookNext(taped, i.snapshot, i.clock, o.id);
  }

  // ---- what a fill says -------------------------------------------------

  /**
   * A fill is of one order, at its price and on its side, for what the move filled of it, at the clock's time and
   * the contract's fee.
   */
  predicate FillOfMove(x: X.Exchange, m: X.Market, clock: real, f: Fill, k: nat)
    requires k < |x.orders|
  {
    var o := x.orders[k];
    && f.orderId == o.id && f.side == o.side && f.price == o.price && f.ts == clock
    && f.size == X.Respond(o, m).filled - o.filled > 0 && f.fees == x.feePerContract * f.size as real
  }

  lemma {:induction false} FillsAre(x: X.Exchange, m: X.Market, clock: real, n: nat)
    requires n <= |x.orders|
    ensures forall f :: f in X.MarketFills(x.orders[..n], m, clock, x.feePerContract) ==>
              exists k :: 0 <= k < |x.orders| && FillOfMove(x, m, clock, f, k)
  {
    if n > 0 {
      FillsAre(x, m, clock, n - 1);
      var front := x.orders[..n];
      assert front[..n - 1] == x.orders[..n - 1] && front[n - 1] == x.orders[n - 1];
      var more := X.ResponseFills(front[n - 1], X.Respond(front[n - 1], m), clock, x.feePerContract);
      assert more != [] ==> more == [more[0]] && FillOfMove(x, m, clock, more[0], n - 1);
    }
  }

  /** Whatever a move logs as filled is such a fill, in the log and in the record of fills alike. */
  lemma MoveFills(x: X.Exchange, m: X.Market, clock: real)
    ensures var x' := X.OnMarket(x, m, clock);
            && |x'.fills| >= |x.fills| && x'.fills[..|x.fills|] == x.fills
            && x'.events == x.events + X.FillEvents(x'.fills[|x.fills|..])
            && forall f :: f in x'.fills[|x.fills|..] ==> exists k :: 0 <= k < |x.orders| && FillOfMove(x, m, clock, f, k)
  {
    FillsAre(x, m, clock, |x.orders|);
    assert x.orders[..|x.orders|] == x.orders;
    assert X.OnMarket(x, m, clock).fills[|x.fills|..] == X.MarketFills(x.orders, m, clock, x.feePerContract);
  }
}
