/** Joining the front of the queue is the optimistic bound on joining the back. */
module QueuePosition {
  import opened Common
  import opened Orders
  import opened Coherence
  import opened SessionCoherence
  import X = SimulatedExchange

  /** A market move and the clock it is seen at. */
  datatype Move = Move(market: X.Market, clock: real)

  function Moved(x: X.Exchange, moves: seq<Move>): X.Exchange {
    if moves == [] then x
    else
      var last := moves[|moves| - 1];
      X.OnMarket(Moved(x, moves[..|moves| - 1]), last.market, last.clock)
  }

  /** Contracts an exchange has filled of an order since it was placed. */
  function FilledOn(x: X.Exchange, id: int): int { FilledUnder(x.fills, id) }

  /** Order id, if it still rests. */
  function OrderOn(x: X.Exchange, id: int): Option<X.SimOrder> {
    var i := X.IndexOf(x.orders, id);
    if i < |x.orders| then Some(x.orders[i]) else None
  }

  /** Order id was placed for size contracts, and rests with what is left of them. */
  ghost predicate Tracks(x: X.Exchange, id: int, side: Side, price: real, size: int) {
    && ExchangeOk(x)
    && match OrderOn(x, id)
       case None => FilledOn(x, id) == size
       case Some(o) => o.side == side && o.price == price && o.size == size && o.filled == FilledOn(x, id)
  }

  /** ahead has filled at least as much of the order as behind, and waits behind no more. */
  ghost predicate NoWorse(ahead: X.Exchange, behind: X.Exchange, id: int, side: Side, price: real, size: int) {
    && Tracks(ahead, id, side, price, size) && Tracks(behind, id, side, price, size)
    && FilledOn(behind, id) <= FilledOn(ahead, id)
    && (OrderOn(ahead, id).Some? && OrderOn(behind, id).Some? ==>
          OrderOn(ahead, id).value.queueAhead <= OrderOn(behind, id).value.queueAhead)
  }

  lemma OrderOnRests(x: X.Exchange, id: int)
    requires ExchangeOk(x) && OrderOn(x, id).Some?
    ensures var o := OrderOn(x, id).value; o in x.orders && o.id == id && o.active && o.Remaining() > 0
  {
  }

  /** An id names at most one order. */
  lemma OrderOnIs(x: X.Exchange, o: X.SimOrder)
    requires ExchangeOk(x) && o in x.orders
    ensures OrderOn(x, o.id) == Some(o)
  {
    var k :| 0 <= k < |x.orders| && x.orders[k] == o;
    assert X.IndexOf(x.orders, o.id) == k;
  }

  /** One move: less queue in front and more already filled is never overtaken. */
  lemma RespondMonotone(a: X.SimOrder, b: X.SimOrder, m: X.Market)
    requires a.active && b.active && a.Remaining() > 0 && b.Remaining() > 0
    requires a.side == b.side && a.price == b.price && a.size == b.size
    requires a.queueAhead <= b.queueAhead && b.filled <= a.filled
    ensures var ra, rb := X.Respond(a, m), X.Respond(b, m);
            rb.filled <= ra.filled && (ra.active ==> rb.active && ra.queueAhead <= rb.queueAhead)
  {
  }

  /** Where an order is after a move. */
  lemma OrderMoves(x: X.Exchange, m: X.Market, clock: real, id: int)
    requires ExchangeOk(x) && !X.Idle(m)
    ensures var x' := X.OnMarket(x, m, clock);
            && ExchangeOk(x')
            && OrderOn(x', id) ==
               match OrderOn(x, id)
               case None => None
               case Some(o) => if X.Respond(o, m).active then Some(X.Respond(o, m)) else None
  {
    var x' := X.OnMarket(x, m, clock);
    MarketExchangeOk(x, m, clock);
    ExchangeRests(x);
    MarketOrders(x.orders, m);
    if OrderOn(x', id).Some? {
      OrderOnRests(x', id);
      var k :| 0 <= k < |x.orders| && OrderOn(x', id).value == X.Respond(x.orders[k], m);
      RespondFacts(x.orders[k], m);
      OrderOnIs(x, x.orders[k]);
    } else if OrderOn(x, id).Some? {
      var i := X.IndexOf(x.orders, id);
      OrderOnRests(x, id);
      RespondFacts(x.orders[i], m);
      if X.Respond(x.orders[i], m).active {
        OrderOnIs(x', X.Respond(x.orders[i], m));
      }
    }
  }

  /** What has filled of it after a move. */
  lemma FilledMoves(x: X.Exchange, m: X.Market, clock: real, id: int)
    requires ExchangeOk(x)
    ensures FilledOn(X.OnMarket(x, m, clock), id) ==
            FilledOn(x, id) + if OrderOn(x, id).Some? then X.Respond(OrderOn(x, id).value, m).filled - OrderOn(x, id).value.filled else 0
  {
    ExchangeRests(x);
    assert forall o :: o in x.orders ==> o.active && o.Remaining() > 0;
    MarketLogs(x.orders, m, clock, x.feePerContract, id);
    FilledOfOne(x.orders, m, id, X.IndexOf(x.orders, id));
    FilledUnderAppend(x.fills, X.MarketFills(x.orders, m, clock, x.feePerContract), id);
  }

  lemma MoveTracks(x: X.Exchange, m: X.Market, clock: real, id: int, side: Side, price: real, size: int)
    requires Tracks(x, id, side, price, size) && !X.Idle(m)
    ensures Tracks(X.OnMarket(x, m, clock), id, side, price, size)
  {
    OrderMoves(x, m, clock, id);
    FilledMoves(x, m, clock, id);
    if OrderOn(x, id).Some? {
      OrderOnRests(x, id);
      RespondFacts(OrderOn(x, id).value, m);
    }
  }

  lemma MoveNoWorse(ahead: X.Exchange, behind: X.Exchange, m: X.Market, clock: real, id: int, side: Side, price: real, size: int)
    requires NoWorse(ahead, behind, id, side, price, size) && !X.Idle(m)
    ensures NoWorse(X.OnMarket(ahead, m, clock), X.OnMarket(behind, m, clock), id, side, price, size)
  {
    MoveTracks(ahead, m, clock, id, side, price, size);
    MoveTracks(behind, m, clock, id, side, price, size);
    OrderMoves(ahead, m, clock, id);
    OrderMoves(behind, m, clock, id);
    FilledMoves(ahead, m, clock, id);
    FilledMoves(behind, m, clock, id);
    var a, b := OrderOn(ahead, id), OrderOn(behind, id);
    if b.Some? {
      OrderOnRests(behind, id);
      RespondFacts(b.value, m);
      if a.Some? {
        OrderOnRests(ahead, id);
        RespondFacts(a.value, m);
        RespondMonotone(a.value, b.value, m);
      }
    } else if a.Some? {
      OrderOnRests(ahead, id);
    }
  }

  lemma IdleSame(x: X.Exchange, m: X.Market, clock: real)
    requires X.Idle(m)
    ensures var x' := X.OnMarket(x, m, clock);
            x'.orders == x.orders && x'.fills == x.fills && x'.events == x.events && x'.nextId == x.nextId
  {
    X.NoFills(x.orders, m, clock, x.feePerContract);
    assert x.fills + [] == x.fills && x.events + X.FillEvents([]) == x.events;
  }

  lemma IdleNoWorse(ahead: X.Exchange, behind: X.Exchange, m: X.Market, clock: real, id: int, side: Side, price: real, size: int)
    requires NoWorse(ahead, behind, id, side, price, size) && X.Idle(m)
    ensures NoWorse(X.OnMarket(ahead, m, clock), X.OnMarket(behind, m, clock), id, side, price, size)
  {
    IdleSame(ahead, m, clock);
    IdleSame(behind, m, clock);
  }

  /** Cumulative fill is antitone in the queue an order starts behind. */
  lemma {:induction false} FillAntitoneInQueue(ahead: X.Exchange, behind: X.Exchange, moves: seq<Move>,
                                               id: int, side: Side, price: real, size: int)
    requires NoWorse(ahead, behind, id, side, price, size)
    ensures NoWorse(Moved(ahead, moves), Moved(behind, moves), id, side, price, size)
    ensures FilledOn(Moved(behind, moves), id) <= FilledOn(Moved(ahead, moves), id)
  {
    if moves != [] {
      var n := |moves| - 1;
      FillAntitoneInQueue(ahead, behind, moves[..n], id, side, price, size);
      var a, b, last := Moved(ahead, moves[..n]), Moved(behind, moves[..n]), moves[n];
      if X.Idle(last.market) {
        IdleNoWorse(a, b, last.market, last.clock, id, side, price, size);
      } else {
        MoveNoWorse(a, b, last.market, last.clock, id, side, price, size);
      }
    }
  }

  /** A book lists what rests. */
  predicate Sizes(x: X.Exchange) {
    x.snapshot.Some? ==>
      && (forall l :: l in x.snapshot.value.bids ==> l.size >= 0)
      && (forall l :: l in x.snapshot.value.asks ==> l.size >= 0)
  }

  lemma {:induction false} LevelSizeNonNegative(rows: seq<Level>, price: real)
    requires forall l :: l in rows ==> l.size >= 0
    ensures X.LevelSize(rows, price).Some? ==> X.LevelSize(rows, price).value >= 0
  {
    if rows != [] {
      LevelSizeNonNegative(rows[1..], price);
    }
  }

  lemma {:induction false} NothingUnder(fills: seq<Fill>, id: int)
    requires forall f :: f in fills ==> f.orderId != id
    ensures FilledUnder(fills, id) == 0
  {
    if fills != [] {
      NothingUnder(fills[..|fills| - 1], id);
    }
  }

  lemma PlacedTracks(x: X.Exchange, side: Side, price: real, size: int)
    requires ExchangeOk(x) && size > 0
    requires forall f :: f in x.fills ==> f.orderId < x.nextId
    ensures var x' := X.Place(x, side, price, size);
            && Tracks(x', x.nextId, side, price, size) && OrderOn(x', x.nextId).Some?
            && OrderOn(x', x.nextId).value.queueAhead == X.QueueAt(x, side, price)
  {
    PlacedExchange(x, side, price, size);
    NothingUnder(x.fills, x.nextId);
    var x' := X.Place(x, side, price, size);
    var o := x'.orders[|x.orders|];
    assert o in x'.orders && o.id == x.nextId;
    OrderOnIs(x', o);
  }

  /**
   * "front" is the optimistic bound: the same order placed on the same
   * exchange, and met by the same books and trades, has never filled more
   * from the back of the queue than from the front.
   */
  lemma FrontBoundsBack(x: X.Exchange, side: Side, price: real, size: int, moves: seq<Move>)
    requires ExchangeOk(x) && size > 0 && Sizes(x)
    requires forall f :: f in x.fills ==> f.orderId < x.nextId
    ensures var front, back := X.Place(x.(front := true), side, price, size), X.Place(x.(front := false), side, price, size);
            FilledOn(Moved(back, moves), x.nextId) <= FilledOn(Moved(front, moves), x.nextId)
  {
    var f, b := x.(front := true), x.(front := false);
    PlacedTracks(f, side, price, size);
    PlacedTracks(b, side, price, size);
    if x.snapshot.Some? {
      LevelSizeNonNegative(x.snapshot.value.Rows(side), price);
    }
    FillAntitoneInQueue(X.Place(f, side, price, size), X.Place(b, side, price, size), moves, x.nextId, side, price, size);
  }
}
