/** The simulated exchange: fills resting quotes off the book and the tape. */
module SimulatedExchange {
  import opened Common
  import opened Orders

  datatype SimOrder = SimOrder(id: int, side: Side, price: real, size: int, filled: int, queueAhead: int, active: bool) {
    function Remaining(): int { size - filled }
  }

  datatype Exchange = Exchange(
    front: bool,
    feePerContract: real,
    orders: seq<SimOrder>,
    events: seq<OrderEvent>,
    nextId: int,
    snapshot: Option<BookSnapshot>,
    sent: int,
    fills: seq<Fill>)

  /** The two things the market does to a resting order. */
  datatype Market = Book(snapshot: BookSnapshot) | Tape(trade: Trade)

  // ---- the verbs --------------------------------------------------------

  /** Size of the first level at a price, if one is there. */
  function LevelSize(rows: seq<Level>, price: real): Option<int> {
    if rows == [] then None
    else if AbsReal(rows[0].price - price) < EPSILON then Some(rows[0].size)
    else LevelSize(rows[1..], price)
  }

  function QueueAt(x: Exchange, side: Side, price: real): int {
    if x.front || x.snapshot.None? then 0
    else
      match LevelSize(x.snapshot.value.Rows(side), price)
      case None => 0
      case Some(size) => size
  }

  function IndexOf(orders: seq<SimOrder>, id: int): (i: nat)
    ensures i <= |orders|
    ensures i < |orders| ==> orders[i].id == id
    ensures forall j :: 0 <= j < i ==> orders[j].id != id
  {
    if orders == [] then 0
    else if orders[0].id == id then 0
    else
      var rest := IndexOf(orders[1..], id);
      assert forall j :: 1 <= j < 1 + rest ==> orders[j] == orders[1..][j - 1];
      1 + rest
  }

  function Place(x: Exchange, side: Side, price: real, size: int): Exchange {
    x.(orders := x.orders + [SimOrder(x.nextId, side, price, size, 0, QueueAt(x, side, price), true)],
       events := x.events + [Ack(x.nextId)],
       nextId := x.nextId + 1,
       sent := x.sent + 1)
  }

  /** A replace to another price, or to more size, goes to the back of the queue. */
  function Replaced(x: Exchange, o: SimOrder, price: real, size: int): SimOrder {
    var requeued :=
      if price != o.price then o.(price := price, queueAhead := QueueAt(x, o.side, price))
      else if size > o.Remaining() then o.(queueAhead := QueueAt(x, o.side, price))
      else o;
    requeued.(size := size + o.filled)
  }

  function Replace(x: Exchange, id: int, price: real, size: int): Exchange {
    var i := IndexOf(x.orders, id);
    if i == |x.orders| || !x.orders[i].active then x.(sent := x.sent + 1)
    else
      x.(orders := x.orders[i := Replaced(x, x.orders[i], price, size)],
         events := x.events + [Ack(id)],
         sent := x.sent + 1)
  }

  function Cancel(x: Exchange, id: int): Exchange {
    var i := IndexOf(x.orders, id);
    if i == |x.orders| || !x.orders[i].active then x.(sent := x.sent + 1)
    else
      x.(orders := Compacted(x.orders[i := x.orders[i].(active := false)]),
         events := x.events + [Cancelled(id)],
         sent := x.sent + 1)
  }

  function Compacted(orders: seq<SimOrder>): seq<SimOrder> {
    if orders == [] then []
    else
      var last := orders[|orders| - 1];
      Compacted(orders[..|orders| - 1]) + if last.active then [last] else []
  }

  // ---- the market -------------------------------------------------------

  /** The order after an execution of size contracts; a size of 0 or less is none. */
  function Executed(o: SimOrder, size: int): SimOrder {
    if size <= 0 then o
    else
      var done := o.(filled := o.filled + size);
      if done.Remaining() <= 0 then done.(active := false) else done
  }

  function OnBookOne(o: SimOrder, s: BookSnapshot): SimOrder
    requires s.TwoSided()
  {
    if !o.active then o
    else
      var shrunk := match LevelSize(s.Rows(o.side), o.price)
                    case None => o
                    case Some(size) => o.(queueAhead := Min(o.queueAhead, size));
      var crossed := if o.side.Bid? then s.asks[0].price <= o.price + EPSILON
                     else s.bids[0].price >= o.price - EPSILON;
      if crossed then Executed(shrunk, shrunk.Remaining()) else shrunk
  }

  function OnTradeOne(o: SimOrder, t: Trade): SimOrder {
    if !o.active || t.aggressor != -o.side.Sign() then o
    else
      var through := if o.side.Bid? then t.price < o.price - EPSILON else t.price > o.price + EPSILON;
      if through then Executed(o, o.Remaining())
      else if AbsReal(t.price - o.price) < EPSILON then
        var take := Min(o.queueAhead, t.size);
        var waited := o.(queueAhead := o.queueAhead - take);
        if t.size - take > 0 then Executed(waited, Min(t.size - take, waited.Remaining())) else waited
      else o
  }

  /** One order's response to the market; orders do not see each other. */
  function Respond(o: SimOrder, m: Market): SimOrder {
    match m
    case Book(s) => if s.TwoSided() then OnBookOne(o, s) else o
    case Tape(t) => OnTradeOne(o, t)
  }

  function Fees(feePerContract: real, size: int): real { feePerContract * size as real }

  function ResponseFills(before: SimOrder, after: SimOrder, clock: real, fee: real): seq<Fill> {
    var size := after.filled - before.filled;
    if size <= 0 then []
    else [Fill(clock, before.side, before.price, size, Fees(fee, size), before.id)]
  }

  function Responses(orders: seq<SimOrder>, m: Market): seq<SimOrder> {
    seq(|orders|, i requires 0 <= i < |orders| => Respond(orders[i], m))
  }

  function MarketFills(orders: seq<SimOrder>, m: Market, clock: real, fee: real): seq<Fill> {
    if orders == [] then []
    else
      var last := orders[|orders| - 1];
      MarketFills(orders[..|orders| - 1], m, clock, fee) + ResponseFills(last, Respond(last, m), clock, fee)
  }

  function FillEvents(fills: seq<Fill>): seq<OrderEvent> {
    seq(|fills|, i requires 0 <= i < |fills| => Filled(fills[i].orderId, Some(fills[i])))
  }

  /** A book with a side missing and a trade with no aggressor stop at the door. */
  predicate Idle(m: Market) {
    match m
    case Book(s) => !s.TwoSided()
    case Tape(t) => t.aggressor == 0
  }

  function OnMarket(x: Exchange, m: Market, clock: real): Exchange {
    var fills := MarketFills(x.orders, m, clock, x.feePerContract);
    x.(snapshot := if m.Book? then Some(m.snapshot) else x.snapshot,
       orders := if Idle(m) then x.orders else Compacted(Responses(x.orders, m)),
       events := x.events + FillEvents(fills),
       fills := x.fills + fills)
  }

  /** The exchange once the market has reached its first i orders. */
  ghost function Partway(x: Exchange, m: Market, clock: real, i: nat): Exchange
    requires i <= |x.orders|
  {
    var fills := MarketFills(x.orders[..i], m, clock, x.feePerContract);
    x.(orders := Responses(x.orders[..i], m) + x.orders[i..],
       events := x.events + FillEvents(fills),
       fills := x.fills + fills)
  }

  /** The exchange once order i has responded. */
  ghost function Reached(x: Exchange, m: Market, clock: real, i: nat): Exchange
    requires i < |x.orders|
  {
    var o := x.orders[i];
    var fills := ResponseFills(o, Respond(o, m), clock, x.feePerContract);
    x.(orders := x.orders[i := Respond(o, m)],
       events := x.events + FillEvents(fills),
       fills := x.fills + fills)
  }

  lemma Advance(x: Exchange, m: Market, clock: real, i: nat)
    requires i < |x.orders|
    ensures Partway(x, m, clock, i).orders[i] == x.orders[i]
    ensures Reached(Partway(x, m, clock, i), m, clock, i) == Partway(x, m, clock, i + 1)
  {
    var o := x.orders[i];
    assert x.orders[..i + 1][..i] == x.orders[..i];
    var due := MarketFills(x.orders[..i], m, clock, x.feePerContract);
    var next := ResponseFills(o, Respond(o, m), clock, x.feePerContract);
    FillEventsAppend(due, next);
    assert x.events + FillEvents(due) + FillEvents(next) == x.events + (FillEvents(due) + FillEvents(next));
    assert x.fills + due + next == x.fills + (due + next);
    assert Responses(x.orders[..i + 1], m) == Responses(x.orders[..i], m) + [Respond(o, m)];
  }

  function Drained(x: Exchange): Exchange {
    x.(events := [])
  }

  lemma FillEventsAppend(first: seq<Fill>, second: seq<Fill>)
    ensures FillEvents(first + second) == FillEvents(first) + FillEvents(second)
  {
  }

  // ---- the broker itself ------------------------------------------------

  class SimulatedBroker {
    const front: bool
    const feePerContract: real
    var orders: seq<SimOrder>
    var events: seq<OrderEvent>
    var nextId: int
    var snapshot: Option<BookSnapshot>
    var sent: int
    var fills: seq<Fill>

    ghost function View(): Exchange
      reads this
    {
      Exchange(front, feePerContract, orders, events, nextId, snapshot, sent, fills)
    }

    constructor (front: bool, feePerContract: real)
      ensures View() == Exchange(front, feePerContract, [], [], 1, None, 0, [])
    {
      this.front, this.feePerContract := front, feePerContract;
      orders, events, nextId, snapshot, sent, fills := [], [], 1, None, 0, [];
    }

    method FirstLevelAt(rows: seq<Level>, price: real) returns (found: Option<int>)
      ensures found == LevelSize(rows, price)
    {
      var i := 0;
      while i < |rows|
        invariant 0 <= i <= |rows|
        invariant LevelSize(rows, price) == LevelSize(rows[i..], price)
      {
        if AbsReal(rows[i].price - price) < EPSILON {
          return Some(rows[i].size);
        }
        assert rows[i..][1..] == rows[i + 1..];
        i := i + 1;
      }
      return None;
    }

    method QueueAhead(side: Side, price: real) returns (queue: int)
      ensures queue == QueueAt(View(), side, price)
    {
      if front || snapshot.None? {
        return 0;
      }
      var level := FirstLevelAt(snapshot.value.Rows(side), price);
      queue := if level.Some? then level.value else 0;
    }

    method FindOrder(id: int) returns (i: nat)
      ensures i == IndexOf(orders, id)
    {
      i := 0;
      while i < |orders|
        invariant 0 <= i <= |orders|
        invariant forall j :: 0 <= j < i ==> orders[j].id != id
      {
        if orders[i].id == id {
          return;
        }
        i := i + 1;
      }
    }

    method PlaceOrder(side: Side, price: real, size: int) returns (id: int)
      modifies this
      ensures View() == Place(old(View()), side, price, size)
      ensures id == old(nextId)
    {
      id := nextId;
      var queue := QueueAhead(side, price);
      nextId := nextId + 1;
      orders := orders + [SimOrder(id, side, price, size, 0, queue, true)];
      events := events + [Ack(id)];
      sent := sent + 1;
    }

    method ReplaceOrder(id: int, price: real, size: int)
      modifies this
      ensures View() == Replace(old(View()), id, price, size)
    {
      sent := sent + 1;
      var i := FindOrder(id);
      if i == |orders| || !orders[i].active {
        return;
      }
      var o := orders[i];
      if price != o.price {
        var queue := QueueAhead(o.side, price);
        o := o.(price := price, queueAhead := queue);
      } else if size > o.Remaining() {
        var queue := QueueAhead(o.side, price);
        o := o.(queueAhead := queue);
      }
      orders := orders[i := o.(size := size + o.filled)];
      events := events + [Ack(id)];
    }

    method CancelOrder(id: int)
      modifies this
      ensures View() == Cancel(old(View()), id)
    {
      sent := sent + 1;
      var i := FindOrder(id);
      if i == |orders| || !orders[i].active {
        return;
      }
      orders := orders[i := orders[i].(active := false)];
      events := events + [Cancelled(id)];
      Compact();
    }

    method DrainEvents() returns (out: seq<OrderEvent>)
      modifies this
      ensures out == old(events)
      ensures View() == Drained(old(View()))
    {
      out := events;
      events := [];
    }

    method OnBookSnapshot(s: BookSnapshot, clock: real)
      modifies this
      ensures View() == OnMarket(old(View()), Book(s), clock)
    {
      snapshot := Some(s);
      if !s.TwoSided() {
        NoFills(orders, Book(s), clock, feePerContract);
        assert events + FillEvents([]) == events && fills + [] == fills;
        return;
      }
      ghost var start, m := View(), Book(s);
      for i := 0 to |orders|
        invariant View() == Partway(start, m, clock, i)
      {
        Advance(start, m, clock, i);
        BookReaches(i, s, clock);
      }
      assert start.orders[..|start.orders|] == start.orders;
      assert orders == Responses(start.orders, m);
      Compact();
    }

    method OnTrade(t: Trade, clock: real)
      modifies this
      ensures View() == OnMarket(old(View()), Tape(t), clock)
    {
      if t.aggressor == 0 {
        NoFills(orders, Tape(t), clock, feePerContract);
        assert events + FillEvents([]) == events && fills + [] == fills;
        return;
      }
      ghost var start, m := View(), Tape(t);
      for i := 0 to |orders|
        invariant View() == Partway(start, m, clock, i)
      {
        Advance(start, m, clock, i);
        TradeReaches(i, t, clock);
      }
      assert start.orders[..|start.orders|] == start.orders;
      assert orders == Responses(start.orders, m);
      Compact();
    }

    method BookReaches(i: nat, s: BookSnapshot, clock: real)
      requires i < |orders| && s.TwoSided()
      modifies this
      ensures View() == Reached(old(View()), Book(s), clock, i)
    {
      var o := orders[i];
      assert events + FillEvents([]) == events && fills + [] == fills && orders[i := o] == orders;
      if !o.active {
        return;
      }
      var level := FirstLevelAt(s.Rows(o.side), o.price);
      if level.Some? {
        orders := orders[i := o.(queueAhead := Min(o.queueAhead, level.value))];
      }
      var crossed := if o.side.Bid? then s.asks[0].price <= o.price + EPSILON
                     else s.bids[0].price >= o.price - EPSILON;
      if crossed {
        FillOrder(i, orders[i].Remaining(), o.price, clock);
      }
      assert orders == old(orders)[i := Respond(o, Book(s))];
    }

    method TradeReaches(i: nat, t: Trade, clock: real)
      requires i < |orders|
      modifies this
      ensures View() == Reached(old(View()), Tape(t), clock, i)
    {
      var o := orders[i];
      assert events + FillEvents([]) == events && fills + [] == fills && orders[i := o] == orders;
      if !o.active || t.aggressor != -o.side.Sign() {
        return;
      }
      var through := if o.side.Bid? then t.price < o.price - EPSILON else t.price > o.price + EPSILON;
      if through {
        FillOrder(i, o.Remaining(), o.price, clock);
      } else if AbsReal(t.price - o.price) < EPSILON {
        var take := Min(o.queueAhead, t.size);
        orders := orders[i := o.(queueAhead := o.queueAhead - take)];
        var left := t.size - take;
        if left > 0 {
          FillOrder(i, Min(left, o.Remaining()), o.price, clock);
        }
      }
      assert orders == old(orders)[i := Respond(o, Tape(t))];
    }

    method FillOrder(i: nat, size: int, price: real, clock: real)
      requires i < |orders|
      modifies this
      ensures orders == old(orders)[i := Executed(old(orders)[i], size)]
      ensures var fresh' := if size <= 0 then []
                            else [Fill(clock, old(orders)[i].side, price, size, Fees(feePerContract, size), old(orders)[i].id)];
              fills == old(fills) + fresh' && events == old(events) + FillEvents(fresh')
      ensures nextId == old(nextId) && snapshot == old(snapshot) && sent == old(sent)
    {
      if size <= 0 {
        return;
      }
      var o := orders[i].(filled := orders[i].filled + size);
      var f := Fill(clock, o.side, price, size, Fees(feePerContract, size), o.id);
      fills := fills + [f];
      events := events + [Filled(o.id, Some(f))];
      if o.Remaining() <= 0 {
        o := o.(active := false);
      }
      orders := orders[i := o];
    }

    method Compact()
      modifies this
      ensures View() == old(View()).(orders := Compacted(old(orders)))
    {
      var kept: seq<SimOrder> := [];
      for i := 0 to |orders|
        invariant kept == Compacted(orders[..i])
        invariant View() == old(View())
      {
        assert orders[..i + 1][..i] == orders[..i];
        if orders[i].active {
          kept := kept + [orders[i]];
        }
      }
      assert orders[..|orders|] == orders;
      orders := kept;
    }
  }

  /** A one-sided book and a trade with no aggressor fill nothing. */
  lemma {:induction false} NoFills(orders: seq<SimOrder>, m: Market, clock: real, fee: real)
    requires Idle(m)
    ensures MarketFills(orders, m, clock, fee) == []
  {
    if orders != [] {
      NoFills(orders[..|orders| - 1], m, clock, fee);
    }
  }
}
