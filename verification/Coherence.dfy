/** The manager's view plus the events it has not read is the exchange. */
module Coherence {
  import opened Common
  import opened Orders
  import opened Throttle
  import opened QuoteManagement
  import X = SimulatedExchange

  // ---- replaying the undrained log over one slot ------------------------

  function OnSlot(slot: Option<WorkingOrder>, e: OrderEvent): Option<WorkingOrder> {
    if slot.None? || slot.value.id != e.orderId then slot
    else
      match e
      case Ack(_) => Some(Acked(slot.value))
      case Filled(_, None) => slot
      case Filled(_, Some(f)) =>
        var after := FilledBy(slot.value, f.size);
        if after.Remaining() <= 0 then None else Some(after)
      case Cancelled(_) => None
      case Rejected(_) => None
  }

  function Replay(slot: Option<WorkingOrder>, events: seq<OrderEvent>): Option<WorkingOrder> {
    if events == [] then slot
    else OnSlot(Replay(slot, events[..|events| - 1]), events[|events| - 1])
  }

  lemma {:induction false} ReplayAppend(slot: Option<WorkingOrder>, first: seq<OrderEvent>, second: seq<OrderEvent>)
    ensures Replay(slot, first + second) == Replay(Replay(slot, first), second)
  {
    if second == [] {
      assert first + second == first;
    } else {
      var n := |second| - 1;
      ReplayAppend(slot, first, second[..n]);
      assert (first + second)[..|first + second| - 1] == first + second[..n];
    }
  }

  lemma ReplayOne(slot: Option<WorkingOrder>, events: seq<OrderEvent>, e: OrderEvent)
    ensures Replay(slot, events + [e]) == OnSlot(Replay(slot, events), e)
  {
    assert (events + [e])[..|events|] == events;
  }

  /** An order only ever leaves the slot, or stays under its own id and side. */
  lemma {:induction false} ReplayKeepsId(slot: Option<WorkingOrder>, events: seq<OrderEvent>)
    ensures Replay(slot, events).Some? ==>
              slot.Some? && Replay(slot, events).value.id == slot.value.id && Replay(slot, events).value.side == slot.value.side
  {
    if events != [] {
      ReplayKeepsId(slot, events[..|events| - 1]);
    }
  }

  lemma {:induction false} ReplayForeign(slot: Option<WorkingOrder>, events: seq<OrderEvent>)
    requires slot.Some? ==> forall i :: 0 <= i < |events| ==> events[i].orderId != slot.value.id
    ensures Replay(slot, events) == slot
  {
    if events != [] {
      ReplayForeign(slot, events[..|events| - 1]);
    }
  }

  /** The manager's own event loop is the two replays, when the slots' ids differ. */
  lemma {:induction false} EventsAreReplays(m: Manager, events: seq<OrderEvent>)
    requires m.working.bid.Some? && m.working.ask.Some? ==> m.working.bid.value.id != m.working.ask.value.id
    ensures OnEvents(m, events).working == Pair(Replay(m.working.bid, events), Replay(m.working.ask, events))
  {
    if events != [] {
      EventsAreReplays(m, events[..|events| - 1]);
      ReplayKeepsId(m.working.bid, events[..|events| - 1]);
      ReplayKeepsId(m.working.ask, events[..|events| - 1]);
    }
  }

  // ---- the property -----------------------------------------------------

  function Settled(d: Desk, side: Side): Option<WorkingOrder> {
    Replay(d.Slot(side), d.exchange.events)
  }

  predicate Same(w: WorkingOrder, o: X.SimOrder) {
    && w.state.Working?
    && w.id == o.id && w.side == o.side && w.price == o.price && w.size == o.size && w.filled == o.filled
  }

  /** Order id rests on the exchange. */
  predicate Rests(orders: seq<X.SimOrder>, id: int) {
    exists o :: o in orders && o.id == id
  }

  /**
   * Replaying the undrained log over the slots gives exactly the orders that
   * rest on the exchange, flatten orders (foreign) aside.
   */
  ghost predicate Agrees(d: Desk, foreign: set<int>) {
    && (forall o :: o in d.exchange.orders && o.id !in foreign ==>
          Settled(d, o.side).Some? && Same(Settled(d, o.side).value, o))
    && (forall side: Side :: Settled(d, side).Some? ==> Rests(d.exchange.orders, Settled(d, side).value.id))
  }

  // ---- what holds it up -------------------------------------------------

  predicate NoAck(events: seq<OrderEvent>, id: int) {
    forall e :: e in events && e.Ack? ==> e.orderId != id
  }

  /** No event ends order id other than by filling it. */
  predicate NoEnd(events: seq<OrderEvent>, id: int) {
    forall e :: e in events && (e.Cancelled? || e.Rejected?) ==> e.orderId != id
  }

  predicate EventOk(e: OrderEvent, nextId: int) {
    && e.orderId < nextId
    && (e.Filled? ==> e.fill.Some? && e.fill.value.size > 0 && e.fill.value.orderId == e.orderId)
  }

  ghost predicate ExchangeOk(x: X.Exchange) {
    && (forall i, j :: 0 <= i < j < |x.orders| ==> x.orders[i].id != x.orders[j].id)
    && (forall o :: o in x.orders ==> o.id < x.nextId && o.active && o.Remaining() > 0)
    && (forall e :: e in x.events ==> EventOk(e, x.nextId))
  }

  ghost predicate SlotOk(d: Desk, foreign: set<int>, side: Side) {
    d.Slot(side).Some? ==>
      var w := d.Slot(side).value;
      var events := d.exchange.events;
      && w.side == side && w.id < d.exchange.nextId && w.id !in foreign && w.filled < w.size
      && (w.state.Working? ==> NoAck(events, w.id))
      && (w.state.PendingReplace? ==> w.targetPrice.Some? && w.targetSize.Some? && w.targetSize.value > 0)
      && (w.state.PendingCancel? || w.state.Unknown? ==> Settled(d, side).None?)
      && (w.state.Unknown? ==> d.manager.suspended.At(side))
      && (w.state.PendingNew? || w.state.PendingReplace? || w.state.Working? ==> NoEnd(events, w.id))
  }

  predicate EntryOk(m: Manager, q: Queued) {
    && q.action.side == q.key
    && (q.action.PlaceQuote? ==> q.action.quote.size > 0 && q.action.quote.side == q.key)
    && (q.action.CancelQuote? && m.working.At(q.key).Some? ==>
          m.working.At(q.key).value.state.Working? || m.working.At(q.key).value.state.PendingCancel?)
  }

  /** At most one entry a side, each still fit to run. */
  ghost predicate QueueOk(d: Desk) {
    && (forall i, j :: 0 <= i < j < |d.queue.pending| ==> d.queue.pending[i].key != d.queue.pending[j].key)
    && (forall q :: q in d.queue.pending ==> EntryOk(d.manager, q))
  }

  ghost predicate DesiredOk(m: Manager) {
    forall side: Side :: m.desired.At(side).Some? ==>
      m.desired.At(side).value.size > 0 && m.desired.At(side).value.side == side
  }

  /** Everything but the queue. */
  ghost predicate Core(d: Desk, foreign: set<int>) {
    && ExchangeOk(d.exchange)
    && (forall id :: id in foreign ==> id < d.exchange.nextId)
    && SlotOk(d, foreign, Bid) && SlotOk(d, foreign, Ask)
    && (d.Slot(Bid).Some? && d.Slot(Ask).Some? ==> d.Slot(Bid).value.id != d.Slot(Ask).value.id)
    && DesiredOk(d.manager)
    && Agrees(d, foreign)
  }

  ghost predicate Inv(d: Desk, foreign: set<int>) {
    Core(d, foreign) && QueueOk(d)
  }

  // ---- two replays compared ---------------------------------------------

  /** An order nobody acknowledges only moves its filled count, whatever its state. */
  lemma {:induction false} UnackedReplay(a: WorkingOrder, b: WorkingOrder, events: seq<OrderEvent>)
    requires a.id == b.id && a.size == b.size && a.filled == b.filled
    requires !a.state.PendingNew? && !b.state.PendingNew?
    requires NoAck(events, a.id)
    ensures var ra, rb := Replay(Some(a), events), Replay(Some(b), events);
            ra.Some? == rb.Some? &&
            (ra.Some? ==> ra.value == a.(filled := ra.value.filled) && rb.value == b.(filled := ra.value.filled))
  {
    if events != [] {
      UnackedReplay(a, b, events[..|events| - 1]);
    }
  }

  /** Without a replace in flight, what an order's state is does not decide when it is gone. */
  lemma {:induction false} SameFate(a: WorkingOrder, b: WorkingOrder, events: seq<OrderEvent>)
    requires a.id == b.id && a.size == b.size && a.filled == b.filled
    requires !a.state.PendingReplace? && !b.state.PendingReplace?
    ensures var ra, rb := Replay(Some(a), events), Replay(Some(b), events);
            ra.Some? == rb.Some? &&
            (ra.Some? ==>
              && ra.value.id == rb.value.id && ra.value.size == rb.value.size && ra.value.filled == rb.value.filled
              && !ra.value.state.PendingReplace? && !rb.value.state.PendingReplace?)
  {
    if events != [] {
      SameFate(a, b, events[..|events| - 1]);
    }
  }

  /** Contracts filled under id in a log. */
  function LoggedFor(events: seq<OrderEvent>, id: int): int {
    FilledUnder(FillsIn(events), id)
  }

  /** With no replace in flight and no cancel, an order is gone exactly when its fills reach its size. */
  lemma {:induction false} GoneWhenFilled(w: WorkingOrder, events: seq<OrderEvent>, nextId: int)
    requires !w.state.PendingReplace? && w.filled < w.size
    requires NoEnd(events, w.id)
    requires forall e :: e in events ==> EventOk(e, nextId)
    ensures var r := Replay(Some(w), events);
            && (r.Some? <==> w.filled + LoggedFor(events, w.id) < w.size)
            && (r.Some? ==> r.value.id == w.id && r.value.size == w.size && !r.value.state.PendingReplace? &&
                            r.value.filled == w.filled + LoggedFor(events, w.id))
            && LoggedFor(events, w.id) >= 0
  {
    if events != [] {
      var n := |events| - 1;
      var e := events[n];
      assert e in events;
      GoneWhenFilled(w, events[..n], nextId);
      FilledUnderAppend(FillsIn(events[..n]), FillIn(e), w.id);
      assert FillIn(e) != [] ==> FillIn(e)[..0] == [];
    }
  }

  // ---- what each verb keeps ---------------------------------------------

  /** A side whose slot is untouched sees nothing of an event about another order. */
  lemma Bystander(d: Desk, d': Desk, foreign: set<int>, side: Side, e: OrderEvent)
    requires SlotOk(d, foreign, side)
    requires d'.Slot(side) == d.Slot(side) && d'.manager.suspended.At(side) == d.manager.suspended.At(side)
    requires d'.exchange.events == d.exchange.events + [e] && d'.exchange.nextId >= d.exchange.nextId
    requires d.Slot(side).Some? ==> e.orderId != d.Slot(side).value.id
    ensures Settled(d', side) == Settled(d, side) && SlotOk(d', foreign, side)
  {
    ReplayOne(d.Slot(side), d.exchange.events, e);
    ReplayKeepsId(d.Slot(side), d.exchange.events);
  }

  lemma PlaceKeeps(d: Desk, foreign: set<int>, side: Side, quote: Quote, clock: real)
    requires Core(d, foreign) && d.Slot(side).None? && quote.size > 0
    ensures Core(PlaceNow(d, side, quote, clock), foreign)
  {
    var d' := PlaceNow(d, side, quote, clock);
    var id, events := d.exchange.nextId, d.exchange.events;
    assert forall i :: 0 <= i < |events| ==> events[i] in events;
    Bystander(d, d', foreign, Other(side), Ack(id));
    assert Agrees(d', foreign) by {
      ReplayForeign(d.Slot(side), events);
      ReplayForeign(d'.Slot(side), events);
      ReplayOne(d'.Slot(side), events, Ack(id));
      Joined(d, d', foreign, side);
    }
    assert ExchangeOk(d'.exchange) by {
      PlacedExchange(d.exchange, side, quote.price, quote.size);
    }
    assert SlotOk(d', foreign, side);
    assert DesiredOk(d'.manager);
  }

  lemma PlacedExchange(x: X.Exchange, side: Side, price: real, size: int)
    requires ExchangeOk(x) && size > 0
    ensures ExchangeOk(X.Place(x, side, price, size))
  {
    assert forall i :: 0 <= i < |x.orders| ==> x.orders[i] in x.orders;
  }

  /** A side with nothing resting gains one order, which its slot settles to. */
  lemma Joined(d: Desk, d': Desk, foreign: set<int>, side: Side)
    requires Core(d, foreign) && Settled(d, side).None?
    requires Settled(d', Other(side)) == Settled(d, Other(side))
    requires |d'.exchange.orders| == |d.exchange.orders| + 1
    requires var o := d'.exchange.orders[|d.exchange.orders|];
             && d'.exchange.orders == d.exchange.orders + [o]
             && o.side == side && Settled(d', side).Some? && Same(Settled(d', side).value, o)
    ensures Agrees(d', foreign)
  {
    var os, os' := d.exchange.orders, d'.exchange.orders;
    forall s: Side | Settled(d', s).Some?
      ensures Rests(os', Settled(d', s).value.id)
    {
      if s == side {
        assert os'[|os|] in os';
      } else {
        var o :| o in os && o.id == Settled(d, s).value.id;
        assert o in os';
      }
    }
  }

  /** The order a settled slot names is the one IndexOf finds. */
  lemma FindSettled(d: Desk, foreign: set<int>, side: Side)
    requires Core(d, foreign) && d.Slot(side).Some?
    ensures var i := X.IndexOf(d.exchange.orders, d.Slot(side).value.id);
            (i < |d.exchange.orders| <==> Settled(d, side).Some?) &&
            (i < |d.exchange.orders| ==> Same(Settled(d, side).value, d.exchange.orders[i]))
  {
    var id := d.Slot(side).value.id;
    var i := X.IndexOf(d.exchange.orders, id);
    ReplayKeepsId(d.Slot(side), d.exchange.events);
    if i < |d.exchange.orders| {
      var o := d.exchange.orders[i];
      assert o in d.exchange.orders;
      ReplayKeepsId(d.Slot(o.side), d.exchange.events);
    }
  }

  lemma ReplaceKeeps(d: Desk, foreign: set<int>, side: Side, clock: real)
    requires Core(d, foreign)
    ensures Core(ReplaceNow(d, side, clock), foreign)
  {
    if d.Slot(side).Some? && d.Slot(side).value.state.Working? {
      if d.manager.desired.At(side).None? {
        CancelKeeps(d, foreign, side, clock);
      } else if ReplaceNow(d, side, clock) != d {
        SentReplaceKeeps(d, foreign, side, clock);
      }
    }
  }

  lemma SentReplaceKeeps(d: Desk, foreign: set<int>, side: Side, clock: real)
    requires Core(d, foreign) && d.Slot(side).Some? && d.Slot(side).value.state.Working?
    requires d.manager.desired.At(side).Some? && ReplaceNow(d, side, clock) != d
    ensures Core(ReplaceNow(d, side, clock), foreign)
  {
    var d' := ReplaceNow(d, side, clock);
    var w, w', events := d.Slot(side).value, d'.Slot(side).value, d.exchange.events;
    FindSettled(d, foreign, side);
    UnackedReplay(w, w', events);
    var i := X.IndexOf(d.exchange.orders, w.id);
    if i < |d.exchange.orders| {
      ReplaceLands(d, d', foreign, side, i);
    } else {
      assert forall j :: 0 <= j < |d.exchange.orders| ==> d.exchange.orders[j] in d.exchange.orders;
      assert Settled(d', Other(side)) == Settled(d, Other(side));
      Removed(d, d', foreign, side, w.id);
    }
  }

  /** The replaced order rests: the acknowledgement in the log brings the slot to the new terms. */
  lemma ReplaceLands(d: Desk, d': Desk, foreign: set<int>, side: Side, i: nat)
    requires Core(d, foreign) && d.Slot(side).Some? && d'.Slot(side).Some?
    requires i == X.IndexOf(d.exchange.orders, d.Slot(side).value.id) < |d.exchange.orders|
    requires Settled(d, side).Some? && Same(Settled(d, side).value, d.exchange.orders[i])
    requires var w, w' := d.Slot(side).value, d'.Slot(side).value;
             && w.state.Working? && w' == w.(state := PendingReplace, targetPrice := w'.targetPrice, targetSize := w'.targetSize,
                                             sentAt := w'.sentAt, lastQuotedAt := w'.lastQuotedAt)
             && w'.targetPrice.Some? && w'.targetSize.Some? && w'.targetSize.value > 0
             && d'.exchange == X.Replace(d.exchange, w.id, w'.targetPrice.value, w'.targetSize.value)
             && Replay(Some(w'), d.exchange.events) == Some(w'.(filled := Settled(d, side).value.filled))
    requires d'.manager == d.manager.(working := d.manager.working.With(side, d'.Slot(side)))
    ensures Core(d', foreign)
  {
    var w' := d'.Slot(side).value;
    assert Settled(d, side).value.id == w'.id && Settled(d, side).value.side == w'.side == side by {
      ReplayKeepsId(d.Slot(side), d.exchange.events);
    }
    Bystander(d, d', foreign, Other(side), Ack(w'.id));
    assert Settled(d', side).Some? && Same(Settled(d', side).value, d'.exchange.orders[i]) by {
      ReplayOne(Some(w'), d.exchange.events, Ack(w'.id));
    }
    assert Agrees(d', foreign) by {
      Swapped(d, d', foreign, side, i);
    }
    assert ExchangeOk(d'.exchange) by {
      RewrittenExchange(d.exchange, d'.exchange, i);
    }
    assert SlotOk(d', foreign, side);
    assert DesiredOk(d'.manager);
  }

  lemma RewrittenExchange(x: X.Exchange, x': X.Exchange, i: nat)
    requires ExchangeOk(x) && i < |x.orders| && |x'.orders| == |x.orders|
    requires x'.orders == x.orders[i := x'.orders[i]]
    requires x'.orders[i].id == x.orders[i].id && x'.orders[i].active && x'.orders[i].Remaining() > 0
    requires x'.events == x.events + [Ack(x.orders[i].id)] && x'.nextId == x.nextId
    ensures ExchangeOk(x')
  {
    assert x.orders[i] in x.orders;
    forall o | o in x'.orders
      ensures o.id < x'.nextId && o.active && o.Remaining() > 0
    {
      var j :| 0 <= j < |x'.orders| && x'.orders[j] == o;
      assert x.orders[j] in x.orders;
    }
  }

  /** Core's agreement after one order of a side has been rewritten in place. */
  lemma Swapped(d: Desk, d': Desk, foreign: set<int>, side: Side, i: nat)
    requires Core(d, foreign) && i < |d.exchange.orders|
    requires |d'.exchange.orders| == |d.exchange.orders|
    requires d'.exchange.orders == d.exchange.orders[i := d'.exchange.orders[i]]
    requires d'.exchange.orders[i].id == d.exchange.orders[i].id
    requires d'.exchange.orders[i].side == side == d.exchange.orders[i].side
    requires Settled(d, side).Some? && Settled(d, side).value.id == d.exchange.orders[i].id
    requires Settled(d', side).Some? && Same(Settled(d', side).value, d'.exchange.orders[i])
    requires Settled(d', Other(side)) == Settled(d, Other(side))
    ensures Agrees(d', foreign)
  {
    var os, os' := d.exchange.orders, d'.exchange.orders;
    forall o | o in os' && o.id !in foreign
      ensures Settled(d', o.side).Some? && Same(Settled(d', o.side).value, o)
    {
      var j :| 0 <= j < |os'| && os'[j] == o;
      if j != i {
        assert os[j] in os;
      }
    }
    forall s: Side | Settled(d', s).Some?
      ensures Rests(os', Settled(d', s).value.id)
    {
      if s == side {
        assert os'[i] in os';
      } else {
        var o :| o in os && o.id == Settled(d, s).value.id;
        var j :| 0 <= j < |os| && os[j] == o;
        assert os'[j] in os' && os'[j].id == o.id;
      }
    }
  }

  lemma {:induction false} CompactedKeeps(orders: seq<X.SimOrder>)
    requires forall i, j :: 0 <= i < j < |orders| ==> orders[i].id != orders[j].id
    ensures var kept := X.Compacted(orders);
            && (forall i, j :: 0 <= i < j < |kept| ==> kept[i].id != kept[j].id)
            && (forall o :: o in kept <==> o in orders && o.active)
  {
    if orders != [] {
      var n := |orders| - 1;
      CompactedKeeps(orders[..n]);
      assert orders == orders[..n] + [orders[n]];
      forall i, j | 0 <= i < j < |X.Compacted(orders)|
        ensures X.Compacted(orders)[i].id != X.Compacted(orders)[j].id
      {
        assert X.Compacted(orders)[i] in X.Compacted(orders[..n]);
      }
    }
  }

  /** Taking one order off the exchange leaves the others as they were. */
  lemma CancelledOrders(x: X.Exchange, id: int)
    requires ExchangeOk(x) && id < x.nextId
    ensures var x' := X.Cancel(x, id);
            && ExchangeOk(x')
            && (forall o :: o in x'.orders <==> o in x.orders && o.id != id)
            && x'.events == x.events + (if Rests(x.orders, id) then [Cancelled(id)] else [])
  {
    var i := X.IndexOf(x.orders, id);
    if i < |x.orders| {
      assert x.orders[i] in x.orders;
      var off := x.orders[i := x.orders[i].(active := false)];
      CompactedKeeps(off);
      forall o
        ensures o in X.Compacted(off) <==> o in x.orders && o.id != id
      {
        if o in x.orders && o.id != id {
          var j :| 0 <= j < |x.orders| && x.orders[j] == o;
          assert off[j] == o;
        }
        if o in off && o.active {
          var j :| 0 <= j < |off| && off[j] == o;
          assert x.orders[j] == o;
        }
      }
    }
  }

  /** A side loses its order on the exchange and, by the log, in its slot. */
  lemma Removed(d: Desk, d': Desk, foreign: set<int>, side: Side, id: int)
    requires Core(d, foreign)
    requires forall o :: o in d'.exchange.orders <==> o in d.exchange.orders && o.id != id
    requires d.Slot(side).Some? && d.Slot(side).value.id == id
    requires Settled(d', side).None?
    requires Settled(d', Other(side)) == Settled(d, Other(side))
    ensures Agrees(d', foreign)
  {
    ReplayKeepsId(d.Slot(side), d.exchange.events);
    ReplayKeepsId(d.Slot(Other(side)), d.exchange.events);
    forall s: Side | Settled(d', s).Some?
      ensures Rests(d'.exchange.orders, Settled(d', s).value.id)
    {
      var o :| o in d.exchange.orders && o.id == Settled(d, s).value.id;
      assert o in d'.exchange.orders;
    }
  }

  lemma CancelKeeps(d: Desk, foreign: set<int>, side: Side, clock: real)
    requires Core(d, foreign)
    requires d.Slot(side).Some? ==> d.Slot(side).value.state.Working? || d.Slot(side).value.state.PendingCancel?
    ensures Core(CancelNow(d, side, clock), foreign)
  {
    if d.Slot(side).Some? && d.Slot(side).value.state.Working? {
      var d' := CancelNow(d, side, clock);
      var w, w' := d.Slot(side).value, d'.Slot(side).value;
      FindSettled(d, foreign, side);
      UnackedReplay(w, w', d.exchange.events);
      CancelledOrders(d.exchange, w.id);
      Ended(d, d', foreign, side, w.id);
    }
  }

  /** The two ways a cancel can land: the order rested, or its last fill is already logged. */
  lemma Ended(d: Desk, d': Desk, foreign: set<int>, side: Side, id: int)
    requires Core(d, foreign) && d.Slot(side).Some? && d.Slot(side).value.id == id
    requires d'.exchange == X.Cancel(d.exchange, id)
    requires d'.manager.desired == d.manager.desired
    requires d'.Slot(Other(side)) == d.Slot(Other(side))
    requires d'.manager.suspended.At(Other(side)) == d.manager.suspended.At(Other(side))
    requires d'.Slot(side).Some?
    requires var w' := d'.Slot(side).value;
             && w'.id == id && w'.side == side && w'.filled < w'.size
             && (w'.state.PendingCancel? || (w'.state.Unknown? && d'.manager.suspended.At(side)))
    requires Settled(d, side).None? ==> Replay(d'.Slot(side), d.exchange.events).None?
    ensures Core(d', foreign)
  {
    CancelledOrders(d.exchange, id);
    FindSettled(d, foreign, side);
    ReplayKeepsId(d'.Slot(side), d.exchange.events);
    var i := X.IndexOf(d.exchange.orders, id);
    if Rests(d.exchange.orders, id) {
      assert i < |d.exchange.orders|;
      Bystander(d, d', foreign, Other(side), Cancelled(id));
      ReplayOne(d'.Slot(side), d.exchange.events, Cancelled(id));
    } else {
      assert forall j :: 0 <= j < |d.exchange.orders| ==> d.exchange.orders[j] in d.exchange.orders;
      assert d'.exchange.events == d.exchange.events;
    }
    Removed(d, d', foreign, side, id);
  }

  // ---- the market -------------------------------------------------------

  lemma RespondFacts(o: X.SimOrder, m: X.Market)
    requires o.active && o.Remaining() > 0
    ensures var r := X.Respond(o, m);
            && r.id == o.id && r.side == o.side && r.price == o.price && r.size == o.size
            && o.filled <= r.filled <= r.size
            && (r.active <==> r.filled < r.size)
  {
  }

  predicate Resting(orders: seq<X.SimOrder>) {
    && (forall i, j :: 0 <= i < j < |orders| ==> orders[i].id != orders[j].id)
    && (forall i :: 0 <= i < |orders| ==> orders[i].active && orders[i].Remaining() > 0)
  }

  /** One order's fill moves the slot that holds it exactly as it moves the order. */
  lemma {:induction false} ResponseReplay(slot: Option<WorkingOrder>, o: X.SimOrder, m: X.Market, clock: real, fee: real)
    requires o.active && o.Remaining() > 0
    requires slot.Some? && slot.value.id == o.id ==> slot.value.state.Working? && slot.value.size == o.size && slot.value.filled == o.filled
    ensures Replay(slot, X.FillEvents(X.ResponseFills(o, X.Respond(o, m), clock, fee))) ==
            if slot.None? || slot.value.id != o.id then slot
            else if X.Respond(o, m).active then Some(slot.value.(filled := X.Respond(o, m).filled))
            else None
  {
    RespondFacts(o, m);
    var fills := X.ResponseFills(o, X.Respond(o, m), clock, fee);
    if fills == [] {
      assert X.FillEvents(fills) == [];
    } else {
      assert X.FillEvents(fills) == [Filled(o.id, Some(fills[0]))];
      ReplayOne(slot, [], Filled(o.id, Some(fills[0])));
      assert [] + [Filled(o.id, Some(fills[0]))] == X.FillEvents(fills);
    }
  }

  lemma {:induction false} MarketReplay(orders: seq<X.SimOrder>, m: X.Market, clock: real, fee: real, w: WorkingOrder, k: nat)
    requires Resting(orders) && w.state.Working?
    requires k < |orders| ==> orders[k].id == w.id && orders[k].size == w.size && orders[k].filled == w.filled
    requires k >= |orders| ==> forall i :: 0 <= i < |orders| ==> orders[i].id != w.id
    ensures Replay(Some(w), X.FillEvents(X.MarketFills(orders, m, clock, fee))) ==
            if k >= |orders| then Some(w)
            else if X.Respond(orders[k], m).active then Some(w.(filled := X.Respond(orders[k], m).filled))
            else None
  {
    if orders != [] {
      var n := |orders| - 1;
      assert forall i :: 0 <= i < n ==> orders[..n][i] == orders[i];
      MarketReplay(orders[..n], m, clock, fee, w, k);
      MarketReplayLast(orders, m, clock, fee, w);
      ResponseReplay(Replay(Some(w), X.FillEvents(X.MarketFills(orders[..n], m, clock, fee))), orders[n], m, clock, fee);
    }
  }

  lemma MarketReplayLast(orders: seq<X.SimOrder>, m: X.Market, clock: real, fee: real, w: WorkingOrder)
    requires orders != []
    ensures var n := |orders| - 1;
            var early, late := X.MarketFills(orders[..n], m, clock, fee), X.ResponseFills(orders[n], X.Respond(orders[n], m), clock, fee);
            Replay(Some(w), X.FillEvents(X.MarketFills(orders, m, clock, fee))) ==
            Replay(Replay(Some(w), X.FillEvents(early)), X.FillEvents(late))
  {
    var n := |orders| - 1;
    var early := X.MarketFills(orders[..n], m, clock, fee);
    var late := X.ResponseFills(orders[n], X.Respond(orders[n], m), clock, fee);
    X.FillEventsAppend(early, late);
    ReplayAppend(Some(w), X.FillEvents(early), X.FillEvents(late));
  }

  lemma {:induction false} MarketFillsOk(orders: seq<X.SimOrder>, m: X.Market, clock: real, fee: real)
    requires Resting(orders)
    ensures forall f :: f in X.MarketFills(orders, m, clock, fee) ==> f.size > 0 && Rests(orders, f.orderId)
  {
    if orders != [] {
      var n := |orders| - 1;
      MarketFillsOk(orders[..n], m, clock, fee);
      assert orders[n] in orders;
      forall f | f in X.MarketFills(orders[..n], m, clock, fee)
        ensures Rests(orders, f.orderId)
      {
        var o :| o in orders[..n] && o.id == f.orderId;
        assert o in orders;
      }
    }
  }

  /** What is left on the exchange is what responded and is not finished. */
  lemma MarketOrders(orders: seq<X.SimOrder>, m: X.Market)
    requires Resting(orders)
    ensures var after := X.Compacted(X.Responses(orders, m));
            && Resting(after)
            && (forall r :: r in after ==> exists k :: 0 <= k < |orders| && r == X.Respond(orders[k], m))
            && (forall k :: 0 <= k < |orders| && X.Respond(orders[k], m).active ==> X.Respond(orders[k], m) in after)
  {
    var responses := X.Responses(orders, m);
    forall i, j | 0 <= i < j < |orders|
      ensures responses[i].id != responses[j].id
    {
      RespondFacts(orders[i], m);
      RespondFacts(orders[j], m);
    }
    CompactedKeeps(responses);
    var after := X.Compacted(responses);
    forall i | 0 <= i < |after|
      ensures after[i].active && after[i].Remaining() > 0
    {
      assert after[i] in after;
      var k :| 0 <= k < |responses| && responses[k] == after[i];
      RespondFacts(orders[k], m);
    }
    forall k | 0 <= k < |orders| && X.Respond(orders[k], m).active
      ensures X.Respond(orders[k], m) in after
    {
      assert responses[k] in responses;
    }
    forall r | r in after
      ensures exists k :: 0 <= k < |orders| && r == X.Respond(orders[k], m)
    {
      var k :| 0 <= k < |responses| && responses[k] == r;
    }
  }

  function Marketed(d: Desk, m: X.Market, clock: real): Desk {
    d.(exchange := X.OnMarket(d.exchange, m, clock))
  }

  lemma ExchangeRests(x: X.Exchange)
    requires ExchangeOk(x)
    ensures Resting(x.orders)
  {
    assert forall i :: 0 <= i < |x.orders| ==> x.orders[i] in x.orders;
  }

  /** One side's settled order after the market has moved. */
  lemma MarketSettles(d: Desk, foreign: set<int>, side: Side, m: X.Market, clock: real)
    requires Core(d, foreign) && !X.Idle(m)
    ensures d.Slot(side).Some? && X.IndexOf(d.exchange.orders, d.Slot(side).value.id) < |d.exchange.orders| ==> Settled(d, side).Some?
    ensures var i := if d.Slot(side).None? then |d.exchange.orders| else X.IndexOf(d.exchange.orders, d.Slot(side).value.id);
            Settled(Marketed(d, m, clock), side) ==
            if i == |d.exchange.orders| || !X.Respond(d.exchange.orders[i], m).active then None
            else Some(Settled(d, side).value.(filled := X.Respond(d.exchange.orders[i], m).filled))
  {
    var x := d.exchange;
    var filled := X.FillEvents(X.MarketFills(x.orders, m, clock, x.feePerContract));
    ReplayAppend(d.Slot(side), x.events, filled);
    ExchangeRests(x);
    if d.Slot(side).None? {
      ReplayForeign(None, x.events);
      ReplayForeign(None, filled);
    } else {
      FindSettled(d, foreign, side);
      if Settled(d, side).None? {
        ReplayForeign(None, filled);
      } else {
        MarketReplay(x.orders, m, clock, x.feePerContract, Settled(d, side).value, X.IndexOf(x.orders, d.Slot(side).value.id));
      }
    }
  }

  lemma MarketExchangeOk(x: X.Exchange, m: X.Market, clock: real)
    requires ExchangeOk(x) && !X.Idle(m)
    ensures ExchangeOk(X.OnMarket(x, m, clock))
  {
    ExchangeRests(x);
    MarketOrders(x.orders, m);
    var x' := X.OnMarket(x, m, clock);
    forall o | o in x'.orders
      ensures o.id < x'.nextId && o.active && o.Remaining() > 0
    {
      var k :| 0 <= k < |x.orders| && o == X.Respond(x.orders[k], m);
      RespondFacts(x.orders[k], m);
      assert x.orders[k] in x.orders;
      var j :| 0 <= j < |x'.orders| && x'.orders[j] == o;
    }
    forall e | e in x'.events
      ensures EventOk(e, x'.nextId)
    {
      MarketEventOk(x, m, clock, e);
    }
  }

  lemma MarketEventOk(x: X.Exchange, m: X.Market, clock: real, e: OrderEvent)
    requires ExchangeOk(x) && e in X.OnMarket(x, m, clock).events
    ensures EventOk(e, x.nextId)
  {
    if e !in x.events {
      ExchangeRests(x);
      MarketFillsOk(x.orders, m, clock, x.feePerContract);
      var fills := X.MarketFills(x.orders, m, clock, x.feePerContract);
      var i :| 0 <= i < |fills| && X.FillEvents(fills)[i] == e;
      assert fills[i] in fills;
    }
  }

  lemma MarketSlotOk(d: Desk, foreign: set<int>, side: Side, m: X.Market, clock: real)
    requires Core(d, foreign) && !X.Idle(m)
    ensures SlotOk(Marketed(d, m, clock), foreign, side)
  {
    MarketSettles(d, foreign, side, m, clock);
    if d.Slot(side).Some? {
      FindSettled(d, foreign, side);
      var fills := X.MarketFills(d.exchange.orders, m, clock, d.exchange.feePerContract);
      assert Marketed(d, m, clock).exchange.events == d.exchange.events + X.FillEvents(fills);
      assert forall e :: e in X.FillEvents(fills) ==> e.Filled?;
    }
  }

  lemma MarketKeeps(d: Desk, foreign: set<int>, m: X.Market, clock: real)
    requires Core(d, foreign)
    ensures Core(Marketed(d, m, clock), foreign)
  {
    if X.Idle(m) {
      X.NoFills(d.exchange.orders, m, clock, d.exchange.feePerContract);
      var d' := Marketed(d, m, clock);
      assert d'.exchange.events == d.exchange.events;
      assert forall side: Side :: Settled(d', side) == Settled(d, side);
    } else {
      MarketExchangeOk(d.exchange, m, clock);
      MarketSlotOk(d, foreign, Bid, m, clock);
      MarketSlotOk(d, foreign, Ask, m, clock);
      MarketAgrees(d, foreign, m, clock);
    }
  }

  lemma MarketAgrees(d: Desk, foreign: set<int>, m: X.Market, clock: real)
    requires Core(d, foreign) && !X.Idle(m)
    ensures Agrees(Marketed(d, m, clock), foreign)
  {
    var d' := Marketed(d, m, clock);
    var orders := d.exchange.orders;
    ExchangeRests(d.exchange);
    MarketOrders(orders, m);
    forall r | r in d'.exchange.orders && r.id !in foreign
      ensures Settled(d', r.side).Some? && Same(Settled(d', r.side).value, r)
    {
      var k :| 0 <= k < |orders| && r == X.Respond(orders[k], m);
      RespondFacts(orders[k], m);
      assert orders[k] in orders;
      ReplayKeepsId(d.Slot(r.side), d.exchange.events);
      MarketSettles(d, foreign, r.side, m, clock);
      FindSettled(d, foreign, r.side);
      assert X.IndexOf(orders, r.id) == k;
      var j :| 0 <= j < |d'.exchange.orders| && d'.exchange.orders[j] == r;
    }
    forall side: Side | Settled(d', side).Some?
      ensures Rests(d'.exchange.orders, Settled(d', side).value.id)
    {
      MarketSettles(d, foreign, side, m, clock);
      ReplayKeepsId(d.Slot(side), d.exchange.events);
      var i := X.IndexOf(orders, d.Slot(side).value.id);
      RespondFacts(orders[i], m);
      assert X.Respond(orders[i], m) in d'.exchange.orders;
    }
  }

  // ---- reading the log --------------------------------------------------

  /** The manager reads the log, except what is about one flatten order. */
  function Read(d: Desk, except: Option<int>): Desk {
    d.(exchange := X.Drained(d.exchange), manager := TakeEvents(d.manager, Besides(d.exchange.events, except)))
  }

  lemma {:induction false} ReplayBesides(slot: Option<WorkingOrder>, events: seq<OrderEvent>, except: Option<int>)
    requires slot.None? || Some(slot.value.id) != except
    ensures Replay(slot, Besides(events, except)) == Replay(slot, events)
  {
    if events != [] {
      var n := |events| - 1;
      ReplayBesides(slot, events[..n], except);
      ReplayKeepsId(slot, events[..n]);
      if Some(events[n].orderId) != except {
        ReplayOne(slot, Besides(events[..n], except), events[n]);
      } else {
        assert Besides(events, except) == Besides(events[..n], except);
      }
    }
  }

  lemma {:induction false} EventsKeep(m: Manager, events: seq<OrderEvent>)
    ensures var m' := OnEvents(m, events);
            m'.desired == m.desired && m'.cfg == m.cfg && m'.timeouts == m.timeouts && m'.stuckCancels == m.stuckCancels
  {
    if events != [] {
      EventsKeep(m, events[..|events| - 1]);
    }
  }

  /** After a read each slot is what the log said it would be, and works if it is there at all. */
  lemma ReadSettles(d: Desk, foreign: set<int>, except: Option<int>)
    requires Core(d, foreign) && (except.Some? ==> except.value in foreign)
    ensures var d' := Read(d, except);
            forall side: Side ::
              && d'.Slot(side) == Settled(d, side) == Settled(d', side)
              && (d'.Slot(side).Some? ==> d'.Slot(side).value.state.Working?)
  {
    var kept := Besides(d.exchange.events, except);
    EventsAreReplays(d.manager, kept);
    forall side: Side
      ensures Replay(d.Slot(side), kept) == Settled(d, side)
      ensures Settled(d, side).Some? ==> Settled(d, side).value.state.Working?
    {
      ReplayBesides(d.Slot(side), d.exchange.events, except);
      ReplayKeepsId(d.Slot(side), d.exchange.events);
      if d.Slot(side).Some? {
        FindSettled(d, foreign, side);
      }
    }
  }

  lemma ReadKeeps(d: Desk, foreign: set<int>, except: Option<int>)
    requires Inv(d, foreign) && (except.Some? ==> except.value in foreign)
    ensures Inv(Read(d, except), foreign)
  {
    var d' := Read(d, except);
    ReadSettles(d, foreign, except);
    EventsKeep(d.manager, Besides(d.exchange.events, except));
    ReadSlotOk(d, foreign, except, Bid);
    ReadSlotOk(d, foreign, except, Ask);
    assert forall side: Side :: Settled(d', side) == Settled(d, side);
  }

  lemma ReadSlotOk(d: Desk, foreign: set<int>, except: Option<int>, side: Side)
    requires Core(d, foreign) && (except.Some? ==> except.value in foreign)
    ensures SlotOk(Read(d, except), foreign, side)
    ensures Settled(d, side).Some? ==> d.Slot(side).Some? && Settled(d, side).value.id == d.Slot(side).value.id
  {
    ReadSettles(d, foreign, except);
    ReplayKeepsId(d.Slot(side), d.exchange.events);
    if Settled(d, side).Some? {
      FindSettled(d, foreign, side);
      var o := d.exchange.orders[X.IndexOf(d.exchange.orders, d.Slot(side).value.id)];
      assert o in d.exchange.orders;
    }
  }

  // ---- reconciling ------------------------------------------------------

  lemma SubmitKeeps(d: Desk, key: Side, priority: int, action: Command)
    requires QueueOk(d) && EntryOk(d.manager, Queued(priority, d.queue.sequence + 1, key, action))
    ensures QueueOk(d.(queue := Submit(d.queue, key, priority, action)))
  {
    var pending, after := d.queue.pending, Submit(d.queue, key, priority, action).pending;
    forall q | q in after
      ensures EntryOk(d.manager, q)
    {
      var j :| 0 <= j < |after| && after[j] == q;
      assert j < |pending| ==> pending[j] in pending;
    }
  }

  lemma WithdrawKeeps(d: Desk, key: Side)
    requires QueueOk(d)
    ensures QueueOk(d.(queue := Withdraw(d.queue, key)))
    ensures forall q :: q in Withdraw(d.queue, key).pending ==> q in d.queue.pending && q.key != key
  {
    var i := IndexOfKey(d.queue.pending, key);
    if i < |d.queue.pending| {
      DroppedKeeps(d.queue.pending, i);
    } else {
      assert forall j :: 0 <= j < |d.queue.pending| ==> d.queue.pending[j].key != key;
    }
  }

  lemma DroppedKeeps(pending: seq<Queued>, i: nat)
    requires i < |pending|
    requires forall j, k :: 0 <= j < k < |pending| ==> pending[j].key != pending[k].key
    ensures var rest := Dropped(pending, i);
            && (forall j, k :: 0 <= j < k < |rest| ==> rest[j].key != rest[k].key)
            && (forall q :: q in rest ==> q in pending && q.key != pending[i].key)
  {
    var rest := Dropped(pending, i);
    forall q | q in rest
      ensures q in pending && q.key != pending[i].key
    {
      var j :| 0 <= j < |rest| && rest[j] == q;
      var k := if j < i then j else j + 1;
      assert pending[k] == q;
    }
  }

  /**
   * A replace is overdue, the exchange no longer has the order, and the fills
   * logged for it fall short of the size it had before the replace.
   */
  ghost predicate LosesFill(d: Desk, side: Side, now: real) {
    && d.Slot(side).Some?
    && var w := d.Slot(side).value;
    && w.state.PendingReplace? && Overdue(d.manager.cfg, w, now)
    && !Rests(d.exchange.orders, w.id)
    && w.filled + LoggedFor(d.exchange.events, w.id) < w.size
  }

  /** A slot the log leaves standing although nothing rests for it. */
  ghost predicate Phantom(d: Desk, side: Side) {
    Settled(d, side).Some? && !Rests(d.exchange.orders, Settled(d, side).value.id)
  }

  lemma TimeOutKeeps(d: Desk, foreign: set<int>, side: Side, now: real)
    requires Core(d, foreign) && d.Slot(side).Some? && d.Slot(side).value.Pending()
    requires Overdue(d.manager.cfg, d.Slot(side).value, now) && !LosesFill(d, side, now)
    ensures Core(TimeOut(d, side, d.Slot(side).value, now), foreign)
  {
    var w := d.Slot(side).value;
    var d' := TimeOut(d, side, w, now);
    FindSettled(d, foreign, side);
    assert forall i :: 0 <= i < |d.exchange.orders| ==> d.exchange.orders[i] in d.exchange.orders;
    if Settled(d, side).None? {
      if w.state.PendingReplace? {
        GoneWhenFilled(d'.Slot(side).value, d.exchange.events, d.exchange.nextId);
      } else {
        SameFate(w, d'.Slot(side).value, d.exchange.events);
      }
    }
    Ended(d, d', foreign, side, w.id);
  }

  lemma TimeOutLoses(d: Desk, foreign: set<int>, side: Side, now: real)
    requires Core(d, foreign) && LosesFill(d, side, now)
    ensures Phantom(TimeOut(d, side, d.Slot(side).value, now), side)
  {
    var w := d.Slot(side).value;
    var d' := TimeOut(d, side, w, now);
    CancelledOrders(d.exchange, w.id);
    GoneWhenFilled(d'.Slot(side).value, d.exchange.events, d.exchange.nextId);
    assert d'.exchange.events == d.exchange.events;
  }

  /** The queue and the budget have no say in it. */
  lemma QueueKeeps(d: Desk, d': Desk, foreign: set<int>)
    requires Core(d, foreign) && d'.manager == d.manager && d'.exchange == d.exchange
    ensures Core(d', foreign)
  {
    assert forall s: Side :: Settled(d', s) == Settled(d, s);
  }

  lemma ReconcileSideKeeps(d: Desk, foreign: set<int>, side: Side, now: real)
    requires Inv(d, foreign) && !LosesFill(d, side, now)
    ensures Inv(ReconcileSide(d, side, now), foreign)
  {
    var m, d' := d.manager, ReconcileSide(d, side, now);
    var idle := d.(queue := Withdraw(d.queue, side));
    WithdrawKeeps(d, side);
    QueueKeeps(d, idle, foreign);
    if d.Slot(side).Some? && d.Slot(side).value.Pending() && Overdue(m.cfg, d.Slot(side).value, now) {
      TimeOutKeeps(idle, foreign, side, now);
      TimedOutQueue(idle, side, now);
    } else if d' != idle {
      QueueKeeps(d, d', foreign);
      SubmittedQueue(d, side, now);
    }
  }

  lemma TimedOutQueue(d: Desk, side: Side, now: real)
    requires QueueOk(d) && d.Slot(side).Some? && d.Slot(side).value.side == side
    requires forall q :: q in d.queue.pending ==> q.key != side
    ensures QueueOk(TimeOut(d, side, d.Slot(side).value, now))
  {
    var d' := TimeOut(d, side, d.Slot(side).value, now);
    forall q | q in d'.queue.pending
      ensures EntryOk(d'.manager, q)
    {
      assert q in d.queue.pending && q.key != side;
      assert d'.manager.working.At(q.key) == d.manager.working.At(q.key);
    }
  }

  lemma SubmittedQueue(d: Desk, side: Side, now: real)
    requires QueueOk(d) && DesiredOk(d.manager)
    requires d.Slot(side).Some? ==> !d.Slot(side).value.Pending()
    requires ReconcileSide(d, side, now) != d.(queue := Withdraw(d.queue, side))
    ensures QueueOk(ReconcileSide(d, side, now))
  {
    var m := d.manager;
    if d.Slot(side).None? {
      SubmitKeeps(d, side, PRIORITY_PLACE, PlaceQuote(side, m.desired.At(side).value));
    } else if d.Slot(side).value.state.Unknown? {
      SubmitKeeps(d, side, PRIORITY_CANCEL, RetryCancel(side));
    } else if m.desired.At(side).None? {
      SubmitKeeps(d, side, PRIORITY_CANCEL, CancelQuote(side));
    } else {
      SubmitKeeps(d, side, PRIORITY_REPLACE, ReplaceQuote(side));
    }
  }

  ghost predicate IdsApart(d: Desk) {
    && ExchangeOk(d.exchange)
    && (forall side: Side :: d.Slot(side).Some? ==> d.Slot(side).value.side == side && d.Slot(side).value.id < d.exchange.nextId)
    && (d.Slot(Bid).Some? && d.Slot(Ask).Some? ==> d.Slot(Bid).value.id != d.Slot(Ask).value.id)
  }

  lemma TimeOutElsewhere(d: Desk, side: Side, now: real)
    requires IdsApart(d) && d.Slot(side).Some?
    ensures var d', other := TimeOut(d, side, d.Slot(side).value, now), Other(side);
            && Settled(d', other) == Settled(d, other)
            && (forall id :: id != d.Slot(side).value.id ==> (Rests(d'.exchange.orders, id) <==> Rests(d.exchange.orders, id)))
            && (forall id :: LoggedFor(d'.exchange.events, id) == LoggedFor(d.exchange.events, id))
  {
    var id, other := d.Slot(side).value.id, Other(side);
    CancelledOrders(d.exchange, id);
    ReplayKeepsId(d.Slot(other), d.exchange.events);
    if Rests(d.exchange.orders, id) {
      ReplayOne(d.Slot(other), d.exchange.events, Cancelled(id));
      FillsInAppend(d.exchange.events, [Cancelled(id)]);
      assert [Cancelled(id)][..0] == [];
      assert FillsIn(d.exchange.events) + [] == FillsIn(d.exchange.events);
    }
  }

  /** All a reconcile can do beyond the queue is time a side out. */
  lemma ReconcileShape(d: Desk, side: Side, now: real)
    ensures var d', idle := ReconcileSide(d, side, now), d.(queue := Withdraw(d.queue, side));
            if d.Slot(side).Some? && d.Slot(side).value.Pending() && Overdue(d.manager.cfg, d.Slot(side).value, now)
            then d' == TimeOut(idle, side, d.Slot(side).value, now)
            else d'.manager == d.manager && d'.exchange == d.exchange
  {
  }

  /** Reconciling one side leaves the other's slot and its log as they were. */
  lemma ReconcileElsewhere(d: Desk, side: Side, now: real)
    requires IdsApart(d)
    ensures var d', other := ReconcileSide(d, side, now), Other(side);
            && d'.Slot(other) == d.Slot(other)
            && (LosesFill(d', other, now) <==> LosesFill(d, other, now))
            && (Phantom(d', other) <==> Phantom(d, other))
  {
    var d', other := ReconcileSide(d, side, now), Other(side);
    ReconcileShape(d, side, now);
    ReplayKeepsId(d.Slot(other), d.exchange.events);
    if d'.exchange != d.exchange || d'.manager != d.manager {
      var idle := d.(queue := Withdraw(d.queue, side));
      TimeOutElsewhere(idle, side, now);
      assert Settled(idle, other) == Settled(d, other);
    } else {
      assert Settled(d', other) == Settled(d, other);
    }
  }

  /**
   * One reconcile, overdue sides and all, keeps the agreement if and only if
   * no side loses the fill of a replaced order.
   */
  lemma ReconcileAgreesIff(d: Desk, foreign: set<int>, now: real)
    requires Inv(d, foreign)
    ensures Agrees(Reconcile(d, now), foreign) <==> !LosesFill(d, Bid, now) && !LosesFill(d, Ask, now)
    ensures !LosesFill(d, Bid, now) && !LosesFill(d, Ask, now) ==> Inv(Reconcile(d, now), foreign)
  {
    var half := ReconcileSide(d, Bid, now);
    ReconcileElsewhere(d, Bid, now);
    if LosesFill(d, Bid, now) {
      var idle := d.(queue := Withdraw(d.queue, Bid));
      assert forall s: Side :: Settled(idle, s) == Settled(d, s);
      TimeOutLoses(idle, foreign, Bid, now);
      CancelledOrders(d.exchange, d.Slot(Bid).value.id);
      ReconcileElsewhere(half, Ask, now);
    } else {
      ReconcileSideKeeps(d, foreign, Bid, now);
      if LosesFill(half, Ask, now) {
        var idle := half.(queue := Withdraw(half.queue, Ask));
        assert forall s: Side :: Settled(idle, s) == Settled(half, s);
        TimeOutLoses(idle, foreign, Ask, now);
      } else {
        ReconcileSideKeeps(half, foreign, Ask, now);
      }
    }
  }

  // ---- pumping ----------------------------------------------------------

  lemma RetryKeeps(d: Desk, foreign: set<int>, side: Side, clock: real)
    requires Core(d, foreign)
    ensures Core(RetryNow(d, side, clock), foreign)
  {
    if d.Slot(side).Some? && d.Slot(side).value.state.Unknown? {
      var d' := RetryNow(d, side, clock);
      SameFate(d.Slot(side).value, d'.Slot(side).value, d.exchange.events);
      CancelledOrders(d.exchange, d.Slot(side).value.id);
      Ended(d, d', foreign, side, d.Slot(side).value.id);
    }
  }

  /** Running a command touches its own side's slot only, and no wish. */
  lemma ExecuteLocal(d: Desk, action: Command, clock: real)
    ensures var d' := Execute(d, action, clock);
            && d'.Slot(Other(action.side)) == d.Slot(Other(action.side))
            && d'.manager.desired == d.manager.desired
            && d'.manager.timeouts == d.manager.timeouts
  {
  }

  lemma ExecuteKeeps(d: Desk, foreign: set<int>, q: Queued, clock: real)
    requires Core(d, foreign) && EntryOk(d.manager, q)
    ensures Core(Execute(d, q.action, clock), foreign)
  {
    match q.action
    case PlaceQuote(side, quote) =>
      if d.Slot(side).None? {
        PlaceKeeps(d, foreign, side, quote, clock);
      }
    case ReplaceQuote(side) => ReplaceKeeps(d, foreign, side, clock);
    case CancelQuote(side) => CancelKeeps(d, foreign, side, clock);
    case RetryCancel(side) => RetryKeeps(d, foreign, side, clock);
  }

  /** Paying for an action and taking it out of the queue do not change what it does. */
  lemma PumpOneShape(d: Desk, now: real, clock: real)
    requires |d.queue.pending| > 0
    ensures var best := BestIndex(d.queue.pending);
            var d', ran := PumpOne(d, now, clock), Execute(d, d.queue.pending[best].action, clock);
            d'.manager == ran.manager && d'.exchange == ran.exchange && d'.queue.pending == Dropped(d.queue.pending, best)
  {
  }

  lemma PumpOneKeeps(d: Desk, foreign: set<int>, now: real, clock: real)
    requires Inv(d, foreign) && |d.queue.pending| > 0
    ensures Inv(PumpOne(d, now, clock), foreign)
  {
    var best := BestIndex(d.queue.pending);
    var q := d.queue.pending[best];
    assert q in d.queue.pending;
    var ran := Execute(d, q.action, clock);
    PumpOneShape(d, now, clock);
    ExecuteKeeps(d, foreign, q, clock);
    QueueKeeps(ran, PumpOne(d, now, clock), foreign);
    RestOfQueue(d, q, best, PumpOne(d, now, clock), clock);
  }

  lemma RestOfQueue(d: Desk, q: Queued, best: nat, ran: Desk, clock: real)
    requires QueueOk(d) && best < |d.queue.pending| && d.queue.pending[best] == q && EntryOk(d.manager, q)
    requires ran.manager == Execute(d, q.action, clock).manager && ran.queue.pending == Dropped(d.queue.pending, best)
    ensures QueueOk(ran)
  {
    DroppedKeeps(d.queue.pending, best);
    ExecuteLocal(d, q.action, clock);
    forall e | e in Dropped(d.queue.pending, best)
      ensures EntryOk(ran.manager, e)
    {
      assert e in d.queue.pending && e.key == Other(q.key);
      assert ran.Slot(e.key) == d.Slot(e.key);
    }
  }

  // ---- orders that are not quotes ---------------------------------------

  function WithForeign(d: Desk, side: Side, price: real, size: int): Desk {
    d.(exchange := X.Place(d.exchange, side, price, size))
  }

  function ReplaceForeign(d: Desk, id: int, price: real, size: int): Desk {
    d.(exchange := X.Replace(d.exchange, id, price, size))
  }

  lemma ForeignPlaceKeeps(d: Desk, foreign: set<int>, side: Side, price: real, size: int)
    requires Inv(d, foreign) && size > 0
    ensures Inv(WithForeign(d, side, price, size), foreign + {d.exchange.nextId})
  {
    var d', foreign' := WithForeign(d, side, price, size), foreign + {d.exchange.nextId};
    PlacedExchange(d.exchange, side, price, size);
    forall s: Side
      ensures Settled(d', s) == Settled(d, s) && SlotOk(d', foreign', s)
    {
      Bystander(d, d', foreign, s, Ack(d.exchange.nextId));
    }
    assert Settled(d, Bid).Some? || Settled(d, Ask).Some? ==> forall o :: o in d.exchange.orders ==> o in d'.exchange.orders;
  }

  lemma ForeignReplaceKeeps(d: Desk, foreign: set<int>, id: int, price: real, size: int)
    requires Inv(d, foreign) && id in foreign && size > 0
    ensures Inv(ReplaceForeign(d, id, price, size), foreign)
  {
    var d' := ReplaceForeign(d, id, price, size);
    var os, os' := d.exchange.orders, d'.exchange.orders;
    var i := X.IndexOf(os, id);
    if i < |os| {
      assert os[i] in os;
      RewrittenExchange(d.exchange, d'.exchange, i);
      forall s: Side
        ensures Settled(d', s) == Settled(d, s) && SlotOk(d', foreign, s)
      {
        Bystander(d, d', foreign, s, Ack(id));
      }
      forall o | o in os' && o.id !in foreign
        ensures o in os
      {
        var j :| 0 <= j < |os'| && os'[j] == o;
        assert os[j] in os;
      }
      forall s: Side | Settled(d', s).Some?
        ensures Rests(os', Settled(d', s).value.id)
      {
        var o :| o in os && o.id == Settled(d, s).value.id;
        var j :| 0 <= j < |os| && os[j] == o;
        assert os'[j] in os' && os'[j].id == o.id;
      }
    } else {
      assert forall s: Side :: Settled(d', s) == Settled(d, s);
    }
  }

  // ---- every interleaving -----------------------------------------------

  /** One thing that can happen next, to the manager or on the exchange. */
  datatype Action =
    | Want(bid: Option<Quote>, ask: Option<Quote>)
    | ReconcileAt(now: real)
    | PumpNext(now: real, clock: real)
    | MarketMoves(move: X.Market, clock: real)
    | ReadLog(except: Option<int>)
    | FlattenPlaced(side: Side, price: real, size: int)
    | FlattenChased(id: int, price: real, size: int)

  datatype World = World(desk: Desk, foreign: set<int>)

  function Act(w: World, a: Action): World {
    var d := w.desk;
    match a
    case Want(bid, ask) => w.(desk := d.(manager := d.manager.(desired := Pair(bid, ask))))
    case ReconcileAt(now) => w.(desk := Reconcile(d, now))
    case PumpNext(now, clock) => if |d.queue.pending| > 0 then w.(desk := PumpOne(d, now, clock)) else w
    case MarketMoves(m, clock) => w.(desk := Marketed(d, m, clock))
    case ReadLog(except) => w.(desk := Read(d, except))
    case FlattenPlaced(side, price, size) => World(WithForeign(d, side, price, size), w.foreign + {d.exchange.nextId})
    case FlattenChased(id, price, size) => w.(desk := ReplaceForeign(d, id, price, size))
  }

  predicate QuoteOk(quote: Option<Quote>, side: Side) {
    quote.Some? ==> quote.value.size > 0 && quote.value.side == side
  }

  /** What the pipeline guarantees of each action: quotes and flatten orders have a size, only flatten orders are chased or set aside. */
  predicate Meant(w: World, a: Action) {
    match a
    case Want(bid, ask) => QuoteOk(bid, Bid) && QuoteOk(ask, Ask)
    case ReadLog(except) => except.Some? ==> except.value in w.foreign
    case FlattenPlaced(_, _, size) => size > 0
    case FlattenChased(id, _, size) => id in w.foreign && size > 0
    case _ => true
  }

  ghost predicate Harmless(w: World, a: Action) {
    a.ReconcileAt? ==> !LosesFill(w.desk, Bid, a.now) && !LosesFill(w.desk, Ask, a.now)
  }

  ghost predicate WorldOk(w: World) {
    Inv(w.desk, w.foreign)
  }

  lemma ActKeeps(w: World, a: Action)
    requires WorldOk(w) && Meant(w, a) && Harmless(w, a)
    ensures WorldOk(Act(w, a))
  {
    var d, foreign := w.desk, w.foreign;
    match a
    case Want(bid, ask) =>
      var d' := Act(w, a).desk;
      assert forall s: Side :: Settled(d', s) == Settled(d, s);
      assert forall q :: q in d'.queue.pending ==> EntryOk(d.manager, q);
    case ReconcileAt(now) => ReconcileAgreesIff(d, foreign, now);
    case PumpNext(now, clock) =>
      if |d.queue.pending| > 0 {
        PumpOneKeeps(d, foreign, now, clock);
      }
    case MarketMoves(m, clock) => MarketKeeps(d, foreign, m, clock);
    case ReadLog(except) => ReadKeeps(d, foreign, except);
    case FlattenPlaced(side, price, size) => ForeignPlaceKeeps(d, foreign, side, price, size);
    case FlattenChased(id, price, size) => ForeignReplaceKeeps(d, foreign, id, price, size);
  }

  function Play(w: World, actions: seq<Action>): World {
    if actions == [] then w
    else Act(Play(w, actions[..|actions| - 1]), actions[|actions| - 1])
  }

  ghost predicate PlaysCleanly(w: World, actions: seq<Action>) {
    actions != [] ==>
      var before := Play(w, actions[..|actions| - 1]);
      && PlaysCleanly(w, actions[..|actions| - 1])
      && Meant(before, actions[|actions| - 1])
      && Harmless(before, actions[|actions| - 1])
  }

  /** A desk that has not started: nothing placed, nothing queued, nothing wanted. */
  predicate Fresh(w: World) {
    && w.foreign == {}
    && w.desk.manager.working == Pair(None, None)
    && w.desk.manager.desired == Pair(None, None)
    && w.desk.manager.timeouts == 0
    && w.desk.exchange.orders == [] && w.desk.exchange.events == []
    && w.desk.queue.pending == []
  }

  /**
   * Over every interleaving of wishes, reconciles, pumped actions, market
   * moves, reads and flatten orders, the slots with the undrained log replayed
   * are the exchange's quotes, so long as no reconcile gives up on a replaced
   * order whose last fill is in the log.
   */
  lemma {:induction false} EveryInterleavingAgrees(w: World, actions: seq<Action>)
    requires Fresh(w) && PlaysCleanly(w, actions)
    ensures WorldOk(Play(w, actions))
    ensures Agrees(Play(w, actions).desk, Play(w, actions).foreign)
  {
    if actions == [] {
      assert forall s: Side :: Settled(w.desk, s) == None;
    } else {
      EveryInterleavingAgrees(w, actions[..|actions| - 1]);
      ActKeeps(Play(w, actions[..|actions| - 1]), actions[|actions| - 1]);
    }
  }

  /** An Unknown order's side is suspended, whatever came before. */
  lemma UnknownIsSuspended(w: World, actions: seq<Action>, side: Side)
    requires Fresh(w) && PlaysCleanly(w, actions)
    ensures var d := Play(w, actions).desk;
            d.Slot(side).Some? && d.Slot(side).value.state.Unknown? ==> d.manager.suspended.At(side)
  {
    EveryInterleavingAgrees(w, actions);
  }
}
