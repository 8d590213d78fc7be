/** Over every run of the pipeline: the views agree, nothing times out, the flatten order is accounted for. */
module SessionCoherence {
  import opened Common
  import opened Orders
  import opened Throttle
  import opened QuoteManagement
  import opened Coherence
  import opened Pipeline
  import X = SimulatedExchange
  import Risk
  import E = QuotingEngine

  // ---- the flatten order ------------------------------------------------

  /**
   * Whatever rests that is not a quote is the flatten order the pipeline is
   * waiting on, with exactly what the pipeline counts as left, less what the
   * log has still to say.
   */
  ghost predicate FlattenOk(s: Session) {
    var x := s.desk.exchange;
    && (forall o :: o in x.orders && o.id in s.foreign ==>
          s.flatten == Some(o.id) && o.Remaining() == s.flattenSize - LoggedFor(x.events, o.id))
    && (s.flatten.Some? ==>
          var id := s.flatten.value;
          && id in s.foreign && s.flattenSize > 0 && NoEnd(x.events, id)
          && LoggedFor(x.events, id) <= s.flattenSize
          && (Rests(x.orders, id) || LoggedFor(x.events, id) == s.flattenSize))
  }

  predicate NoneUnknown(m: Manager) {
    && (m.working.bid.Some? ==> !m.working.bid.value.state.Unknown?)
    && (m.working.ask.Some? ==> !m.working.ask.value.state.Unknown?)
  }

  predicate NeverUnknown(d: Desk) {
    d.manager.timeouts == 0 && NoneUnknown(d.manager)
  }

  /** No slot has a message in flight. */
  ghost predicate AtRest(d: Desk) {
    forall side: Side :: d.Slot(side).Some? ==> d.Slot(side).value.state.Working?
  }

  ghost predicate SessionOk(s: Session) {
    Inv(s.desk, s.foreign) && FlattenOk(s) && NeverUnknown(s.desk)
  }

  // ---- what the market logs ---------------------------------------------

  lemma {:induction false} FillsOfFillEvents(fills: seq<Fill>)
    ensures FillsIn(X.FillEvents(fills)) == fills
  {
    if fills != [] {
      var n := |fills| - 1;
      FillsOfFillEvents(fills[..n]);
      assert X.FillEvents(fills)[..n] == X.FillEvents(fills[..n]);
      assert X.FillEvents(fills)[n] == Filled(fills[n].orderId, Some(fills[n]));
    }
  }

  lemma ResponseLogs(o: X.SimOrder, m: X.Market, clock: real, fee: real, id: int)
    requires o.active && o.Remaining() > 0
    ensures FilledUnder(X.ResponseFills(o, X.Respond(o, m), clock, fee), id) ==
            if o.id == id then X.Respond(o, m).filled - o.filled else 0
  {
    RespondFacts(o, m);
    var fills := X.ResponseFills(o, X.Respond(o, m), clock, fee);
    assert fills != [] ==> fills[..0] == [];
  }

  /** What the market fills of the orders under one id. */
  function FilledOf(orders: seq<X.SimOrder>, m: X.Market, id: int): int {
    if orders == [] then 0
    else
      var last := orders[|orders| - 1];
      FilledOf(orders[..|orders| - 1], m, id) + if last.id == id then X.Respond(last, m).filled - last.filled else 0
  }

  lemma {:induction false} MarketLogs(orders: seq<X.SimOrder>, m: X.Market, clock: real, fee: real, id: int)
    requires forall o :: o in orders ==> o.active && o.Remaining() > 0
    ensures FilledUnder(X.MarketFills(orders, m, clock, fee), id) == FilledOf(orders, m, id)
  {
    if orders != [] {
      var n := |orders| - 1;
      MarketLogs(orders[..n], m, clock, fee, id);
      ResponseLogs(orders[n], m, clock, fee, id);
      FilledUnderAppend(X.MarketFills(orders[..n], m, clock, fee), X.ResponseFills(orders[n], X.Respond(orders[n], m), clock, fee), id);
    }
  }

  /** An id names one order or none. */
  lemma {:induction false} FilledOfOne(orders: seq<X.SimOrder>, m: X.Market, id: int, k: nat)
    requires forall i, j :: 0 <= i < j < |orders| ==> orders[i].id != orders[j].id
    requires k < |orders| ==> orders[k].id == id
    requires k >= |orders| ==> forall i :: 0 <= i < |orders| ==> orders[i].id != id
    ensures FilledOf(orders, m, id) == if k < |orders| then X.Respond(orders[k], m).filled - orders[k].filled else 0
  {
    if orders != [] {
      FilledOfOne(orders[..|orders| - 1], m, id, k);
    }
  }

  lemma MarketLogged(x: X.Exchange, m: X.Market, clock: real, id: int)
    requires ExchangeOk(x)
    ensures var i := X.IndexOf(x.orders, id);
            LoggedFor(X.OnMarket(x, m, clock).events, id) ==
            LoggedFor(x.events, id) + if i < |x.orders| then X.Respond(x.orders[i], m).filled - x.orders[i].filled else 0
  {
    ExchangeRests(x);
    var fills := X.MarketFills(x.orders, m, clock, x.feePerContract);
    FillsInAppend(x.events, X.FillEvents(fills));
    FillsOfFillEvents(fills);
    FilledUnderAppend(FillsIn(x.events), fills, id);
    MarketLogs(x.orders, m, clock, x.feePerContract, id);
    FilledOfOne(x.orders, m, id, X.IndexOf(x.orders, id));
  }

  function MarketMoved(s: Session, m: X.Market, clock: real): Session {
    s.(desk := Marketed(s.desk, m, clock))
  }

  lemma MarketFlattenOk(s: Session, m: X.Market, clock: real)
    requires SessionOk(s) && !X.Idle(m)
    ensures FlattenOk(MarketMoved(s, m, clock))
  {
    var x, x' := s.desk.exchange, MarketMoved(s, m, clock).desk.exchange;
    ExchangeRests(x);
    MarketOrders(x.orders, m);
    forall r | r in x'.orders && r.id in s.foreign
      ensures s.flatten == Some(r.id) && r.Remaining() == s.flattenSize - LoggedFor(x'.events, r.id)
    {
      var k :| 0 <= k < |x.orders| && r == X.Respond(x.orders[k], m);
      RespondFacts(x.orders[k], m);
      assert x.orders[k] in x.orders;
      MarketLogged(x, m, clock, r.id);
      assert X.IndexOf(x.orders, r.id) == k;
    }
    if s.flatten.Some? {
      MarketFlattenLeft(s, m, clock);
    }
  }

  lemma MarketEndsNothing(x: X.Exchange, m: X.Market, clock: real, id: int)
    requires NoEnd(x.events, id)
    ensures NoEnd(X.OnMarket(x, m, clock).events, id)
  {
    var fills := X.MarketFills(x.orders, m, clock, x.feePerContract);
    assert forall e :: e in X.FillEvents(fills) ==> e.Filled?;
  }

  lemma MarketFlattenLeft(s: Session, m: X.Market, clock: real)
    requires SessionOk(s) && !X.Idle(m) && s.flatten.Some?
    ensures var x', id := MarketMoved(s, m, clock).desk.exchange, s.flatten.value;
            && NoEnd(x'.events, id)
            && LoggedFor(x'.events, id) <= s.flattenSize
            && (Rests(x'.orders, id) || LoggedFor(x'.events, id) == s.flattenSize)
  {
    var x, x', id := s.desk.exchange, MarketMoved(s, m, clock).desk.exchange, s.flatten.value;
    MarketEndsNothing(x, m, clock, id);
    MarketLogged(x, m, clock, id);
    var i := X.IndexOf(x.orders, id);
    ExchangeRests(x);
    assert forall j :: 0 <= j < |x.orders| ==> x.orders[j] in x.orders;
    if i < |x.orders| {
      RespondFacts(x.orders[i], m);
      if X.Respond(x.orders[i], m).active {
        MarketOrders(x.orders, m);
      }
    }
  }

  lemma MarketKeepsSession(s: Session, m: X.Market, clock: real)
    requires SessionOk(s)
    ensures SessionOk(MarketMoved(s, m, clock))
  {
    MarketKeeps(s.desk, s.foreign, m, clock);
    if X.Idle(m) {
      X.NoFills(s.desk.exchange.orders, m, clock, s.desk.exchange.feePerContract);
      assert MarketMoved(s, m, clock).desk.exchange.events == s.desk.exchange.events;
    } else {
      MarketFlattenOk(s, m, clock);
    }
  }

  lemma {:induction false} TapeKeepsSession(s: Session, trades: seq<Trade>, clock: real)
    requires SessionOk(s)
    ensures SessionOk(s.(desk := s.desk.(exchange := TapeFolded(s.desk.exchange, trades, clock))))
  {
    if trades != [] {
      var n := |trades| - 1;
      TapeKeepsSession(s, trades[..n], clock);
      MarketKeepsSession(s.(desk := s.desk.(exchange := TapeFolded(s.desk.exchange, trades[..n], clock))), X.Tape(trades[n]), clock);
    }
  }

  lemma MarketSeenOk(s: Session, i: Input)
    requires SessionOk(s)
    ensures SessionOk(MarketSeen(s, i))
  {
    TapeKeepsSession(s, i.trades, i.clock);
    MarketKeepsSession(s.(desk := s.desk.(exchange := TapeFolded(s.desk.exchange, i.trades, i.clock))), X.Book(i.snapshot), i.clock);
  }

  // ---- reading the log --------------------------------------------------

  /** Without cancels, the flatten order is let go exactly when its fills reach what was left of it. */
  lemma {:induction false} FlattenEventsFold(f: Flatten, id: int, events: seq<OrderEvent>, nextId: int)
    requires f.order == Some(id) && f.size > 0 && NoEnd(events, id)
    requires forall e :: e in events ==> EventOk(e, nextId)
    ensures var r := OnFlattenEvents(f, id, events);
            && r.size == f.size - LoggedFor(events, id)
            && r.order == (if r.size <= 0 then None else Some(id))
  {
    if events != [] {
      var n := |events| - 1;
      assert events[n] in events;
      FlattenEventsFold(f, id, events[..n], nextId);
      FilledUnderAppend(FillsIn(events[..n]), FillIn(events[n]), id);
      assert FillIn(events[n]) != [] ==> FillIn(events[n])[..0] == [];
    }
  }

  lemma {:induction false} EventsNeverUnknown(m: Manager, events: seq<OrderEvent>)
    requires NoneUnknown(m)
    ensures NoneUnknown(OnEvents(m, events))
  {
    if events != [] {
      EventsNeverUnknown(m, events[..|events| - 1]);
    }
  }

  lemma EventsTakenOk(s: Session)
    requires SessionOk(s)
    ensures var s' := EventsTaken(s);
            && SessionOk(s') && AtRest(s'.desk) && s'.desk.exchange.events == []
            && s'.desk == Read(s.desk, s.flatten)
  {
    var s' := EventsTaken(s);
    var x := s.desk.exchange;
    assert s'.desk == Read(s.desk, s.flatten);
    ReadKeeps(s.desk, s.foreign, s.flatten);
    ReadSettles(s.desk, s.foreign, s.flatten);
    EventsKeep(s.desk.manager, Besides(x.events, s.flatten));
    if s.flatten.Some? {
      FlattenEventsFold(Flatten(s.flatten, s.flattenSize), s.flatten.value, x.events, x.nextId);
    }
    assert forall id :: LoggedFor([], id) == 0;
  }

  // ---- deciding ---------------------------------------------------------

  lemma WishKeeps(s: Session, bid: Option<Quote>, ask: Option<Quote>)
    requires SessionOk(s) && QuoteOk(bid, Bid) && QuoteOk(ask, Ask)
    ensures SessionOk(Wish(s, bid, ask))
  {
    ActKeeps(World(s.desk, s.foreign), Want(bid, ask));
  }

  /** Placing the flatten order, or sending it to a new price. */
  lemma FlattenKeeps(cfg: Config, s: Session, now: real, snapshot: BookSnapshot)
    requires SessionOk(s) && s.desk.exchange.events == []
    ensures SessionOk(FlattenPosition(cfg, s, now, snapshot))
    ensures FlattenPosition(cfg, s, now, snapshot).desk.manager == s.desk.manager
  {
    var s' := FlattenPosition(cfg, s, now, snapshot);
    var paid := s.desk.(budget := TryAcquire(s.desk.budget, now));
    QueueKeeps(s.desk, paid, s.foreign);
    assert forall id :: LoggedFor([], id) == 0;
    if s' != s && s'.desk.exchange != s.desk.exchange {
      var price := FlattenPrice(cfg, s.account.position, snapshot);
      if s.flatten.Some? {
        ForeignReplaceKeeps(paid, s.foreign, s.flatten.value, price, s.flattenSize);
        ChasedFlatten(s, s', price);
      } else {
        var side := if s.account.position > 0 then Ask else Bid;
        ForeignPlaceKeeps(paid, s.foreign, side, price, Abs(s.account.position));
        PlacedFlatten(s, s', side, price);
      }
    }
  }

  lemma NothingLogged(id: int)
    ensures LoggedFor([], id) == 0 && LoggedFor([Ack(id)], id) == 0
  {
    assert [Ack(id)][..0] == [];
    assert FillsIn([Ack(id)]) == [];
  }

  lemma ChasedFlatten(s: Session, s': Session, price: real)
    requires SessionOk(s) && s.flatten.Some? && s.desk.exchange.events == []
    requires s' == s.(desk := s'.desk, flattenSentAt := s'.flattenSentAt)
    requires s'.desk.exchange == X.Replace(s.desk.exchange, s.flatten.value, price, s.flattenSize)
    requires s'.desk.manager == s.desk.manager
    ensures FlattenOk(s')
  {
    var os, os', id := s.desk.exchange.orders, s'.desk.exchange.orders, s.flatten.value;
    var i := X.IndexOf(os, id);
    NothingLogged(id);
    if i < |os| {
      assert os[i] in os;
      forall o | o in os' && o.id in s.foreign
        ensures s.flatten == Some(o.id) && o.Remaining() == s.flattenSize
      {
        var j :| 0 <= j < |os'| && os'[j] == o;
        assert os[j] in os;
        assert os[j].id == id;
        assert j == i;
      }
      assert os'[i] in os';
    }
  }

  lemma PlacedFlatten(s: Session, s': Session, side: Side, price: real)
    requires SessionOk(s) && s.flatten.None? && s.desk.exchange.events == [] && s.account.position != 0
    requires s'.desk.exchange == X.Place(s.desk.exchange, side, price, Abs(s.account.position))
    requires s'.foreign == s.foreign + {s.desk.exchange.nextId}
    requires s'.flatten == Some(s.desk.exchange.nextId) && s'.flattenSize == Abs(s.account.position)
    ensures FlattenOk(s')
  {
    var id := s.desk.exchange.nextId;
    NothingLogged(id);
    var os' := s'.desk.exchange.orders;
    assert os'[|os'| - 1] in os';
    assert s'.desk.exchange.events == [Ack(id)];
    forall o | o in os' && o.id in s'.foreign
      ensures o == os'[|os'| - 1]
    {
      assert o in s.desk.exchange.orders ==> o.id < id;
    }
  }

  /** The engine's sizes are the configuration's own: a base of one or more, a cap no size exceeds. */
  predicate ConfigOk(cfg: Config) {
    && cfg.quoting.maxPosition == cfg.risk.maxPosition
    && 1 <= cfg.quoting.maxSize <= cfg.quoting.maxPosition
  }

  lemma JudgedOk(cfg: Config, s: Session, i: Input)
    requires ConfigOk(cfg) && SessionOk(s) && AtRest(s.desk) && s.desk.exchange.events == []
    ensures SessionOk(Judged(cfg, s, i)) && AtRest(Judged(cfg, s, i).desk)
  {
    var judged := s.(halted := Risk.HaltedAfter(cfg.risk, s.halted, s.account, ConditionsOf(cfg, i)));
    var v := VerdictOf(cfg, s, i);
    if v.pull || !v.quote {
      WishKeeps(judged, None, None);
      FlattenKeeps(cfg, Wish(judged, None, None), i.now, i.snapshot);
    } else {
      E.DecisionFits(cfg.quoting, i.snapshot, i.signals, s.account.position);
      var d := E.Decide(cfg.quoting, i.snapshot, i.signals, s.account.position);
      WishKeeps(judged, d.bid, d.ask);
    }
  }

  // ---- reconciling and pumping ------------------------------------------

  lemma ReconciledOk(s: Session, now: real)
    requires SessionOk(s) && AtRest(s.desk)
    ensures SessionOk(Reconciled(s, now))
    ensures Reconciled(s, now).desk.manager == s.desk.manager && Reconciled(s, now).desk.exchange == s.desk.exchange
  {
    ReconcileAgreesIff(s.desk, s.foreign, now);
    ReconcileShape(s.desk, Bid, now);
    ReconcileShape(ReconcileSide(s.desk, Bid, now), Ask, now);
  }

  lemma ExecuteNeverUnknown(d: Desk, action: Command, clock: real)
    requires NeverUnknown(d)
    ensures NeverUnknown(Execute(d, action, clock))
  {
  }

  /** x' is x after one message: a new order, or a replace or cancel of order id. */
  ghost predicate Messaged(x: X.Exchange, x': X.Exchange, id: int) {
    || (id == x.nextId && exists side, price, size :: x' == X.Place(x, side, price, size))
    || (exists price, size :: x' == X.Replace(x, id, price, size))
    || x' == X.Cancel(x, id)
  }

  /** A message logs no fill, and nothing about any other order. */
  lemma MessageLogs(x: X.Exchange, x': X.Exchange, id: int)
    requires Messaged(x, x', id)
    ensures FillsIn(x'.events) == FillsIn(x.events)
    ensures forall e :: e in x'.events ==> e in x.events || e.orderId == id
  {
    assert x'.events == x.events || x'.events == x.events + [Ack(id)] || x'.events == x.events + [Cancelled(id)];
    QuietEvent(x.events, Ack(id));
    QuietEvent(x.events, Cancelled(id));
  }

  /** A message moves no other order. */
  lemma MessageOrders(x: X.Exchange, x': X.Exchange, id: int)
    requires ExchangeOk(x) && Messaged(x, x', id) && id <= x.nextId
    ensures forall o: X.SimOrder :: o.id != id ==> (o in x'.orders <==> o in x.orders)
  {
    if x' == X.Cancel(x, id) {
      if id < x.nextId {
        CancelledOrders(x, id);
      } else {
        assert forall j :: 0 <= j < |x.orders| ==> x.orders[j] in x.orders;
      }
    } else if exists price, size :: x' == X.Replace(x, id, price, size) {
      forall o: X.SimOrder | o.id != id
        ensures o in x'.orders <==> o in x.orders
      {
        assert |x'.orders| == |x.orders|;
        assert forall j :: 0 <= j < |x.orders| && x.orders[j].id != id ==> x'.orders[j] == x.orders[j];
        assert forall j :: 0 <= j < |x.orders| && x'.orders[j].id != id ==> x'.orders[j] == x.orders[j];
      }
    }
  }

  /** A command sends one message about its own side's order, or none. */
  lemma ExecuteSends(d: Desk, action: Command, clock: real)
    ensures var d' := Execute(d, action, clock);
            || d'.exchange == d.exchange
            || (d.Slot(action.side).None? && Messaged(d.exchange, d'.exchange, d.exchange.nextId))
            || (d.Slot(action.side).Some? && Messaged(d.exchange, d'.exchange, d.Slot(action.side).value.id))
  {
    var d' := Execute(d, action, clock);
    if action.PlaceQuote? && d.Slot(action.side).None? {
      assert d'.exchange == X.Place(d.exchange, action.side, action.quote.price, action.quote.size);
    } else if action.ReplaceQuote? && d.Slot(action.side).Some? && d.manager.desired.At(action.side).Some? {
      var q := d.manager.desired.At(action.side).value;
      assert d'.exchange == d.exchange || d'.exchange == X.Replace(d.exchange, d.Slot(action.side).value.id, q.price, q.size);
    }
  }

  /** The flatten order's account only reads its own order and the fills logged. */
  lemma FlattenCarries(s: Session, s': Session, id: int)
    requires FlattenOk(s) && s' == s.(desk := s'.desk) && id !in s.foreign
    requires FillsIn(s'.desk.exchange.events) == FillsIn(s.desk.exchange.events)
    requires forall e :: e in s'.desk.exchange.events ==> e in s.desk.exchange.events || e.orderId == id
    requires forall o: X.SimOrder :: o.id != id ==> (o in s'.desk.exchange.orders <==> o in s.desk.exchange.orders)
    ensures FlattenOk(s')
  {
    if s.flatten.Some? && Rests(s.desk.exchange.orders, s.flatten.value) {
      var o :| o in s.desk.exchange.orders && o.id == s.flatten.value;
      assert o in s'.desk.exchange.orders;
    }
  }

  /** A message about a quote leaves every flatten order, and what is logged for it, alone. */
  lemma QuoteMessagesSpareFlatten(s: Session, s': Session, id: int)
    requires ExchangeOk(s.desk.exchange) && FlattenOk(s) && s' == s.(desk := s'.desk)
    requires Messaged(s.desk.exchange, s'.desk.exchange, id) && id !in s.foreign && id <= s.desk.exchange.nextId
    ensures FlattenOk(s')
  {
    MessageLogs(s.desk.exchange, s'.desk.exchange, id);
    MessageOrders(s.desk.exchange, s'.desk.exchange, id);
    FlattenCarries(s, s', id);
  }

  lemma PumpOneSparesFlatten(s: Session, now: real, clock: real)
    requires SessionOk(s) && |s.desk.queue.pending| > 0
    ensures FlattenOk(s.(desk := PumpOne(s.desk, now, clock)))
  {
    var d, d' := s.desk, PumpOne(s.desk, now, clock);
    var action := d.queue.pending[BestIndex(d.queue.pending)].action;
    PumpOneShape(d, now, clock);
    ExecuteSends(d, action, clock);
    if d'.exchange != d.exchange {
      var id := if d.Slot(action.side).None? then d.exchange.nextId else d.Slot(action.side).value.id;
      assert SlotOk(d, s.foreign, action.side);
      QuoteMessagesSpareFlatten(s, s.(desk := d'), id);
    }
  }

  lemma PumpOneOk(s: Session, now: real, clock: real)
    requires SessionOk(s) && |s.desk.queue.pending| > 0
    ensures SessionOk(s.(desk := PumpOne(s.desk, now, clock)))
  {
    PumpOneKeeps(s.desk, s.foreign, now, clock);
    PumpOneSparesFlatten(s, now, clock);
    PumpOneShape(s.desk, now, clock);
    ExecuteNeverUnknown(s.desk, s.desk.queue.pending[BestIndex(s.desk.queue.pending)].action, clock);
  }

  lemma {:induction false} PumpedOk(s: Session, now: real, clock: real)
    requires SessionOk(s)
    ensures SessionOk(Pumped(s, now, clock))
    decreases |s.desk.queue.pending|
  {
    var d := s.desk;
    if d.queue.pending != [] {
      if Affords(d.budget, now, 0.0) {
        PumpOneOk(s, now, clock);
        PumpedOk(s.(desk := PumpOne(d, now, clock)), now, clock);
      } else {
        QueueKeeps(d, Pump(d, now, clock), s.foreign);
      }
    }
  }

  // ---- runs -------------------------------------------------------------

  /** Where a step stands when it comes to reconcile. */
  lemma StepOk(cfg: Config, s: Session, i: Input)
    requires ConfigOk(cfg) && SessionOk(s)
    ensures SessionOk(MarketSeen(s, i)) && SessionOk(EventsTaken(MarketSeen(s, i)))
    ensures var b := BeforeReconcile(cfg, s, i);
            && SessionOk(b) && AtRest(b.desk)
            && SessionOk(Reconciled(b, i.now)) && Reconciled(b, i.now).desk.manager == b.desk.manager
    ensures SessionOk(Step(cfg, s, i))
  {
    MarketSeenOk(s, i);
    EventsTakenOk(MarketSeen(s, i));
    JudgedOk(cfg, EventsTaken(MarketSeen(s, i)), i);
    ReconciledOk(BeforeReconcile(cfg, s, i), i.now);
    PumpedOk(Reconciled(BeforeReconcile(cfg, s, i), i.now), i.now, i.clock);
  }

  /** A pipeline that has just been built; the position may have been adopted. */
  predicate Started(s: Session) {
    && Fresh(World(s.desk, s.foreign))
    && s.flatten.None? && !s.halted
  }

  /**
   * Over every run of the pipeline: the manager's slots with the log replayed
   * are the exchange's quotes, the rest of the exchange is the flatten order,
   * no order is ever Unknown, and nothing is ever given up on.
   */
  lemma {:induction false} RunOk(cfg: Config, s: Session, inputs: seq<Input>)
    requires ConfigOk(cfg) && Started(s)
    ensures SessionOk(Run(cfg, s, inputs))
  {
    if inputs == [] {
      EveryInterleavingAgrees(World(s.desk, s.foreign), []);
    } else {
      RunOk(cfg, s, inputs[..|inputs| - 1]);
      StepOk(cfg, Run(cfg, s, inputs[..|inputs| - 1]), inputs[|inputs| - 1]);
    }
  }

  /** Drained before it reconciles, a step never finds a message in flight, so no timeout can fire. */
  lemma NoTimeoutInAnyRun(cfg: Config, s: Session, inputs: seq<Input>, i: Input)
    requires ConfigOk(cfg) && Started(s)
    ensures var r := Run(cfg, s, inputs);
            && r.desk.manager.timeouts == 0
            && (forall side: Side :: r.desk.Slot(side).Some? ==> !r.desk.Slot(side).value.state.Unknown?)
            && AtRest(BeforeReconcile(cfg, r, i).desk)
  {
    RunOk(cfg, s, inputs);
    StepOk(cfg, Run(cfg, s, inputs), i);
  }
}
