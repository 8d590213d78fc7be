/** Over every run, counting fills not yet read, the position with everything resting stays inside the cap. */
module PositionCap {
  import opened Common
  import opened Orders
  import opened Throttle
  import opened QuoteManagement
  import opened Coherence
  import opened Pipeline
  import opened SessionCoherence
  import X = SimulatedExchange
  import Inventory
  import Risk
  import E = QuotingEngine

  // ---- exposure ---------------------------------------------------------

  /** Contracts resting on one side, flatten orders included. */
  function OnSide(orders: seq<X.SimOrder>, side: Side): int {
    if orders == [] then 0
    else
      var last := orders[|orders| - 1];
      OnSide(orders[..|orders| - 1], side) + if last.side == side then last.Remaining() else 0
  }

  /** The position once the log is read. */
  function TruePosition(s: Session): int {
    s.account.position + NetSize(FillsIn(s.desk.exchange.events))
  }

  /** If everything resting filled on one side alone, the position would still be inside the cap. */
  ghost predicate Capped(cap: int, s: Session) {
    && TruePosition(s) + OnSide(s.desk.exchange.orders, Bid) <= cap
    && TruePosition(s) - OnSide(s.desk.exchange.orders, Ask) >= -cap
  }

  /** No quote is larger than one fill may be. */
  ghost predicate QuotesSmall(cap: int, s: Session) {
    forall o :: o in s.desk.exchange.orders && o.id !in s.foreign ==> o.Remaining() <= cap
  }

  ghost predicate CapOk(cap: int, s: Session) {
    SessionOk(s) && Capped(cap, s) && QuotesSmall(cap, s)
  }

  lemma {:induction false} OnSideAppend(first: seq<X.SimOrder>, second: seq<X.SimOrder>, side: Side)
    ensures OnSide(first + second, side) == OnSide(first, side) + OnSide(second, side)
  {
    if second == [] {
      assert first + second == first;
    } else {
      var n := |second| - 1;
      OnSideAppend(first, second[..n], side);
      assert (first + second)[..|first + second| - 1] == first + second[..n];
    }
  }

  lemma OnSideOne(o: X.SimOrder, side: Side)
    ensures OnSide([o], side) == if o.side == side then o.Remaining() else 0
  {
    assert [o][..0] == [];
  }

  lemma OnSideSplit(orders: seq<X.SimOrder>, i: nat, side: Side)
    requires i < |orders|
    ensures OnSide(orders, side) ==
            OnSide(orders[..i], side) + (if orders[i].side == side then orders[i].Remaining() else 0) + OnSide(orders[i + 1..], side)
  {
    assert orders == orders[..i] + ([orders[i]] + orders[i + 1..]);
    OnSideAppend(orders[..i], [orders[i]] + orders[i + 1..], side);
    OnSideAppend([orders[i]], orders[i + 1..], side);
    OnSideOne(orders[i], side);
  }

  lemma OnSideUpdate(orders: seq<X.SimOrder>, i: nat, o: X.SimOrder, side: Side)
    requires i < |orders| && o.side == orders[i].side
    ensures OnSide(orders[i := o], side) ==
            OnSide(orders, side) + if o.side == side then o.Remaining() - orders[i].Remaining() else 0
  {
    OnSideSplit(orders, i, side);
    OnSideSplit(orders[i := o], i, side);
    assert orders[i := o][..i] == orders[..i] && orders[i := o][i + 1..] == orders[i + 1..];
  }

  lemma {:induction false} OnSideNone(orders: seq<X.SimOrder>, side: Side)
    requires forall o :: o in orders ==> o.side != side
    ensures OnSide(orders, side) == 0
  {
    if orders != [] {
      OnSideNone(orders[..|orders| - 1], side);
    }
  }

  /** Only one order rests on the side: the side is that order. */
  lemma OnSideOnly(orders: seq<X.SimOrder>, i: nat, side: Side)
    requires i < |orders| && orders[i].side == side
    requires forall j :: 0 <= j < |orders| && j != i ==> orders[j].side != side
    ensures OnSide(orders, side) == orders[i].Remaining()
  {
    OnSideSplit(orders, i, side);
    OnSideNone(orders[..i], side);
    OnSideNone(orders[i + 1..], side);
  }

  lemma {:induction false} OnSideNonNegative(orders: seq<X.SimOrder>, side: Side)
    requires forall o :: o in orders ==> o.Remaining() >= 0
    ensures OnSide(orders, side) >= 0
  {
    if orders != [] {
      OnSideNonNegative(orders[..|orders| - 1], side);
    }
  }

  /** Dropping what is finished drops nothing that rests. */
  lemma {:induction false} CompactedSide(orders: seq<X.SimOrder>, side: Side)
    requires forall o :: o in orders && !o.active ==> o.Remaining() == 0
    ensures OnSide(X.Compacted(orders), side) == OnSide(orders, side)
  {
    if orders != [] {
      var n := |orders| - 1;
      CompactedSide(orders[..n], side);
      if orders[n].active {
        OnSideAppend(X.Compacted(orders[..n]), [orders[n]], side);
        OnSideOne(orders[n], side);
      } else {
        assert orders[n] in orders && X.Compacted(orders) == X.Compacted(orders[..n]);
      }
    }
  }

  lemma {:induction false} CompactedAtMost(orders: seq<X.SimOrder>, side: Side)
    requires forall o :: o in orders ==> o.Remaining() >= 0
    ensures OnSide(X.Compacted(orders), side) <= OnSide(orders, side)
  {
    if orders != [] {
      var n := |orders| - 1;
      CompactedAtMost(orders[..n], side);
      if orders[n].active {
        OnSideAppend(X.Compacted(orders[..n]), [orders[n]], side);
        OnSideOne(orders[n], side);
      } else {
        assert orders[n] in orders && X.Compacted(orders) == X.Compacted(orders[..n]);
      }
    }
  }

  // ---- the market moves contracts from resting to filled ----------------

  lemma ResponseMoves(o: X.SimOrder, m: X.Market, clock: real, fee: real)
    requires o.active && o.Remaining() > 0
    ensures NetSize(X.ResponseFills(o, X.Respond(o, m), clock, fee)) ==
            var moved := o.Remaining() - X.Respond(o, m).Remaining(); if o.side.Bid? then moved else -moved
  {
    RespondFacts(o, m);
    var fills := X.ResponseFills(o, X.Respond(o, m), clock, fee);
    assert fills != [] ==> fills[..0] == [];
  }

  lemma {:induction false} MarketMovesVolume(orders: seq<X.SimOrder>, m: X.Market, clock: real, fee: real)
    requires forall o :: o in orders ==> o.active && o.Remaining() > 0
    ensures var after := X.Responses(orders, m);
            && NetSize(X.MarketFills(orders, m, clock, fee)) ==
               (OnSide(orders, Bid) - OnSide(after, Bid)) - (OnSide(orders, Ask) - OnSide(after, Ask))
            && OnSide(after, Bid) <= OnSide(orders, Bid) && OnSide(after, Ask) <= OnSide(orders, Ask)
  {
    if orders != [] {
      var n := |orders| - 1;
      MarketMovesVolume(orders[..n], m, clock, fee);
      RespondFacts(orders[n], m);
      ResponseMoves(orders[n], m, clock, fee);
      NetSizeAppend(X.MarketFills(orders[..n], m, clock, fee), X.ResponseFills(orders[n], X.Respond(orders[n], m), clock, fee));
      var after := X.Responses(orders, m);
      assert after[..n] == X.Responses(orders[..n], m) && after[n] == X.Respond(orders[n], m);
    }
  }

  lemma MarketKeepsCapped(cap: int, s: Session, m: X.Market, clock: real)
    requires CapOk(cap, s)
    ensures CapOk(cap, MarketMoved(s, m, clock))
  {
    var x, s' := s.desk.exchange, MarketMoved(s, m, clock);
    MarketKeepsSession(s, m, clock);
    if X.Idle(m) {
      X.NoFills(x.orders, m, clock, x.feePerContract);
      assert s'.desk.exchange.events == x.events;
    } else {
      var fills := X.MarketFills(x.orders, m, clock, x.feePerContract);
      FillsInAppend(x.events, X.FillEvents(fills));
      FillsOfFillEvents(fills);
      NetSizeAppend(FillsIn(x.events), fills);
      MarketMovesVolume(x.orders, m, clock, x.feePerContract);
      MarketSides(x, m, clock);
      MarketKeepsSmall(cap, s, m, clock);
    }
  }

  lemma MarketSides(x: X.Exchange, m: X.Market, clock: real)
    requires ExchangeOk(x) && !X.Idle(m)
    ensures forall side: Side :: OnSide(X.OnMarket(x, m, clock).orders, side) == OnSide(X.Responses(x.orders, m), side)
  {
    var after := X.Responses(x.orders, m);
    forall o | o in after && !o.active
      ensures o.Remaining() == 0
    {
      var k :| 0 <= k < |after| && after[k] == o;
      assert x.orders[k] in x.orders;
      RespondFacts(x.orders[k], m);
    }
    CompactedSide(after, Bid);
    CompactedSide(after, Ask);
  }

  lemma MarketKeepsSmall(cap: int, s: Session, m: X.Market, clock: real)
    requires ExchangeOk(s.desk.exchange) && QuotesSmall(cap, s) && !X.Idle(m)
    ensures QuotesSmall(cap, MarketMoved(s, m, clock))
  {
    var x := s.desk.exchange;
    ExchangeRests(x);
    MarketOrders(x.orders, m);
    forall r | r in MarketMoved(s, m, clock).desk.exchange.orders && r.id !in s.foreign
      ensures r.Remaining() <= cap
    {
      var k :| 0 <= k < |x.orders| && r == X.Respond(x.orders[k], m);
      assert x.orders[k] in x.orders;
      RespondFacts(x.orders[k], m);
    }
  }

  lemma {:induction false} TapeKeepsCapped(cap: int, s: Session, trades: seq<Trade>, clock: real)
    requires CapOk(cap, s)
    ensures CapOk(cap, s.(desk := s.desk.(exchange := TapeFolded(s.desk.exchange, trades, clock))))
  {
    if trades != [] {
      var n := |trades| - 1;
      TapeKeepsCapped(cap, s, trades[..n], clock);
      MarketKeepsCapped(cap, s.(desk := s.desk.(exchange := TapeFolded(s.desk.exchange, trades[..n], clock))), X.Tape(trades[n]), clock);
    }
  }

  lemma MarketSeenCapped(cap: int, s: Session, i: Input)
    requires CapOk(cap, s)
    ensures CapOk(cap, MarketSeen(s, i))
  {
    TapeKeepsCapped(cap, s, i.trades, i.clock);
    MarketKeepsCapped(cap, s.(desk := s.desk.(exchange := TapeFolded(s.desk.exchange, i.trades, i.clock))), X.Book(i.snapshot), i.clock);
  }

  // ---- reading moves contracts from the log to the position -------------

  /** Set aside or not, every fill in the log is booked once. */
  lemma {:induction false} StepFillsNet(events: seq<OrderEvent>, flatten: Option<int>)
    ensures NetSize(StepFills(events, flatten)) == NetSize(FillsIn(events))
  {
    if events == [] {
      assert StepFills(events, flatten) == [];
    } else {
      var n := |events| - 1;
      var e := events[n];
      StepFillsNet(events[..n], flatten);
      NetSizeAppend(FillsIn(events[..n]), FillIn(e));
      NetSizeAppend(FillsIn(Besides(events[..n], flatten)), if flatten.Some? then FillsOf(events[..n], flatten.value) else []);
      NetSizeAppend(FillsIn(Besides(events, flatten)), if flatten.Some? then FillsOf(events, flatten.value) else []);
      if Some(e.orderId) == flatten {
        assert Besides(events, flatten) == Besides(events[..n], flatten);
        NetSizeAppend(FillsOf(events[..n], e.orderId), FillIn(e));
      } else {
        FillsInAppend(Besides(events[..n], flatten), [e]);
        OneFillIn(e);
        NetSizeAppend(FillsIn(Besides(events[..n], flatten)), FillIn(e));
        assert flatten.Some? ==> FillsOf(events, flatten.value) == FillsOf(events[..n], flatten.value);
      }
    }
  }

  lemma EventsTakenCapped(cap: int, s: Session)
    requires CapOk(cap, s)
    ensures CapOk(cap, EventsTaken(s)) && EventsTaken(s).desk.exchange.events == []
    ensures EventsTaken(s).account.position == TruePosition(s) == TruePosition(EventsTaken(s))
  {
    EventsTakenOk(s);
    StepFillsNet(s.desk.exchange.events, s.flatten);
    Inventory.BookedTotals(s.account, StepFills(s.desk.exchange.events, s.flatten));
  }

  // ---- what a side holds when no flatten order is live ------------------

  /** With no flatten order live, a side is its one quote, or nothing. */
  lemma QuoteSide(s: Session, side: Side)
    requires SessionOk(s) && s.flatten.None?
    ensures Settled(s.desk, side).None? ==> OnSide(s.desk.exchange.orders, side) == 0
    ensures Settled(s.desk, side).Some? ==>
              s.desk.Slot(side).Some? &&
              var orders := s.desk.exchange.orders;
              var i := X.IndexOf(orders, s.desk.Slot(side).value.id);
              i < |orders| && orders[i].side == side && OnSide(orders, side) == orders[i].Remaining()
  {
    var orders := s.desk.exchange.orders;
    assert forall o :: o in orders ==> o.id !in s.foreign;
    if Settled(s.desk, side).None? {
      OnSideNone(orders, side);
    } else {
      ReplayKeepsId(s.desk.Slot(side), s.desk.exchange.events);
      FindSettled(s.desk, s.foreign, side);
      var i := X.IndexOf(orders, s.desk.Slot(side).value.id);
      forall j | 0 <= j < |orders| && j != i
        ensures orders[j].side != side
      {
        assert orders[j] in orders;
      }
      OnSideOnly(orders, i, side);
    }
  }

  lemma QuoteSideSmall(cap: nat, s: Session, side: Side)
    requires CapOk(cap, s) && s.flatten.None?
    ensures 0 <= OnSide(s.desk.exchange.orders, side) <= cap
  {
    QuoteSide(s, side);
    var orders := s.desk.exchange.orders;
    if Settled(s.desk, side).Some? {
      var i := X.IndexOf(orders, s.desk.Slot(side).value.id);
      assert orders[i] in orders;
    }
  }

  // ---- deciding ---------------------------------------------------------

  lemma FlattenKeepsCapped(cap: nat, cfg: Config, s: Session, now: real, snapshot: BookSnapshot)
    requires CapOk(cap, s) && s.desk.exchange.events == []
    ensures CapOk(cap, FlattenPosition(cfg, s, now, snapshot))
    ensures FillsIn(FlattenPosition(cfg, s, now, snapshot).desk.exchange.events) == []
  {
    var s' := FlattenPosition(cfg, s, now, snapshot);
    var x := s.desk.exchange;
    FlattenKeeps(cfg, s, now, snapshot);
    if s'.desk.exchange != x {
      var price := FlattenPrice(cfg, s.account.position, snapshot);
      if s.flatten.Some? {
        ChaseKeepsVolume(cap, s, s', price);
      } else {
        PlacedFlattenFits(cap, s, s', if s.account.position > 0 then Ask else Bid, price);
      }
    }
  }

  /** The flatten order only takes the position towards zero. */
  lemma PlacedFlattenFits(cap: nat, s: Session, s': Session, side: Side, price: real)
    requires CapOk(cap, s) && s.flatten.None? && s.desk.exchange.events == []
    requires s.account.position != 0 && side == if s.account.position > 0 then Ask else Bid
    requires s'.desk.exchange == X.Place(s.desk.exchange, side, price, Abs(s.account.position))
    requires s'.account == s.account && s'.foreign == s.foreign + {s.desk.exchange.nextId}
    ensures Capped(cap, s') && QuotesSmall(cap, s') && FillsIn(s'.desk.exchange.events) == []
  {
    var x, x' := s.desk.exchange, s'.desk.exchange;
    QuietEvent([], Ack(x.nextId));
    assert [] + [Ack(x.nextId)] == x'.events;
    var o := x'.orders[|x.orders|];
    OnSideAppend(x.orders, [o], Bid);
    OnSideAppend(x.orders, [o], Ask);
    OnSideOne(o, Bid);
    OnSideOne(o, Ask);
    QuoteSideSmall(cap, s, side);
  }

  lemma ChaseKeepsVolume(cap: int, s: Session, s': Session, price: real)
    requires CapOk(cap, s) && s.flatten.Some? && s.desk.exchange.events == []
    requires s'.desk.exchange == X.Replace(s.desk.exchange, s.flatten.value, price, s.flattenSize)
    requires s'.account == s.account && s'.foreign == s.foreign
    ensures Capped(cap, s') && QuotesSmall(cap, s') && FillsIn(s'.desk.exchange.events) == []
  {
    var x, x', id := s.desk.exchange, s'.desk.exchange, s.flatten.value;
    var i := X.IndexOf(x.orders, id);
    QuietEvent([], Ack(id));
    assert [] + [Ack(id)] == [Ack(id)];
    if i < |x.orders| {
      assert x.orders[i] in x.orders;
      NothingLogged(id);
      OnSideUpdate(x.orders, i, x'.orders[i], Bid);
      OnSideUpdate(x.orders, i, x'.orders[i], Ask);
      UpdateKeepsSmall(cap, s, s', i);
    }
  }

  lemma UpdateKeepsSmall(cap: int, s: Session, s': Session, i: nat)
    requires QuotesSmall(cap, s) && i < |s.desk.exchange.orders| == |s'.desk.exchange.orders|
    requires s'.desk.exchange.orders == s.desk.exchange.orders[i := s'.desk.exchange.orders[i]] && s'.foreign == s.foreign
    requires s'.desk.exchange.orders[i].id in s.foreign || s'.desk.exchange.orders[i].Remaining() <= cap
    ensures QuotesSmall(cap, s')
  {
    var os, os' := s.desk.exchange.orders, s'.desk.exchange.orders;
    forall o | o in os' && o.id !in s.foreign
      ensures o.Remaining() <= cap
    {
      var j :| 0 <= j < |os'| && os'[j] == o;
      assert os[j] in os;
    }
  }

  predicate WishSmall(cap: int, s: Session, side: Side) {
    var wish := s.desk.manager.desired.At(side);
    wish.Some? ==> 0 < wish.value.size <= cap
  }

  /** A wish fits when a whole fill of it stays inside the cap, and it is not made over a live flatten order. */
  predicate WishFits(cap: int, s: Session, side: Side) {
    var wish := s.desk.manager.desired.At(side);
    wish.Some? ==>
      && s.flatten.None?
      && 0 < wish.value.size <= cap
      && side.Sign() * s.account.position + wish.value.size <= cap
  }

  /** The step quotes only when no flatten order is live. */
  predicate NotOverFlatten(cfg: Config, s: Session, i: Input) {
    var e := EventsTaken(MarketSeen(s, i));
    VerdictOf(cfg, e, i).quote ==> e.flatten.None?
  }

  lemma JudgedCapped(cap: nat, cfg: Config, s: Session, i: Input)
    requires ConfigOk(cfg) && cap == cfg.quoting.maxPosition
    requires CapOk(cap, s) && AtRest(s.desk) && s.desk.exchange.events == []
    ensures var j := Judged(cfg, s, i);
            && CapOk(cap, j) && FillsIn(j.desk.exchange.events) == []
            && WishSmall(cap, j, Bid) && WishSmall(cap, j, Ask)
            && ((VerdictOf(cfg, s, i).quote ==> s.flatten.None?) ==> WishFits(cap, j, Bid) && WishFits(cap, j, Ask))
  {
    var judged := s.(halted := Risk.HaltedAfter(cfg.risk, s.halted, s.account, ConditionsOf(cfg, i)));
    var v := VerdictOf(cfg, s, i);
    JudgedOk(cfg, s, i);
    if v.pull || !v.quote {
      WishKeeps(judged, None, None);
      FlattenKeepsCapped(cap, cfg, Wish(judged, None, None), i.now, i.snapshot);
      FlattenKeeps(cfg, Wish(judged, None, None), i.now, i.snapshot);
    } else {
      E.DecisionFits(cfg.quoting, i.snapshot, i.signals, s.account.position);
    }
  }

  // ---- reconciling ------------------------------------------------------

  /** What waits for a side is what the side is wished to be now. */
  ghost predicate QueueCurrent(d: Desk, side: Side) {
    forall q :: q in d.queue.pending && q.key == side ==>
      && (q.action.PlaceQuote? ==> d.manager.desired.At(side) == Some(q.action.quote))
      && (q.action.ReplaceQuote? ==> d.manager.desired.At(side).Some?)
  }

  lemma SubmitCurrent(q: Queue, key: Side, priority: int, action: Command)
    requires forall i, j :: 0 <= i < j < |q.pending| ==> q.pending[i].key != q.pending[j].key
    ensures var after := Submit(q, key, priority, action);
            forall e :: e in after.pending ==>
              if e.key == key then e == Queued(priority, q.sequence + 1, key, action) else e in q.pending
  {
    var after, i := Submit(q, key, priority, action), IndexOfKey(q.pending, key);
    forall e | e in after.pending
      ensures if e.key == key then e == Queued(priority, q.sequence + 1, key, action) else e in q.pending
    {
      var j :| 0 <= j < |after.pending| && after.pending[j] == e;
      assert j < |q.pending| && j != i ==> q.pending[j] == e;
    }
  }

  lemma ReconcileSideCurrent(d: Desk, side: Side, now: real)
    requires QueueOk(d) && (d.Slot(side).Some? ==> d.Slot(side).value.state.Working?)
    ensures var d' := ReconcileSide(d, side, now);
            QueueCurrent(d', side) && (QueueCurrent(d, Other(side)) ==> QueueCurrent(d', Other(side)))
  {
    WithdrawKeeps(d, side);
    SubmitCurrent(d.queue, side, PRIORITY_CANCEL, CancelQuote(side));
    SubmitCurrent(d.queue, side, PRIORITY_REPLACE, ReplaceQuote(side));
    if d.manager.desired.At(side).Some? {
      SubmitCurrent(d.queue, side, PRIORITY_PLACE, PlaceQuote(side, d.manager.desired.At(side).value));
    }
    ReconcileShape(d, side, now);
  }

  lemma ReconciledCurrent(s: Session, now: real)
    requires SessionOk(s) && AtRest(s.desk)
    ensures var d := Reconciled(s, now).desk; QueueCurrent(d, Bid) && QueueCurrent(d, Ask)
  {
    var half := ReconcileSide(s.desk, Bid, now);
    ReconcileShape(s.desk, Bid, now);
    ReconcileSideCurrent(s.desk, Bid, now);
    ReconcileSideKeeps(s.desk, s.foreign, Bid, now);
    ReconcileSideCurrent(half, Ask, now);
  }

  // ---- pumping ----------------------------------------------------------

  lemma CancelShrinks(x: X.Exchange, id: int, side: Side)
    requires ExchangeOk(x)
    ensures OnSide(X.Cancel(x, id).orders, side) <= OnSide(x.orders, side)
  {
    var i := X.IndexOf(x.orders, id);
    if i < |x.orders| {
      var off := x.orders[i := x.orders[i].(active := false)];
      assert x.orders[i] in x.orders;
      forall o | o in off
        ensures o.Remaining() >= 0
      {
        var j :| 0 <= j < |off| && off[j] == o;
        assert x.orders[j] in x.orders;
      }
      OnSideUpdate(x.orders, i, off[i], side);
      CompactedAtMost(off, side);
    }
  }

  ghost predicate PumpReady(cap: int, s: Session) {
    && CapOk(cap, s) && FillsIn(s.desk.exchange.events) == []
    && WishFits(cap, s, Bid) && WishFits(cap, s, Ask)
    && QueueCurrent(s.desk, Bid) && QueueCurrent(s.desk, Ask)
  }

  lemma PlaceKeepsCapped(cap: int, s: Session, side: Side, quote: Quote, clock: real)
    requires CapOk(cap, s) && FillsIn(s.desk.exchange.events) == []
    requires s.desk.Slot(side).None? && s.desk.manager.desired.At(side) == Some(quote) && WishFits(cap, s, side)
    ensures var s' := s.(desk := PlaceNow(s.desk, side, quote, clock)); Capped(cap, s') && QuotesSmall(cap, s')
  {
    var x := s.desk.exchange;
    var x' := PlaceNow(s.desk, side, quote, clock).exchange;
    QuietEvent(x.events, Ack(x.nextId));
    var o := x'.orders[|x.orders|];
    OnSideAppend(x.orders, [o], Bid);
    OnSideAppend(x.orders, [o], Ask);
    OnSideOne(o, Bid);
    OnSideOne(o, Ask);
    assert forall i :: 0 <= i < |x.events| ==> x.events[i] in x.events;
    ReplayForeign(None, x.events);
    QuoteSide(s, side);
  }

  lemma ReplaceKeepsCapped(cap: int, s: Session, side: Side, quote: Quote)
    requires CapOk(cap, s) && FillsIn(s.desk.exchange.events) == []
    requires s.desk.Slot(side).Some? && s.desk.manager.desired.At(side) == Some(quote) && WishFits(cap, s, side)
    ensures var s' := s.(desk := s.desk.(exchange := X.Replace(s.desk.exchange, s.desk.Slot(side).value.id, quote.price, quote.size)));
            Capped(cap, s') && QuotesSmall(cap, s')
  {
    var x, id := s.desk.exchange, s.desk.Slot(side).value.id;
    var x' := X.Replace(x, id, quote.price, quote.size);
    var i := X.IndexOf(x.orders, id);
    QuietEvent(x.events, Ack(id));
    FindSettled(s.desk, s.foreign, side);
    if i < |x.orders| {
      QuoteSide(s, side);
      OnSideUpdate(x.orders, i, x'.orders[i], Bid);
      OnSideUpdate(x.orders, i, x'.orders[i], Ask);
      UpdateKeepsSmall(cap, s, s.(desk := s.desk.(exchange := x')), i);
    }
  }

  lemma CancelKeepsCapped(cap: int, s: Session, id: int)
    requires CapOk(cap, s) && id < s.desk.exchange.nextId
    ensures var s' := s.(desk := s.desk.(exchange := X.Cancel(s.desk.exchange, id))); Capped(cap, s') && QuotesSmall(cap, s')
  {
    var x := s.desk.exchange;
    CancelShrinks(x, id, Bid);
    CancelShrinks(x, id, Ask);
    CancelledOrders(x, id);
    QuietEvent(x.events, Cancelled(id));
    assert x.events + [] == x.events;
  }

  lemma ExecuteKeepsCapped(cap: int, s: Session, action: Command, clock: real)
    requires CapOk(cap, s) && FillsIn(s.desk.exchange.events) == []
    requires WishFits(cap, s, action.side)
    requires action.PlaceQuote? ==> s.desk.manager.desired.At(action.side) == Some(action.quote)
    ensures var s' := s.(desk := Execute(s.desk, action, clock)); Capped(cap, s') && QuotesSmall(cap, s')
  {
    var d, side := s.desk, action.side;
    var d' := Execute(d, action, clock);
    if d'.exchange != d.exchange {
      assert SlotOk(d, s.foreign, side);
      match action
      case PlaceQuote(_, quote) => PlaceKeepsCapped(cap, s, side, quote, clock);
      case ReplaceQuote(_) =>
        if d.manager.desired.At(side).Some? {
          ReplaceKeepsCapped(cap, s, side, d.manager.desired.At(side).value);
        } else {
          CancelKeepsCapped(cap, s, d.Slot(side).value.id);
        }
      case CancelQuote(_) => CancelKeepsCapped(cap, s, d.Slot(side).value.id);
      case RetryCancel(_) =>
    }
  }

  lemma PumpOneQuiet(d: Desk, now: real, clock: real)
    requires |d.queue.pending| > 0
    ensures var d' := PumpOne(d, now, clock);
            && FillsIn(d'.exchange.events) == FillsIn(d.exchange.events)
            && d'.manager.desired == d.manager.desired
  {
    var action := d.queue.pending[BestIndex(d.queue.pending)].action;
    var d' := PumpOne(d, now, clock);
    PumpOneShape(d, now, clock);
    ExecuteLocal(d, action, clock);
    ExecuteSends(d, action, clock);
    if d'.exchange != d.exchange {
      MessageLogs(d.exchange, d'.exchange, if d.Slot(action.side).None? then d.exchange.nextId else d.Slot(action.side).value.id);
    }
  }

  lemma PumpOneKeepsReady(cap: int, s: Session, now: real, clock: real)
    requires PumpReady(cap, s) && |s.desk.queue.pending| > 0
    ensures PumpReady(cap, s.(desk := PumpOne(s.desk, now, clock)))
  {
    var d, d' := s.desk, PumpOne(s.desk, now, clock);
    var q := d.queue.pending[BestIndex(d.queue.pending)];
    assert q in d.queue.pending && EntryOk(d.manager, q);
    PumpOneOk(s, now, clock);
    PumpOneQuiet(d, now, clock);
    assert Capped(cap, s.(desk := d')) && QuotesSmall(cap, s.(desk := d')) by {
      PumpOneShape(d, now, clock);
      ExecuteKeepsCapped(cap, s, q.action, clock);
      PumpOneQuiet(d, now, clock);
    }
    assert forall e :: e in d'.queue.pending ==> e in d.queue.pending;
  }

  lemma {:induction false} PumpedCapped(cap: int, s: Session, now: real, clock: real)
    requires PumpReady(cap, s)
    ensures PumpReady(cap, Pumped(s, now, clock))
    decreases |s.desk.queue.pending|
  {
    var d := s.desk;
    if d.queue.pending != [] {
      if Affords(d.budget, now, 0.0) {
        PumpOneKeepsReady(cap, s, now, clock);
        PumpedCapped(cap, s.(desk := PumpOne(d, now, clock)), now, clock);
      } else {
        QueueKeeps(d, Pump(d, now, clock), s.foreign);
      }
    }
  }

  // ---- runs -------------------------------------------------------------

  /** The cap holds after the market has moved, after the fills are booked, after the decision, and after every message. */
  lemma StepCapped(cfg: Config, s: Session, i: Input)
    requires ConfigOk(cfg) && CapOk(cfg.quoting.maxPosition, s) && NotOverFlatten(cfg, s, i)
    ensures var cap := cfg.quoting.maxPosition;
            && CapOk(cap, MarketSeen(s, i)) && CapOk(cap, EventsTaken(MarketSeen(s, i)))
            && CapOk(cap, BeforeReconcile(cfg, s, i)) && PumpReady(cap, Reconciled(BeforeReconcile(cfg, s, i), i.now))
            && PumpReady(cap, Step(cfg, s, i))
  {
    var cap := cfg.quoting.maxPosition;
    var seen := MarketSeen(s, i);
    var taken := EventsTaken(seen);
    var judged := BeforeReconcile(cfg, s, i);
    MarketSeenCapped(cap, s, i);
    EventsTakenCapped(cap, seen);
    EventsTakenOk(seen);
    JudgedCapped(cap, cfg, taken, i);
    JudgedOk(cfg, taken, i);
    ReconciledOk(judged, i.now);
    ReconciledCurrent(judged, i.now);
    PumpedCapped(cap, Reconciled(judged, i.now), i.now, i.clock);
  }

  ghost predicate NeverOverFlatten(cfg: Config, s: Session, inputs: seq<Input>) {
    inputs != [] ==>
      && NeverOverFlatten(cfg, s, inputs[..|inputs| - 1])
      && NotOverFlatten(cfg, Run(cfg, s, inputs[..|inputs| - 1]), inputs[|inputs| - 1])
  }

  /**
   * From any position inside the cap, over every run that does not quote over
   * a live flatten order, the position with all that rests on either side
   * stays inside the cap.
   */
  lemma {:induction false} RunCapped(cfg: Config, s: Session, inputs: seq<Input>)
    requires ConfigOk(cfg) && Started(s) && Abs(s.account.position) <= cfg.quoting.maxPosition
    requires NeverOverFlatten(cfg, s, inputs)
    ensures CapOk(cfg.quoting.maxPosition, Run(cfg, s, inputs))
    ensures Abs(Run(cfg, s, inputs).account.position) <= cfg.quoting.maxPosition
  {
    if inputs == [] {
      EveryInterleavingAgrees(World(s.desk, s.foreign), []);
    } else {
      var n := |inputs| - 1;
      RunCapped(cfg, s, inputs[..n]);
      StepCapped(cfg, Run(cfg, s, inputs[..n]), inputs[n]);
      CappedPosition(cfg.quoting.maxPosition, Run(cfg, s, inputs));
    }
  }

  lemma CappedPosition(cap: int, s: Session)
    requires CapOk(cap, s) && FillsIn(s.desk.exchange.events) == []
    ensures Abs(s.account.position) <= cap
  {
    OnSideNonNegative(s.desk.exchange.orders, Bid);
    OnSideNonNegative(s.desk.exchange.orders, Ask);
  }

  // ---- when the condition always holds ----------------------------------

  /** Unless the pipeline flattens outside hours, only a halt flattens, and a halt never quotes again. */
  lemma FlattenMeansHalted(cfg: Config, s: Session, i: Input)
    requires !cfg.risk.flattenOutsideHours && (s.flatten.Some? ==> s.halted)
    ensures NotOverFlatten(cfg, s, i)
    ensures Step(cfg, s, i).flatten.Some? ==> Step(cfg, s, i).halted
  {
    var e := EventsTaken(MarketSeen(s, i));
    assert e.flatten.Some? ==> e.halted;
    Risk.QuotesWhen(cfg.risk, e.halted, e.account, ConditionsOf(cfg, i));
  }

  /** With flatten_outside_hours off, the cap holds over every run whatever it is given. */
  lemma {:induction false} RunCappedWithoutHours(cfg: Config, s: Session, inputs: seq<Input>)
    requires ConfigOk(cfg) && Started(s) && Abs(s.account.position) <= cfg.quoting.maxPosition
    requires !cfg.risk.flattenOutsideHours
    ensures CapOk(cfg.quoting.maxPosition, Run(cfg, s, inputs))
    ensures Abs(Run(cfg, s, inputs).account.position) <= cfg.quoting.maxPosition
  {
    NeverOverFlattenHolds(cfg, s, inputs);
    RunCapped(cfg, s, inputs);
  }

  lemma {:induction false} NeverOverFlattenHolds(cfg: Config, s: Session, inputs: seq<Input>)
    requires Started(s) && !cfg.risk.flattenOutsideHours
    ensures NeverOverFlatten(cfg, s, inputs)
    ensures Run(cfg, s, inputs).flatten.Some? ==> Run(cfg, s, inputs).halted
  {
    if inputs != [] {
      var n := |inputs| - 1;
      NeverOverFlattenHolds(cfg, s, inputs[..n]);
      FlattenMeansHalted(cfg, Run(cfg, s, inputs[..n]), inputs[n]);
    }
  }
}
