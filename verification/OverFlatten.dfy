/**
 * A run in which quoting resumes while the order that flattens outside hours
 * still rests, and the position with what rests passes the cap.
 */
module OverFlatten {
  import opened Common
  import opened Orders
  import opened Throttle
  import opened QuoteManagement
  import opened Pipeline
  import opened Coherence
  import opened SessionCoherence
  import opened PositionCap
  import opened Toxicity
  import X = SimulatedExchange
  import Inventory
  import Risk
  import E = QuotingEngine

  // ---- the settings and the inputs ------------------------------------------

  /** What the loader demands of every setting that is modelled. */
  predicate Accepted(cfg: Config, execution: ExecutionConfig, budget: Bucket) {
    var q, r, e := cfg.quoting, cfg.risk, execution;
    && q.gamma > 0.0 && q.horizonSeconds > 0.0 && q.minHalfSpreadTicks >= 0.5
    && 0 <= q.behindBestTicks <= q.maxBehindTicks
    && 1 <= q.baseSize <= q.maxSize <= q.maxPosition && 0 <= q.reduceOnlyPosition <= q.maxPosition
    && q.maxPosition == r.maxPosition && r.dailyLossLimitUsd > 0.0 && r.flattenCrossTicks >= 0
    && 0.0 < r.maxMarginUtilisation <= 1.0 && r.staleBookCancelSeconds > 0.0 && r.maxSigma >= 0.0
    && e.requoteMinIntervalMs >= 0.0 && e.requotePriceTicks >= 0.0 && 0.0 <= e.requoteSizeFraction <= 1.0
    && e.ackTimeoutSeconds > 0.0 && 0.0 < budget.rate <= 50.0 && budget.burst >= 1.0
  }

  /**
   * What the signals can be: sigma is never under its floor, and the model's
   * half spread is above its first term by half of a logarithm that kappa makes
   * any positive number.
   */
  predicate Possible(cfg: E.QuotingConfig, g: E.Signals) {
    && g.sigma > 0.0 && g.modelHalfSpread > cfg.gamma * g.sigma * g.sigma * cfg.horizonSeconds / 2.0
    && g.toxicity.spreadMultiplier >= 0.0 && g.toxicity.sizeMultiplier >= 0.0
  }

  predicate AllPossible(cfg: Config, inputs: seq<Input>) {
    forall i :: i in inputs ==> Possible(cfg.quoting, i.signals)
  }

  const CONFIG := Config(E.QuotingConfig(0.25, false, 0.5, 10.0, 0.5, 0, 0, 1, 1, 1, 1, true),
                         Risk.RiskConfig(1, 1000.0, true, 2, true, 1.0, 10.0, 0.0, 0.0))
  const EXECUTION := ExecutionConfig(0.25, 250.0, 0.0, 0.34, 5.0)
  const SIGNALS := E.Signals(0.02, 0.01, -1.0, ToxicityState(Calm, None, None, false, 1.0, 1.0, 0))
  const NOTHING: Pair<Option<WorkingOrder>> := Pair(None, None)

  /** A book a tick wide. */
  function BookAt(bid: real): BookSnapshot { BookSnapshot([Level(bid, 5, 1)], [Level(bid + 0.25, 5, 1)], true) }

  function InputAt(now: real, bid: real, trades: seq<Trade>, inHours: bool): Input {
    Input(now, now, BookAt(bid), trades, SIGNALS, 0.0, inHours, None, None, None, None, false)
  }

  /** Long one, with nothing resting. */
  function Start(): Session {
    Session(Desk(Manager(EXECUTION, NOTHING, Pair(None, None), Pair(false, false), 0, 0, 0, []),
                 X.Exchange(true, 0.0, [], [], 1, None, 0, []), Queue([], 0, 0, 0), Bucket(30.0, 10.0, 10.0, 0.0, 0, 0)),
            Inventory.Account(5.0, 1, 100.0, 0.0, 0.0, 0, []), false, None, 0, 0.0, {})
  }

  const CLOSING := InputAt(1.0, 100.0, [], false)
  const REOPENED := InputAt(2.0, 99.0, [], true)
  const BOUGHT := InputAt(3.0, 99.0, [Trade(99.25, 1, 1)], true)

  // ---- what the market does here ----------------------------------------

  /** A market that leaves every order as it was. */
  predicate Spares(orders: seq<X.SimOrder>, m: X.Market) {
    forall k :: 0 <= k < |orders| ==> X.Respond(orders[k], m) == orders[k] && orders[k].active
  }

  lemma {:induction false} NothingFilled(orders: seq<X.SimOrder>, m: X.Market, clock: real, fee: real)
    requires Spares(orders, m)
    ensures X.MarketFills(orders, m, clock, fee) == []
  {
    if orders != [] {
      NothingFilled(orders[..|orders| - 1], m, clock, fee);
    }
  }

  lemma {:induction false} AllKept(orders: seq<X.SimOrder>)
    requires forall k :: 0 <= k < |orders| ==> orders[k].active
    ensures X.Compacted(orders) == orders
  {
    if orders != [] {
      AllKept(orders[..|orders| - 1]);
    }
  }

  lemma Untouched(orders: seq<X.SimOrder>, m: X.Market)
    requires Spares(orders, m)
    ensures X.Responses(orders, m) == orders && X.Compacted(orders) == orders
  {
    AllKept(orders);
  }

  lemma StillMarket(x: X.Exchange, m: X.Market, clock: real)
    requires Spares(x.orders, m)
    ensures X.OnMarket(x, m, clock) == x.(snapshot := if m.Book? then Some(m.snapshot) else x.snapshot)
  {
    NothingFilled(x.orders, m, clock, x.feePerContract);
    Untouched(x.orders, m);
    assert X.FillEvents([]) == [];
    assert x.events + [] == x.events && x.fills + [] == x.fills;
  }

  /** An unqueued ask above the book's bid stays as it is. */
  lemma AskStays(o: X.SimOrder, bid: real)
    requires o.side.Ask? && o.active && o.queueAhead == 0 && o.price > bid + 1.0 / 8.0
    ensures X.Respond(o, X.Book(BookAt(bid))) == o
  {
    OneLevel(Level(bid + 0.25, 5, 1), o.price);
  }

  lemma OneLevel(l: Level, price: real)
    ensures X.LevelSize([l], price) == if AbsReal(l.price - price) < EPSILON then Some(l.size) else None
  {
    assert [l][1..] == [];
  }

  // ---- a step with nothing to send --------------------------------------

  lemma NothingToReconcile(d: Desk, now: real, clock: real)
    requires d.manager.working == NOTHING && d.manager.desired == Pair(None, None) && d.queue.pending == []
    ensures Pump(Reconcile(d, now), now, clock) == d
  {
    assert Withdraw(d.queue, Bid) == d.queue && Withdraw(d.queue, Ask) == d.queue;
  }

  /** A step that quotes one ask, with the side free and a token to spare. */
  lemma AskSent(d: Desk, quote: Quote, now: real, clock: real)
    requires d.manager.working == NOTHING && d.manager.desired == Pair(None, Some(quote)) && d.manager.suspended == Pair(false, false)
    requires d.queue.pending == [] && Affords(d.budget, now, 0.0)
    ensures var d' := Pump(Reconcile(d, now), now, clock);
            && d'.manager == PlaceNow(d, Ask, quote, clock).manager
            && d'.exchange == X.Place(d.exchange, Ask, quote.price, quote.size)
            && d'.queue.pending == [] && d'.budget == TryAcquire(d.budget, now)
  {
    var entry := Queued(PRIORITY_PLACE, d.queue.sequence + 1, Ask, PlaceQuote(Ask, quote));
    assert Withdraw(d.queue, Bid) == d.queue;
    var r := Reconcile(d, now);
    assert r == d.(queue := Submit(d.queue, Ask, PRIORITY_PLACE, PlaceQuote(Ask, quote)));
    assert r.queue.pending == [entry];
    var p := PumpOne(r, now, clock);
    assert p.queue.pending == [] && Pump(p, now, clock) == p;
  }

  // ---- the decision -----------------------------------------------------

  lemma Leaning(cfg: E.QuotingConfig, s: BookSnapshot, position: int)
    requires cfg.gamma == 0.5 && cfg.horizonSeconds == 10.0 && cfg.tickSize == 0.25 && !cfg.useMicroprice
    requires s.TwoSided() && s.bids[0].price == 99.0 && s.asks[0].price == 99.25 && 0 <= position <= 1
    ensures 98.873 <= E.Reservation(cfg, s, SIGNALS, position) <= 98.875
  {
    assert position == 0 || position == 1;
  }

  lemma SnappedAsk(cfg: E.QuotingConfig, r: real)
    requires cfg.tickSize == 0.25 && cfg.behindBestTicks == 0 && r <= 98.875
    ensures E.AskPrice(cfg, 99.25, r, 0.125) == 99.25
  {
    assert Ceiling(397.0 - EPSILON) == 397;
  }

  lemma LowBid(cfg: E.QuotingConfig, r: real)
    requires cfg.tickSize == 0.25 && r <= 98.875
    ensures E.BidPrice(cfg, 99.0, r, 0.125) <= 98.75 + EPSILON
  {
    E.SnapDownBound(MinReal(r - 0.125, 99.0 - E.Ticks(cfg, cfg.behindBestTicks)), cfg.tickSize);
  }

  lemma OneLot(cfg: E.QuotingConfig, position: int)
    requires cfg.baseSize == 1 && cfg.maxSize == 1
    ensures E.QuoteSize(cfg, SIGNALS, position) == 1
  {
    assert Ceiling(1.0 - EPSILON) == 1;
  }

  lemma Lit(cfg: E.QuotingConfig)
    requires cfg == CONFIG.quoting
    ensures cfg.gamma == 0.5 && cfg.horizonSeconds == 10.0 && cfg.tickSize == 0.25 && !cfg.useMicroprice && cfg.behindBestTicks == 0
    ensures cfg.baseSize == 1 && cfg.maxSize == 1 && cfg.maxPosition == 1 && cfg.reduceOnlyPosition == 1 && cfg.maxBehindTicks == 0
    ensures E.HalfSpread(cfg, SIGNALS) == 0.125
  {
  }

  /** The signals lean down: no bid, and an ask at the touch. */
  lemma AsksOne(cfg: E.QuotingConfig, s: BookSnapshot, position: int)
    requires cfg == CONFIG.quoting && 0 <= position <= 1
    requires s.TwoSided() && s.bids[0].price == 99.0 && s.asks[0].price == 99.25
    ensures E.Decide(cfg, s, SIGNALS, position) == E.Decision(None, Some(Quote(Ask, 99.25, 1)))
  {
    Lit(cfg);
    var r := E.Reservation(cfg, s, SIGNALS, position);
    Leaning(cfg, s, position);
    SnappedAsk(cfg, r);
    LowBid(cfg, r);
    OneLot(cfg, position);
  }

  // ---- the run ----------------------------------------------------------

  predicate Affordable(b: Bucket, tokens: real, last: real) {
    b.rate == 30.0 && b.burst == 10.0 && tokens <= b.tokens <= 10.0 && b.last == last
  }

  lemma Paid(b: Bucket, tokens: real, now: real)
    requires Affordable(b, tokens, b.last) && tokens >= 1.0 && now >= b.last
    ensures Affords(b, now, 0.0) && Affordable(TryAcquire(b, now), tokens - 1.0, now)
  {
    assert MaxReal(now - b.last, 0.0) * b.rate >= 0.0;
  }

  /** Nothing here loses enough to halt. */
  predicate Solvent(a: Inventory.Account) {
    && a.multiplier == 5.0 && a.realised - a.fees >= -10.0
    && (a.position == 0 || (a.position == 1 && a.avgPrice == 100.0))
  }

  lemma NoFinding(a: Inventory.Account, i: Input)
    requires Solvent(a) && i.account.None? && i.brokerPosition.None? && !i.killFile && i.feedAgeSeconds == 0.0
    requires i.snapshot.TwoSided() && 90.0 <= i.snapshot.bids[0].price <= i.snapshot.asks[0].price
    ensures Risk.Find(CONFIG.risk, a, ConditionsOf(CONFIG, i)).Clear?
  {
    var mark := i.snapshot.Mid();
    assert a.position == 1 ==> a.position as real * (mark - a.avgPrice) * a.multiplier == (mark - 100.0) * 5.0;
  }

  predicate Offer(o: X.SimOrder, id: int, price: real) {
    o.id == id && o.side.Ask? && o.price == price && o.size == 1 && o.filled == 0 && o.queueAhead == 0 && o.active
  }

  /** What the run keeps: the flatten order is number 1, untraded, and rests first. */
  predicate Closing(s: Session, position: int) {
    && s.desk.exchange.orders != [] && Offer(s.desk.exchange.orders[0], 1, 99.5)
    && s.desk.exchange.front && s.desk.exchange.feePerContract == 0.0
    && s.desk.manager.suspended == Pair(false, false) && s.desk.queue.pending == []
    && Solvent(s.account) && s.account.position == position
    && (position == 1 ==> s.account.realised - s.account.fees >= 0.0)
    && !s.halted && s.flatten == Some(1) && s.flattenSize == 1
  }

  /** The flatten order rests alone, and the side of the quotes is free. */
  predicate Alone(s: Session, position: int, nextId: int) {
    && Closing(s, position) && |s.desk.exchange.orders| == 1
    && s.desk.manager.working == NOTHING && s.desk.exchange.nextId == nextId > 1
  }

  /** A quote just placed rests beside it. */
  predicate Beside(s: Session, position: int, id: int) {
    && Closing(s, position) && |s.desk.exchange.orders| == 2 && Offer(s.desk.exchange.orders[1], id, 99.25) && id > 1
    && s.desk.exchange.nextId == id + 1 && s.desk.exchange.events == [Ack(id)]
    && s.desk.manager.working.bid.None? && s.desk.manager.working.ask.Some?
    && var w := s.desk.manager.working.ask.value;
    && w.id == id && w.side == Ask && w.size == 1 && w.filled == 0 && w.state.PendingNew?
  }

  lemma ClosingOrder(s: Session, i: Input)
    requires s.account == Start().account && s.desk.manager == Start().desk.manager && s.desk.queue == Start().desk.queue
    requires s.desk.budget == Start().desk.budget && s.desk.exchange == Start().desk.exchange.(snapshot := Some(i.snapshot))
    requires !s.halted && s.flatten.None? && i == CLOSING
    ensures var j := Judged(CONFIG, s, i);
            && Alone(j, 1, 2) && j.desk.exchange.events == [Ack(1)] && j.desk.manager.desired == Pair(None, None)
            && Affordable(j.desk.budget, 9.0, 1.0)
  {
    NoFinding(s.account, i);
    assert RoundToTick(0.25, 99.5) == 99.5 by {
      assert Nearest(398.0) == 398;
    }
    Paid(s.desk.budget, 10.0, 1.0);
  }

  lemma FlattenPlaced()
    ensures var s := Step(CONFIG, Start(), CLOSING);
            Alone(s, 1, 2) && s.desk.exchange.events == [Ack(1)] && Affordable(s.desk.budget, 9.0, 1.0)
  {
    var s, i := Start(), CLOSING;
    StillMarket(s.desk.exchange, X.Book(i.snapshot), i.clock);
    var seen := MarketSeen(s, i);
    assert seen == s.(desk := s.desk.(exchange := s.desk.exchange.(snapshot := Some(i.snapshot))));
    assert EventsTaken(seen) == seen;
    ClosingOrder(seen, i);
    NothingToReconcile(Judged(CONFIG, seen, i).desk, i.now, i.clock);
  }

  lemma Wished(cfg: Config, s: Session, i: Input, d: E.Decision)
    requires !s.halted && Risk.Find(cfg.risk, s.account, ConditionsOf(cfg, i)).Clear? && i.inHours
    requires E.Decide(cfg.quoting, i.snapshot, i.signals, s.account.position) == d
    ensures Judged(cfg, s, i) == Wish(s, d.bid, d.ask)
  {
    assert VerdictOf(cfg, s, i) == Risk.Verdict(true, false, false);
  }

  lemma Reopened(i: Input)
    requires i == InputAt(i.now, 99.0, i.trades, true)
    ensures i.clock == i.now && i.inHours && i.signals == SIGNALS && i.snapshot == BookAt(99.0) && i.snapshot.TwoSided()
    ensures i.snapshot.bids[0].price == 99.0 && i.snapshot.asks[0].price == 99.25
    ensures i.account.None? && i.brokerPosition.None? && !i.killFile && i.feedAgeSeconds == 0.0
  {
  }

  lemma AsksWanted(s: Session, i: Input)
    requires Solvent(s.account) && 0 <= s.account.position <= 1 && !s.halted
    requires i == InputAt(i.now, 99.0, i.trades, true)
    ensures Judged(CONFIG, s, i) == Wish(s, None, Some(Quote(Ask, 99.25, 1)))
  {
    Reopened(i);
    NoFinding(s.account, i);
    AsksOne(CONFIG.quoting, i.snapshot, s.account.position);
    Wished(CONFIG, s, i, E.Decision(None, Some(Quote(Ask, 99.25, 1))));
  }

  lemma OfferPlaced(x: X.Exchange)
    requires x.front && |x.orders| == 1 && x.events == []
    ensures var x' := X.Place(x, Ask, 99.25, 1);
            && |x'.orders| == 2 && x'.orders[0] == x.orders[0] && Offer(x'.orders[1], x.nextId, 99.25)
            && x'.events == [Ack(x.nextId)] && x'.nextId == x.nextId + 1
            && x'.front && x'.feePerContract == x.feePerContract
  {
  }

  lemma PlacedBeside(s: Session, position: int, quote: Quote, now: real)
    requires Alone(s, position, s.desk.exchange.nextId) && s.desk.exchange.events == []
    requires s.desk.manager.desired == Pair(None, Some(quote))
    requires quote.side.Ask? && quote.price == 99.25 && quote.size == 1
    requires Affords(s.desk.budget, now, 0.0)
    ensures var s' := Pumped(Reconciled(s, now), now, now);
            Beside(s', position, s.desk.exchange.nextId) && s'.desk.budget == TryAcquire(s.desk.budget, now)
  {
    AskSent(s.desk, quote, now, now);
    OfferPlaced(s.desk.exchange);
  }

  /** What a step that may quote does, once its events are read. */
  lemma AskSentBeside(s: Session, position: int, i: Input)
    requires Alone(s, position, s.desk.exchange.nextId) && s.desk.exchange.events == [] && 0 <= position <= 1
    requires Affords(s.desk.budget, i.now, 0.0)
    requires i == InputAt(i.now, 99.0, i.trades, true)
    ensures var s' := Pumped(Reconciled(Judged(CONFIG, s, i), i.now), i.now, i.clock);
            Beside(s', position, s.desk.exchange.nextId) && s'.desk.budget == TryAcquire(s.desk.budget, i.now)
  {
    AsksWanted(s, i);
    Reopened(i);
    PlacedBeside(Wish(s, None, Some(Quote(Ask, 99.25, 1))), position, Quote(Ask, 99.25, 1), i.now);
  }

  /** The flatten order's acknowledgement says nothing to anybody. */
  lemma AckAside(m: Manager, events: seq<OrderEvent>)
    requires events == [Ack(1)]
    ensures TakeEvents(m, Besides(events, Some(1))) == m
    ensures StepFills(events, Some(1)) == []
    ensures OnFlattenEvents(Flatten(Some(1), 1), 1, events) == Flatten(Some(1), 1)
  {
    assert [Ack(1)][..0] == [] && m.fills + [] == m.fills;
    assert FillsIn([Ack(1)]) == [] && Besides([Ack(1)], Some(1)) == [] && FillsOf([Ack(1)], 1) == [];
  }

  lemma AckRead(s: Session, i: Input)
    requires Alone(s, 1, 2) && s.desk.exchange.events == [Ack(1)]
    requires i.trades == [] && i.snapshot == BookAt(99.0)
    ensures EventsTaken(MarketSeen(s, i)) ==
            s.(desk := s.desk.(exchange := s.desk.exchange.(snapshot := Some(i.snapshot), events := [])))
  {
    AskStays(s.desk.exchange.orders[0], 99.0);
    StillMarket(s.desk.exchange, X.Book(i.snapshot), i.clock);
    AckAside(s.desk.manager, s.desk.exchange.events);
  }

  lemma QuotedBeside(s: Session, i: Input)
    requires Alone(s, 1, 2) && s.desk.exchange.events == [Ack(1)] && Affordable(s.desk.budget, 9.0, 1.0)
    requires i == InputAt(2.0, 99.0, [], true)
    ensures var s' := Step(CONFIG, s, i); Beside(s', 1, 2) && Affordable(s'.desk.budget, 8.0, 2.0)
  {
    AckRead(s, i);
    Paid(s.desk.budget, 9.0, 2.0);
    AskSentBeside(EventsTaken(MarketSeen(s, i)), 1, i);
  }

  // ---- the quote sells, and is quoted again -----------------------------

  lemma LastFills(first: seq<X.SimOrder>, q: X.SimOrder, m: X.Market, clock: real, fee: real)
    requires Spares(first, m)
    ensures X.MarketFills(first + [q], m, clock, fee) == X.ResponseFills(q, X.Respond(q, m), clock, fee)
  {
    NothingFilled(first, m, clock, fee);
    assert (first + [q])[..|first|] == first;
  }

  lemma LastGoes(first: seq<X.SimOrder>, q: X.SimOrder, m: X.Market)
    requires Spares(first, m) && !X.Respond(q, m).active
    ensures X.Compacted(X.Responses(first + [q], m)) == first
  {
    Untouched(first, m);
    assert X.Responses(first + [q], m) == first + [X.Respond(q, m)];
    assert (first + [X.Respond(q, m)])[..|first|] == first;
  }

  /** A trade that finishes the last order and leaves the others. */
  lemma LastFinished(x: X.Exchange, first: seq<X.SimOrder>, q: X.SimOrder, m: X.Market, clock: real, fill: Fill)
    requires x.orders == first + [q] && m.Tape? && !X.Idle(m)
    requires Spares(first, m)
    requires !X.Respond(q, m).active && X.ResponseFills(q, X.Respond(q, m), clock, x.feePerContract) == [fill]
    ensures X.OnMarket(x, m, clock) ==
            x.(orders := first, events := x.events + [Filled(fill.orderId, Some(fill))], fills := x.fills + [fill])
  {
    LastFills(first, q, m, clock, x.feePerContract);
    LastGoes(first, q, m);
    assert X.FillEvents([fill]) == [Filled(fill.orderId, Some(fill))];
  }

  /** The buyer takes the quote, which is the better offer, and leaves the flatten order. */
  lemma OnlyTheQuoteSells(f: X.SimOrder, q: X.SimOrder, t: Trade)
    requires t.price == 99.25 && t.size == 1 && t.aggressor == 1
    requires f.side.Ask? && f.price == 99.5 && f.active
    requires q.side.Ask? && q.price == 99.25 && q.active && q.size == 1 && q.filled == 0 && q.queueAhead == 0
    ensures X.Respond(f, X.Tape(t)) == f && X.Respond(q, X.Tape(t)) == q.(filled := 1, active := false)
  {
  }

  function Sale(clock: real, q: X.SimOrder): Fill { Fill(clock, Ask, q.price, 1, X.Fees(0.0, 1), q.id) }

  lemma OneTradeSeen(s: Session, i: Input, t: Trade)
    requires i.trades == [t]
    ensures MarketSeen(s, i) ==
            s.(desk := s.desk.(exchange := X.OnMarket(X.OnMarket(s.desk.exchange, X.Tape(t), i.clock), X.Book(i.snapshot), i.clock)))
  {
    assert i.trades[..0] == [] && i.trades[0] == t;
    assert TapeFolded(s.desk.exchange, i.trades, i.clock) == X.OnMarket(s.desk.exchange, X.Tape(t), i.clock);
  }

  lemma SaleSeen(s: Session, id: int, i: Input)
    requires Beside(s, 1, id) && i.trades == [Trade(99.25, 1, 1)] && i.snapshot == BookAt(99.0)
    ensures var x := s.desk.exchange; var sale := Sale(i.clock, x.orders[1]);
            MarketSeen(s, i) ==
            s.(desk := s.desk.(exchange := x.(orders := [x.orders[0]], events := [Ack(id)] + [Filled(id, Some(sale))],
                                              fills := x.fills + [sale], snapshot := Some(i.snapshot))))
  {
    var t, x := i.trades[0], s.desk.exchange;
    var f, q := x.orders[0], x.orders[1];
    OneTradeSeen(s, i, t);
    OnlyTheQuoteSells(f, q, t);
    assert [f] + [q] == x.orders;
    LastFinished(x, [f], q, X.Tape(t), i.clock, Sale(i.clock, q));
    AskStays(f, 99.0);
    StillMarket(X.OnMarket(x, X.Tape(t), i.clock), X.Book(i.snapshot), i.clock);
  }

  /** Two events about one order, read beside a flatten order they are not about. */
  lemma LogRead(m: Manager, id: int, fill: Fill)
    requires id != 1
    ensures var events := [Ack(id)] + [Filled(id, Some(fill))];
            && Besides(events, Some(1)) == events && FillsIn(events) == [fill] && FillsOf(events, 1) == []
            && OnFlattenEvents(Flatten(Some(1), 1), 1, events) == Flatten(Some(1), 1)
            && OnEvents(m, events) == OnEvent(OnEvent(m, Ack(id)), Filled(id, Some(fill)))
  {
    var events := [Ack(id)] + [Filled(id, Some(fill))];
    assert events[..1] == [Ack(id)] && [Ack(id)][..0] == [];
    assert Besides([Ack(id)], Some(1)) == [Ack(id)] && FillsIn([Ack(id)]) == [] && FillsOf([Ack(id)], 1) == [];
    assert OnFlattenEvents(Flatten(Some(1), 1), 1, [Ack(id)]) == Flatten(Some(1), 1);
    assert OnEvents(m, [Ack(id)]) == OnEvent(m, Ack(id));
  }

  /** The slot is filled whole and forgotten. */
  lemma SlotFreed(m: Manager, id: int, fill: Fill)
    requires m.working.bid.None? && m.working.ask.Some? && m.suspended == Pair(false, false) && fill.size == 1
    requires var w := m.working.ask.value; w.id == id && w.side == Ask && w.size == 1 && w.filled == 0 && w.state.PendingNew?
    ensures var m' := OnEvent(OnEvent(m, Ack(id)), Filled(id, Some(fill)));
            m'.working == NOTHING && m'.suspended == Pair(false, false)
  {
  }

  lemma SoldOut(a: Inventory.Account, fill: Fill)
    requires Solvent(a) && a.position == 1 && a.realised - a.fees >= 0.0
    requires fill.side == Ask && fill.size == 1 && fill.price == 99.25 && fill.fees == 0.0
    ensures Solvent(Inventory.BookAll(a, [fill])) && Inventory.BookAll(a, [fill]).position == 0
  {
    assert [fill][..0] == [];
    assert Inventory.RealisedBy(a, fill) == -3.75;
  }

  lemma SaleBooked(s: Session, id: int, i: Input)
    requires Beside(s, 1, id) && i.trades == [Trade(99.25, 1, 1)] && i.snapshot == BookAt(99.0)
    ensures var e := EventsTaken(MarketSeen(s, i));
            Alone(e, 0, id + 1) && e.desk.exchange.events == [] && e.desk.budget == s.desk.budget
  {
    var fill := Sale(i.clock, s.desk.exchange.orders[1]);
    SaleSeen(s, id, i);
    LogRead(s.desk.manager, id, fill);
    SlotFreed(s.desk.manager, id, fill);
    SoldOut(s.account, fill);
    assert [fill] + [] == [fill];
  }

  lemma QuotedAgain(s: Session, id: int, i: Input)
    requires Beside(s, 1, id) && Affordable(s.desk.budget, 8.0, 2.0)
    requires i == InputAt(3.0, 99.0, [Trade(99.25, 1, 1)], true)
    ensures Beside(Step(CONFIG, s, i), 0, id + 1)
  {
    SaleBooked(s, id, i);
    Paid(s.desk.budget, 8.0, 3.0);
    AskSentBeside(EventsTaken(MarketSeen(s, i)), 0, i);
  }

  lemma TwoAsks(orders: seq<X.SimOrder>)
    requires |orders| == 2 && forall k :: 0 <= k < 2 ==> orders[k].side.Ask? && orders[k].Remaining() == 1
    ensures OnSide(orders, Ask) == 2
  {
    assert orders == [orders[0]] + [orders[1]];
    OnSideAppend([orders[0]], [orders[1]], Ask);
    OnSideOne(orders[0], Ask);
    OnSideOne(orders[1], Ask);
  }

  /** What rests and what is logged once both asks do. */
  lemma BothExposed(s: Session, id: int)
    requires Beside(s, 0, id)
    ensures TruePosition(s) == 0 && OnSide(s.desk.exchange.orders, Ask) == 2
  {
    TwoAsks(s.desk.exchange.orders);
    OneFillIn(Ack(id));
  }

  lemma PastTheCap(s: Session, id: int, cap: int)
    requires Beside(s, 0, id) && cap == 1
    ensures TruePosition(s) - OnSide(s.desk.exchange.orders, Ask) == -2 && !CapOk(cap, s)
  {
    BothExposed(s, id);
    assert !Capped(cap, s);
  }

  lemma RunMore(cfg: Config, s: Session, before: seq<Input>, i: Input)
    ensures Run(cfg, s, before + [i]) == Step(cfg, Run(cfg, s, before), i)
  {
    assert (before + [i])[..|before|] == before;
  }

  lemma ClosedFirst(s: Session, i: Input)
    requires s == Start() && i == CLOSING
    ensures var r := Run(CONFIG, s, [i]);
            Alone(r, 1, 2) && r.desk.exchange.events == [Ack(1)] && Affordable(r.desk.budget, 9.0, 1.0)
  {
    FlattenPlaced();
    RunMore(CONFIG, s, [], i);
    assert [] + [i] == [i];
  }

  lemma QuotedNext(s: Session, before: seq<Input>, i: Input)
    requires var r := Run(CONFIG, s, before);
             Alone(r, 1, 2) && r.desk.exchange.events == [Ack(1)] && Affordable(r.desk.budget, 9.0, 1.0)
    requires i == InputAt(2.0, 99.0, [], true)
    ensures var r := Run(CONFIG, s, before + [i]); Beside(r, 1, 2) && Affordable(r.desk.budget, 8.0, 2.0)
  {
    QuotedBeside(Run(CONFIG, s, before), i);
    RunMore(CONFIG, s, before, i);
  }

  lemma QuotedTwice(s: Session, before: seq<Input>, i: Input)
    requires var r := Run(CONFIG, s, before); Beside(r, 1, 2) && Affordable(r.desk.budget, 8.0, 2.0)
    requires i == InputAt(3.0, 99.0, [Trade(99.25, 1, 1)], true)
    ensures Beside(Run(CONFIG, s, before + [i]), 0, 3)
  {
    QuotedAgain(Run(CONFIG, s, before), 2, i);
    RunMore(CONFIG, s, before, i);
  }

  lemma Opening() returns (s: Session, a: Input)
    ensures Started(s) && s.account.position == 1 && Accepted(CONFIG, s.desk.manager.cfg, s.desk.budget)
    ensures Possible(CONFIG.quoting, a.signals)
    ensures var r := Run(CONFIG, s, [a]);
            Alone(r, 1, 2) && r.desk.exchange.events == [Ack(1)] && Affordable(r.desk.budget, 9.0, 1.0)
  {
    s, a := Start(), CLOSING;
    ClosedFirst(s, a);
  }

  lemma InTurn(s: Session, before: seq<Input>) returns (b: Input, c: Input)
    requires var r := Run(CONFIG, s, before);
             Alone(r, 1, 2) && r.desk.exchange.events == [Ack(1)] && Affordable(r.desk.budget, 9.0, 1.0)
    ensures Possible(CONFIG.quoting, b.signals) && Possible(CONFIG.quoting, c.signals)
    ensures Beside(Run(CONFIG, s, before + [b] + [c]), 0, 3)
  {
    b, c := REOPENED, BOUGHT;
    QuotedNext(s, before, b);
    QuotedTwice(s, before + [b], c);
  }

  lemma PossibleInTurn(cfg: Config, a: Input, b: Input, c: Input)
    requires Possible(cfg.quoting, a.signals) && Possible(cfg.quoting, b.signals) && Possible(cfg.quoting, c.signals)
    ensures AllPossible(cfg, [a] + [b] + [c])
  {
  }

  lemma ThreeSteps() returns (cfg: Config, s: Session, inputs: seq<Input>)
    ensures ConfigOk(cfg) && cfg.risk.flattenOutsideHours && cfg.quoting.maxPosition == 1
    ensures Started(s) && s.account.position == 1 && Accepted(cfg, s.desk.manager.cfg, s.desk.budget)
    ensures |inputs| == 3 && AllPossible(cfg, inputs)
    ensures Beside(Run(cfg, s, inputs), 0, 3)
  {
    var a;
    s, a := Opening();
    var b, c := InTurn(s, [a]);
    cfg, inputs := CONFIG, [a] + [b] + [c];
    PossibleInTurn(cfg, a, b, c);
  }

  /**
   * Long one under a cap of one, flattened at the close, quoting again before
   * the flatten order has traded: the quote sells, another takes its place,
   * and the two asks then resting would carry the flat position to two short.
   */
  lemma QuotesCanPassTheCap() returns (cfg: Config, s: Session, inputs: seq<Input>)
    ensures ConfigOk(cfg) && Accepted(cfg, s.desk.manager.cfg, s.desk.budget) && cfg.risk.flattenOutsideHours
    ensures |inputs| == 3 && AllPossible(cfg, inputs)
    ensures Started(s) && Abs(s.account.position) <= cfg.quoting.maxPosition
    ensures var end := Run(cfg, s, inputs);
            && TruePosition(end) - OnSide(end.desk.exchange.orders, Ask) < -cfg.quoting.maxPosition
            && !CapOk(cfg.quoting.maxPosition, end)
  {
    cfg, s, inputs := ThreeSteps();
    PastTheCap(Run(cfg, s, inputs), 3, 1);
  }
}
