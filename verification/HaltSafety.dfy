/** What is never sent: a second message to an order in flight, or a quote once risk has halted. */
module HaltSafety {
  import opened Common
  import opened Orders
  import opened Throttle
  import opened QuoteManagement
  import opened Coherence
  import opened Pipeline
  import opened SessionCoherence
  import opened PositionCap
  import X = SimulatedExchange
  import Risk

  // ---- in flight --------------------------------------------------------

  /**
   * While an order is pending or Unknown, whatever is run for its side sends
   * nothing but a cancel of it.
   */
  lemma InFlightOnlyCancels(d: Desk, action: Command, clock: real)
    requires d.Slot(action.side).Some? && !d.Slot(action.side).value.state.Working?
    ensures var d', id := Execute(d, action, clock), d.Slot(action.side).value.id;
            d'.exchange == d.exchange || d'.exchange == X.Cancel(d.exchange, id)
  {
  }

  /** Reconciling sends nothing itself but the cancel of an order that is overdue. */
  lemma ReconcileOnlyCancels(d: Desk, side: Side, now: real)
    ensures var d' := ReconcileSide(d, side, now);
            d'.exchange == d.exchange
            || (d.Slot(side).Some? && d.Slot(side).value.Pending() && Overdue(d.manager.cfg, d.Slot(side).value, now)
                && d'.exchange == X.Cancel(d.exchange, d.Slot(side).value.id)
                && d'.Slot(side).Some? && d'.Slot(side).value.state.Unknown? && d'.manager.suspended.At(d.Slot(side).value.side))
  {
    ReconcileShape(d, side, now);
  }

  // ---- halted -----------------------------------------------------------

  predicate SameTerms(a: X.SimOrder, b: X.SimOrder) {
    a.id == b.id && a.side == b.side && a.price == b.price && a.size == b.size
  }

  /** Every quote resting in b rested in a, on the same terms. */
  ghost predicate NoNewQuotes(a: Session, b: Session) {
    && a.foreign <= b.foreign
    && forall o :: o in b.desk.exchange.orders && o.id !in b.foreign ==>
         exists p :: p in a.desk.exchange.orders && SameTerms(p, o)
  }

  lemma NoNewQuotesChain(a: Session, b: Session, c: Session)
    requires NoNewQuotes(a, b) && NoNewQuotes(b, c)
    ensures NoNewQuotes(a, c)
  {
    forall o | o in c.desk.exchange.orders && o.id !in c.foreign
      ensures exists p :: p in a.desk.exchange.orders && SameTerms(p, o)
    {
      var q :| q in b.desk.exchange.orders && SameTerms(q, o);
      var p :| p in a.desk.exchange.orders && SameTerms(p, q);
      assert SameTerms(p, o);
    }
  }

  lemma MarketNoNew(s: Session, m: X.Market, clock: real)
    requires SessionOk(s)
    ensures NoNewQuotes(s, MarketMoved(s, m, clock))
  {
    var x := s.desk.exchange;
    ExchangeRests(x);
    forall o | o in MarketMoved(s, m, clock).desk.exchange.orders
      ensures exists p :: p in x.orders && SameTerms(p, o)
    {
      if X.Idle(m) {
        assert SameTerms(o, o);
      } else {
        MarketOrders(x.orders, m);
        var k :| 0 <= k < |x.orders| && o == X.Respond(x.orders[k], m);
        RespondFacts(x.orders[k], m);
        assert x.orders[k] in x.orders && SameTerms(x.orders[k], o);
      }
    }
  }

  lemma {:induction false} TapeNoNew(s: Session, trades: seq<Trade>, clock: real)
    requires SessionOk(s)
    ensures NoNewQuotes(s, s.(desk := s.desk.(exchange := TapeFolded(s.desk.exchange, trades, clock))))
  {
    if trades == [] {
      assert forall o: X.SimOrder :: SameTerms(o, o);
    } else {
      var n := |trades| - 1;
      var before := s.(desk := s.desk.(exchange := TapeFolded(s.desk.exchange, trades[..n], clock)));
      TapeNoNew(s, trades[..n], clock);
      TapeKeepsSession(s, trades[..n], clock);
      MarketNoNew(before, X.Tape(trades[n]), clock);
      NoNewQuotesChain(s, before, MarketMoved(before, X.Tape(trades[n]), clock));
    }
  }

  lemma MarketSeenNoNew(s: Session, i: Input)
    requires SessionOk(s)
    ensures NoNewQuotes(s, MarketSeen(s, i))
  {
    var taped := s.(desk := s.desk.(exchange := TapeFolded(s.desk.exchange, i.trades, i.clock)));
    TapeNoNew(s, i.trades, i.clock);
    TapeKeepsSession(s, i.trades, i.clock);
    MarketNoNew(taped, X.Book(i.snapshot), i.clock);
    NoNewQuotesChain(s, taped, MarketMoved(taped, X.Book(i.snapshot), i.clock));
  }

  lemma SameOrdersNoNew(a: Session, b: Session)
    requires a.foreign <= b.foreign
    requires forall o: X.SimOrder :: o in b.desk.exchange.orders && o.id !in b.foreign ==> o in a.desk.exchange.orders
    ensures NoNewQuotes(a, b)
  {
    assert forall o: X.SimOrder :: SameTerms(o, o);
  }

  lemma FlattenNoNew(cfg: Config, s: Session, now: real, snapshot: BookSnapshot)
    requires SessionOk(s)
    ensures NoNewQuotes(s, FlattenPosition(cfg, s, now, snapshot))
  {
    var x, s' := s.desk.exchange, FlattenPosition(cfg, s, now, snapshot);
    if s'.desk.exchange != x {
      var price := FlattenPrice(cfg, s.account.position, snapshot);
      if s.flatten.Some? {
        assert s'.desk.exchange == X.Replace(x, s.flatten.value, price, s.flattenSize);
        MessageOrders(x, s'.desk.exchange, s.flatten.value);
      } else {
        var side := if s.account.position > 0 then Ask else Bid;
        assert s'.desk.exchange == X.Place(x, side, price, Abs(s.account.position));
      }
    }
    SameOrdersNoNew(s, s');
  }

  /** Nothing is wished for: a command can only cancel. */
  lemma CancelsOnly(d: Desk, action: Command, clock: real)
    requires d.manager.desired == Pair(None, None) && !action.PlaceQuote?
    ensures var d' := Execute(d, action, clock);
            d'.exchange == d.exchange
            || (d.Slot(action.side).Some? && d'.exchange == X.Cancel(d.exchange, d.Slot(action.side).value.id))
  {
  }

  lemma PumpOneStaysCurrent(d: Desk, now: real, clock: real)
    requires |d.queue.pending| > 0 && d.manager.desired == Pair(None, None) && QueueCurrent(d, Bid) && QueueCurrent(d, Ask)
    ensures var d' := PumpOne(d, now, clock);
            d'.manager.desired == Pair(None, None) && QueueCurrent(d', Bid) && QueueCurrent(d', Ask)
  {
    var d' := PumpOne(d, now, clock);
    PumpOneShape(d, now, clock);
    ExecuteLocal(d, d.queue.pending[BestIndex(d.queue.pending)].action, clock);
    assert forall e :: e in d'.queue.pending ==> e in d.queue.pending;
  }

  lemma PumpOneNoNew(s: Session, now: real, clock: real)
    requires SessionOk(s) && |s.desk.queue.pending| > 0
    requires s.desk.manager.desired == Pair(None, None) && QueueCurrent(s.desk, Bid) && QueueCurrent(s.desk, Ask)
    ensures NoNewQuotes(s, s.(desk := PumpOne(s.desk, now, clock)))
  {
    var d, d' := s.desk, PumpOne(s.desk, now, clock);
    var q := d.queue.pending[BestIndex(d.queue.pending)];
    assert q in d.queue.pending && EntryOk(d.manager, q);
    PumpOneShape(d, now, clock);
    CancelsOnly(d, q.action, clock);
    if d'.exchange != d.exchange {
      assert SlotOk(d, s.foreign, q.action.side);
      CancelledOrders(d.exchange, d.Slot(q.action.side).value.id);
    }
    SameOrdersNoNew(s, s.(desk := d'));
  }

  lemma {:induction false} PumpedNoNew(s: Session, now: real, clock: real)
    requires SessionOk(s)
    requires s.desk.manager.desired == Pair(None, None) && QueueCurrent(s.desk, Bid) && QueueCurrent(s.desk, Ask)
    ensures NoNewQuotes(s, Pumped(s, now, clock))
    decreases |s.desk.queue.pending|
  {
    var d := s.desk;
    if d.queue.pending != [] && Affords(d.budget, now, 0.0) {
      var s' := s.(desk := PumpOne(d, now, clock));
      PumpOneNoNew(s, now, clock);
      PumpOneStaysCurrent(s.desk, now, clock);
      PumpOneOk(s, now, clock);
      PumpedNoNew(s', now, clock);
      NoNewQuotesChain(s, s', Pumped(s', now, clock));
    } else {
      SameOrdersNoNew(s, Pumped(s, now, clock));
    }
  }

  /** A halted verdict pulls: nothing is wished for on either side. */
  lemma JudgedHalted(cfg: Config, s: Session, i: Input)
    requires SessionOk(s) && Judged(cfg, s, i).halted
    ensures Judged(cfg, s, i).desk.manager.desired == Pair(None, None)
    ensures NoNewQuotes(s, Judged(cfg, s, i))
  {
    var judged := s.(halted := Risk.HaltedAfter(cfg.risk, s.halted, s.account, ConditionsOf(cfg, i)));
    Risk.QuotesWhen(cfg.risk, s.halted, s.account, ConditionsOf(cfg, i));
    assert judged.halted && !VerdictOf(cfg, s, i).quote;
    WishKeeps(judged, None, None);
    var pulled := Wish(judged, None, None);
    SameOrdersNoNew(s, pulled);
    FlattenNoNew(cfg, pulled, i.now, i.snapshot);
    NoNewQuotesChain(s, pulled, Judged(cfg, s, i));
  }

  /** The step that halts, and each one after it, leaves no quote that did not rest before it. */
  lemma HaltedStepNoNew(cfg: Config, s: Session, i: Input)
    requires ConfigOk(cfg) && SessionOk(s) && Step(cfg, s, i).halted
    ensures NoNewQuotes(s, Step(cfg, s, i))
  {
    var seen := MarketSeen(s, i);
    var taken := EventsTaken(seen);
    var judged := BeforeReconcile(cfg, s, i);
    var due := Reconciled(judged, i.now);
    StepOk(cfg, s, i);
    MarketSeenNoNew(s, i);
    SameOrdersNoNew(seen, taken);
    NoNewQuotesChain(s, seen, taken);
    JudgedHalted(cfg, taken, i);
    NoNewQuotesChain(s, taken, judged);
    ReconciledOk(judged, i.now);
    ReconciledCurrent(judged, i.now);
    SameOrdersNoNew(judged, due);
    NoNewQuotesChain(s, judged, due);
    PumpedNoNew(due, i.now, i.clock);
    NoNewQuotesChain(s, due, Step(cfg, s, i));
  }

  /** A halt is sticky. */
  lemma HaltSticks(cfg: Config, s: Session, i: Input)
    requires s.halted
    ensures Step(cfg, s, i).halted
  {
  }

  lemma HaltedStepChains(cfg: Config, halt: Session, s: Session, i: Input)
    requires ConfigOk(cfg) && SessionOk(s) && s.halted && NoNewQuotes(halt, s)
    ensures Step(cfg, s, i).halted && NoNewQuotes(halt, Step(cfg, s, i))
  {
    HaltSticks(cfg, s, i);
    HaltedStepNoNew(cfg, s, i);
    NoNewQuotesChain(halt, s, Step(cfg, s, i));
  }

  lemma {:induction false} HaltedUpTo(cfg: Config, s: Session, before: seq<Input>, after: seq<Input>, k: nat)
    requires ConfigOk(cfg) && Started(s) && Run(cfg, s, before).halted && k <= |after|
    ensures var halt, late := Run(cfg, s, before), Run(cfg, s, before + after[..k]);
            late.halted && NoNewQuotes(halt, late)
  {
    WholeWindow(before, after);
    if k == 0 {
      SameOrdersNoNew(Run(cfg, s, before), Run(cfg, s, before));
    } else {
      HaltedUpTo(cfg, s, before, after, k - 1);
      RunOk(cfg, s, before + after[..k - 1]);
      HaltedStepChains(cfg, Run(cfg, s, before), Run(cfg, s, before + after[..k - 1]), after[k - 1]);
      RunStep(cfg, s, before, after, k - 1);
    }
  }

  /**
   * From a state in which risk has halted, over every run: every quote that
   * rests rested at the halt, at the same price and for the same size. No
   * quote is placed or replaced again.
   */
  lemma HaltedForGood(cfg: Config, s: Session, before: seq<Input>, after: seq<Input>)
    requires ConfigOk(cfg) && Started(s) && Run(cfg, s, before).halted
    ensures Run(cfg, s, before + after).halted
    ensures NoNewQuotes(Run(cfg, s, before), Run(cfg, s, before + after))
  {
    WholeWindow(before, after);
    HaltedUpTo(cfg, s, before, after, |after|);
  }
}
