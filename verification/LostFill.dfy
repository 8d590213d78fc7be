/** A run in which a timeout leaves a quote standing that the exchange no longer has. */
module LostFill {
  import opened Common
  import opened Orders
  import opened Throttle
  import opened QuoteManagement
  import opened Coherence
  import X = SimulatedExchange

  const CONFIG := ExecutionConfig(0.25, 250.0, 0.0, 0.34, 5.0)
  const BID_TWO := Quote(Bid, 100.0, 2)
  const BID_ONE := Quote(Bid, 100.0, 1)
  const SELLER_THROUGH := X.Tape(Trade(99.0, 1, -1))
  const BUCKET := Bucket(30.0, 10.0, 10.0, 0.0, 0, 0)

  function Slots(state: OrderState, target: Option<Quote>, at: real): Pair<Option<WorkingOrder>> {
    var price := if target.Some? then Some(target.value.price) else None;
    var size := if target.Some? then Some(target.value.size) else None;
    Pair(Some(WorkingOrder(Bid, 100.0, 2, 1, state, 0, price, size, at, at, 0)), None)
  }

  function At(working: Pair<Option<WorkingOrder>>, bid: Option<Quote>, orders: seq<X.SimOrder>, events: seq<OrderEvent>,
              fills: seq<Fill>, nextId: int, sent: int, queue: Queue, budget: Bucket): World
  {
    World(Desk(Manager(CONFIG, working, Pair(bid, None), Pair(false, false), 0, 0, 0, []),
               X.Exchange(true, 0.0, orders, events, nextId, None, sent, fills),
               queue, budget),
          {})
  }

  const NOTHING: Pair<Option<WorkingOrder>> := Pair(None, None)
  const RESTING := X.SimOrder(1, Bid, 100.0, 2, 0, 0, true)
  const FILL := Fill(2.0, Bid, 100.0, 1, X.Fees(0.0, 1), 1)
  const PAID := TryAcquire(BUCKET, 0.0)

  // The desk after each action of the run.
  const W0 := At(NOTHING, None, [], [], [], 1, 0, Queue([], 0, 0, 0), BUCKET)
  const W1 := At(NOTHING, Some(BID_TWO), [], [], [], 1, 0, Queue([], 0, 0, 0), BUCKET)
  const W2 := At(NOTHING, Some(BID_TWO), [], [], [], 1, 0, Queue([Queued(2, 1, Bid, PlaceQuote(Bid, BID_TWO))], 1, 0, 0), BUCKET)
  const W3 := At(Slots(PendingNew, None, 0.0), Some(BID_TWO), [RESTING], [Ack(1)], [], 2, 1, Queue([], 1, 0, 1), PAID)
  const W4 := At(Slots(Working, None, 0.0), Some(BID_TWO), [RESTING], [], [], 2, 1, Queue([], 1, 0, 1), PAID)
  const W5 := At(Slots(Working, None, 0.0), Some(BID_ONE), [RESTING], [], [], 2, 1, Queue([], 1, 0, 1), PAID)
  const W6 := At(Slots(Working, None, 0.0), Some(BID_ONE), [RESTING], [], [], 2, 1,
                 Queue([Queued(1, 2, Bid, ReplaceQuote(Bid))], 2, 0, 1), PAID)
  const SENT := Slots(PendingReplace, Some(BID_ONE), 1.0)
  const W7 := W6.(desk := W6.desk.(
    manager := W6.desk.manager.(working := SENT),
    exchange := W6.desk.exchange.(orders := [RESTING.(size := 1)], events := [] + [Ack(1)], sent := 2),
    queue := Queue([], 2, 0, 2),
    budget := TryAcquire(PAID, 1.0)))
  const W8 := W7.(desk := W7.desk.(
    exchange := W7.desk.exchange.(orders := [], events := ([] + [Ack(1)]) + [Filled(1, Some(FILL))], fills := [] + [FILL])))

  lemma Placed()
    ensures Act(W0, Want(Some(BID_TWO), None)) == W1
    ensures Act(W1, ReconcileAt(0.0)) == W2
    ensures Act(W2, PumpNext(0.0, 0.0)) == W3
  {
  }

  lemma Acknowledged()
    ensures Act(W3, ReadLog(None)) == W4
    ensures Act(W4, Want(Some(BID_ONE), None)) == W5
  {
    assert [Ack(1)][..0] == [];
    assert Besides([Ack(1)], None) == [Ack(1)];
    assert OnEvents(W3.desk.manager, [Ack(1)]) == OnEvent(W3.desk.manager, Ack(1));
    assert FillsIn([Ack(1)]) == [];
  }

  lemma Due(order: WorkingOrder)
    requires order == W5.desk.Slot(Bid).value
    ensures Differs(CONFIG, order, BID_ONE) && !TooSoon(CONFIG, order, 1.0)
  {
  }

  lemma ReplaceQueued()
    ensures Act(W5, ReconcileAt(1.0)) == W6
  {
    Due(W5.desk.Slot(Bid).value);
  }

  lemma ReplaceSent()
    ensures Act(W6, PumpNext(1.0, 1.0)) == W7
  {
    Due(W6.desk.Slot(Bid).value);
    PumpOneShape(W6.desk, 1.0, 1.0);
    assert ReplaceNow(W6.desk, Bid, 1.0).manager == W7.desk.manager;
    assert ReplaceNow(W6.desk, Bid, 1.0).exchange == W7.desk.exchange;
  }

  const CUT_ORDER := RESTING.(size := 1)

  lemma Gone()
    ensures X.Respond(CUT_ORDER, SELLER_THROUGH) == CUT_ORDER.(filled := 1, active := false)
  {
  }

  /** The market met by a single order that it finishes. */
  lemma OnlyOrder(o: X.SimOrder, m: X.Market, clock: real, fee: real)
    ensures X.MarketFills([o], m, clock, fee) == X.ResponseFills(o, X.Respond(o, m), clock, fee)
    ensures !X.Respond(o, m).active ==> X.Compacted(X.Responses([o], m)) == []
  {
    assert [o][..0] == [];
    assert X.MarketFills([], m, clock, fee) == [];
    var r := X.Respond(o, m);
    assert X.Responses([o], m) == [r];
    assert [r][..0] == [];
    assert X.Compacted([]) == [];
  }

  lemma OneEvent(f: Fill)
    ensures X.FillEvents([f]) == [Filled(f.orderId, Some(f))]
  {
  }

  /** A market that finishes the only order on the exchange. */
  lemma OnlyOrderSold(x: X.Exchange, o: X.SimOrder, m: X.Market, clock: real, f: Fill)
    requires x.orders == [o] && !X.Idle(m) && m.Tape?
    requires !X.Respond(o, m).active
    requires X.ResponseFills(o, X.Respond(o, m), clock, x.feePerContract) == [f]
    ensures X.OnMarket(x, m, clock) ==
            x.(orders := [], events := x.events + [Filled(f.orderId, Some(f))], fills := x.fills + [f])
  {
    OnlyOrder(o, m, clock, x.feePerContract);
    OneEvent(f);
  }

  lemma FilledWhole()
    ensures X.ResponseFills(CUT_ORDER, CUT_ORDER.(filled := 1, active := false), 2.0, 0.0) == [FILL]
  {
  }

  lemma MarketAct(w: World, m: X.Market, clock: real)
    ensures Act(w, MarketMoves(m, clock)) == w.(desk := w.desk.(exchange := X.OnMarket(w.desk.exchange, m, clock)))
  {
  }

  lemma SoldInto()
    ensures Act(W7, MarketMoves(SELLER_THROUGH, 2.0)) == W8
  {
    MarketAct(W7, SELLER_THROUGH, 2.0);
    assert X.OnMarket(W7.desk.exchange, SELLER_THROUGH, 2.0) == W8.desk.exchange by {
      assert X.Respond(CUT_ORDER, SELLER_THROUGH) == CUT_ORDER.(filled := 1, active := false) by { Gone(); }
      FilledWhole();
      OnlyOrderSold(W7.desk.exchange, CUT_ORDER, SELLER_THROUGH, 2.0, FILL);
    }
  }

  lemma FillShortOfOldSize()
    ensures LosesFill(W8.desk, Bid, 10.0)
  {
    var log := W8.desk.exchange.events;
    assert log == [Ack(1), Filled(1, Some(FILL))] && log[..1] == [Ack(1)] && [Ack(1)][..0] == [];
    assert FillsIn(log) == [FILL];
    assert [FILL][..0] == [];
    assert FilledUnder([FILL], 1) == FilledUnder([], 1) + 1;
  }

  lemma QuotedCleanly()
    ensures WorldOk(W5)
  {
    EveryInterleavingAgrees(W0, []);
    Placed();
    ActKeeps(W0, Want(Some(BID_TWO), None));
    ActKeeps(W1, ReconcileAt(0.0));
    ActKeeps(W2, PumpNext(0.0, 0.0));
    Acknowledged();
    ActKeeps(W3, ReadLog(None));
    ActKeeps(W4, Want(Some(BID_ONE), None));
  }

  lemma RunIsClean()
    ensures WorldOk(W8)
  {
    QuotedCleanly();
    ReplaceQueued();
    ActKeeps(W5, ReconcileAt(1.0));
    ReplaceSent();
    ActKeeps(W6, PumpNext(1.0, 1.0));
    SoldInto();
    ActKeeps(W7, MarketMoves(SELLER_THROUGH, 2.0));
  }

  /**
   * The agreement does not survive every interleaving. A bid for two is cut to
   * one, filled for one, and timed out before the log is read: the log then
   * leaves the manager holding a bid the exchange has already dropped.
   */
  lemma TimeoutCanLoseAFill()
    ensures Agrees(W8.desk, W8.foreign)
    ensures !Agrees(Act(W8, ReconcileAt(10.0)).desk, W8.foreign)
  {
    RunIsClean();
    FillShortOfOldSize();
    ReconcileAgreesIff(W8.desk, W8.foreign, 10.0);
  }
}
