/** The quote manager: the working quotes, and the diff against the wanted ones. */
module QuoteManagement {
  import opened Common
  import opened Orders
  import opened Throttle
  import X = SimulatedExchange

  datatype OrderState = PendingNew | Working | PendingReplace | PendingCancel | Unknown

  datatype WorkingOrder = WorkingOrder(
    side: Side,
    price: real,
    size: int,
    id: int,
    state: OrderState,
    filled: int,
    targetPrice: Option<real>,
    targetSize: Option<int>,
    sentAt: real,
    lastQuotedAt: real,
    cancelAttempts: int)
  {
    function Remaining(): nat { Max(size - filled, 0) }

    /** A message about this order is in flight. */
    predicate Pending() { state.PendingNew? || state.PendingReplace? || state.PendingCancel? }
  }

  datatype ExecutionConfig = ExecutionConfig(
    tickSize: Positive,
    requoteMinIntervalMs: real,
    requotePriceTicks: real,
    requoteSizeFraction: real,
    ackTimeoutSeconds: real)

  datatype Manager = Manager(
    cfg: ExecutionConfig,
    working: Pair<Option<WorkingOrder>>,
    desired: Pair<Option<Quote>>,
    suspended: Pair<bool>,
    timeouts: int,
    rejections: int,
    stuckCancels: int,
    fills: seq<Fill>)

  /** The manager with everything it drives. */
  datatype Desk = Desk(manager: Manager, exchange: X.Exchange, queue: Queue, budget: Bucket) {
    function Slot(side: Side): Option<WorkingOrder> { manager.working.At(side) }

    function WithSlot(side: Side, slot: Option<WorkingOrder>): Desk {
      this.(manager := manager.(working := manager.working.With(side, slot)))
    }
  }

  // ---- reconciling ------------------------------------------------------

  function Differs(cfg: ExecutionConfig, o: WorkingOrder, wanted: Quote): bool {
    || AbsReal(wanted.price - o.price) / cfg.tickSize > cfg.requotePriceTicks + EPSILON
    || o.Remaining() == 0
    || Abs(wanted.size - o.Remaining()) as real / Max(o.Remaining(), 1) as real > cfg.requoteSizeFraction + EPSILON
  }

  predicate TooSoon(cfg: ExecutionConfig, o: WorkingOrder, now: real) {
    (now - o.lastQuotedAt) * 1000.0 < cfg.requoteMinIntervalMs
  }

  predicate Overdue(cfg: ExecutionConfig, o: WorkingOrder, now: real) {
    now - o.sentAt > cfg.ackTimeoutSeconds
  }

  function ReconcileSide(d: Desk, side: Side, now: real): Desk {
    var m := d.manager;
    var wanted := m.desired.At(side);
    var idle := d.(queue := Withdraw(d.queue, side));
    match d.Slot(side)
    case None =>
      if wanted.None? || m.suspended.At(side) then idle
      else d.(queue := Submit(d.queue, side, PRIORITY_PLACE, PlaceQuote(side, wanted.value)))
    case Some(o) =>
      if o.Pending() then
        if Overdue(m.cfg, o, now) then TimeOut(idle, side, o, now) else idle
      else if o.state.Unknown? then
        if Overdue(m.cfg, o, now) then d.(queue := Submit(d.queue, side, PRIORITY_CANCEL, RetryCancel(side))) else idle
      else if wanted.None? then d.(queue := Submit(d.queue, side, PRIORITY_CANCEL, CancelQuote(side)))
      else if !Differs(m.cfg, o, wanted.value) || TooSoon(m.cfg, o, now) then idle
      else d.(queue := Submit(d.queue, side, PRIORITY_REPLACE, ReplaceQuote(side)))
  }

  function Reconcile(d: Desk, now: real): Desk {
    ReconcileSide(ReconcileSide(d, Bid, now), Ask, now)
  }

  /** A pending state outlived its acknowledgement: cancel, suspend the side, wait to be told. */
  function TimeOut(d: Desk, side: Side, o: WorkingOrder, now: real): Desk {
    d.(manager := d.manager.(timeouts := d.manager.timeouts + 1,
                             suspended := d.manager.suspended.With(o.side, true),
                             working := d.manager.working.With(side, Some(o.(state := Unknown, sentAt := now, cancelAttempts := 1)))),
       exchange := X.Cancel(d.exchange, o.id))
  }

  // ---- running what was queued ------------------------------------------

  function PlaceNow(d: Desk, side: Side, quote: Quote, clock: real): (r: Desk)
    ensures r.queue == d.queue && r.budget == d.budget
  {
    if d.Slot(side).Some? then d
    else
      var o := WorkingOrder(side, quote.price, quote.size, d.exchange.nextId, PendingNew, 0, None, None, clock, clock, 0);
      d.WithSlot(side, Some(o)).(exchange := X.Place(d.exchange, side, quote.price, quote.size))
  }

  function CancelNow(d: Desk, side: Side, clock: real): (r: Desk)
    ensures r.queue == d.queue && r.budget == d.budget
  {
    match d.Slot(side)
    case None => d
    case Some(o) =>
      if o.state.PendingCancel? then d
      else d.WithSlot(side, Some(o.(state := PendingCancel, sentAt := clock))).(exchange := X.Cancel(d.exchange, o.id))
  }

  function ReplaceNow(d: Desk, side: Side, clock: real): (r: Desk)
    ensures r.queue == d.queue && r.budget == d.budget
  {
    match d.Slot(side)
    case None => d
    case Some(o) =>
      var latest := d.manager.desired.At(side);
      if !o.state.Working? then d
      else if latest.None? then CancelNow(d, side, clock)
      else if TooSoon(d.manager.cfg, o, clock) || !Differs(d.manager.cfg, o, latest.value) then d
      else
        var sent := o.(state := PendingReplace, targetPrice := Some(latest.value.price), targetSize := Some(latest.value.size),
                       sentAt := clock, lastQuotedAt := clock);
        d.WithSlot(side, Some(sent)).(exchange := X.Replace(d.exchange, o.id, latest.value.price, latest.value.size))
  }

  function RetryNow(d: Desk, side: Side, clock: real): (r: Desk)
    ensures r.queue == d.queue && r.budget == d.budget
  {
    match d.Slot(side)
    case None => d
    case Some(o) =>
      if !o.state.Unknown? then d
      else
        var again := d.WithSlot(side, Some(o.(cancelAttempts := o.cancelAttempts + 1, sentAt := clock)));
        again.(manager := again.manager.(stuckCancels := again.manager.stuckCancels + 1),
               exchange := X.Cancel(d.exchange, o.id))
  }

  function Execute(d: Desk, action: Command, clock: real): (r: Desk)
    ensures r.queue == d.queue && r.budget == d.budget
  {
    match action
    case PlaceQuote(side, quote) => PlaceNow(d, side, quote, clock)
    case ReplaceQuote(side) => ReplaceNow(d, side, clock)
    case CancelQuote(side) => CancelNow(d, side, clock)
    case RetryCancel(side) => RetryNow(d, side, clock)
  }

  /** The next entry, paid for, taken out and run. */
  function PumpOne(d: Desk, now: real, clock: real): (r: Desk)
    requires |d.queue.pending| > 0
    ensures |r.queue.pending| == |d.queue.pending| - 1
  {
    var best := BestIndex(d.queue.pending);
    var paid := d.(budget := TryAcquire(d.budget, now), queue := d.queue.(pending := Dropped(d.queue.pending, best)));
    var ran := Execute(paid, d.queue.pending[best].action, clock);
    ran.(queue := ran.queue.(executed := ran.queue.executed + 1))
  }

  /** Run as many queued actions as the budget allows, best first. */
  function Pump(d: Desk, now: real, clock: real): Desk
    decreases |d.queue.pending|
  {
    if d.queue.pending == [] then d
    else if !Affords(d.budget, now, 0.0) then d.(budget := TryAcquire(d.budget, now))
    else Pump(PumpOne(d, now, clock), now, clock)
  }

  // ---- what the broker says ---------------------------------------------

  function Acked(o: WorkingOrder): WorkingOrder {
    var taken :=
      if o.state.PendingReplace? then
        o.(price := if o.targetPrice.Some? then o.targetPrice.value else o.price,
           size := if o.targetSize.Some? then o.targetSize.value + o.filled else o.size,
           targetPrice := None, targetSize := None)
      else o;
    if o.state.PendingNew? || o.state.PendingReplace? || o.state.Unknown? then taken.(state := Working) else taken
  }

  function FilledBy(o: WorkingOrder, size: int): WorkingOrder {
    o.(filled := o.filled + size, state := if o.state.PendingNew? then Working else o.state)
  }

  /** Which side's order carries an id; the bid is looked at first. */
  function HolderOf(m: Manager, id: int): Option<Side> {
    if m.working.bid.Some? && m.working.bid.value.id == id then Some(Bid)
    else if m.working.ask.Some? && m.working.ask.value.id == id then Some(Ask)
    else None
  }

  /** An event about the order held on a side, as the manager takes it. */
  function Apply(m: Manager, side: Side, o: WorkingOrder, event: OrderEvent): Manager {
    match event
    case Ack(_) =>
      m.(working := m.working.With(side, Some(Acked(o))),
         suspended := if o.state.PendingNew? || o.state.PendingReplace? || o.state.Unknown?
                      then m.suspended.With(o.side, false) else m.suspended)
    case Filled(_, None) => m
    case Filled(_, Some(f)) =>
      var after := FilledBy(o, f.size);
      m.(working := m.working.With(side, if after.Remaining() <= 0 then None else Some(after)))
    case Cancelled(_) => m.(working := m.working.With(side, None), suspended := m.suspended.With(o.side, false))
    case Rejected(_) => m.(working := m.working.With(side, None), rejections := m.rejections + 1)
  }

  function OnEvent(m: Manager, event: OrderEvent): Manager {
    match HolderOf(m, event.orderId)
    case None => m
    case Some(side) => Apply(m, side, m.working.At(side).value, event)
  }

  function OnEvents(m: Manager, events: seq<OrderEvent>): Manager {
    if events == [] then m
    else OnEvent(OnEvents(m, events[..|events| - 1]), events[|events| - 1])
  }

  /** The manager after a drained batch: slots updated, every fill recorded. */
  function TakeEvents(m: Manager, events: seq<OrderEvent>): Manager {
    var after := OnEvents(m, events);
    after.(fills := m.fills + FillsIn(events))
  }

  // ---- the manager itself -----------------------------------------------

  class QuoteManager {
    const broker: X.SimulatedBroker
    const queue: ActionQueue
    const cfg: ExecutionConfig
    var working: Pair<Option<WorkingOrder>>
    var desired: Pair<Option<Quote>>
    var suspended: Pair<bool>
    var timeouts: int
    var rejections: int
    var stuckCancels: int
    var fills: seq<Fill>

    ghost function Own(): Manager
      reads this
    {
      Manager(cfg, working, desired, suspended, timeouts, rejections, stuckCancels, fills)
    }

    ghost function View(): Desk
      reads this, broker, queue, queue.budget
    {
      Desk(Own(), broker.View(), queue.View(), queue.budget.View())
    }

    constructor (broker: X.SimulatedBroker, queue: ActionQueue, cfg: ExecutionConfig)
      ensures this.broker == broker && this.queue == queue
      ensures Own() == Manager(cfg, Pair(None, None), Pair(None, None), Pair(false, false), 0, 0, 0, [])
    {
      this.broker, this.queue, this.cfg := broker, queue, cfg;
      working, desired, suspended := Pair(None, None), Pair(None, None), Pair(false, false);
      timeouts, rejections, stuckCancels, fills := 0, 0, 0, [];
    }

    method SetDesired(bid: Option<Quote>, ask: Option<Quote>)
      modifies this
      ensures Own() == old(Own()).(desired := Pair(bid, ask))
    {
      desired := Pair(bid, ask);
    }

    method CancelAll()
      modifies this
      ensures Own() == old(Own()).(desired := Pair(None, None))
    {
      desired := Pair(None, None);
    }

    method ReconcileAll(now: real)
      modifies this, broker, queue
      ensures View() == Reconcile(old(View()), now)
    {
      ReconcileOne(Bid, now);
      ReconcileOne(Ask, now);
    }

    method ReconcileOne(side: Side, now: real)
      modifies this, broker, queue
      ensures View() == ReconcileSide(old(View()), side, now)
    {
      var wanted := desired.At(side);
      if working.At(side).None? {
        if wanted.None? || suspended.At(side) {
          var _ := queue.WithdrawKey(side);
          return;
        }
        queue.SubmitAction(side, PRIORITY_PLACE, PlaceQuote(side, wanted.value));
        return;
      }
      var o := working.At(side).value;
      if o.state.PendingNew? || o.state.PendingReplace? || o.state.PendingCancel? {
        if now - o.sentAt > cfg.ackTimeoutSeconds {
          OnTimeout(side, now);
        }
        var _ := queue.WithdrawKey(side);
        return;
      }
      if o.state.Unknown? {
        if now - o.sentAt > cfg.ackTimeoutSeconds {
          queue.SubmitAction(side, PRIORITY_CANCEL, RetryCancel(side));
        } else {
          var _ := queue.WithdrawKey(side);
        }
        return;
      }
      if wanted.None? {
        queue.SubmitAction(side, PRIORITY_CANCEL, CancelQuote(side));
        return;
      }
      if !Differs(cfg, o, wanted.value) || (now - o.lastQuotedAt) * 1000.0 < cfg.requoteMinIntervalMs {
        var _ := queue.WithdrawKey(side);
        return;
      }
      queue.SubmitAction(side, PRIORITY_REPLACE, ReplaceQuote(side));
    }

    method OnTimeout(side: Side, now: real)
      requires working.At(side).Some?
      modifies this, broker
      ensures View() == TimeOut(old(View()), side, old(working).At(side).value, now)
    {
      var o := working.At(side).value;
      timeouts := timeouts + 1;
      suspended := suspended.With(o.side, true);
      broker.CancelOrder(o.id);
      working := working.With(side, Some(o.(state := Unknown, sentAt := now, cancelAttempts := 1)));
    }

    method Place(side: Side, quote: Quote, clock: real)
      modifies this, broker
      ensures View() == PlaceNow(old(View()), side, quote, clock)
    {
      if working.At(side).Some? {
        return;
      }
      var id := broker.PlaceOrder(side, quote.price, quote.size);
      working := working.With(side, Some(WorkingOrder(side, quote.price, quote.size, id, PendingNew, 0, None, None, clock, clock, 0)));
    }

    method MaybeReplace(side: Side, clock: real)
      modifies this, broker
      ensures View() == ReplaceNow(old(View()), side, clock)
    {
      if working.At(side).None? || !working.At(side).value.state.Working? {
        return;
      }
      var o := working.At(side).value;
      var latest := desired.At(side);
      if latest.None? {
        CancelWorking(side, clock);
        return;
      }
      if (clock - o.lastQuotedAt) * 1000.0 < cfg.requoteMinIntervalMs || !Differs(cfg, o, latest.value) {
        return;
      }
      broker.ReplaceOrder(o.id, latest.value.price, latest.value.size);
      working := working.With(side, Some(o.(state := PendingReplace, targetPrice := Some(latest.value.price),
                                            targetSize := Some(latest.value.size), sentAt := clock, lastQuotedAt := clock)));
    }

    method CancelWorking(side: Side, clock: real)
      modifies this, broker
      ensures View() == CancelNow(old(View()), side, clock)
    {
      if working.At(side).None? || working.At(side).value.state.PendingCancel? {
        return;
      }
      var o := working.At(side).value;
      broker.CancelOrder(o.id);
      working := working.With(side, Some(o.(state := PendingCancel, sentAt := clock)));
    }

    method RetryCancelling(side: Side, clock: real)
      modifies this, broker
      ensures View() == RetryNow(old(View()), side, clock)
    {
      if working.At(side).None? || !working.At(side).value.state.Unknown? {
        return;
      }
      var o := working.At(side).value;
      stuckCancels := stuckCancels + 1;
      working := working.With(side, Some(o.(cancelAttempts := o.cancelAttempts + 1, sentAt := clock)));
      broker.CancelOrder(o.id);
    }

    method RunAction(action: Command, clock: real)
      modifies this, broker
      ensures View() == Execute(old(View()), action, clock)
    {
      match action
      case PlaceQuote(side, quote) => Place(side, quote, clock);
      case ReplaceQuote(side) => MaybeReplace(side, clock);
      case CancelQuote(side) => CancelWorking(side, clock);
      case RetryCancel(side) => RetryCancelling(side, clock);
    }

    /** The queue's pump, with the manager running what it takes out. */
    method PumpQueue(now: real, clock: real)
      modifies this, broker, queue, queue.budget
      ensures View() == Pump(old(View()), now, clock)
    {
      while |queue.pending| > 0
        invariant Pump(View(), now, clock) == Pump(old(View()), now, clock)
        decreases |queue.pending|
      {
        ghost var before := View();
        var chosen := queue.TakeBest(now);
        if chosen.None? {
          return;
        }
        RunAction(chosen.value.action, clock);
        queue.executed := queue.executed + 1;
        assert View() == PumpOne(before, now, clock);
      }
    }

    /** Apply the broker's events; the fills among them are returned. */
    method ApplyEvents(events: seq<OrderEvent>) returns (found: seq<Fill>)
      modifies this
      ensures Own() == TakeEvents(old(Own()), events)
      ensures found == FillsIn(events)
    {
      found := [];
      for i := 0 to |events|
        invariant found == FillsIn(events[..i])
        invariant Own() == OnEvents(old(Own()), events[..i])
      {
        assert events[..i + 1][..i] == events[..i];
        var event := events[i];
        var side := if working.bid.Some? && working.bid.value.id == event.orderId then Some(Bid)
                    else if working.ask.Some? && working.ask.value.id == event.orderId then Some(Ask)
                    else None;
        if side.None? {
          // An order from a previous session, or one the timeout gave up on: still a fill.
          if event.Filled? && event.fill.Some? {
            found := found + [event.fill.value];
          }
        } else {
          if event.Filled? && event.fill.Some? {
            found := found + [event.fill.value];
          }
          ApplyEvent(side.value, event);
        }
      }
      assert events[..|events|] == events;
      FillsKept(old(Own()), events);
      fills := fills + found;
    }

    method ApplyEvent(side: Side, event: OrderEvent)
      requires working.At(side).Some?
      modifies this
      ensures Own() == Apply(old(Own()), side, old(working).At(side).value, event)
    {
      var o := working.At(side).value;
      match event
      case Ack(_) =>
        if o.state.PendingReplace? {
          if o.targetPrice.Some? {
            o := o.(price := o.targetPrice.value);
          }
          if o.targetSize.Some? {
            o := o.(size := o.targetSize.value + o.filled);
          }
          o := o.(targetPrice := None, targetSize := None);
        }
        if o.state.PendingNew? || o.state.PendingReplace? || o.state.Unknown? {
          o := o.(state := Working);
          suspended := suspended.With(o.side, false);
        }
        working := working.With(side, Some(o));
      case Filled(_, None) =>
      case Filled(_, Some(f)) =>
        o := o.(filled := o.filled + f.size);
        if o.state.PendingNew? {
          o := o.(state := Working);
        }
        working := working.With(side, if o.Remaining() <= 0 then None else Some(o));
      case Cancelled(_) =>
        working := working.With(side, None);
        suspended := suspended.With(o.side, false);
      case Rejected(_) =>
        rejections := rejections + 1;
        working := working.With(side, None);
    }
  }

  lemma {:induction false} FillsKept(m: Manager, events: seq<OrderEvent>)
    ensures OnEvents(m, events).fills == m.fills
  {
    if events != [] {
      FillsKept(m, events[..|events| - 1]);
    }
  }
}
