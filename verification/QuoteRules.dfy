/** When the quote manager speaks, and what it makes of an answer: said of prices, sizes, states and times alone. */
module QuoteRules {
  import opened Common
  import opened Orders
  import opened Throttle
  import opened QuoteManagement
  import opened Coherence
  import opened MessageBound
  import X = SimulatedExchange

  // ---- the dead-band ----------------------------------------------------

  /**
   * A wish is far enough from what rests to be worth a message: its price
   * is off by more than the band, nothing is left of the order, or the size
   * is off by more than the fraction of what is left.
   */
  predicate FarEnough(cfg: ExecutionConfig, price: real, left: int, wish: Quote) {
    var band := (cfg.requotePriceTicks + EPSILON) * cfg.tickSize;
    var share := (cfg.requoteSizeFraction + EPSILON) * (if left >= 1 then left as real else 1.0);
    || wish.price - price > band || price - wish.price > band
    || left <= 0
    || (wish.size - left) as real > share || (left - wish.size) as real > share
  }

  lemma Crossed(x: real, step: Positive, limit: real)
    ensures x / step > limit <==> x > limit * step
  {
    var q := x / step;
    assert x == q * step;
    if q > limit {
      assert (q - limit) * step > 0.0;
    } else {
      assert (limit - q) * step >= 0.0;
    }
  }

  lemma DiffersIsFar(cfg: ExecutionConfig, o: WorkingOrder, wish: Quote)
    ensures Differs(cfg, o, wish) <==> FarEnough(cfg, o.price, o.size - o.filled, wish)
  {
    Crossed(AbsReal(wish.price - o.price), cfg.tickSize, cfg.requotePriceTicks + EPSILON);
    Crossed(Abs(wish.size - o.Remaining()) as real, Max(o.Remaining(), 1) as real, cfg.requoteSizeFraction + EPSILON);
  }

  /** So long since the last message on the side. */
  predicate Rested(cfg: ExecutionConfig, o: WorkingOrder, now: real) {
    1000.0 * now - 1000.0 * o.lastQuotedAt >= cfg.requoteMinIntervalMs
  }

  /** A message is this long without an answer. */
  predicate Late(cfg: ExecutionConfig, o: WorkingOrder, now: real) { now > o.sentAt + cfg.ackTimeoutSeconds }

  predicate InFlight(o: WorkingOrder) { o.state.PendingNew? || o.state.PendingReplace? || o.state.PendingCancel? }

  // ---- what a replace sends ---------------------------------------------

  /**
   * A working order with a wish is replaced exactly when the wish is far
   * enough off and the side has rested; the message is for the wish, and
   * nothing else of the desk moves. Otherwise nothing moves at all.
   */
  lemma ReplaceSentIff(d: Desk, side: Side, clock: real)
    requires d.Slot(side).Some? && d.Slot(side).value.state.Working? && d.manager.desired.At(side).Some?
    ensures var o, wish, r := d.Slot(side).value, d.manager.desired.At(side).value, Execute(d, ReplaceQuote(side), clock);
            var due := Rested(d.manager.cfg, o, clock) && FarEnough(d.manager.cfg, o.price, o.size - o.filled, wish);
            && (r.exchange.sent == d.exchange.sent + 1 <==> due)
            && (!due ==> r == d)
            && (due ==>
                  && r.exchange == X.Replace(d.exchange, o.id, wish.price, wish.size)
                  && r.manager == d.manager.(working := r.manager.working)
                  && r.Slot(Other(side)) == d.Slot(Other(side))
                  && r.Slot(side) == Some(o.(state := PendingReplace, targetPrice := Some(wish.price), targetSize := Some(wish.size),
                                             sentAt := clock, lastQuotedAt := clock)))
  {
    DiffersIsFar(d.manager.cfg, d.Slot(side).value, d.manager.desired.At(side).value);
  }

  /** With no wish left a working order is cancelled instead; an order that is not working is left alone. */
  lemma ReplaceOtherwise(d: Desk, side: Side, clock: real)
    requires d.Slot(side).None? || !d.Slot(side).value.state.Working? || d.manager.desired.At(side).None?
    ensures var r := Execute(d, ReplaceQuote(side), clock);
            if d.Slot(side).Some? && d.Slot(side).value.state.Working?
            then r == d.WithSlot(side, Some(d.Slot(side).value.(state := PendingCancel, sentAt := clock)))
                       .(exchange := X.Cancel(d.exchange, d.Slot(side).value.id))
            else r == d
  {
  }

  // ---- what the other commands send -------------------------------------

  /** Only the slot of one side and the exchange have moved. */
  ghost predicate OnlySide(d: Desk, r: Desk, side: Side) {
    && r.Slot(Other(side)) == d.Slot(Other(side)) && r.manager == d.manager.(working := r.manager.working)
    && r.queue == d.queue && r.budget == d.budget
  }

  /** A quote is placed exactly into a free slot, and its clocks start then. */
  lemma PlaceSentIff(d: Desk, side: Side, quote: Quote, clock: real)
    ensures var r := Execute(d, PlaceQuote(side, quote), clock);
            && (d.Slot(side).Some? ==> r == d)
            && (d.Slot(side).None? ==>
                  && OnlySide(d, r, side) && r.exchange == X.Place(d.exchange, side, quote.price, quote.size)
                  && r.Slot(side).Some?
                  && var o := r.Slot(side).value;
                  && o.side == side && o.price == quote.price && o.size == quote.size && o.id == d.exchange.nextId
                  && o.state.PendingNew? && o.filled == 0 && o.sentAt == clock == o.lastQuotedAt && o.cancelAttempts == 0
                  && o.targetPrice.None? && o.targetSize.None?)
  {
  }

  /** A cancel goes out exactly when there is an order with none in flight, and is waited for from then. */
  lemma CancelSentIff(d: Desk, side: Side, clock: real)
    ensures var r := Execute(d, CancelQuote(side), clock);
            var due := d.Slot(side).Some? && !d.Slot(side).value.state.PendingCancel?;
            && (!due ==> r == d)
            && (due ==>
                  && OnlySide(d, r, side) && r.exchange == X.Cancel(d.exchange, d.Slot(side).value.id)
                  && r.Slot(side) == Some(d.Slot(side).value.(state := PendingCancel, sentAt := clock)))
  {
  }

  /** A cancel is sent again exactly for an order nobody has answered for, and counted twice: on it, and in all. */
  lemma RetrySentIff(d: Desk, side: Side, clock: real)
    ensures var r := Execute(d, RetryCancel(side), clock);
            var due := d.Slot(side).Some? && d.Slot(side).value.state.Unknown?;
            && (!due ==> r == d)
            && (due ==>
                  && var o := d.Slot(side).value;
                  && OnlySide(d, r.(manager := r.manager.(stuckCancels := d.manager.stuckCancels)), side)
                  && r.exchange == X.Cancel(d.exchange, o.id) && r.manager.stuckCancels == d.manager.stuckCancels + 1
                  && r.Slot(side) == Some(o.(cancelAttempts := o.cancelAttempts + 1, sentAt := clock)))
  {
  }

  // ---- what a reconcile queues ------------------------------------------

  predicate Queues(pending: seq<Queued>, side: Side, action: Command) {
    exists e :: e in pending && e.key == side && e.action == action
  }

  /** What each command is queued for, whatever waited before. */
  ghost predicate QueuesExactly(m: Manager, pending: seq<Queued>, side: Side, now: real) {
    var slot, wish := m.working.At(side), m.desired.At(side);
    && (forall quote :: Queues(pending, side, PlaceQuote(side, quote)) <==>
          slot.None? && wish == Some(quote) && !m.suspended.At(side))
    && (Queues(pending, side, ReplaceQuote(side)) <==>
          slot.Some? && slot.value.state.Working? && wish.Some? && Rested(m.cfg, slot.value, now) &&
          FarEnough(m.cfg, slot.value.price, slot.value.size - slot.value.filled, wish.value))
    && (Queues(pending, side, CancelQuote(side)) <==> slot.Some? && slot.value.state.Working? && wish.None?)
    && (Queues(pending, side, RetryCancel(side)) <==> slot.Some? && slot.value.state.Unknown? && Late(m.cfg, slot.value, now))
  }

  lemma WaitsQueues(m: Manager, pending: seq<Queued>, side: Side, now: real)
    requires Waits(pending, side, Due(m, side, now))
    ensures QueuesExactly(m, pending, side, now)
  {
    var slot, wish, due := m.working.At(side), m.desired.At(side), Due(m, side, now);
    if slot.Some? && wish.Some? {
      DiffersIsFar(m.cfg, slot.value, wish.value);
    }
    if due.Some? {
      var e :| e in pending && e.key == side;
      assert Some((e.priority, e.action)) == due;
    }
    assert forall action :: Queues(pending, side, action) ==> due.Some? && due.value.1 == action;
    assert forall action :: due.Some? && due.value.1 == action ==> Queues(pending, side, action);
  }

  /** After a reconcile each side's command, if any, is the one its slot, wish, suspension and times call for. */
  lemma ReconcileQueues(d: Desk, now: real)
    requires OneAKey(d.queue.pending)
    requires d.Slot(Bid).Some? ==> d.Slot(Bid).value.side == Bid
    ensures var after := Reconcile(d, now).queue.pending;
            QueuesExactly(d.manager, after, Bid, now) && QueuesExactly(d.manager, after, Ask, now)
  {
    ReconcileDecidesQueue(d, now);
    var after := Reconcile(d, now).queue.pending;
    WaitsQueues(d.manager, after, Bid, now);
    WaitsQueues(d.manager, after, Ask, now);
  }

  /**
   * A side is given up on exactly when its message is late: it is then Unknown, suspended, and a cancel of it has
   * gone out.
   */
  lemma TimesOutIff(d: Desk, side: Side, now: real)
    requires d.Slot(side).Some? ==> d.Slot(side).value.side == side
    ensures var r := ReconcileSide(d, side, now);
            var late := d.Slot(side).Some? && InFlight(d.Slot(side).value) && Late(d.manager.cfg, d.Slot(side).value, now);
            && (r.manager.timeouts == d.manager.timeouts + 1 <==> late)
            && (!late ==> r.manager == d.manager && r.exchange == d.exchange)
            && (late ==>
                  && r.Slot(side) == Some(d.Slot(side).value.(state := Unknown, sentAt := now, cancelAttempts := 1))
                  && r.Slot(Other(side)) == d.Slot(Other(side))
                  && r.manager.suspended == d.manager.suspended.With(side, true)
                  && r.exchange == X.Cancel(d.exchange, d.Slot(side).value.id))
  {
  }

  // ---- what a pump runs first -------------------------------------------

  /** Cancels before replaces, and those before places. */
  function Urgency(action: Command): int {
    match action
    case CancelQuote(_) => 0
    case RetryCancel(_) => 0
    case ReplaceQuote(_) => 1
    case PlaceQuote(_, _) => 2
  }

  ghost predicate Graded(pending: seq<Queued>) { forall e :: e in pending ==> e.priority == Urgency(e.action) }

  lemma WaitsGraded(m: Manager, pending: seq<Queued>, now: real)
    requires Waits(pending, Bid, Due(m, Bid, now)) && Waits(pending, Ask, Due(m, Ask, now))
    ensures Graded(pending)
  {
    forall e | e in pending ensures e.priority == Urgency(e.action) {
      assert Some((e.priority, e.action)) == Due(m, e.key, now);
    }
  }

  lemma GradedRuns(pending: seq<Queued>, ran: seq<Queued>, left: seq<Queued>)
    requires Graded(pending) && multiset(ran) + multiset(left) == multiset(pending) && InOrder(ran)
    requires forall a, b :: a in ran && b in left ==> !b.Before(a)
    ensures forall i, j :: 0 <= i < j < |ran| ==> Urgency(ran[i].action) <= Urgency(ran[j].action)
    ensures forall a, b :: a in ran && b in left ==> Urgency(a.action) <= Urgency(b.action)
  {
    assert forall e :: e in ran || e in left ==> e in multiset(ran) + multiset(left);
    assert forall e :: e in multiset(pending) ==> e in pending;
    forall i, j | 0 <= i < j < |ran| ensures Urgency(ran[i].action) <= Urgency(ran[j].action) {
      assert !ran[j].Before(ran[i]) && ran[i] in ran && ran[j] in ran;
    }
  }

  /**
   * A pump after a reconcile runs its cancels first, then its replaces, then
   * its places; and what the tokens leave waiting is no more urgent than
   * anything that ran.
   */
  lemma UrgentFirst(d: Desk, r: Desk, now: real, clock: real)
    requires OneAKey(d.queue.pending) && r == Reconcile(d, now)
    requires d.Slot(Bid).Some? ==> d.Slot(Bid).value.side == Bid
    ensures var ran, left := Ran(r.queue.pending, r.budget, now), Pump(r, now, clock).queue.pending;
            && (forall i, j :: 0 <= i < j < |ran| ==> Urgency(ran[i].action) <= Urgency(ran[j].action))
            && (forall a, b :: a in ran && b in left ==> Urgency(a.action) <= Urgency(b.action))
  {
    assert Graded(r.queue.pending) by {
      ReconcileDecidesQueue(d, now);
      WaitsGraded(d.manager, r.queue.pending, now);
    }
    PumpRunsLeast(r, now, clock);
    GradedRuns(r.queue.pending, Ran(r.queue.pending, r.budget, now), Pump(r, now, clock).queue.pending);
  }

  /** What a pump runs, run one after another. */
  function RunAll(d: Desk, entries: seq<Queued>, clock: real): Desk
    decreases |entries|
  {
    if entries == [] then d else RunAll(Execute(d, entries[0].action, clock), entries[1..], clock)
  }

  lemma {:induction false} RunAlike(d: Desk, e: Desk, entries: seq<Queued>, clock: real)
    requires d.manager == e.manager && d.exchange == e.exchange
    ensures RunAll(d, entries, clock).manager == RunAll(e, entries, clock).manager
    ensures RunAll(d, entries, clock).exchange == RunAll(e, entries, clock).exchange
    decreases |entries|
  {
    if entries != [] {
      var d', e' := Execute(d, entries[0].action, clock), Execute(e, entries[0].action, clock);
      assert e.(queue := d.queue, budget := d.budget) == d;
      RunAlike(d', e', entries[1..], clock);
    }
  }

  /** A pump is its least entries run in turn, as many as the tokens pay for. */
  lemma {:induction false} PumpRuns(d: Desk, now: real, clock: real)
    ensures var ran := RunAll(d, Ran(d.queue.pending, d.budget, now), clock);
            Pump(d, now, clock).manager == ran.manager && Pump(d, now, clock).exchange == ran.exchange
    decreases |d.queue.pending|
  {
    if d.queue.pending != [] && Affords(d.budget, now, 0.0) {
      var pending, best := d.queue.pending, BestIndex(d.queue.pending);
      var d', more := PumpOne(d, now, clock), Ran(Dropped(pending, best), TryAcquire(d.budget, now), now);
      PumpOneShape(d, now, clock);
      PumpOnePaid(d, now, clock);
      PumpRuns(d', now, clock);
      assert ([pending[best]] + more)[1..] == more;
      RunAlike(d', Execute(d, pending[best].action, clock), more, clock);
    }
  }

  // ---- what an answer does ----------------------------------------------

  /** The slot that an event is about, as the manager looks for it: the bid first. */
  predicate About(m: Manager, side: Side, event: OrderEvent) {
    && m.working.At(side).Some? && m.working.At(side).value.id == event.orderId
    && (side.Ask? ==> m.working.bid.None? || m.working.bid.value.id != event.orderId)
  }

  /** An acknowledgement that has something to answer. */
  predicate Answers(o: WorkingOrder, event: OrderEvent) {
    event.Ack? && (o.state.PendingNew? || o.state.PendingReplace? || o.state.Unknown?)
  }

  /** A slot is let go exactly by a cancellation, a rejection, or the fill that completes its order. */
  lemma LetGoIff(m: Manager, side: Side, event: OrderEvent)
    requires About(m, side, event)
    ensures var o := m.working.At(side).value;
            OnEvent(m, event).working.At(side).None? <==>
            event.Cancelled? || event.Rejected? || (event.Filled? && event.fill.Some? && o.filled + event.fill.value.size >= o.size)
  {
  }

  /**
   * An order that stays is filled by what the event says, takes a replace's terms on its acknowledgement, and
   * works once answered.
   */
  lemma StaysAs(m: Manager, side: Side, event: OrderEvent)
    requires About(m, side, event) && OnEvent(m, event).working.At(side).Some?
    ensures var o, o' := m.working.At(side).value, OnEvent(m, event).working.At(side).value;
            var taken := event.Ack? && o.state.PendingReplace?;
            && o'.id == o.id && o'.side == o.side && o'.sentAt == o.sentAt && o'.lastQuotedAt == o.lastQuotedAt
            && o'.filled == (if event.Filled? && event.fill.Some? then o.filled + event.fill.value.size else o.filled)
            && o'.price == (if taken && o.targetPrice.Some? then o.targetPrice.value else o.price)
            && o'.size == (if taken && o.targetSize.Some? then o.targetSize.value + o.filled else o.size)
            && (taken ==> o'.targetPrice.None? && o'.targetSize.None?)
            && (!taken ==> o'.targetPrice == o.targetPrice && o'.targetSize == o.targetSize)
            && o'.state == if Answers(o, event) || (event.Filled? && event.fill.Some? && o.state.PendingNew?) then Working else o.state
  {
  }

  /** Only a cancellation and an answered acknowledgement lift a suspension, and only of their own side. */
  lemma SuspensionLifted(m: Manager, side: Side, event: OrderEvent)
    requires About(m, side, event) && m.working.At(side).value.side == side
    ensures var m' := OnEvent(m, event);
            && m'.suspended == (if event.Cancelled? || Answers(m.working.At(side).value, event) then m.suspended.With(side, false) else m.suspended)
            && m'.working.At(Other(side)) == m.working.At(Other(side))
            && m'.desired == m.desired && m'.timeouts == m.timeouts
            && m'.rejections == m.rejections + if event.Rejected? then 1 else 0
  {
  }

  /** An event about an order nobody holds moves nothing. */
  lemma Unheld(m: Manager, event: OrderEvent)
    requires forall side: Side :: m.working.At(side).Some? ==> m.working.At(side).value.id != event.orderId
    ensures OnEvent(m, event) == m
  {
    assert m.working.bid == m.working.At(Bid) && m.working.ask == m.working.At(Ask);
  }
}
