/** How many messages a run can send, and which of the waiting ones go first. */
module MessageBound {
  import opened Common
  import opened Orders
  import opened Throttle
  import opened QuoteManagement
  import opened Coherence
  import opened Pipeline
  import opened SessionCoherence
  import X = SimulatedExchange

  // ---- the bucket over a window -----------------------------------------

  predicate BucketOk(b: Bucket) {
    b.rate >= 0.0 && b.burst >= 1.0 && -EPSILON <= b.tokens <= b.burst
  }

  /** b came from start by acquisitions at times from since to b.last; what was spent is bounded by what flowed in. */
  predicate Within(start: Bucket, b: Bucket, since: real) {
    && BucketOk(b) && b.rate == start.rate && b.burst == start.burst
    && (b == start
        || (since <= b.last && b.tokens + (b.spent - start.spent) as real <= b.burst + (b.last - since) * b.rate))
  }

  lemma Flow(rate: real, from: real, to: real)
    requires rate >= 0.0 && from <= to
    ensures (to - from) * rate >= 0.0
  {
  }

  lemma FlowAdds(rate: real, a: real, b: real, c: real)
    ensures (b - a) * rate + (c - b) * rate == (c - a) * rate
  {
  }

  lemma AcquireWithin(start: Bucket, b: Bucket, since: real, now: real)
    requires Within(start, b, since) && b.last <= now && since <= now
    ensures Within(start, TryAcquire(b, now), since)
    ensures TryAcquire(b, now).last == now
  {
    Flow(b.rate, b.last, now);
    Flow(b.rate, since, now);
    FlowAdds(b.rate, since, b.last, now);
    assert MaxReal(now - b.last, 0.0) * b.rate == (now - b.last) * b.rate;
    var r := Refill(b, now);
    assert -EPSILON <= r.tokens <= b.burst && r.tokens <= b.tokens + (now - b.last) * b.rate;
  }

  /** In any window, tokens spent never exceed the burst and what the rate has refilled, to within the slack. */
  lemma SpentInWindow(start: Bucket, b: Bucket, since: real, until: real)
    requires Within(start, b, since) && b.last <= until && since <= until
    ensures (b.spent - start.spent) as real <= Allowance(start, since, until)
  {
    Flow(b.rate, since, until);
    if b != start {
      FlowAdds(b.rate, since, b.last, until);
      Flow(b.rate, b.last, until);
    }
  }

  function Allowance(b: Bucket, since: real, until: real): real { b.burst + (until - since) * b.rate + EPSILON }

  // ---- a step spends a token a message ----------------------------------

  /** Every message has a token or a timeout behind it. */
  predicate Paid(d: Desk, d': Desk) {
    d'.exchange.sent - d.exchange.sent <= (d'.budget.spent - d.budget.spent) + (d'.manager.timeouts - d.manager.timeouts)
  }

  lemma ReconcilePaid(d: Desk, now: real)
    ensures Paid(d, Reconcile(d, now)) && Reconcile(d, now).budget == d.budget
  {
    ReconcileShape(d, Bid, now);
    ReconcileShape(ReconcileSide(d, Bid, now), Ask, now);
    TimeoutsKeepBudget(d, Bid, now);
    TimeoutsKeepBudget(ReconcileSide(d, Bid, now), Ask, now);
  }

  lemma TimeoutsKeepBudget(d: Desk, side: Side, now: real)
    ensures ReconcileSide(d, side, now).budget == d.budget
  {
  }

  lemma PumpOnePaid(d: Desk, now: real, clock: real)
    requires |d.queue.pending| > 0 && Affords(d.budget, now, 0.0)
    ensures Paid(d, PumpOne(d, now, clock)) && PumpOne(d, now, clock).budget == TryAcquire(d.budget, now)
  {
    var action := d.queue.pending[BestIndex(d.queue.pending)].action;
    PumpOneShape(d, now, clock);
    ExecuteSends(d, action, clock);
    ExecuteLocal(d, action, clock);
  }

  lemma {:induction false} PumpPaid(d: Desk, now: real, clock: real, start: Bucket, since: real)
    requires Within(start, d.budget, since) && d.budget.last <= now && since <= now
    ensures var d' := Pump(d, now, clock);
            Paid(d, d') && Within(start, d'.budget, since) && d'.budget.last <= now
    decreases |d.queue.pending|
  {
    if d.queue.pending != [] {
      AcquireWithin(start, d.budget, since, now);
      if Affords(d.budget, now, 0.0) {
        PumpOnePaid(d, now, clock);
        PumpPaid(PumpOne(d, now, clock), now, clock, start, since);
      }
    }
  }

  lemma MarketSendsNothing(x: X.Exchange, trades: seq<Trade>, clock: real)
    ensures TapeFolded(x, trades, clock).sent == x.sent
  {
  }

  lemma JudgedPaid(cfg: Config, s: Session, i: Input, start: Bucket, since: real)
    requires Within(start, s.desk.budget, since) && s.desk.budget.last <= i.now && since <= i.now
    ensures var j := Judged(cfg, s, i);
            Paid(s.desk, j.desk) && Within(start, j.desk.budget, since) && j.desk.budget.last <= i.now
  {
    AcquireWithin(start, s.desk.budget, since, i.now);
  }

  lemma StepPaid(cfg: Config, s: Session, i: Input, start: Bucket, since: real)
    requires Within(start, s.desk.budget, since) && s.desk.budget.last <= i.now && since <= i.now
    ensures var s' := Step(cfg, s, i);
            Paid(s.desk, s'.desk) && Within(start, s'.desk.budget, since) && s'.desk.budget.last <= i.now
  {
    var taken := EventsTaken(MarketSeen(s, i));
    var judged := BeforeReconcile(cfg, s, i);
    MarketSendsNothing(s.desk.exchange, i.trades, i.clock);
    EventsKeep(MarketSeen(s, i).desk.manager, Besides(MarketSeen(s, i).desk.exchange.events, s.flatten));
    JudgedPaid(cfg, taken, i, start, since);
    ReconcilePaid(judged.desk, i.now);
    PumpPaid(Reconcile(judged.desk, i.now), i.now, i.clock, start, since);
  }

  /** Times do not run backwards, and start no earlier than the budget was last looked at. */
  predicate Ordered(last: real, inputs: seq<Input>) {
    && (forall i :: 0 <= i < |inputs| ==> last <= inputs[i].now)
    && (forall i, j :: 0 <= i < j < |inputs| ==> inputs[i].now <= inputs[j].now)
  }

  /** The readings a run is metered by. */
  datatype Meter = Meter(budget: Bucket, sent: int, timeouts: int)

  function MeterOf(d: Desk): Meter { Meter(d.budget, d.exchange.sent, d.manager.timeouts) }

  /** From a to b, every message had a token or a timeout behind it. */
  predicate Balanced(a: Meter, b: Meter) {
    b.sent - a.sent <= (b.budget.spent - a.budget.spent) + (b.timeouts - a.timeouts)
  }

  /** One step's readings: balanced, and drawing on the budget at now only. */
  ghost predicate Metered(a: Meter, b: Meter, now: real) {
    && Balanced(a, b)
    && forall start, since :: Within(start, a.budget, since) && a.budget.last <= now && since <= now ==>
         Within(start, b.budget, since) && b.budget.last <= now
  }

  lemma StepMetered(cfg: Config, s: Session, i: Input)
    requires BucketOk(s.desk.budget) && s.desk.budget.last <= i.now
    ensures Metered(MeterOf(s.desk), MeterOf(Step(cfg, s, i).desk), i.now)
  {
    StepPaid(cfg, s, i, s.desk.budget, i.now);
    forall start, since | Within(start, s.desk.budget, since) && since <= i.now
      ensures Within(start, Step(cfg, s, i).desk.budget, since) && Step(cfg, s, i).desk.budget.last <= i.now
    {
      StepPaid(cfg, s, i, start, since);
    }
  }

  /** Readings before, between and after a list of steps. */
  ghost predicate Trace(meters: seq<Meter>, nows: seq<real>) {
    && |meters| == |nows| + 1
    && (forall i, j :: 0 <= i < j < |nows| ==> nows[i] <= nows[j])
    && (forall k :: 0 <= k < |nows| ==> BucketOk(meters[k].budget) && meters[k].budget.last <= nows[k] ==> Metered(meters[k], meters[k + 1], nows[k]))
  }

  lemma {:induction false} TracePaid(meters: seq<Meter>, nows: seq<real>, n: nat)
    requires Trace(meters, nows) && 0 < n <= |nows|
    requires BucketOk(meters[0].budget) && meters[0].budget.last <= nows[0]
    ensures Balanced(meters[0], meters[n])
    ensures Within(meters[0].budget, meters[n].budget, nows[0]) && meters[n].budget.last <= nows[n - 1]
  {
    if n > 1 {
      TracePaid(meters, nows, n - 1);
    }
    assert Within(meters[0].budget, meters[n - 1].budget, nows[0]);
    assert Metered(meters[n - 1], meters[n], nows[n - 1]);
  }

  function Nows(inputs: seq<Input>): seq<real> { seq(|inputs|, k requires 0 <= k < |inputs| => inputs[k].now) }

  function Meters(cfg: Config, s: Session, before: seq<Input>, window: seq<Input>): seq<Meter> {
    seq(|window| + 1, k requires 0 <= k <= |window| => MeterOf(Run(cfg, s, before + window[..k]).desk))
  }

  lemma RunTraces(cfg: Config, s: Session, before: seq<Input>, window: seq<Input>)
    requires forall i, j :: 0 <= i < j < |window| ==> window[i].now <= window[j].now
    ensures Trace(Meters(cfg, s, before, window), Nows(window))
  {
    forall k | 0 <= k < |window|
      ensures var m := Meters(cfg, s, before, window);
              BucketOk(m[k].budget) && m[k].budget.last <= window[k].now ==> Metered(m[k], m[k + 1], window[k].now)
    {
      RunStep(cfg, s, before, window, k);
      var r := Run(cfg, s, before + window[..k]);
      if BucketOk(r.desk.budget) && r.desk.budget.last <= window[k].now {
        StepMetered(cfg, r, window[k]);
      }
    }
  }

  lemma WindowPaid(cfg: Config, s: Session, before: seq<Input>, window: seq<Input>)
    requires var b := Run(cfg, s, before).desk.budget; BucketOk(b) && Ordered(b.last, window)
    requires window != []
    ensures var r, r' := Run(cfg, s, before), Run(cfg, s, before + window);
            && Balanced(MeterOf(r.desk), MeterOf(r'.desk))
            && Within(r.desk.budget, r'.desk.budget, window[0].now)
            && r'.desk.budget.last <= window[|window| - 1].now
  {
    WholeWindow(before, window);
    RunTraces(cfg, s, before, window);
    TracePaid(Meters(cfg, s, before, window), Nows(window), |window|);
  }

  /**
   * In any window of any run, from any state at all, the messages sent are at
   * most the burst, plus the rate times the window, plus the timeouts in it.
   */
  lemma MessagesInWindow(cfg: Config, s: Session, before: seq<Input>, window: seq<Input>)
    requires var b := Run(cfg, s, before).desk.budget; BucketOk(b) && Ordered(b.last, window)
    requires window != []
    ensures var r, r' := Run(cfg, s, before), Run(cfg, s, before + window);
            (r'.desk.exchange.sent - r.desk.exchange.sent) as real <=
            Allowance(r.desk.budget, window[0].now, window[|window| - 1].now)
            + (r'.desk.manager.timeouts - r.desk.manager.timeouts) as real
  {
    WindowPaid(cfg, s, before, window);
    SpentInWindow(Run(cfg, s, before).desk.budget, Run(cfg, s, before + window).desk.budget, window[0].now, window[|window| - 1].now);
  }

  /** A run from the start, under the simulated exchange, has no timeouts to add. */
  lemma MessagesInRun(cfg: Config, s: Session, before: seq<Input>, window: seq<Input>)
    requires ConfigOk(cfg) && Started(s) && BucketOk(s.desk.budget) && window != []
    requires Ordered(s.desk.budget.last, before + window)
    ensures (Run(cfg, s, before + window).desk.exchange.sent - Run(cfg, s, before).desk.exchange.sent) as real <=
            Allowance(s.desk.budget, window[0].now, window[|window| - 1].now)
  {
    NoTimeouts(cfg, s, before);
    NoTimeouts(cfg, s, before + window);
    BudgetCarried(cfg, s, before, window);
    MessagesInWindow(cfg, s, before, window);
    SameAllowance(Run(cfg, s, before).desk.budget, s.desk.budget, window[0].now, window[|window| - 1].now);
  }

  lemma NoTimeouts(cfg: Config, s: Session, inputs: seq<Input>)
    requires ConfigOk(cfg) && Started(s)
    ensures Run(cfg, s, inputs).desk.manager.timeouts == 0
  {
    RunOk(cfg, s, inputs);
  }

  lemma SameAllowance(a: Bucket, b: Bucket, since: real, until: real)
    requires a.rate == b.rate && a.burst == b.burst
    ensures Allowance(a, since, until) == Allowance(b, since, until)
  {
  }

  lemma OrderedParts(last: real, before: seq<Input>, window: seq<Input>)
    requires Ordered(last, before + window)
    ensures Ordered(last, before)
    ensures forall since :: (if before == [] then since == last else since <= before[|before| - 1].now) ==> Ordered(since, window)
  {
    var all := before + window;
    assert forall i :: 0 <= i < |before| ==> all[i] == before[i];
    assert forall i :: 0 <= i < |window| ==> all[|before| + i] == window[i];
  }

  lemma BudgetCarried(cfg: Config, s: Session, before: seq<Input>, window: seq<Input>)
    requires BucketOk(s.desk.budget) && Ordered(s.desk.budget.last, before + window)
    ensures var b := Run(cfg, s, before).desk.budget;
            BucketOk(b) && Ordered(b.last, window) && b.rate == s.desk.budget.rate && b.burst == s.desk.budget.burst
  {
    OrderedParts(s.desk.budget.last, before, window);
    if before != [] {
      WholeWindow(before, window);
      WindowPaid(cfg, s, [], before);
    }
  }

  // ---- what goes first --------------------------------------------------

  /** The entries a pump runs, in the order it runs them. */
  function Ran(pending: seq<Queued>, b: Bucket, now: real): seq<Queued>
    decreases |pending|
  {
    if pending == [] || !Affords(b, now, 0.0) then []
    else
      var best := BestIndex(pending);
      [pending[best]] + Ran(Dropped(pending, best), TryAcquire(b, now), now)
  }

  /** What is run and what is left are what waited. */
  lemma {:induction false} PumpConserves(d: Desk, now: real, clock: real)
    ensures var ran, left := Ran(d.queue.pending, d.budget, now), Pump(d, now, clock).queue.pending;
            && multiset(ran) + multiset(left) == multiset(d.queue.pending)
            && Pump(d, now, clock).queue.executed == d.queue.executed + |ran|
            && (left != [] ==> !Affords(Pump(d, now, clock).budget, now, 0.0))
    decreases |d.queue.pending|
  {
    var pending := d.queue.pending;
    if pending != [] {
      if Affords(d.budget, now, 0.0) {
        var best := BestIndex(pending);
        var more := Ran(Dropped(pending, best), TryAcquire(d.budget, now), now);
        PumpOnePaid(d, now, clock);
        PumpOneShape(d, now, clock);
        PumpConserves(PumpOne(d, now, clock), now, clock);
        DroppedIs(pending, best);
        assert multiset([pending[best]] + more) == multiset{pending[best]} + multiset(more);
      } else {
        RefusedStays(d.budget, now);
      }
    }
  }

  lemma NoneBeforeBest(pending: seq<Queued>, e: Queued)
    requires pending != [] && e in pending
    ensures !e.Before(pending[BestIndex(pending)])
  {
    var j :| 0 <= j < |pending| && pending[j] == e;
  }

  lemma DroppedSubset(pending: seq<Queued>, i: nat, e: Queued)
    requires i < |pending| && e in Dropped(pending, i)
    ensures e in pending
  {
    DroppedIs(pending, i);
    assert e in multiset(Dropped(pending, i));
    assert e in multiset(pending);
  }

  lemma {:induction false} RanSubset(pending: seq<Queued>, b: Bucket, now: real, e: Queued)
    requires e in Ran(pending, b, now)
    ensures e in pending
    decreases |pending|
  {
    var best := BestIndex(pending);
    if e != pending[best] {
      RanSubset(Dropped(pending, best), TryAcquire(b, now), now, e);
      DroppedSubset(pending, best, e);
    }
  }

  predicate InOrder(entries: seq<Queued>) {
    forall i, j :: 0 <= i < j < |entries| ==> !entries[j].Before(entries[i])
  }

  lemma {:induction false} RanSorted(pending: seq<Queued>, b: Bucket, now: real)
    ensures InOrder(Ran(pending, b, now))
    decreases |pending|
  {
    if pending != [] && Affords(b, now, 0.0) {
      var best := BestIndex(pending);
      var rest := Dropped(pending, best);
      var ran, more := Ran(pending, b, now), Ran(rest, TryAcquire(b, now), now);
      assert ran == [pending[best]] + more && ran[0] == pending[best];
      RanSorted(rest, TryAcquire(b, now), now);
      forall i, j | 0 <= i < j < |ran|
        ensures !ran[j].Before(ran[i])
      {
        if i == 0 {
          assert ran[j] == more[j - 1];
          RanSubset(rest, TryAcquire(b, now), now, ran[j]);
          DroppedSubset(pending, best, ran[j]);
          NoneBeforeBest(pending, ran[j]);
          assert ran[i] == pending[best];
        } else {
          assert !more[j - 1].Before(more[i - 1]);
          assert ran[i] == more[i - 1] && ran[j] == more[j - 1];
        }
      }
    }
  }

  lemma {:induction false} LeftSubset(d: Desk, now: real, clock: real, e: Queued)
    requires e in Pump(d, now, clock).queue.pending
    ensures e in d.queue.pending
    decreases |d.queue.pending|
  {
    if d.queue.pending != [] && Affords(d.budget, now, 0.0) {
      PumpOneShape(d, now, clock);
      LeftSubset(PumpOne(d, now, clock), now, clock, e);
      DroppedSubset(d.queue.pending, BestIndex(d.queue.pending), e);
    }
  }

  lemma {:induction false} LeftNotBefore(d: Desk, now: real, clock: real, a: Queued, b: Queued)
    requires a in Ran(d.queue.pending, d.budget, now) && b in Pump(d, now, clock).queue.pending
    ensures !b.Before(a)
    decreases |d.queue.pending|
  {
    var best := BestIndex(d.queue.pending);
    PumpOnePaid(d, now, clock);
    PumpOneShape(d, now, clock);
    LeftSubset(d, now, clock, b);
    NoneBeforeBest(d.queue.pending, b);
    if a != d.queue.pending[best] {
      LeftNotBefore(PumpOne(d, now, clock), now, clock, a, b);
    }
  }

  /**
   * A pump runs the least waiting entries by (priority, sequence), in that
   * order, and stops only when nothing waits or no token is left: a cancel
   * never waits behind a replace, nor a replace behind a place.
   */
  lemma PumpRunsLeast(d: Desk, now: real, clock: real)
    ensures var ran, d' := Ran(d.queue.pending, d.budget, now), Pump(d, now, clock);
            var left := d'.queue.pending;
            && multiset(ran) + multiset(left) == multiset(d.queue.pending)
            && InOrder(ran)
            && (forall a, b :: a in ran && b in left ==> !b.Before(a))
            && (left != [] ==> !Affords(d'.budget, now, 0.0))
            && d'.queue.executed == d.queue.executed + |ran|
  {
    PumpConserves(d, now, clock);
    RanSorted(d.queue.pending, d.budget, now);
    forall a, b | a in Ran(d.queue.pending, d.budget, now) && b in Pump(d, now, clock).queue.pending
      ensures !b.Before(a)
    {
      LeftNotBefore(d, now, clock, a, b);
    }
  }

  lemma RefusedStays(b: Bucket, now: real)
    requires !Affords(b, now, 0.0)
    ensures !Affords(TryAcquire(b, now), now, 0.0)
  {
    assert (now - now) * b.rate == 0.0;
  }

  // ---- what waits -------------------------------------------------------

  /** What reconcile decides for a side, from its slot, its wish, its suspension and the time. */
  function Due(m: Manager, side: Side, now: real): Option<(int, Command)> {
    var wanted := m.desired.At(side);
    match m.working.At(side)
    case None => if wanted.None? || m.suspended.At(side) then None else Some((PRIORITY_PLACE, PlaceQuote(side, wanted.value)))
    case Some(o) =>
      if o.Pending() then None
      else if o.state.Unknown? then
        if Overdue(m.cfg, o, now) then Some((PRIORITY_CANCEL, RetryCancel(side))) else None
      else if wanted.None? then Some((PRIORITY_CANCEL, CancelQuote(side)))
      else if Differs(m.cfg, o, wanted.value) && !TooSoon(m.cfg, o, now) then Some((PRIORITY_REPLACE, ReplaceQuote(side)))
      else None
  }

  predicate OneAKey(pending: seq<Queued>) {
    forall i, j :: 0 <= i < j < |pending| ==> pending[i].key != pending[j].key
  }

  /** What waits under a key, whichever entry it is. */
  ghost predicate Waits(pending: seq<Queued>, key: Side, due: Option<(int, Command)>) {
    && (due.Some? ==> exists q :: q in pending && q.key == key)
    && (forall q :: q in pending && q.key == key ==> Some((q.priority, q.action)) == due)
  }

  lemma SubmitWaits(q: Queue, key: Side, priority: int, action: Command)
    requires OneAKey(q.pending)
    ensures var after := Submit(q, key, priority, action).pending;
            && OneAKey(after) && Waits(after, key, Some((priority, action)))
            && (forall e: Queued :: e.key != key ==> (e in after <==> e in q.pending))
  {
    var after, i := Submit(q, key, priority, action).pending, IndexOfKey(q.pending, key);
    assert after[i] in after && after[i].key == key;
    assert forall j :: 0 <= j < |q.pending| && j != i ==> after[j] == q.pending[j];
  }

  lemma WithdrawWaits(q: Queue, key: Side)
    requires OneAKey(q.pending)
    ensures var after := Withdraw(q, key).pending;
            && OneAKey(after) && Waits(after, key, None)
            && (forall e: Queued :: e.key != key ==> (e in after <==> e in q.pending))
  {
    var i := IndexOfKey(q.pending, key);
    if i < |q.pending| {
      DroppedKeeps(q.pending, i);
      DroppedIs(q.pending, i);
      assert forall e: Queued :: e in multiset(q.pending) <==> e == q.pending[i] || e in multiset(Dropped(q.pending, i));
    } else {
      assert forall j :: 0 <= j < |q.pending| ==> q.pending[j].key != key;
    }
  }

  lemma ReconcileQueue(d: Desk, side: Side, now: real)
    ensures ReconcileSide(d, side, now).queue ==
            match Due(d.manager, side, now)
            case None => Withdraw(d.queue, side)
            case Some(due) => Submit(d.queue, side, due.0, due.1)
  {
  }

  lemma ReconcileSideWaits(d: Desk, side: Side, now: real)
    requires OneAKey(d.queue.pending)
    ensures var after := ReconcileSide(d, side, now).queue.pending;
            && OneAKey(after) && Waits(after, side, Due(d.manager, side, now))
            && (forall e: Queued :: e.key != side ==> (e in after <==> e in d.queue.pending))
  {
    ReconcileQueue(d, side, now);
    match Due(d.manager, side, now)
    case None => WithdrawWaits(d.queue, side);
    case Some(due) => SubmitWaits(d.queue, side, due.0, due.1);
  }

  /**
   * After a reconcile at most one command waits a side, and which one is
   * decided by the side's slot, wish and suspension and by the time alone,
   * whatever waited before.
   */
  lemma ReconcileDecidesQueue(d: Desk, now: real)
    requires OneAKey(d.queue.pending)
    requires d.Slot(Bid).Some? ==> d.Slot(Bid).value.side == Bid
    ensures var after := Reconcile(d, now).queue.pending;
            && OneAKey(after) && |after| <= 2
            && Waits(after, Bid, Due(d.manager, Bid, now)) && Waits(after, Ask, Due(d.manager, Ask, now))
  {
    var half := ReconcileSide(d, Bid, now);
    ReconcileSideWaits(d, Bid, now);
    ReconcileSideWaits(half, Ask, now);
    DueElsewhere(d, now);
    var after := Reconcile(d, now).queue.pending;
    WaitsFrom(half.queue.pending, after, Due(d.manager, Bid, now));
    AtMostTwo(after);
  }

  lemma DueElsewhere(d: Desk, now: real)
    requires d.Slot(Bid).Some? ==> d.Slot(Bid).value.side == Bid
    ensures Due(ReconcileSide(d, Bid, now).manager, Ask, now) == Due(d.manager, Ask, now)
  {
    ReconcileShape(d, Bid, now);
  }

  lemma AtMostTwo(pending: seq<Queued>)
    ensures OneAKey(pending) ==> |pending| <= 2
  {
    if |pending| > 2 {
      assert pending[0].key == pending[1].key || pending[1].key == pending[2].key || pending[0].key == pending[2].key;
    }
  }

  lemma WaitsFrom(before: seq<Queued>, after: seq<Queued>, due: Option<(int, Command)>)
    requires Waits(before, Bid, due)
    requires forall e: Queued :: e.key != Ask ==> (e in after <==> e in before)
    ensures Waits(after, Bid, due)
  {
    if due.Some? {
      var q :| q in before && q.key == Bid;
      assert q in after;
    }
  }
}
