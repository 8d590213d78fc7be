/**
 * The position cap beside a live flatten order: exactly which messages keep
 * it, and so exactly which steps and runs do.
 */
module FlattenRoom {
  import opened Common
  import opened Orders
  import opened Throttle
  import opened QuoteManagement
  import opened Coherence
  import opened Pipeline
  import opened SessionCoherence
  import opened PositionCap
  import X = SimulatedExchange

  // ---- exactly when a quote fits ----------------------------------------

  /** What is left of the flatten order, where it rests on this side. */
  function FlattenOn(s: Session, side: Side): int {
    if s.flatten.None? then 0
    else
      var i := X.IndexOf(s.desk.exchange.orders, s.flatten.value);
      if i < |s.desk.exchange.orders| && s.desk.exchange.orders[i].side == side then s.flattenSize else 0
  }

  /** What is left of the side's quote, the log read. */
  function QuoteOn(s: Session, side: Side): int {
    if Settled(s.desk, side).None? then 0 else Settled(s.desk, side).value.size - Settled(s.desk, side).value.filled
  }

  lemma OnSideTwo(orders: seq<X.SimOrder>, i: nat, j: nat, side: Side)
    requires i < j < |orders| && orders[i].side == orders[j].side == side
    requires forall k :: 0 <= k < |orders| && k != i && k != j ==> orders[k].side != side
    ensures OnSide(orders, side) == orders[i].Remaining() + orders[j].Remaining()
  {
    OnSideSplit(orders, j, side);
    OnSideOnly(orders[..j], i, side);
    OnSideNone(orders[j + 1..], side);
  }

  /** Two places hold all that a side has: in one place, in both, or in neither. */
  lemma OnSideOfTwo(orders: seq<X.SimOrder>, i: nat, j: nat, side: Side)
    requires i <= |orders| && j <= |orders| && (i < |orders| ==> i != j)
    requires forall k :: 0 <= k < |orders| && k != i && k != j ==> orders[k].side != side
    ensures OnSide(orders, side) ==
            (if i < |orders| && orders[i].side == side then orders[i].Remaining() else 0)
            + if j < |orders| && orders[j].side == side then orders[j].Remaining() else 0
  {
    var first, second := i < |orders| && orders[i].side == side, j < |orders| && orders[j].side == side;
    if first && second {
      OnSideTwo(orders, Min(i, j), Max(i, j), side);
    } else if first {
      OnSideOnly(orders, i, side);
    } else if second {
      OnSideOnly(orders, j, side);
    } else {
      OnSideNone(orders, side);
    }
  }

  /** Where the flatten order rests it has left what the pipeline counts. */
  lemma FlattenRests(s: Session, side: Side)
    requires SessionOk(s) && FillsIn(s.desk.exchange.events) == [] && s.flatten.Some?
    ensures var orders := s.desk.exchange.orders; var i := X.IndexOf(orders, s.flatten.value);
            FlattenOn(s, side) == if i < |orders| && orders[i].side == side then orders[i].Remaining() else 0
  {
    var orders := s.desk.exchange.orders;
    var i := X.IndexOf(orders, s.flatten.value);
    if i < |orders| {
      assert orders[i] in orders;
    }
  }

  lemma QuoteRests(s: Session, side: Side)
    requires SessionOk(s) && s.desk.Slot(side).Some?
    ensures var orders := s.desk.exchange.orders; var j := X.IndexOf(orders, s.desk.Slot(side).value.id);
            && (j < |orders| ==> orders[j].side == side && orders[j].id !in s.foreign)
            && QuoteOn(s, side) == if j < |orders| then orders[j].Remaining() else 0
  {
    FindSettled(s.desk, s.foreign, side);
    ReplayKeepsId(s.desk.Slot(side), s.desk.exchange.events);
  }

  /** A side holds what is left of the flatten order and of the quote, and nothing else. */
  lemma SideIs(s: Session, side: Side)
    requires SessionOk(s) && FillsIn(s.desk.exchange.events) == []
    ensures OnSide(s.desk.exchange.orders, side) == FlattenOn(s, side) + QuoteOn(s, side)
  {
    var orders, slot := s.desk.exchange.orders, s.desk.Slot(side);
    var i := if s.flatten.Some? then X.IndexOf(orders, s.flatten.value) else |orders|;
    var j := if slot.Some? then X.IndexOf(orders, slot.value.id) else |orders|;
    if s.flatten.Some? {
      FlattenRests(s, side);
    }
    if slot.Some? {
      QuoteRests(s, side);
    }
    ReplayKeepsId(slot, s.desk.exchange.events);
    forall k | 0 <= k < |orders| && k != i && k != j ensures orders[k].side != side {
      assert orders[k] in orders;
    }
    OnSideOfTwo(orders, i, j, side);
  }

  /** Room for so many contracts beside what is left of the flatten order. */
  predicate Room(cap: int, s: Session, side: Side, size: int) {
    side.Sign() * s.account.position + FlattenOn(s, side) + size <= cap
  }

  /**
   * A new quote keeps the cap exactly when there is room for it beside what
   * is left of the flatten order on its side. The engine leaves that out.
   */
  lemma PlaceFitsIff(cap: int, s: Session, side: Side, quote: Quote, clock: real)
    requires SessionOk(s) && Capped(cap, s) && FillsIn(s.desk.exchange.events) == []
    requires s.desk.Slot(side).None?
    ensures Capped(cap, s.(desk := PlaceNow(s.desk, side, quote, clock))) <==>
            Room(cap, s, side, quote.size)
  {
    var x := s.desk.exchange;
    var o := X.Place(x, side, quote.price, quote.size).orders[|x.orders|];
    QuietEvent(x.events, Ack(x.nextId));
    OnSideAppend(x.orders, [o], Bid);
    OnSideAppend(x.orders, [o], Ask);
    OnSideOne(o, Bid);
    OnSideOne(o, Ask);
    ReplayKeepsId(None, x.events);
    SideIs(s, side);
  }

  /** And so does a replaced one that still rests. */
  lemma ReplaceFitsIff(cap: int, s: Session, side: Side, quote: Quote)
    requires SessionOk(s) && Capped(cap, s) && FillsIn(s.desk.exchange.events) == []
    requires s.desk.Slot(side).Some? && Rests(s.desk.exchange.orders, s.desk.Slot(side).value.id)
    ensures var x := X.Replace(s.desk.exchange, s.desk.Slot(side).value.id, quote.price, quote.size);
            Capped(cap, s.(desk := s.desk.(exchange := x))) <==>
            Room(cap, s, side, quote.size)
  {
    var x, id := s.desk.exchange, s.desk.Slot(side).value.id;
    var i := X.IndexOf(x.orders, id);
    var x' := X.Replace(x, id, quote.price, quote.size);
    QuietEvent(x.events, Ack(id));
    assert x.orders[i] in x.orders;
    QuoteRests(s, side);
    OnSideUpdate(x.orders, i, x'.orders[i], Bid);
    OnSideUpdate(x.orders, i, x'.orders[i], Ask);
    SideIs(s, side);
  }

  // ---- one command ------------------------------------------------------

  /** A queued replace is still the right thing to send. */
  predicate ReplaceDue(d: Desk, side: Side, clock: real) {
    && d.Slot(side).Some? && d.Slot(side).value.state.Working? && d.manager.desired.At(side).Some?
    && !TooSoon(d.manager.cfg, d.Slot(side).value, clock)
    && Differs(d.manager.cfg, d.Slot(side).value, d.manager.desired.At(side).value)
  }

  /** Whatever quote the command sends to the exchange has room. */
  ghost predicate HasRoom(cap: int, s: Session, action: Command, clock: real) {
    match action
    case PlaceQuote(side, quote) => s.desk.Slot(side).None? ==> Room(cap, s, side, quote.size)
    case ReplaceQuote(side) =>
      ReplaceDue(s.desk, side, clock) && Rests(s.desk.exchange.orders, s.desk.Slot(side).value.id) ==>
        Room(cap, s, side, s.desk.manager.desired.At(side).value.size)
    case CancelQuote(_) => true
    case RetryCancel(_) => true
  }

  ghost function After(s: Session, action: Command, clock: real): Session { s.(desk := Execute(s.desk, action, clock)) }

  /** Capped and QuotesSmall see the account, the flatten orders and the exchange only. */
  lemma SameExposure(cap: int, s: Session, s': Session)
    requires s'.account == s.account && s'.foreign == s.foreign
    requires s'.desk.exchange.orders == s.desk.exchange.orders && s'.desk.exchange.events == s.desk.exchange.events
    ensures (Capped(cap, s') <==> Capped(cap, s)) && (QuotesSmall(cap, s') <==> QuotesSmall(cap, s))
  {
  }

  lemma ReplaceCommand(cap: int, s: Session, side: Side, clock: real)
    requires CapOk(cap, s) && FillsIn(s.desk.exchange.events) == [] && WishSmall(cap, s, side)
    ensures Capped(cap, After(s, ReplaceQuote(side), clock)) <==> HasRoom(cap, s, ReplaceQuote(side), clock)
    ensures QuotesSmall(cap, After(s, ReplaceQuote(side), clock))
  {
    var d := s.desk;
    if d.Slot(side).Some? && d.Slot(side).value.state.Working? && d.manager.desired.At(side).None? {
      CancelKeepsCapped(cap, s, d.Slot(side).value.id);
    } else if ReplaceDue(d, side, clock) {
      ReplacedCommand(cap, s, side, d.manager.desired.At(side).value, clock);
    }
  }

  lemma ReplacedCommand(cap: int, s: Session, side: Side, quote: Quote, clock: real)
    requires CapOk(cap, s) && FillsIn(s.desk.exchange.events) == [] && WishSmall(cap, s, side)
    requires ReplaceDue(s.desk, side, clock) && s.desk.manager.desired.At(side) == Some(quote)
    ensures var s' := After(s, ReplaceQuote(side), clock);
            && (Capped(cap, s') <==> (Rests(s.desk.exchange.orders, s.desk.Slot(side).value.id) ==> Room(cap, s, side, quote.size)))
            && QuotesSmall(cap, s')
  {
    var x, id := s.desk.exchange, s.desk.Slot(side).value.id;
    var i := X.IndexOf(x.orders, id);
    var s' := s.(desk := s.desk.(exchange := X.Replace(x, id, quote.price, quote.size)));
    SameExposure(cap, s', After(s, ReplaceQuote(side), clock));
    if i < |x.orders| {
      assert x.orders[i] in x.orders;
      ReplaceFitsIff(cap, s, side, quote);
      UpdateKeepsSmall(cap, s, s', i);
    } else {
      SameExposure(cap, s, s');
    }
  }

  lemma PlaceCommand(cap: int, s: Session, side: Side, quote: Quote, clock: real)
    requires CapOk(cap, s) && FillsIn(s.desk.exchange.events) == [] && quote.size <= cap
    ensures Capped(cap, After(s, PlaceQuote(side, quote), clock)) <==> HasRoom(cap, s, PlaceQuote(side, quote), clock)
    ensures QuotesSmall(cap, After(s, PlaceQuote(side, quote), clock))
  {
    if s.desk.Slot(side).None? {
      PlaceFitsIff(cap, s, side, quote, clock);
    }
  }

  lemma CancelCommand(cap: int, s: Session, action: Command, clock: real)
    requires CapOk(cap, s) && (action.CancelQuote? || action.RetryCancel?)
    ensures Capped(cap, After(s, action, clock)) && QuotesSmall(cap, After(s, action, clock))
  {
    if s.desk.Slot(action.side).Some? {
      var id := s.desk.Slot(action.side).value.id;
      CancelKeepsCapped(cap, s, id);
      var s' := s.(desk := s.desk.(exchange := X.Cancel(s.desk.exchange, id)));
      if After(s, action, clock).desk.exchange != s.desk.exchange {
        SameExposure(cap, s', After(s, action, clock));
      }
    }
  }

  /** A command keeps the cap exactly when what it sends has room. */
  lemma CommandFitsIff(cap: int, s: Session, action: Command, clock: real)
    requires CapOk(cap, s) && FillsIn(s.desk.exchange.events) == [] && WishSmall(cap, s, action.side)
    requires action.PlaceQuote? ==> s.desk.manager.desired.At(action.side) == Some(action.quote)
    ensures Capped(cap, After(s, action, clock)) <==> HasRoom(cap, s, action, clock)
    ensures QuotesSmall(cap, After(s, action, clock))
  {
    match action
    case PlaceQuote(side, quote) => PlaceCommand(cap, s, side, quote, clock);
    case ReplaceQuote(side) => ReplaceCommand(cap, s, side, clock);
    case _ => CancelCommand(cap, s, action, clock);
  }

  // ---- a pump -----------------------------------------------------------

  /** What a pump keeps whether or not the cap is kept. */
  ghost predicate Pumping(cap: int, s: Session) {
    && SessionOk(s) && QuotesSmall(cap, s) && FillsIn(s.desk.exchange.events) == []
    && WishSmall(cap, s, Bid) && WishSmall(cap, s, Ask)
    && QueueCurrent(s.desk, Bid) && QueueCurrent(s.desk, Ask)
  }

  function Next(s: Session): Command
    requires s.desk.queue.pending != []
  {
    s.desk.queue.pending[BestIndex(s.desk.queue.pending)].action
  }

  /** The pump has something to run and a token to run it. */
  predicate Runs(s: Session, now: real) { s.desk.queue.pending != [] && Affords(s.desk.budget, now, 0.0) }

  function PumpedOnce(s: Session, now: real, clock: real): Session
    requires s.desk.queue.pending != []
  {
    s.(desk := PumpOne(s.desk, now, clock))
  }

  /** The cap holds before the pump and after each command it runs. */
  ghost predicate CappedThroughout(cap: int, s: Session, now: real, clock: real)
    decreases |s.desk.queue.pending|
  {
    Capped(cap, s) && (Runs(s, now) ==> CappedThroughout(cap, PumpedOnce(s, now, clock), now, clock))
  }

  /** Whatever quote the pump sends has room when it is sent. */
  ghost predicate RoomThroughout(cap: int, s: Session, now: real, clock: real)
    decreases |s.desk.queue.pending|
  {
    Runs(s, now) ==> HasRoom(cap, s, Next(s), clock) && RoomThroughout(cap, PumpedOnce(s, now, clock), now, clock)
  }

  lemma NextIsCurrent(cap: int, s: Session)
    requires Pumping(cap, s) && s.desk.queue.pending != []
    ensures WishSmall(cap, s, Next(s).side)
    ensures Next(s).PlaceQuote? ==> s.desk.manager.desired.At(Next(s).side) == Some(Next(s).quote)
  {
    var q := s.desk.queue.pending[BestIndex(s.desk.queue.pending)];
    assert q in s.desk.queue.pending && EntryOk(s.desk.manager, q);
  }

  lemma PumpOneFitsIff(cap: int, s: Session, now: real, clock: real)
    requires Pumping(cap, s) && Capped(cap, s) && s.desk.queue.pending != []
    ensures Capped(cap, PumpedOnce(s, now, clock)) <==> HasRoom(cap, s, Next(s), clock)
    ensures Pumping(cap, PumpedOnce(s, now, clock))
  {
    var d, d' := s.desk, PumpOne(s.desk, now, clock);
    NextIsCurrent(cap, s);
    CommandFitsIff(cap, s, Next(s), clock);
    PumpOneShape(d, now, clock);
    SameExposure(cap, After(s, Next(s), clock), PumpedOnce(s, now, clock));
    PumpOneOk(s, now, clock);
    PumpOneQuiet(d, now, clock);
    assert forall e :: e in d'.queue.pending ==> e in d.queue.pending;
  }

  /** The cap holds throughout a pump exactly when all it sends has room. */
  lemma {:induction false} PumpFitsIff(cap: int, s: Session, now: real, clock: real)
    requires Pumping(cap, s) && Capped(cap, s)
    ensures CappedThroughout(cap, s, now, clock) <==> RoomThroughout(cap, s, now, clock)
    ensures CappedThroughout(cap, s, now, clock) ==> CapOk(cap, Pumped(s, now, clock))
    decreases |s.desk.queue.pending|
  {
    if Runs(s, now) {
      PumpOneFitsIff(cap, s, now, clock);
      if Capped(cap, PumpedOnce(s, now, clock)) {
        PumpFitsIff(cap, PumpedOnce(s, now, clock), now, clock);
      }
    } else {
      SameExposure(cap, s, Pumped(s, now, clock));
      QueueKeeps(s.desk, Pump(s.desk, now, clock), s.foreign);
    }
  }

  // ---- a step, and a run ------------------------------------------------

  /** The session when a step comes to pump. */
  function AtPump(cfg: Config, s: Session, i: Input): Session { Reconciled(BeforeReconcile(cfg, s, i), i.now) }

  /**
   * The market, the fills and the decision never pass the cap; the messages of
   * the step keep it exactly when each quote sent has room beside what is left
   * of the flatten order.
   */
  lemma StepFitsIff(cfg: Config, s: Session, i: Input)
    requires ConfigOk(cfg) && CapOk(cfg.quoting.maxPosition, s)
    ensures var cap, p := cfg.quoting.maxPosition, AtPump(cfg, s, i);
            && CapOk(cap, MarketSeen(s, i)) && CapOk(cap, EventsTaken(MarketSeen(s, i)))
            && CapOk(cap, BeforeReconcile(cfg, s, i)) && CapOk(cap, p)
            && (CappedThroughout(cap, p, i.now, i.clock) <==> RoomThroughout(cap, p, i.now, i.clock))
            && (CappedThroughout(cap, p, i.now, i.clock) ==> CapOk(cap, Step(cfg, s, i)))
  {
    var cap := cfg.quoting.maxPosition;
    var taken, judged := EventsTaken(MarketSeen(s, i)), BeforeReconcile(cfg, s, i);
    MarketSeenCapped(cap, s, i);
    EventsTakenCapped(cap, MarketSeen(s, i));
    EventsTakenOk(MarketSeen(s, i));
    JudgedCapped(cap, cfg, taken, i);
    JudgedOk(cfg, taken, i);
    ReconciledOk(judged, i.now);
    ReconciledCurrent(judged, i.now);
    SameExposure(cap, judged, AtPump(cfg, s, i));
    PumpFitsIff(cap, AtPump(cfg, s, i), i.now, i.clock);
  }

  /** The cap holds throughout every pump of a run. */
  ghost predicate CappedRun(cfg: Config, s: Session, inputs: seq<Input>) {
    inputs != [] ==>
      var n := |inputs| - 1;
      && CappedRun(cfg, s, inputs[..n])
      && CappedThroughout(cfg.quoting.maxPosition, AtPump(cfg, Run(cfg, s, inputs[..n]), inputs[n]), inputs[n].now, inputs[n].clock)
  }

  /** Every quote sent in a run has room when it is sent. */
  ghost predicate RoomRun(cfg: Config, s: Session, inputs: seq<Input>) {
    inputs != [] ==>
      var n := |inputs| - 1;
      && RoomRun(cfg, s, inputs[..n])
      && RoomThroughout(cfg.quoting.maxPosition, AtPump(cfg, Run(cfg, s, inputs[..n]), inputs[n]), inputs[n].now, inputs[n].clock)
  }

  /** From any position inside the cap, a run keeps the cap at every message exactly when every quote it sends has room. */
  lemma {:induction false} RunFitsIff(cfg: Config, s: Session, inputs: seq<Input>)
    requires ConfigOk(cfg) && Started(s) && Abs(s.account.position) <= cfg.quoting.maxPosition
    ensures CappedRun(cfg, s, inputs) <==> RoomRun(cfg, s, inputs)
    ensures CappedRun(cfg, s, inputs) ==> CapOk(cfg.quoting.maxPosition, Run(cfg, s, inputs))
  {
    if inputs == [] {
      EveryInterleavingAgrees(World(s.desk, s.foreign), []);
    } else {
      var n := |inputs| - 1;
      RunFitsIff(cfg, s, inputs[..n]);
      if CappedRun(cfg, s, inputs[..n]) {
        StepFitsIff(cfg, Run(cfg, s, inputs[..n]), inputs[n]);
      }
    }
  }
}
