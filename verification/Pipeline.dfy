/** One decision cycle, shared by the live dry run and the replay. */
module Pipeline {
  import opened Common
  import opened Orders
  import opened Throttle
  import opened QuoteManagement
  import X = SimulatedExchange
  import Inventory
  import Risk
  import E = QuotingEngine

  datatype Config = Config(quoting: E.QuotingConfig, risk: Risk.RiskConfig)

  /**
   * The state a step carries to the next. foreign is history: every id the
   * pipeline itself has placed to flatten.
   */
  datatype Session = Session(
    desk: Desk,
    account: Inventory.Account,
    halted: bool,
    flatten: Option<int>,
    flattenSize: int,
    flattenSentAt: real,
    foreign: set<int>)

  /** What one step is given. clock is what the manager's and the broker's clocks read during it. */
  datatype Input = Input(
    now: real,
    clock: real,
    snapshot: BookSnapshot,
    trades: seq<Trade>,
    signals: E.Signals,
    feedAgeSeconds: real,
    inHours: bool,
    account: Option<Risk.AccountValues>,
    brokerPosition: Option<int>,
    sigma: Option<real>,
    external: Option<real>,
    killFile: bool)

  function AnchorOf(cfg: Config, s: BookSnapshot): Option<real> {
    if s.TwoSided() then Some(E.Anchor(cfg.quoting, s)) else None
  }

  function ConditionsOf(cfg: Config, i: Input): Risk.Conditions {
    Risk.Conditions(AnchorOf(cfg, i.snapshot), i.feedAgeSeconds, i.inHours, i.account, i.brokerPosition, i.sigma, i.external, i.killFile)
  }

  // ---- 1 and 2: the tape, then the book ---------------------------------

  function TapeFolded(x: X.Exchange, trades: seq<Trade>, clock: real): X.Exchange {
    if trades == [] then x
    else X.OnMarket(TapeFolded(x, trades[..|trades| - 1], clock), X.Tape(trades[|trades| - 1]), clock)
  }

  function MarketSeen(s: Session, i: Input): Session {
    s.(desk := s.desk.(exchange := X.OnMarket(TapeFolded(s.desk.exchange, i.trades, i.clock), X.Book(i.snapshot), i.clock)))
  }

  // ---- 3: what the broker says happened ---------------------------------

  /** The flatten order the pipeline is waiting on, and how much of it is left. */
  datatype Flatten = Flatten(order: Option<int>, size: int)

  function OnFlattenEvent(f: Flatten, id: int, e: OrderEvent): Flatten {
    if e.orderId != id then f
    else
      match e
      case Filled(_, Some(fill)) => Flatten(if f.size - fill.size <= 0 then None else f.order, f.size - fill.size)
      case Filled(_, None) => f
      case Ack(_) => f
      case Cancelled(_) => f.(order := None)
      case Rejected(_) => f.(order := None)
  }

  function OnFlattenEvents(f: Flatten, id: int, events: seq<OrderEvent>): Flatten {
    if events == [] then f
    else OnFlattenEvent(OnFlattenEvents(f, id, events[..|events| - 1]), id, events[|events| - 1])
  }

  /** The fills of one order, in order. */
  function FillsOf(events: seq<OrderEvent>, id: int): seq<Fill> {
    if events == [] then []
    else
      var last := events[|events| - 1];
      FillsOf(events[..|events| - 1], id) + if last.orderId == id then FillIn(last) else []
  }

  /** What is booked this step: the manager's fills, then the flatten order's. */
  function StepFills(events: seq<OrderEvent>, flatten: Option<int>): seq<Fill> {
    FillsIn(Besides(events, flatten)) + if flatten.Some? then FillsOf(events, flatten.value) else []
  }

  function EventsTaken(s: Session): Session {
    var events := s.desk.exchange.events;
    var after := if s.flatten.None? then Flatten(None, s.flattenSize)
                 else OnFlattenEvents(Flatten(s.flatten, s.flattenSize), s.flatten.value, events);
    s.(desk := s.desk.(exchange := X.Drained(s.desk.exchange), manager := TakeEvents(s.desk.manager, Besides(events, s.flatten))),
       account := Inventory.BookAll(s.account, StepFills(events, s.flatten)),
       flatten := after.order,
       flattenSize := after.size)
  }

  // ---- 4: may we quote, and where ---------------------------------------

  function RoundToTick(tick: Positive, price: real): real { Nearest(price / tick) as real * tick }

  function FlattenPrice(cfg: Config, position: int, snapshot: BookSnapshot): real
    requires snapshot.TwoSided()
  {
    var cross := cfg.risk.flattenCrossTicks as real * cfg.quoting.tickSize;
    RoundToTick(cfg.quoting.tickSize,
                if position > 0 then snapshot.bids[0].price - cross else snapshot.asks[0].price + cross)
  }

  function FlattenPosition(cfg: Config, s: Session, now: real, snapshot: BookSnapshot): Session {
    var position := s.account.position;
    if position == 0 || !snapshot.TwoSided() then s
    else
      var side := if position > 0 then Ask else Bid;
      var price := FlattenPrice(cfg, position, snapshot);
      var paid := s.desk.(budget := TryAcquire(s.desk.budget, now));
      if s.flatten.Some? then
        if now - s.flattenSentAt < 3.0 then s
        else if Affords(s.desk.budget, now, 0.0) then
          s.(desk := paid.(exchange := X.Replace(s.desk.exchange, s.flatten.value, price, s.flattenSize)), flattenSentAt := now)
        else s.(desk := paid)
      else if !Affords(s.desk.budget, now, 0.0) then s.(desk := paid)
      else
        s.(desk := paid.(exchange := X.Place(s.desk.exchange, side, price, Abs(position))),
           flatten := Some(s.desk.exchange.nextId),
           flattenSize := Abs(position),
           flattenSentAt := now,
           foreign := s.foreign + {s.desk.exchange.nextId})
  }

  function Wish(s: Session, bid: Option<Quote>, ask: Option<Quote>): Session {
    s.(desk := s.desk.(manager := s.desk.manager.(desired := Pair(bid, ask))))
  }

  function VerdictOf(cfg: Config, s: Session, i: Input): Risk.Verdict {
    Risk.Evaluate(cfg.risk, s.halted, s.account, ConditionsOf(cfg, i))
  }

  function Judged(cfg: Config, s: Session, i: Input): Session {
    var v := VerdictOf(cfg, s, i);
    var judged := s.(halted := Risk.HaltedAfter(cfg.risk, s.halted, s.account, ConditionsOf(cfg, i)));
    if v.pull || !v.quote then
      var pulled := Wish(judged, None, None);
      if v.flatten then FlattenPosition(cfg, pulled, i.now, i.snapshot) else pulled
    else
      var d := E.Decide(cfg.quoting, i.snapshot, i.signals, s.account.position);
      Wish(judged, d.bid, d.ask)
  }

  // ---- 5: reconcile through the throttle --------------------------------

  function Reconciled(s: Session, now: real): Session { s.(desk := Reconcile(s.desk, now)) }

  function Pumped(s: Session, now: real, clock: real): Session { s.(desk := Pump(s.desk, now, clock)) }

  function BeforeReconcile(cfg: Config, s: Session, i: Input): Session {
    Judged(cfg, EventsTaken(MarketSeen(s, i)), i)
  }

  function Step(cfg: Config, s: Session, i: Input): Session {
    Pumped(Reconciled(BeforeReconcile(cfg, s, i), i.now), i.now, i.clock)
  }

  function Run(cfg: Config, s: Session, inputs: seq<Input>): Session {
    if inputs == [] then s
    else Step(cfg, Run(cfg, s, inputs[..|inputs| - 1]), inputs[|inputs| - 1])
  }

  /** A run one step longer is one more step. */
  lemma RunStep(cfg: Config, s: Session, before: seq<Input>, window: seq<Input>, k: nat)
    requires k < |window|
    ensures Run(cfg, s, before + window[..k + 1]) == Step(cfg, Run(cfg, s, before + window[..k]), window[k])
  {
    LastOf(before, window, k);
  }

  lemma LastOf<T>(before: seq<T>, window: seq<T>, k: nat)
    requires k < |window|
    ensures var all := before + window[..k + 1];
            all != [] && all[..|all| - 1] == before + window[..k] && all[|all| - 1] == window[k]
  {
  }

  lemma WholeWindow<T>(before: seq<T>, window: seq<T>)
    ensures before + window[..0] == before && window[..|window|] == window && [] + before == before
  {
  }

  // ---- the pipeline itself ----------------------------------------------

  class TradingPipeline {
    const cfg: Config
    const broker: X.SimulatedBroker
    const budget: MessageBudget
    const queue: ActionQueue
    const quotes: QuoteManager
    const inventory: Inventory.PositionBook
    const risk: Risk.RiskMonitor
    const engine: E.QuoteEngine
    var flatten: Option<int>
    var flattenSize: int
    var flattenSentAt: real
    ghost var foreign: set<int>

    ghost predicate Valid()
      reads this
    {
      && quotes.broker == broker && quotes.queue == queue && queue.budget == budget
      && risk.cfg == cfg.risk && engine.cfg == cfg.quoting
    }

    ghost function View(): Session
      requires Valid()
      reads this, broker, budget, queue, quotes, inventory, risk
    {
      Session(quotes.View(), inventory.View(), risk.halted, flatten, flattenSize, flattenSentAt, foreign)
    }

    constructor (cfg: Config, execution: ExecutionConfig, broker: X.SimulatedBroker, rate: real, burst: int, multiplier: real, now: real)
      ensures Valid() && this.cfg == cfg && this.broker == broker
      ensures fresh(quotes) && fresh(queue) && fresh(budget) && fresh(inventory) && fresh(risk)
      ensures View() == Session(
                Desk(Manager(execution, Pair(None, None), Pair(None, None), Pair(false, false), 0, 0, 0, []), broker.View(),
                     Queue([], 0, 0, 0), Bucket(rate, burst as real, burst as real, now, 0, 0)),
                Inventory.Account(multiplier, 0, 0.0, 0.0, 0.0, 0, []), false, None, 0, 0.0, {})
    {
      var b := new MessageBudget(rate, burst, now);
      var q := new ActionQueue(b);
      var m := new QuoteManager(broker, q, execution);
      var p := new Inventory.PositionBook(multiplier);
      var r := new Risk.RiskMonitor(cfg.risk);
      var e := new E.QuoteEngine(cfg.quoting);
      this.cfg, this.broker, budget, queue, quotes, inventory, risk, engine := cfg, broker, b, q, m, p, r, e;
      flatten, flattenSize, flattenSentAt, foreign := None, 0, 0.0, {};
    }

    method TakeStep(i: Input)
      requires Valid()
      modifies this, broker, budget, queue, quotes, inventory, risk
      ensures Valid() && View() == Step(cfg, old(View()), i)
    {
      SeeMarket(i);
      TakeBrokerEvents();
      MayQuote(i);
      quotes.ReconcileAll(i.now);
      quotes.PumpQueue(i.now, i.clock);
    }

    method SeeMarket(i: Input)
      requires Valid()
      modifies broker
      ensures Valid() && View() == MarketSeen(old(View()), i)
    {
      for k := 0 to |i.trades|
        invariant broker.View() == TapeFolded(old(broker.View()), i.trades[..k], i.clock)
      {
        assert i.trades[..k + 1][..k] == i.trades[..k];
        broker.OnTrade(i.trades[k], i.clock);
      }
      assert i.trades[..|i.trades|] == i.trades;
      broker.OnBookSnapshot(i.snapshot, i.clock);
    }

    method TakeBrokerEvents()
      requires Valid()
      modifies this, broker, quotes, inventory
      ensures Valid() && View() == EventsTaken(old(View()))
    {
      var events := broker.DrainEvents();
      var kept, flattenFills := SplitFlatten(events);
      var fills := quotes.ApplyEvents(kept);
      fills := fills + flattenFills;
      BookFills(fills);
    }

    method BookFills(fills: seq<Fill>)
      modifies inventory
      ensures inventory.View() == Inventory.BookAll(old(inventory.View()), fills)
    {
      for k := 0 to |fills|
        invariant inventory.View() == Inventory.BookAll(old(inventory.View()), fills[..k])
      {
        assert fills[..k + 1][..k] == fills[..k];
        var _ := inventory.ApplyFill(fills[k]);
      }
      assert fills[..|fills|] == fills;
    }

    method SplitFlatten(events: seq<OrderEvent>) returns (kept: seq<OrderEvent>, flattenFills: seq<Fill>)
      modifies this
      ensures kept == Besides(events, old(flatten))
      ensures flattenFills == if old(flatten).Some? then FillsOf(events, old(flatten).value) else []
      ensures Flatten(flatten, flattenSize) ==
              if old(flatten).None? then Flatten(None, old(flattenSize))
              else OnFlattenEvents(Flatten(old(flatten), old(flattenSize)), old(flatten).value, events)
      ensures flattenSentAt == old(flattenSentAt) && foreign == old(foreign)
    {
      kept, flattenFills := [], [];
      if flatten.None? {
        BesidesNone(events);
        return events, [];
      }
      // The id is taken before the loop: the loop may clear the order it names.
      var id := flatten.value;
      for k := 0 to |events|
        invariant kept == Besides(events[..k], Some(id))
        invariant flattenFills == FillsOf(events[..k], id)
        invariant Flatten(flatten, flattenSize) == OnFlattenEvents(Flatten(old(flatten), old(flattenSize)), id, events[..k])
        invariant flattenSentAt == old(flattenSentAt) && foreign == old(foreign)
      {
        assert events[..k + 1][..k] == events[..k];
        var event := events[k];
        if event.orderId != id {
          kept := kept + [event];
        } else if event.Filled? && event.fill.Some? {
          flattenFills := flattenFills + [event.fill.value];
          flattenSize := flattenSize - event.fill.value.size;
          if flattenSize <= 0 {
            flatten := None;
          }
        } else if event.Cancelled? || event.Rejected? {
          flatten := None;
        }
      }
      assert events[..|events|] == events;
    }

    method MayQuote(i: Input)
      requires Valid()
      modifies this, broker, budget, quotes, risk
      ensures Valid() && View() == Judged(cfg, old(View()), i)
    {
      var anchor := if i.snapshot.TwoSided() then Some(E.Anchor(cfg.quoting, i.snapshot)) else None;
      var verdict := risk.Judge(inventory, Risk.Conditions(anchor, i.feedAgeSeconds, i.inHours, i.account, i.brokerPosition,
                                                           i.sigma, i.external, i.killFile));
      if verdict.pull || !verdict.quote {
        quotes.CancelAll();
        if verdict.flatten {
          FlattenNow(i.now, i.snapshot);
        }
      } else {
        var decision := engine.DecideQuotes(i.snapshot, i.signals, inventory.position);
        quotes.SetDesired(decision.bid, decision.ask);
      }
    }

    method FlattenNow(now: real, snapshot: BookSnapshot)
      requires Valid()
      modifies this, broker, budget
      ensures Valid() && View() == FlattenPosition(cfg, old(View()), now, snapshot)
    {
      var position := inventory.position;
      if position == 0 || !snapshot.TwoSided() {
        return;
      }
      var side := if position > 0 then Ask else Bid;
      var price := FlattenPrice(cfg, position, snapshot);
      if flatten.Some? {
        if now - flattenSentAt < 3.0 {
          return;
        }
        var paid := budget.Acquire(now);
        if paid {
          broker.ReplaceOrder(flatten.value, price, flattenSize);
          flattenSentAt := now;
        }
        return;
      }
      var paid := budget.Acquire(now);
      if !paid {
        return;
      }
      var id := broker.PlaceOrder(side, price, Abs(position));
      flatten, flattenSize, flattenSentAt := Some(id), Abs(position), now;
      foreign := foreign + {id};
    }
  }

  lemma {:induction false} BesidesNone(events: seq<OrderEvent>)
    ensures Besides(events, None) == events
  {
    if events != [] {
      BesidesNone(events[..|events| - 1]);
    }
  }
}
