/**
 * Everything the live broker says, and the position it leads to, told from the history of calls and callbacks
 * alone.
 */
module BrokerStory {
  import opened Common
  import opened Orders
  import opened Ibkr
  import opened FillConservation
  import P = Pipeline

  // ---- what a history says of an order ----------------------------------

  predicate EndsOrder(a: Action, id: int) {
    || (a.StatusSaid? && a.id == id && a.status in {CancelledStatus, ApiCancelled, Inactive})
    || (a.ErrorSaid? && a.id == id && a.code in {201, 202, 10147, 10148, 110, 104, 105})
  }

  /** The side an order was placed on, while nothing since has ended it. */
  function HeldOn(actions: seq<Action>, id: int): Option<Side> {
    if actions == [] then None
    else
      var last := actions[|actions| - 1];
      if last.Place? && last.id == id then Some(last.side)
      else if EndsOrder(last, id) then None
      else HeldOn(actions[..|actions| - 1], id)
  }

  function SideHeld(p: World, id: int): Option<Side> {
    if id in p.router.orders then Some(p.router.orders[id].side) else None
  }

  lemma ActHolds(p: World, a: Action, id: int)
    ensures SideHeld(Act(p, a), id) ==
            if a.Place? && a.id == id then Some(a.side) else if EndsOrder(a, id) then None else SideHeld(p, id)
  {
    if a.Drain? {
      BookedSays(p, P.StepFills(p.router.events, a.flatten));
    }
  }

  lemma {:induction false} HeldIs(w: World, actions: seq<Action>, id: int)
    requires Fresh(w)
    ensures HeldOn(actions, id) == SideHeld(Play(w, actions), id)
  {
    if actions != [] {
      HeldIs(w, actions[..|actions| - 1], id);
      ActHolds(Play(w, actions[..|actions| - 1]), actions[|actions| - 1], id);
    }
  }

  /** The last commission reported of an execution. */
  function CommissionOn(actions: seq<Action>, execId: string): Option<real> {
    if actions == [] then None
    else
      var last := actions[|actions| - 1];
      if last.CommissionSaid? && last.execId == execId then Some(last.commission)
      else CommissionOn(actions[..|actions| - 1], execId)
  }

  lemma {:induction false} CommissionIs(actions: seq<Action>, execId: string)
    ensures CommissionOn(actions, execId) ==
            if execId in Commissions(actions) then Some(Commissions(actions)[execId]) else None
  {
    if actions != [] {
      CommissionIs(actions[..|actions| - 1], execId);
    }
  }

  // ---- what a report comes to -------------------------------------------

  /**
   * Plus one for a purchase, minus one for a sale; an unsaid side is that of the order held, and nothing without
   * one.
   */
  function Direction(before: seq<Action>, e: Execution): int {
    match e.side
    case Bot => 1
    case Sld => -1
    case Unstated => (match HeldOn(before, e.orderId) case None => 0 case Some(side) => if side == Bid then 1 else -1)
  }

  /** Whole shares: what is past the point is dropped, whichever the sign. */
  predicate Whole(shares: real, n: int) {
    if shares >= 0.0 then n as real <= shares < n as real + 1.0 else n as real - 1.0 < shares <= n as real
  }

  lemma TruncateIs(x: real)
    ensures Whole(x, Truncate(x)) && (x >= 0.0 ==> Truncate(x) >= 0) && (x < 0.0 ==> Truncate(x) <= 0)
  {
  }

  function SharesOf(e: Execution): (n: int)
    ensures Whole(e.shares, n)
  {
    TruncateIs(e.shares);
    Truncate(e.shares)
  }

  /** The fill a first report comes to: its own terms, with the commission told of it or else the contract's fee. */
  predicate FillTold(fee: real, before: seq<Action>, last: Action, f: Fill)
    requires last.ExecutionSaid?
  {
    var e := last.execution;
    var told := CommissionOn(before, e.execId);
    && f.orderId == e.orderId && f.price == e.price && f.size == SharesOf(e)
    && f.ts == (if e.time == 0.0 then last.wall else e.time)
    && f.fees == (if told.Some? && told.value != 0.0 then told.value else fee * SharesOf(e) as real)
    && Direction(before, e) == if f.side == Bid then 1 else -1
  }

  /** What an action makes the broker say. */
  ghost predicate Tells(fee: real, before: seq<Action>, last: Action, said: seq<OrderEvent>) {
    match last
    case StatusSaid(id, status, _) =>
      said == if HeldOn(before, id).None? || status == OtherStatus then []
              else if status == Submitted || status == PreSubmitted then [Ack(id)]
              else if status == Inactive then [Rejected(id)]
              else [Cancelled(id)]
    case ErrorSaid(id, code) =>
      said == if HeldOn(before, id).None? then []
              else if code in {202, 10147, 10148} then [Cancelled(id)]
              else if code in {201, 110, 104, 105} then [Rejected(id)]
              else []
    case ExecutionSaid(e, _) =>
      if Reported(before, e.execId) || Direction(before, e) == 0 then said == []
      else |said| == 1 && said[0].Filled? && said[0].orderId == e.orderId && said[0].fill.Some? && FillTold(fee, before, last, said[0].fill.value)
    case _ => said == []
  }

  lemma NewFillTold(w: World, before: seq<Action>, last: Action)
    requires Fresh(w) && last.ExecutionSaid?
    ensures var fills := NewFill(w, before, last);
            if Reported(before, last.execution.execId) || Direction(before, last.execution) == 0 then fills == []
            else |fills| == 1 && FillTold(w.router.feePerContract, before, last, fills[0])
  {
    HeldIs(w, before, last.execution.orderId);
    CommissionIs(before, last.execution.execId);
  }

  /** After any history, each call and each callback makes the broker say exactly what the history calls for. */
  lemma ToldExactly(w: World, before: seq<Action>, last: Action) returns (said: seq<OrderEvent>)
    requires Fresh(w)
    ensures Said(Act(Play(w, before), last)) == Said(Play(w, before)) + said
    ensures Tells(w.router.feePerContract, before, last, said)
  {
    var p := Play(w, before);
    var p' := Act(p, last);
    said := [];
    assert Said(p) + [] == Said(p);
    match last
    case StatusSaid(id, _, _) =>
      HeldIs(w, before, id);
      said := p'.router.events[|p.router.events|..];
      assert p'.router.events == p.router.events + said;
    case ErrorSaid(id, _) =>
      HeldIs(w, before, id);
      said := p'.router.events[|p.router.events|..];
      assert p'.router.events == p.router.events + said;
    case ExecutionSaid(e, wall) =>
      Remembers(w, before);
      NewFillTold(w, before, last);
      said := p'.router.events[|p.router.events|..];
      assert p'.router.events == p.router.events + said;
    case Drain(flatten) => BookedSays(p, P.StepFills(p.router.events, flatten));
    case _ =>
  }

  // ---- the position -----------------------------------------------------

  /** Shares bought less shares sold: the first report of each execution, once. */
  function Bought(actions: seq<Action>): int {
    if actions == [] then 0
    else
      var before, last := actions[..|actions| - 1], actions[|actions| - 1];
      Bought(before) +
      if last.ExecutionSaid? && !Reported(before, last.execution.execId)
      then Direction(before, last.execution) * SharesOf(last.execution)
      else 0
  }

  lemma OneSigned(f: Fill)
    ensures NetSize([f]) == if f.side == Bid then f.size else -f.size
  {
    assert [f][..0] == [];
  }

  lemma {:induction false} ExpectedIsBought(w: World, actions: seq<Action>)
    requires Fresh(w)
    ensures NetSize(Expected(w, actions)) == Bought(actions)
  {
    if actions != [] {
      var before, last := actions[..|actions| - 1], actions[|actions| - 1];
      ExpectedIsBought(w, before);
      NetSizeAppend(Expected(w, before), NewFill(w, before, last));
      if last.ExecutionSaid? {
        NewFillTold(w, before, last);
        if NewFill(w, before, last) != [] {
          OneSigned(NewFill(w, before, last)[0]);
          assert NewFill(w, before, last) == [NewFill(w, before, last)[0]];
        }
      }
    }
  }

  /**
   * Over any history, the position with what is still in the log is the start, plus each execution bought, less
   * each sold.
   */
  lemma PositionTold(w: World, actions: seq<Action>)
    requires Fresh(w)
    ensures var p := Play(w, actions);
            p.account.position + NetSize(FillsIn(p.router.events)) == w.account.position + Bought(actions)
  {
    DrainedPosition(w, actions);
    ExpectedIsBought(w, actions);
  }
}
