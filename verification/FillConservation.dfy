/** Over every interleaving of gateway callbacks and drains, each execution is booked once. */
module FillConservation {
  import opened Common
  import opened Orders
  import opened Ibkr
  import P = Pipeline
  import Inventory

  /** One atomic step of the broker, its gateway, or the pipeline that drains it. */
  datatype Action =
    | Place(id: int, side: Side, price: real, size: int)
    | Replace(id: int, price: real, size: int)
    | Cancel(id: int)
    | StatusSaid(id: int, status: Status, filled: real)
    | ExecutionSaid(execution: Execution, wall: real)
    | CommissionSaid(execId: string, commission: real)
    | ErrorSaid(id: int, code: int)
    | Drain(flatten: Option<int>)

  /** taken is history: every event drained so far. */
  datatype World = World(router: Router, account: Inventory.Account, taken: seq<OrderEvent>)

  function Act(w: World, a: Action): World {
    var r := w.router;
    match a
    case Place(id, side, price, size) => w.(router := Placed(r, id, side, price, size))
    case Replace(id, price, size) => w.(router := Replaced(r, id, price, size))
    case Cancel(_) => w.(router := CancelSent(r))
    case StatusSaid(id, status, filled) => w.(router := OnStatus(r, id, status, filled))
    case ExecutionSaid(e, wall) => w.(router := OnExecution(r, e, wall))
    case CommissionSaid(execId, commission) => w.(router := OnCommission(r, execId, commission))
    case ErrorSaid(id, code) => w.(router := OnError(r, id, code))
    case Drain(flatten) => Booked(w, P.StepFills(r.events, flatten))
  }

  /** The log read, and these fills booked. */
  function Booked(w: World, fills: seq<Fill>): World {
    World(Drained(w.router), Inventory.BookAll(w.account, fills), w.taken + w.router.events)
  }

  function Play(w: World, actions: seq<Action>): World {
    if actions == [] then w
    else Act(Play(w, actions[..|actions| - 1]), actions[|actions| - 1])
  }

  predicate Fresh(w: World) {
    w.router.orders == map[] && w.router.events == [] && w.router.seen == {} && w.router.commissions == map[] && w.taken == []
  }

  // ---- what should be booked, from the history alone --------------------

  /** An execution id has been reported. */
  predicate Reported(actions: seq<Action>, execId: string) {
    exists a :: a in actions && a.ExecutionSaid? && a.execution.execId == execId
  }

  /** The last commission reported for each execution. */
  function Commissions(actions: seq<Action>): map<string, real> {
    if actions == [] then map[]
    else
      var last := actions[|actions| - 1];
      var before := Commissions(actions[..|actions| - 1]);
      if last.CommissionSaid? then before[last.execId := last.commission] else before
  }

  /** The fill the last action of a history should be booked as: the first report of an execution whose side is known. */
  function NewFill(w: World, before: seq<Action>, last: Action): seq<Fill> {
    if !last.ExecutionSaid? || Reported(before, last.execution.execId) then []
    else
      match SideOf(Play(w, before).router.orders, last.execution)
      case None => []
      case Some(side) => [FillOf(w.router.feePerContract, Commissions(before), last.execution, side, last.wall)]
  }

  function Expected(w: World, actions: seq<Action>): seq<Fill> {
    if actions == [] then []
    else
      var before := actions[..|actions| - 1];
      Expected(w, before) + NewFill(w, before, actions[|actions| - 1])
  }

  // ---- the broker remembers its history ---------------------------------

  lemma ActRemembers(p: World, a: Action)
    ensures var r := Act(p, a).router;
            && r.feePerContract == p.router.feePerContract
            && r.commissions == (if a.CommissionSaid? then p.router.commissions[a.execId := a.commission] else p.router.commissions)
            && r.seen == p.router.seen + if a.ExecutionSaid? then {a.execution.execId} else {}
  {
    var known := p.router.seen;
    assert known + {} == known;
    assert a.ExecutionSaid? && a.execution.execId in known ==> known + {a.execution.execId} == known;
  }

  lemma {:induction false} Remembers(w: World, actions: seq<Action>)
    requires Fresh(w)
    ensures var r := Play(w, actions).router;
            && r.feePerContract == w.router.feePerContract
            && r.commissions == Commissions(actions)
            && (forall execId :: execId in r.seen <==> Reported(actions, execId))
  {
    if actions != [] {
      var n := |actions| - 1;
      Remembers(w, actions[..n]);
      ActRemembers(Play(w, actions[..n]), actions[n]);
      ReportedGrows(actions);
    }
  }

  lemma ReportedGrows(actions: seq<Action>)
    requires actions != []
    ensures var before, last := actions[..|actions| - 1], actions[|actions| - 1];
            forall execId :: Reported(actions, execId) <==>
              Reported(before, execId) || (last.ExecutionSaid? && last.execution.execId == execId)
  {
    var before, last := actions[..|actions| - 1], actions[|actions| - 1];
    assert actions == before + [last];
    assert forall a :: a in actions <==> a in before || a == last;
  }

  lemma QuietStatus(r: Router, id: int, status: Status, filled: real)
    ensures FillsIn(OnStatus(r, id, status, filled).events) == FillsIn(r.events)
  {
    var e := if status.Submitted? || status.PreSubmitted? then Ack(id) else if status.Inactive? then Rejected(id) else Cancelled(id);
    QuietEvent(r.events, e);
  }

  lemma QuietError(r: Router, id: int, code: int)
    ensures FillsIn(OnError(r, id, code).events) == FillsIn(r.events)
  {
    QuietEvent(r.events, if CancelCode(code) then Cancelled(id) else Rejected(id));
  }

  /** No callback but an execution report logs a fill. */
  lemma QuietAct(p: World, a: Action)
    requires !a.Drain? && !a.ExecutionSaid?
    ensures FillsIn(Act(p, a).router.events) == FillsIn(p.router.events)
    ensures Act(p, a).account == p.account
  {
    match a
    case StatusSaid(id, status, filled) => QuietStatus(p.router, id, status, filled);
    case ErrorSaid(id, code) => QuietError(p.router, id, code);
    case _ =>
  }

  /** What one execution report logs. */
  function LoggedFill(r: Router, e: Execution, wall: real): seq<Fill> {
    if e.execId in r.seen then []
    else
      match SideOf(r.orders, e)
      case None => []
      case Some(side) => [FillOf(r.feePerContract, r.commissions, e, side, wall)]
  }

  lemma ExecutionLogs(r: Router, e: Execution, wall: real)
    ensures FillsIn(OnExecution(r, e, wall).events) == FillsIn(r.events) + LoggedFill(r, e, wall)
  {
    if OnExecution(r, e, wall).events == r.events {
      assert FillsIn(r.events) + [] == FillsIn(r.events);
    } else {
      var event := Filled(e.orderId, Some(LoggedFill(r, e, wall)[0]));
      assert OnExecution(r, e, wall).events == r.events + [event];
      OneFillIn(event);
      FillsInAppend(r.events, [event]);
    }
  }

  /** What an action logs as filled. */
  lemma ActLogs(w: World, before: seq<Action>, last: Action)
    requires Fresh(w) && !last.Drain?
    ensures var p := Play(w, before);
            && FillsIn(Act(p, last).router.events) == FillsIn(p.router.events) + NewFill(w, before, last)
            && Act(p, last).account == p.account
  {
    var p := Play(w, before);
    if last.ExecutionSaid? {
      Remembers(w, before);
      ExecutionLogs(p.router, last.execution, last.wall);
    } else {
      QuietAct(p, last);
      assert FillsIn(p.router.events) + [] == FillsIn(p.router.events);
    }
  }

  // ---- draining moves fills from the log to the book --------------------

  lemma {:induction false} BookedFills(a: Inventory.Account, fills: seq<Fill>)
    ensures Inventory.BookAll(a, fills).fills == a.fills + fills
  {
    if fills != [] {
      var n := |fills| - 1;
      BookedFills(a, fills[..n]);
      assert a.fills + fills == (a.fills + fills[..n]) + [fills[n]];
    } else {
      assert a.fills + [] == a.fills;
    }
  }

  lemma Inserted(a: seq<Fill>, b: seq<Fill>, f: seq<Fill>)
    ensures multiset((a + f) + b) == multiset(a + b) + multiset(f)
    ensures multiset(a + (b + f)) == multiset(a + b) + multiset(f)
  {
  }

  function OfOrder(events: seq<OrderEvent>, id: Option<int>): seq<Fill> {
    if id.Some? then P.FillsOf(events, id.value) else []
  }

  /** The last event of a log goes to one of the two lists a step books. */
  lemma LastEventBooked(events: seq<OrderEvent>, flatten: Option<int>)
    requires events != []
    ensures var n := |events| - 1;
            var kept, own, f := FillsIn(Besides(events[..n], flatten)), OfOrder(events[..n], flatten), FillIn(events[n]);
            P.StepFills(events, flatten) == if Some(events[n].orderId) == flatten then kept + (own + f) else (kept + f) + own
  {
    var n := |events| - 1;
    var e := events[n];
    if Some(e.orderId) == flatten {
      assert Besides(events, flatten) == Besides(events[..n], flatten);
    } else {
      FillsInAppend(Besides(events[..n], flatten), [e]);
      OneFillIn(e);
      assert OfOrder(events[..n], flatten) + [] == OfOrder(events[..n], flatten);
    }
  }

  /** Set aside or not, held or not, every fill in the log is booked, and booked once. */
  lemma {:induction false} StepFillsAll(events: seq<OrderEvent>, flatten: Option<int>)
    ensures multiset(P.StepFills(events, flatten)) == multiset(FillsIn(events))
  {
    if events == [] {
      assert P.StepFills(events, flatten) == [];
    } else {
      var n := |events| - 1;
      var kept, own, f := FillsIn(Besides(events[..n], flatten)), OfOrder(events[..n], flatten), FillIn(events[n]);
      StepFillsAll(events[..n], flatten);
      LastEventBooked(events, flatten);
      Inserted(kept, own, f);
      assert P.StepFills(events[..n], flatten) == kept + own;
      assert multiset(FillsIn(events[..n]) + f) == multiset(FillsIn(events[..n])) + multiset(f);
    }
  }

  lemma JudgedAccount(cfg: P.Config, s: P.Session, i: P.Input)
    ensures P.Judged(cfg, s, i).account == s.account
  {
  }

  lemma TakenFills(s: P.Session)
    ensures multiset(P.EventsTaken(s).account.fills) == multiset(s.account.fills) + multiset(FillsIn(s.desk.exchange.events))
  {
    var fills := P.StepFills(s.desk.exchange.events, s.flatten);
    StepFillsAll(s.desk.exchange.events, s.flatten);
    BookedFills(s.account, fills);
    assert multiset(s.account.fills + fills) == multiset(s.account.fills) + multiset(fills);
  }

  /**
   * A step books what the market has just filled before it decides: all that
   * was logged before it, and all that its own tape and book fill.
   */
  lemma BookedBeforeDeciding(cfg: P.Config, s: P.Session, i: P.Input)
    ensures multiset(P.BeforeReconcile(cfg, s, i).account.fills) ==
            multiset(s.account.fills) + multiset(FillsIn(P.MarketSeen(s, i).desk.exchange.events))
  {
    var seen := P.MarketSeen(s, i);
    JudgedAccount(cfg, P.EventsTaken(seen), i);
    TakenFills(seen);
    assert seen.account == s.account;
  }

  /** Booked and still logged. */
  function Accounted(w: World): multiset<Fill> { multiset(w.account.fills) + multiset(FillsIn(w.router.events)) }

  lemma BookedAccounts(p: World, fills: seq<Fill>)
    ensures Accounted(Booked(p, fills)) == multiset(p.account.fills) + multiset(fills)
  {
    BookedFills(p.account, fills);
    assert FillsIn(Booked(p, fills).router.events) == [];
    assert multiset(p.account.fills + fills) == multiset(p.account.fills) + multiset(fills);
  }

  lemma DrainAccounts(p: World, flatten: Option<int>)
    ensures Accounted(Act(p, Drain(flatten))) == Accounted(p)
  {
    BookedAccounts(p, P.StepFills(p.router.events, flatten));
    StepFillsAll(p.router.events, flatten);
  }

  lemma ActAccounts(w: World, before: seq<Action>, last: Action)
    requires Fresh(w) && !last.Drain?
    ensures Accounted(Act(Play(w, before), last)) == Accounted(Play(w, before)) + multiset(NewFill(w, before, last))
  {
    ActLogs(w, before, last);
    var events, f := Play(w, before).router.events, NewFill(w, before, last);
    assert multiset(FillsIn(events) + f) == multiset(FillsIn(events)) + multiset(f);
  }

  /**
   * No fill is lost or doubled: what has been booked and what is still in the
   * log are, together, the start and one fill for each execution first
   * reported with a side, however callbacks and drains interleave and
   * whatever became of the order.
   */
  lemma {:induction false} EachExecutionBookedOnce(w: World, actions: seq<Action>)
    requires Fresh(w)
    ensures Accounted(Play(w, actions)) == multiset(w.account.fills) + multiset(Expected(w, actions))
  {
    if actions != [] {
      var before, last := actions[..|actions| - 1], actions[|actions| - 1];
      var f := NewFill(w, before, last);
      EachExecutionBookedOnce(w, before);
      if last.Drain? {
        DrainAccounts(Play(w, before), last.flatten);
      } else {
        ActAccounts(w, before, last);
      }
      assert multiset(Expected(w, before) + f) == multiset(Expected(w, before)) + multiset(f);
    }
  }

  lemma {:induction false} PositionFollowsFills(w: World, actions: seq<Action>)
    ensures var p := Play(w, actions);
            p.account.position - NetSize(p.account.fills) == w.account.position - NetSize(w.account.fills)
  {
    if actions != [] {
      var n := |actions| - 1;
      var p, last := Play(w, actions[..n]), actions[n];
      PositionFollowsFills(w, actions[..n]);
      if last.Drain? {
        var fills := P.StepFills(p.router.events, last.flatten);
        BookedFills(p.account, fills);
        Inventory.BookedTotals(p.account, fills);
        NetSizeAppend(p.account.fills, fills);
      }
    }
  }

  /** A drained position is the start plus the signed size of every distinct execution. */
  lemma DrainedPosition(w: World, actions: seq<Action>)
    requires Fresh(w)
    ensures var p := Play(w, actions);
            p.account.position + NetSize(FillsIn(p.router.events)) == w.account.position + NetSize(Expected(w, actions))
  {
    var p := Play(w, actions);
    EachExecutionBookedOnce(w, actions);
    PositionFollowsFills(w, actions);
    var left, right := p.account.fills + FillsIn(p.router.events), w.account.fills + Expected(w, actions);
    assert multiset(left) == Accounted(p) == multiset(right);
    Inventory.SumsIgnoreOrder(left, right);
    NetSizeAppend(p.account.fills, FillsIn(p.router.events));
    NetSizeAppend(w.account.fills, Expected(w, actions));
  }

  /** The execution ids a history reports. */
  function ExecIds(actions: seq<Action>): set<string> {
    if actions == [] then {}
    else
      var last := actions[|actions| - 1];
      ExecIds(actions[..|actions| - 1]) + if last.ExecutionSaid? then {last.execution.execId} else {}
  }

  lemma {:induction false} ExecIdsReported(actions: seq<Action>)
    ensures forall execId :: execId in ExecIds(actions) <==> Reported(actions, execId)
  {
    if actions != [] {
      ExecIdsReported(actions[..|actions| - 1]);
      ReportedGrows(actions);
    }
  }

  /** Report k is the first of its execution. */
  predicate First(actions: seq<Action>, k: nat, execId: string)
    requires k < |actions|
  {
    actions[k].ExecutionSaid? && actions[k].execution.execId == execId && !Reported(actions[..k], execId)
  }

  /** The side of report k is known when it comes: it says one, or the broker holds its order. */
  predicate Sided(w: World, actions: seq<Action>, k: nat)
    requires k < |actions| && actions[k].ExecutionSaid?
  {
    !actions[k].execution.side.Unstated? || actions[k].execution.orderId in Play(w, actions[..k]).router.orders
  }

  predicate FirstSided(w: World, actions: seq<Action>, execId: string) {
    exists k :: 0 <= k < |actions| && First(actions, k, execId) && Sided(w, actions, k)
  }

  /** The fills that a history expects of one execution. */
  function FillsFor(w: World, actions: seq<Action>, execId: string): seq<Fill> {
    if actions == [] then []
    else
      var before, last := actions[..|actions| - 1], actions[|actions| - 1];
      FillsFor(w, before, execId) +
      if last.ExecutionSaid? && last.execution.execId == execId then NewFill(w, before, last) else []
  }

  /** Only a first report whose side is known is a fill. */
  lemma NewFillIff(w: World, actions: seq<Action>)
    requires actions != []
    ensures var n := |actions| - 1;
            NewFill(w, actions[..n], actions[n]) != [] <==>
            actions[n].ExecutionSaid? && First(actions, n, actions[n].execution.execId) && Sided(w, actions, n)
    ensures |NewFill(w, actions[..|actions| - 1], actions[|actions| - 1])| <= 1
  {
  }

  lemma FirstSidedGrows(w: World, actions: seq<Action>, execId: string)
    requires actions != []
    ensures var n := |actions| - 1;
            FirstSided(w, actions, execId) <==>
            FirstSided(w, actions[..n], execId) || (First(actions, n, execId) && Sided(w, actions, n))
    ensures FirstSided(w, actions, execId) ==> Reported(actions, execId)
  {
    var n := |actions| - 1;
    forall k | 0 <= k < n ensures First(actions, k, execId) <==> First(actions[..n], k, execId) {
      assert actions[..n][..k] == actions[..k];
    }
    forall k | 0 <= k < n && actions[k].ExecutionSaid? ensures Sided(w, actions, k) <==> Sided(w, actions[..n], k) {
      assert actions[..n][..k] == actions[..k];
    }
    if FirstSided(w, actions, execId) {
      var k :| 0 <= k < |actions| && First(actions, k, execId) && Sided(w, actions, k);
      assert actions[k] in actions;
    }
  }

  /** An execution is one fill when its first report has a side, its own or that of the order held; otherwise it is none, ever. */
  lemma {:induction false} OneFillIffSided(w: World, actions: seq<Action>, execId: string)
    ensures |FillsFor(w, actions, execId)| == if FirstSided(w, actions, execId) then 1 else 0
  {
    if actions != [] {
      var n := |actions| - 1;
      OneFillIffSided(w, actions[..n], execId);
      FirstSidedGrows(w, actions, execId);
      NewFillIff(w, actions);
      if n > 0 {
        FirstSidedGrows(w, actions[..n], execId);
      }
    }
  }

  /** A side that comes with a second report comes too late. */
  lemma LateSideIsLost(w: World, first: Action, second: Action)
    requires Fresh(w) && first.ExecutionSaid? && second.ExecutionSaid? && first.execution.side.Unstated?
    requires second.execution.execId == first.execution.execId && second.execution.side.Bot?
    ensures FillsFor(w, [first, second], first.execution.execId) == []
  {
    var actions, execId := [first, second], first.execution.execId;
    OneFillIffSided(w, actions, execId);
    assert actions[..1] == [first] && actions[..0] == [];
    assert first in actions[..1] && Reported(actions[..1], execId);
    assert !Sided(w, actions, 0);
  }

  ghost function SidedIds(w: World, actions: seq<Action>): set<string> {
    set execId | execId in ExecIds(actions) && FirstSided(w, actions, execId)
  }

  /** And the fills of a history are those: as many as the executions first reported with a side. */
  lemma {:induction false} OneFillAnExecution(w: World, actions: seq<Action>)
    ensures |Expected(w, actions)| == |SidedIds(w, actions)|
  {
    if actions != [] {
      var n := |actions| - 1;
      OneFillAnExecution(w, actions[..n]);
      NewFillIff(w, actions);
      SidedIdsGrow(w, actions);
    }
  }

  lemma SidedIdsGrow(w: World, actions: seq<Action>)
    requires actions != []
    ensures var n := |actions| - 1;
            var more := NewFill(w, actions[..n], actions[n]) != [];
            && SidedIds(w, actions) ==
               SidedIds(w, actions[..n]) + (if more then {actions[n].execution.execId} else {})
            && (more ==> actions[n].execution.execId !in SidedIds(w, actions[..n]))
  {
    var n := |actions| - 1;
    NewFillIff(w, actions);
    ExecIdsReported(actions);
    ExecIdsReported(actions[..n]);
    forall execId ensures execId in SidedIds(w, actions) <==>
      execId in SidedIds(w, actions[..n]) || (First(actions, n, execId) && Sided(w, actions, n))
    {
      FirstSidedGrows(w, actions, execId);
      if n > 0 {
        FirstSidedGrows(w, actions[..n], execId);
      }
    }
  }

  // ---- terminal events --------------------------------------------------

  /** Everything the broker has ever said. */
  function Said(w: World): seq<OrderEvent> { w.taken + w.router.events }

  predicate Ends(e: OrderEvent, id: int) { (e.Cancelled? || e.Rejected?) && e.orderId == id }

  function Endings(events: seq<OrderEvent>, id: int): nat {
    if events == [] then 0
    else Endings(events[..|events| - 1], id) + if Ends(events[|events| - 1], id) then 1 else 0
  }

  /** The gateway never hands out an order id twice. */
  ghost predicate FreshIds(actions: seq<Action>) {
    forall i, j :: 0 <= i < j < |actions| && actions[i].Place? && actions[j].Place? ==> actions[i].id != actions[j].id
  }

  predicate EverPlaced(actions: seq<Action>, id: int) {
    exists a :: a in actions && a.Place? && a.id == id
  }

  lemma SaidMore(w: World, w': World, id: int)
    requires w'.taken == w.taken && |w'.router.events| == |w.router.events| + 1
    requires w'.router.events[..|w.router.events|] == w.router.events
    ensures Endings(Said(w'), id) == Endings(Said(w), id) + if Ends(w'.router.events[|w.router.events|], id) then 1 else 0
  {
    var e := w'.router.events[|w.router.events|];
    assert w'.router.events == w.router.events + [e];
    assert Said(w') == Said(w) + [e] && Said(w')[..|Said(w)|] == Said(w);
  }

  lemma BookedSays(w: World, fills: seq<Fill>)
    ensures Said(Booked(w, fills)) == Said(w) && Booked(w, fills).router.orders == w.router.orders
  {
  }

  /** An action ends order id at most once, and only by letting go of it. */
  lemma ActEnding(w: World, a: Action, id: int)
    ensures var w' := Act(w, a);
            || (Endings(Said(w'), id) == Endings(Said(w), id) &&
                (id in w'.router.orders ==> id in w.router.orders || (a.Place? && a.id == id)))
            || (Endings(Said(w'), id) == Endings(Said(w), id) + 1 && id in w.router.orders && id !in w'.router.orders)
  {
    var w' := Act(w, a);
    if a.Drain? {
      BookedSays(w, P.StepFills(w.router.events, a.flatten));
    } else if w'.router.events != w.router.events {
      SaidMore(w, w', id);
    }
  }

  lemma PlacedGrows(before: seq<Action>, last: Action, id: int)
    ensures EverPlaced(before + [last], id) <==> EverPlaced(before, id) || (last.Place? && last.id == id)
  {
    assert forall a :: a in before + [last] <==> a in before || a == last;
  }

  lemma FreshLast(before: seq<Action>, last: Action)
    requires FreshIds(before + [last])
    ensures FreshIds(before) && (last.Place? ==> !EverPlaced(before, last.id))
  {
    var all := before + [last];
    assert forall i :: 0 <= i < |before| ==> all[i] == before[i];
    assert all[|before|] == last;
  }

  /**
   * Each order id yields at most one terminal event over any interleaving,
   * and an order still held has yielded none.
   */
  lemma {:induction false} OneEndingAnOrder(w: World, actions: seq<Action>, id: int)
    requires Fresh(w) && FreshIds(actions)
    ensures var p := Play(w, actions);
            && Endings(Said(p), id) <= 1
            && (id in p.router.orders ==> Endings(Said(p), id) == 0)
            && (id in p.router.orders || Endings(Said(p), id) > 0 ==> EverPlaced(actions, id))
  {
    if actions != [] {
      var before, last := actions[..|actions| - 1], actions[|actions| - 1];
      assert actions == before + [last];
      FreshLast(before, last);
      OneEndingAnOrder(w, before, id);
      ActEnding(Play(w, before), last, id);
      PlacedGrows(before, last, id);
    }
  }
}
