/** The broker that routes quotes through IBKR: gateway callbacks in, order events out. */
module Ibkr {
  import opened Common
  import opened Orders

  datatype Status = Submitted | PreSubmitted | CancelledStatus | ApiCancelled | Inactive | OtherStatus

  /** The side an execution reports: BOT, SLD, or something else. */
  datatype ExecSide = Bot | Sld | Unstated

  datatype Execution = Execution(execId: string, orderId: int, shares: real, price: real, side: ExecSide, time: real)

  datatype Tracked = Tracked(side: Side, price: real, quantity: int, filled: real)

  datatype Router = Router(
    feePerContract: real,
    orders: map<int, Tracked>,
    events: seq<OrderEvent>,
    seen: set<string>,
    commissions: map<string, real>,
    sent: int)

  // ---- the verbs --------------------------------------------------------

  function Placed(r: Router, id: int, side: Side, price: real, size: int): Router {
    r.(orders := r.orders[id := Tracked(side, price, size, 0.0)], sent := r.sent + 1)
  }

  /** A modify of an order this broker does not hold is refused. */
  function Replaced(r: Router, id: int, price: real, size: int): Router {
    if id !in r.orders then r
    else
      var t := r.orders[id];
      r.(orders := r.orders[id := t.(price := price, quantity := size + Truncate(t.filled))], sent := r.sent + 1)
  }

  function CancelSent(r: Router): Router { r.(sent := r.sent + 1) }

  // ---- the callbacks ----------------------------------------------------

  function Forgotten(r: Router, id: int): Router { r.(orders := r.orders - {id}) }

  function Logged(r: Router, e: OrderEvent): Router { r.(events := r.events + [e]) }

  function OnStatus(r: Router, id: int, status: Status, filled: real): Router {
    if id !in r.orders then r
    else
      var t := r.orders[id];
      var kept := r.(orders := r.orders[id := if filled > t.filled then t.(filled := filled) else t]);
      match status
      case Submitted => Logged(kept, Ack(id))
      case PreSubmitted => Logged(kept, Ack(id))
      case CancelledStatus => Forgotten(Logged(kept, Cancelled(id)), id)
      case ApiCancelled => Forgotten(Logged(kept, Cancelled(id)), id)
      case Inactive => Forgotten(Logged(kept, Rejected(id)), id)
      case OtherStatus => kept
  }

  /** The side of an execution: what it says, or else the side of the order it is for. */
  function SideOf(orders: map<int, Tracked>, e: Execution): Option<Side> {
    match e.side
    case Bot => Some(Bid)
    case Sld => Some(Ask)
    case Unstated => if e.orderId in orders then Some(orders[e.orderId].side) else None
  }

  function DefaultFees(feePerContract: real, size: int): real { feePerContract * size as real }

  function FeesOf(feePerContract: real, commissions: map<string, real>, e: Execution): real {
    if e.execId in commissions && commissions[e.execId] != 0.0 then commissions[e.execId]
    else DefaultFees(feePerContract, Truncate(e.shares))
  }

  function FillOf(feePerContract: real, commissions: map<string, real>, e: Execution, side: Side, wall: real): Fill {
    Fill(if e.time != 0.0 then e.time else wall, side, e.price, Truncate(e.shares), FeesOf(feePerContract, commissions, e), e.orderId)
  }

  function OnExecution(r: Router, e: Execution, wall: real): Router {
    if e.execId in r.seen then r
    else
      var counted := r.(seen := r.seen + {e.execId},
                        orders := if e.orderId in r.orders
                                  then r.orders[e.orderId := r.orders[e.orderId].(filled := r.orders[e.orderId].filled + e.shares)]
                                  else r.orders);
      match SideOf(r.orders, e)
      case None => counted
      case Some(side) => Logged(counted, Filled(e.orderId, Some(FillOf(r.feePerContract, r.commissions, e, side, wall))))
  }

  function OnCommission(r: Router, execId: string, commission: real): Router {
    r.(commissions := r.commissions[execId := commission])
  }

  predicate CancelCode(code: int) { code == 202 || code == 10147 || code == 10148 }

  predicate OrderCode(code: int) { CancelCode(code) || code == 201 || code == 110 || code == 104 || code == 105 }

  function OnError(r: Router, id: int, code: int): Router {
    if !OrderCode(code) || id !in r.orders then r
    else Forgotten(Logged(r, if CancelCode(code) then Cancelled(id) else Rejected(id)), id)
  }

  function Drained(r: Router): Router { r.(events := []) }

  // ---- the broker itself ------------------------------------------------

  class IbkrBroker {
    const feePerContract: real
    var orders: map<int, Tracked>
    var events: seq<OrderEvent>
    var seen: set<string>
    var commissions: map<string, real>
    var sent: int

    ghost function View(): Router
      reads this
    {
      Router(feePerContract, orders, events, seen, commissions, sent)
    }

    constructor (feePerContract: real)
      ensures View() == Router(feePerContract, map[], [], {}, map[], 0)
    {
      this.feePerContract := feePerContract;
      orders, events, seen, commissions, sent := map[], [], {}, map[], 0;
    }

    /** id is the gateway's next; it is recorded before the order goes out. */
    method Place(id: int, side: Side, price: real, size: int)
      modifies this
      ensures View() == Placed(old(View()), id, side, price, size)
    {
      orders := orders[id := Tracked(side, price, size, 0.0)];
      sent := sent + 1;
    }

    method Replace(id: int, price: real, size: int) returns (held: bool)
      modifies this
      ensures View() == Replaced(old(View()), id, price, size)
      ensures held == (id in old(orders))
    {
      held := id in orders;
      if !held {
        return;
      }
      var t := orders[id];
      t := t.(price := price);
      t := t.(quantity := size + Truncate(t.filled));
      orders := orders[id := t];
      sent := sent + 1;
    }

    method Cancel(id: int)
      modifies this
      ensures View() == CancelSent(old(View()))
    {
      sent := sent + 1;
    }

    method DrainEvents() returns (out: seq<OrderEvent>)
      modifies this
      ensures out == old(events) && View() == Drained(old(View()))
    {
      out := events;
      events := [];
    }

    method OrderStatus(id: int, status: Status, filled: real)
      modifies this
      ensures View() == OnStatus(old(View()), id, status, filled)
    {
      if id !in orders {
        return;
      }
      if filled > orders[id].filled {
        orders := orders[id := orders[id].(filled := filled)];
      }
      var event;
      match status {
        case Submitted => event := Ack(id);
        case PreSubmitted => event := Ack(id);
        case CancelledStatus => event := Cancelled(id);
        case ApiCancelled => event := Cancelled(id);
        case Inactive => event := Rejected(id);
        case OtherStatus =>
          assert orders == old(orders)[id := orders[id]];
          return;
      }
      events := events + [event];
      assert orders == old(orders)[id := orders[id]];
      if event.Cancelled? || event.Rejected? {
        orders := orders - {id};
      }
    }

    method ExecDetails(e: Execution, wall: real)
      modifies this
      ensures View() == OnExecution(old(View()), e, wall)
    {
      if e.execId in seen {
        return;
      }
      seen := seen + {e.execId};
      var side := if e.side.Bot? then Some(Bid) else if e.side.Sld? then Some(Ask) else None;
      if e.orderId in orders {
        var t := orders[e.orderId];
        if side.None? {
          side := Some(t.side);
        }
        orders := orders[e.orderId := t.(filled := t.filled + e.shares)];
      }
      if side.None? {
        return;
      }
      var size := Truncate(e.shares);
      var fees := DefaultFees(feePerContract, size);
      if e.execId in commissions && commissions[e.execId] != 0.0 {
        fees := commissions[e.execId];
      }
      var ts := if e.time != 0.0 then e.time else wall;
      events := events + [Filled(e.orderId, Some(Fill(ts, side.value, e.price, size, fees, e.orderId)))];
    }

    method Commission(execId: string, commission: real)
      modifies this
      ensures View() == OnCommission(old(View()), execId, commission)
    {
      commissions := commissions[execId := commission];
    }

    method Error(id: int, code: int)
      modifies this
      ensures View() == OnError(old(View()), id, code)
    {
      if code !in [201, 202, 10147, 10148, 110, 104, 105] || id !in orders {
        return;
      }
      var cancelled := code == 202 || code == 10147 || code == 10148;
      events := events + [if cancelled then Cancelled(id) else Rejected(id)];
      orders := orders - {id};
    }
  }
}
