/** The builders: a stream of order records, or of ten-level records, kept as a book. */
module BookBuilders {
  import opened Common
  import opened Orders
  import opened OrderBooks

  /** The feed's "no price". */
  const UNDEF_PRICE := 9223372036854775807

  /** A 32-bit unsigned field read as a signed one. */
  function ToInt32(x: int): int { if x % 0x1_0000_0000 < 0x8000_0000 then x % 0x1_0000_0000 else x % 0x1_0000_0000 - 0x1_0000_0000 }

  datatype Action = AddOrder | CancelOrder | ModifyOrder | FillOrder | Match | Reset | Nothing

  /** side is None where the record names neither; size is the raw unsigned field. */
  datatype MboRecord = MboRecord(orderId: int, price: int, size: nat, snapshot: bool, action: Action, side: Option<Side>)

  datatype Order = Order(side: Side, price: int, size: int)

  /** What the builder holds: the orders, and the two vectors derived from them. */
  datatype Held = Held(orders: map<int, Order>, bids: seq<PriceLevel>, asks: seq<PriceLevel>, dropped: int) {
    function Rows(side: Side): seq<PriceLevel> { if side.Bid? then bids else asks }

    function WithRows(side: Side, rows: seq<PriceLevel>): Held { if side.Bid? then this.(bids := rows) else this.(asks := rows) }

    function Add(side: Side, price: int, size: int): Held { WithRows(side, Added(side, Rows(side), price, size, 1)) }

    function Remove(side: Side, price: int, size: int, count: int): Held {
      WithRows(side, Removed(side, Rows(side), price, size, count))
    }

    function Drop(): Held { this.(dropped := dropped + 1) }
  }

  const EMPTY := Held(map[], [], [], 0)

  function Cleared(h: Held): Held { h.(orders := map[], bids := [], asks := []) }

  /** The order gone, and its share of its level with it. */
  function Detached(h: Held, id: int): Held
    requires id in h.orders
  {
    var o := h.orders[id];
    h.Remove(o.side, o.price, o.size, 1).(orders := h.orders - {id})
  }

  function Attached(h: Held, id: int, o: Order): Held { h.(orders := h.orders[id := o]).Add(o.side, o.price, o.size) }

  /** The order taken off its level and put back changed. */
  function Requeued(h: Held, id: int, o: Order): Held
    requires id in h.orders
  {
    var was := h.orders[id];
    h.Remove(was.side, was.price, was.size, 1).(orders := h.orders[id := o]).Add(o.side, o.price, o.size)
  }

  /** A fill that leaves the order working takes size off its level and no order. */
  function PartFilled(h: Held, id: int, filled: int): Held
    requires id in h.orders
  {
    var o := h.orders[id];
    h.Remove(o.side, o.price, filled, 0).(orders := h.orders[id := o.(size := o.size - filled)])
  }

  function OnAdd(h: Held, id: int, side: Side, price: int, size: int): Held {
    if price == UNDEF_PRICE || size <= 0 then h
    else if id in h.orders then Requeued(h, id, Order(side, price, size))
    else Attached(h, id, Order(side, price, size))
  }

  function OnCancel(h: Held, id: int): Held { if id in h.orders then Detached(h, id) else h.Drop() }

  /** A held order keeps its side; the level goes in on the record's. */
  function OnModify(h: Held, id: int, side: Side, price: int, size: int): Held {
    if id !in h.orders then
      (if price != UNDEF_PRICE && size > 0 then Attached(h, id, Order(side, price, size)) else h).Drop()
    else if size <= 0 then Detached(h, id)
    else
      var o := h.orders[id];
      h.Remove(o.side, o.price, o.size, 1).(orders := h.orders[id := o.(price := price, size := size)]).Add(side, price, size)
  }

  function OnFill(h: Held, id: int, size: int): Held {
    if id !in h.orders then h.Drop()
    else
      var o := h.orders[id];
      var filled := Min(size, o.size);
      if o.size - filled > 0 then PartFilled(h, id, filled)
      else h.Remove(o.side, o.price, filled, 0).Remove(o.side, o.price, 0, 1).(orders := h.orders - {id})
  }

  function Edited(h: Held, record: MboRecord): Held {
    var size := ToInt32(record.size);
    if record.action.Match? then h
    else if record.action.Reset? then Cleared(h)
    else if record.side.None? then h
    else
      match record.action
      case AddOrder => OnAdd(h, record.orderId, record.side.value, record.price, size)
      case CancelOrder => OnCancel(h, record.orderId)
      case ModifyOrder => OnModify(h, record.orderId, record.side.value, record.price, size)
      case FillOrder => OnFill(h, record.orderId, size)
      case _ => h
  }

  datatype Builder = Builder(held: Held, inSnapshot: bool, complete: bool)

  /** What the snapshot flag does before the record is read. */
  function Flagged(b: Builder, snapshot: bool): Builder {
    if snapshot then if b.inSnapshot then b else Builder(Cleared(b.held), true, false)
    else if b.inSnapshot then b.(inSnapshot := false, complete := true)
    else b
  }

  function Applied(b: Builder, record: MboRecord): Builder {
    var flagged := Flagged(b, record.snapshot);
    flagged.(held := Edited(flagged.held, record))
  }

  function Run(b: Builder, records: seq<MboRecord>): Builder {
    if records == [] then b
    else Applied(Run(b, records[..|records| - 1]), records[|records| - 1])
  }

  function Tape(record: MboRecord): Option<Trade> {
    if record.action.Match? then Some(TradeOf(record.price, record.size, record.side)) else None
  }

  function TradeOf(price: int, size: nat, side: Option<Side>): Trade {
    Trade(price as real / PRICE_SCALE, ToInt32(size), if side.None? then 0 else side.value.Sign())
  }

  // ---- the simple form: a sum over the held orders ----------------------

  datatype Sum = Sum(size: int, count: nat)

  function Share(o: Order, side: Side, price: int): Sum {
    if o.side == side && o.price == price then Sum(o.size, 1) else Sum(0, 0)
  }

  function Plus(a: Sum, b: Sum): Sum { Sum(a.size + b.size, a.count + b.count) }

  ghost predicate AnyHeld(orders: map<int, Order>) { exists id :: id in orders }

  ghost function AnyOf(orders: map<int, Order>): (id: int)
    requires AnyHeld(orders)
    ensures id in orders
  {
    var id :| id in orders;
    id
  }

  /** The total size and the number of the held orders at a price. */
  ghost function Resting(orders: map<int, Order>, side: Side, price: int): Sum
    decreases |orders|
  {
    if !AnyHeld(orders) then Sum(0, 0)
    else
      var id := AnyOf(orders);
      Plus(Share(orders[id], side, price), Resting(orders - {id}, side, price))
  }

  /** Whichever order is taken out first, the sum is the same. */
  lemma {:induction false} RestingWithout(orders: map<int, Order>, id: int, side: Side, price: int)
    requires id in orders
    ensures Resting(orders, side, price) == Plus(Share(orders[id], side, price), Resting(orders - {id}, side, price))
    decreases |orders|
  {
    var first := AnyOf(orders);
    if first != id {
      RestingWithout(orders - {first}, id, side, price);
      RestingWithout(orders - {id}, first, side, price);
      assert orders - {first} - {id} == orders - {id} - {first};
    }
  }

  lemma RestingWith(orders: map<int, Order>, id: int, o: Order, side: Side, price: int)
    ensures Resting(orders[id := o], side, price) == Plus(Share(o, side, price), Resting(orders - {id}, side, price))
  {
    RestingWithout(orders[id := o], id, side, price);
    assert orders[id := o] - {id} == orders - {id};
  }

  lemma RestingFresh(orders: map<int, Order>, id: int, o: Order, side: Side, price: int)
    requires id !in orders
    ensures Resting(orders[id := o], side, price) == Plus(Share(o, side, price), Resting(orders, side, price))
  {
    RestingWithout(orders[id := o], id, side, price);
    assert orders[id := o] - {id} == orders;
  }

  predicate Sized(orders: map<int, Order>) { forall id :: id in orders ==> orders[id].size > 0 }

  predicate RestsAt(o: Order, side: Side, price: int) { o.side == side && o.price == price }

  /** Every order holds at least one contract. */
  predicate Plausible(sum: Sum) { sum.size >= sum.count && (sum.count == 0 ==> sum.size == 0) }

  lemma {:induction false} RestingSized(orders: map<int, Order>, side: Side, price: int)
    requires Sized(orders)
    ensures Plausible(Resting(orders, side, price))
    decreases |orders|
  {
    if AnyHeld(orders) {
      var first := AnyOf(orders);
      assert Sized(orders - {first});
      RestingSized(orders - {first}, side, price);
    }
  }

  /** A price has orders in its sum exactly when an order rests there. */
  lemma {:induction false} RestingSome(orders: map<int, Order>, side: Side, price: int)
    ensures Resting(orders, side, price).count > 0 <==> exists id :: id in orders && RestsAt(orders[id], side, price)
    decreases |orders|
  {
    if AnyHeld(orders) {
      var first := AnyOf(orders);
      var rest := orders - {first};
      RestingSome(rest, side, price);
      if id :| id in orders && RestsAt(orders[id], side, price) {
        RestingWithout(orders, id, side, price);
      }
      assert forall id :: id in rest && RestsAt(rest[id], side, price) ==> id in orders && RestsAt(orders[id], side, price);
    }
  }

  // ---- the vectors are that sum -----------------------------------------

  ghost function SumsOn(orders: map<int, Order>, side: Side): int -> Sum { price => Resting(orders, side, price) }

  /** The level a sum should be listed as, if it should be listed. */
  function Listed(sum: Sum, price: int): Option<PriceLevel> {
    if sum.count > 0 then Some(PriceLevel(price, sum.size, sum.count)) else None
  }

  /** A vector is best first, and lists exactly the levels of the sums. */
  ghost predicate Lists(side: Side, rows: seq<PriceLevel>, sums: int -> Sum) {
    Sorted(side, rows) && forall l: PriceLevel :: l in rows <==> Listed(sums(l.price), l.price) == Some(l)
  }

  ghost predicate Consistent(h: Held) {
    Sized(h.orders) && Lists(Bid, h.bids, SumsOn(h.orders, Bid)) && Lists(Ask, h.asks, SumsOn(h.orders, Ask))
  }

  lemma ListsAt(side: Side, rows: seq<PriceLevel>, sums: int -> Sum, price: int)
    requires Lists(side, rows, sums)
    ensures LevelAt(side, rows, price) == Listed(sums(price), price)
  {
    LevelAtIs(side, rows, price);
    if sums(price).count > 0 {
      assert PriceLevel(price, sums(price).size, sums(price).count) in rows;
    } else if LevelAt(side, rows, price).Some? {
      assert LevelAt(side, rows, price).value in rows;
    }
  }

  /** The sums agree at every price but one. */
  ghost predicate AlikeBut(sums: int -> Sum, sums': int -> Sum, price: int) {
    forall p :: p != price ==> sums'(p) == sums(p)
  }

  /** An edit at one price carries a vector from one list of sums to another. */
  lemma EditLists(side: Side, rows: seq<PriceLevel>, rows': seq<PriceLevel>, sums: int -> Sum, sums': int -> Sum, price: int)
    requires Lists(side, rows, sums)
    requires Edits(side, rows, rows', price, Listed(sums'(price), price))
    requires AlikeBut(sums, sums', price)
    ensures Lists(side, rows', sums')
  {
  }

  lemma RemoveLists(side: Side, rows: seq<PriceLevel>, sums: int -> Sum, sums': int -> Sum, price: int, size: int, count: int)
    requires Lists(side, rows, sums) && AlikeBut(sums, sums', price)
    requires Shrunk(Listed(sums(price), price), size, count) == Listed(sums'(price), price)
    ensures Lists(side, Removed(side, rows, price, size, count), sums')
  {
    ListsAt(side, rows, sums, price);
    RemoveEdits(side, rows, price, size, count);
    EditLists(side, rows, Removed(side, rows, price, size, count), sums, sums', price);
  }

  lemma AddLists(side: Side, rows: seq<PriceLevel>, sums: int -> Sum, sums': int -> Sum, price: int, size: int)
    requires Lists(side, rows, sums) && AlikeBut(sums, sums', price)
    requires Some(Grown(Listed(sums(price), price), price, size, 1)) == Listed(sums'(price), price)
    ensures Lists(side, Added(side, rows, price, size, 1), sums')
  {
    ListsAt(side, rows, sums, price);
    AddEdits(side, rows, price, size, 1);
    EditLists(side, rows, Added(side, rows, price, size, 1), sums, sums', price);
  }

  lemma SameLists(side: Side, rows: seq<PriceLevel>, sums: int -> Sum, sums': int -> Sum)
    requires Lists(side, rows, sums)
    requires forall p :: sums'(p) == sums(p)
    ensures Lists(side, rows, sums')
  {
  }

  /** A level that grew by an order that is not among the sums is not listed by them. */
  lemma Unaccounted(side: Side, rows: seq<PriceLevel>, sums: int -> Sum, price: int, size: int)
    requires Lists(side, rows, sums) && Plausible(sums(price)) && size > 0
    ensures !Lists(side, Added(side, rows, price, size, 1), sums)
  {
    ListsAt(side, rows, sums, price);
    AddEdits(side, rows, price, size, 1);
    var grown := Grown(LevelAt(side, rows, price), price, size, 1);
    assert grown in Added(side, rows, price, size, 1);
  }

  lemma ListedCounts(side: Side, rows: seq<PriceLevel>, sums: int -> Sum)
    requires Lists(side, rows, sums)
    ensures forall l :: l in rows ==> l.count > 0
  {
  }

  // ---- and stay so, record by record ------------------------------------

  /** Sums move only on one side, and there at one price. */
  ghost predicate MovesAt(orders: map<int, Order>, orders': map<int, Order>, side: Side, price: int) {
    && AlikeBut(SumsOn(orders, side), SumsOn(orders', side), price)
    && forall p :: SumsOn(orders', Other(side))(p) == SumsOn(orders, Other(side))(p)
  }

  lemma WithoutElsewhere(orders: map<int, Order>, id: int)
    requires id in orders
    ensures MovesAt(orders, orders - {id}, orders[id].side, orders[id].price)
  {
    forall s: Side, p: int | !RestsAt(orders[id], s, p) ensures SumsOn(orders - {id}, s)(p) == SumsOn(orders, s)(p) {
      RestingWithout(orders, id, s, p);
    }
  }

  lemma WithElsewhere(orders: map<int, Order>, id: int, o: Order)
    requires id !in orders
    ensures MovesAt(orders, orders[id := o], o.side, o.price)
  {
    assert orders[id := o] - {id} == orders;
    WithoutElsewhere(orders[id := o], id);
  }

  lemma OtherLists(h: Held, orders': map<int, Order>, side: Side, price: int)
    requires Consistent(h) && MovesAt(h.orders, orders', side, price)
    ensures Lists(Other(side), h.Rows(Other(side)), SumsOn(orders', Other(side)))
  {
    SameLists(Other(side), h.Rows(Other(side)), SumsOn(h.orders, Other(side)), SumsOn(orders', Other(side)));
  }

  /** A removal agrees with whatever orders sum to what it leaves. */
  lemma RemoveAgrees(h: Held, h': Held, side: Side, price: int, size: int, count: int)
    requires Consistent(h) && Sized(h'.orders)
    requires h' == h.Remove(side, price, size, count).(orders := h'.orders)
    requires MovesAt(h.orders, h'.orders, side, price)
    requires Shrunk(Listed(SumsOn(h.orders, side)(price), price), size, count) == Listed(SumsOn(h'.orders, side)(price), price)
    ensures Consistent(h')
  {
    RemoveLists(side, h.Rows(side), SumsOn(h.orders, side), SumsOn(h'.orders, side), price, size, count);
    OtherLists(h, h'.orders, side, price);
  }

  lemma DetachSums(orders: map<int, Order>, id: int)
    requires Sized(orders) && id in orders
    ensures var o := orders[id];
            && Sized(orders - {id})
            && MovesAt(orders, orders - {id}, o.side, o.price)
            && Shrunk(Listed(SumsOn(orders, o.side)(o.price), o.price), o.size, 1) ==
               Listed(SumsOn(orders - {id}, o.side)(o.price), o.price)
  {
    var o := orders[id];
    assert Sized(orders - {id});
    WithoutElsewhere(orders, id);
    RestingWithout(orders, id, o.side, o.price);
    RestingSized(orders - {id}, o.side, o.price);
  }

  lemma AttachSums(orders: map<int, Order>, id: int, o: Order)
    requires Sized(orders) && id !in orders && o.size > 0
    ensures var more := orders[id := o];
            && Sized(more)
            && MovesAt(orders, more, o.side, o.price)
            && Some(Grown(Listed(SumsOn(orders, o.side)(o.price), o.price), o.price, o.size, 1)) ==
               Listed(SumsOn(more, o.side)(o.price), o.price)
  {
    WithElsewhere(orders, id, o);
    RestingFresh(orders, id, o, o.side, o.price);
    RestingSized(orders, o.side, o.price);
  }

  lemma Detach(h: Held, id: int)
    requires Consistent(h) && id in h.orders
    ensures Consistent(Detached(h, id))
  {
    var o := h.orders[id];
    DetachSums(h.orders, id);
    RemoveAgrees(h, Detached(h, id), o.side, o.price, o.size, 1);
  }

  lemma Attach(h: Held, id: int, o: Order)
    requires Consistent(h) && id !in h.orders && o.size > 0
    ensures Consistent(Attached(h, id, o))
  {
    AttachSums(h.orders, id, o);
    var more := h.orders[id := o];
    AddLists(o.side, h.Rows(o.side), SumsOn(h.orders, o.side), SumsOn(more, o.side), o.price, o.size);
    OtherLists(h, more, o.side, o.price);
  }

  /** A change of size moves sums only where the order rests. */
  lemma ResizedElsewhere(orders: map<int, Order>, id: int, size: int)
    requires id in orders
    ensures MovesAt(orders, orders[id := orders[id].(size := size)], orders[id].side, orders[id].price)
  {
    var left := orders[id := orders[id].(size := size)];
    WithoutElsewhere(orders, id);
    WithoutElsewhere(left, id);
    assert left - {id} == orders - {id};
  }

  /** And there its level changes by as much. */
  lemma ResizedSum(orders: map<int, Order>, id: int, size: int)
    requires Sized(orders) && id in orders && size > 0
    ensures var o := orders[id];
            var was, now := Resting(orders, o.side, o.price), Resting(orders[id := o.(size := size)], o.side, o.price);
            now == Sum(was.size - o.size + size, was.count) && now.size > 0 && now.count > 0
  {
    var o := orders[id];
    RestingWithout(orders, id, o.side, o.price);
    RestingWith(orders, id, o.(size := size), o.side, o.price);
    assert Sized(orders - {id});
    RestingSized(orders - {id}, o.side, o.price);
  }

  /** A fill that leaves the order working takes size off its level and no order. */
  lemma PartFill(h: Held, id: int, filled: int)
    requires Consistent(h) && id in h.orders && filled < h.orders[id].size
    ensures Consistent(PartFilled(h, id, filled))
  {
    var o, h' := h.orders[id], PartFilled(h, id, filled);
    var size := o.size - filled;
    assert h'.orders == h.orders[id := o.(size := size)];
    ResizedElsewhere(h.orders, id, size);
    ResizedSum(h.orders, id, size);
    RemoveAgrees(h, h', o.side, o.price, filled, 0);
  }

  lemma RequeuedIs(h: Held, id: int, o: Order)
    requires id in h.orders
    ensures Requeued(h, id, o) == Attached(Detached(h, id), id, o)
  {
    assert (h.orders - {id})[id := o] == h.orders[id := o];
  }

  lemma Requeue(h: Held, id: int, o: Order)
    requires Consistent(h) && id in h.orders && o.size > 0
    ensures Consistent(Requeued(h, id, o))
  {
    Detach(h, id);
    Attach(Detached(h, id), id, o);
    RequeuedIs(h, id, o);
  }

  lemma WholeFillDetaches(h: Held, id: int, size: int)
    requires Consistent(h) && id in h.orders && size >= h.orders[id].size
    ensures OnFill(h, id, size) == Detached(h, id)
  {
    var o := h.orders[id];
    ListedCounts(o.side, h.Rows(o.side), SumsOn(h.orders, o.side));
    TwoStepRemoval(o.side, h.Rows(o.side), o.price, o.size);
  }

  lemma FillKeeps(h: Held, id: int, size: int)
    requires Consistent(h)
    ensures Consistent(OnFill(h, id, size))
  {
    if id in h.orders {
      if size >= h.orders[id].size {
        WholeFillDetaches(h, id, size);
        Detach(h, id);
      } else {
        PartFill(h, id, size);
      }
    }
  }

  lemma AddKeeps(h: Held, id: int, side: Side, price: int, size: int)
    requires Consistent(h)
    ensures Consistent(OnAdd(h, id, side, price, size))
  {
    if price != UNDEF_PRICE && size > 0 {
      if id in h.orders {
        Requeue(h, id, Order(side, price, size));
      } else {
        Attach(h, id, Order(side, price, size));
      }
    }
  }

  /** A modify that would put the level on the other side from the order. */
  predicate CrossesSides(h: Held, record: MboRecord) {
    && record.action.ModifyOrder? && record.side.Some? && ToInt32(record.size) > 0
    && record.orderId in h.orders && h.orders[record.orderId].side != record.side.value
  }

  lemma DropKeeps(h: Held)
    ensures Consistent(h.Drop()) <==> Consistent(h)
  {
  }

  lemma ModifyKeeps(h: Held, id: int, side: Side, price: int, size: int)
    requires Consistent(h)
    requires id in h.orders && size > 0 ==> h.orders[id].side == side
    ensures Consistent(OnModify(h, id, side, price, size))
  {
    if id !in h.orders {
      if price != UNDEF_PRICE && size > 0 {
        Attach(h, id, Order(side, price, size));
        DropKeeps(Attached(h, id, Order(side, price, size)));
      }
    } else if size <= 0 {
      Detach(h, id);
    } else {
      Requeue(h, id, Order(side, price, size));
    }
  }

  /** The level such a modify adds is one no held order accounts for. */
  lemma CrossingBreaks(h: Held, id: int, side: Side, price: int, size: int)
    requires Consistent(h) && id in h.orders && h.orders[id].side != side && size > 0
    ensures !Consistent(OnModify(h, id, side, price, size))
  {
    Detach(h, id);
    CrossedSums(h, id, side, price, size);
    CrossedLists(Detached(h, id), OnModify(h, id, side, price, size), side, price, size);
  }

  lemma CrossedSums(h: Held, id: int, side: Side, price: int, size: int)
    requires id in h.orders && h.orders[id].side != side && size > 0
    ensures var freed, after := Detached(h, id), OnModify(h, id, side, price, size);
            && after.Rows(side) == Added(side, freed.Rows(side), price, size, 1)
            && forall p :: SumsOn(after.orders, side)(p) == SumsOn(freed.orders, side)(p)
  {
    var freed, after := Detached(h, id), OnModify(h, id, side, price, size);
    var moved := h.orders[id].(price := price, size := size);
    assert after.orders == freed.orders[id := moved];
    WithElsewhere(freed.orders, id, moved);
    assert Other(moved.side) == side;
  }

  lemma CrossedLists(freed: Held, after: Held, side: Side, price: int, size: int)
    requires Consistent(freed) && size > 0
    requires after.Rows(side) == Added(side, freed.Rows(side), price, size, 1)
    requires forall p :: SumsOn(after.orders, side)(p) == SumsOn(freed.orders, side)(p)
    ensures !Consistent(after)
  {
    RestingSized(freed.orders, side, price);
    Unaccounted(side, freed.Rows(side), SumsOn(freed.orders, side), price, size);
    if Consistent(after) {
      SameLists(side, after.Rows(side), SumsOn(after.orders, side), SumsOn(freed.orders, side));
    }
  }

  lemma ClearedConsistent(h: Held)
    ensures Consistent(Cleared(h))
  {
  }

  /** A record keeps the vectors equal to the sums exactly when it is no modify across sides. */
  lemma EditKeepsIff(h: Held, record: MboRecord)
    requires Consistent(h)
    ensures Consistent(Edited(h, record)) <==> !CrossesSides(h, record)
  {
    var id, price, size := record.orderId, record.price, ToInt32(record.size);
    if record.action.Reset? {
      ClearedConsistent(h);
    } else if record.side.Some? {
      var side := record.side.value;
      match record.action
      case AddOrder => AddKeeps(h, id, side, price, size);
      case CancelOrder => if id in h.orders { Detach(h, id); }
      case ModifyOrder =>
        if CrossesSides(h, record) {
          CrossingBreaks(h, id, side, price, size);
        } else {
          ModifyKeeps(h, id, side, price, size);
        }
      case FillOrder => FillKeeps(h, id, size);
      case _ =>
    }
  }

  /** No record of the stream modifies a held order on the other side. */
  predicate SidesKept(b: Builder, records: seq<MboRecord>) {
    records != [] ==>
      var n := |records| - 1;
      SidesKept(b, records[..n]) && !CrossesSides(Flagged(Run(b, records[..n]), records[n].snapshot).held, records[n])
  }

  /** After every stream whose modifies keep their side, each vector is best first and lists exactly the sums. */
  lemma {:induction false} RunConsistent(b: Builder, records: seq<MboRecord>)
    requires Consistent(b.held) && SidesKept(b, records)
    ensures Consistent(Run(b, records).held)
  {
    if records != [] {
      var n := |records| - 1;
      RunConsistent(b, records[..n]);
      var before := Run(b, records[..n]);
      ClearedConsistent(before.held);
      EditKeepsIff(Flagged(before, records[n].snapshot).held, records[n]);
    }
  }

  /** Read off consistency: a price is listed exactly when an order rests there, once, with its sum and its number. */
  lemma ListedOnce(h: Held, side: Side, price: int)
    requires Consistent(h)
    ensures (exists l :: l in h.Rows(side) && l.price == price) <==>
            (exists id :: id in h.orders && RestsAt(h.orders[id], side, price))
    ensures forall i, j :: 0 <= i < j < |h.Rows(side)| ==> h.Rows(side)[i].price != h.Rows(side)[j].price
    ensures forall l :: l in h.Rows(side) && l.price == price ==>
              Sum(l.size, l.count) == Resting(h.orders, side, price) && l.size > 0
  {
    RestingSized(h.orders, side, price);
    RestingSome(h.orders, side, price);
    var rows := h.Rows(side);
    ListsAt(side, rows, SumsOn(h.orders, side), price);
    LevelAtIs(side, rows, price);
    forall i, j | 0 <= i < j < |rows| ensures rows[i].price != rows[j].price {
      assert Better(side, rows[i].price, rows[j].price);
    }
  }

  predicate Snapshotted(records: seq<MboRecord>) { exists r :: r in records && r.snapshot }

  lemma SnapshottedMore(records: seq<MboRecord>)
    requires records != []
    ensures Snapshotted(records) <==> Snapshotted(records[..|records| - 1]) || records[|records| - 1].snapshot
  {
    assert records == records[..|records| - 1] + [records[|records| - 1]];
  }

  /** A record's own edit moves neither flag. */
  lemma FlagsApplied(b: Builder, record: MboRecord)
    ensures var after, flagged := Applied(b, record), Flagged(b, record.snapshot);
            after.inSnapshot == flagged.inSnapshot && after.complete == flagged.complete
  {
  }

  /** The book is complete exactly when a snapshot has ended and no later one is still arriving. */
  lemma {:induction false} CompleteAfterSnapshot(b: Builder, records: seq<MboRecord>)
    requires b == Builder(EMPTY, false, false)
    ensures var end := Run(b, records);
            && end.inSnapshot == (records != [] && records[|records| - 1].snapshot)
            && (end.complete <==> !end.inSnapshot && Snapshotted(records))
  {
    if records != [] {
      var n := |records| - 1;
      CompleteAfterSnapshot(b, records[..n]);
      FlagsApplied(Run(b, records[..n]), records[n]);
      SnapshottedMore(records);
      if n > 0 {
        SnapshottedMore(records[..n]);
      }
    }
  }

  // ---- the builders themselves ------------------------------------------

  class MboBuilder {
    const book: OrderBook
    var orders: map<int, Order>
    var inSnapshot: bool
    var dropped: int

    ghost function View(): Builder
      reads this, book
    {
      Builder(Held(orders, book.bids, book.asks, dropped), inSnapshot, book.complete)
    }

    constructor ()
      ensures View() == Builder(EMPTY, false, false)
      ensures fresh(book)
    {
      book := new OrderBook();
      orders, inSnapshot, dropped := map[], false, 0;
    }

    ghost predicate InOrder()
      reads this, book
    {
      Sorted(Bid, book.bids) && Sorted(Ask, book.asks)
    }

    method Apply(record: MboRecord) returns (trade: Option<Trade>)
      requires InOrder()
      modifies this, book
      ensures InOrder()
      ensures View() == Applied(old(View()), record)
      ensures trade == Tape(record)
    {
      if record.snapshot {
        if !inSnapshot {
          BeginSnapshot();
        }
      } else if inSnapshot {
        EndSnapshot();
      }
      trade := None;
      var size := ToInt32(record.size);
      if record.action.Match? {
        var aggressor := if record.side.None? then 0 else record.side.value.Sign();
        return Some(Trade(record.price as real / PRICE_SCALE, size, aggressor));
      }
      if record.action.Reset? {
        book.Clear();
        orders := map[];
        return;
      }
      if record.action.Nothing? || record.side.None? {
        return;
      }
      var side := record.side.value;
      match record.action {
        case AddOrder => ApplyAdd(record.orderId, side, record.price, size);
        case CancelOrder => ApplyCancel(record.orderId);
        case ModifyOrder => ApplyModify(record.orderId, side, record.price, size);
        case FillOrder => ApplyFill(record.orderId, size);
        case _ =>
      }
    }

    method BeginSnapshot()
      requires !inSnapshot
      modifies this, book
      ensures View() == Flagged(old(View()), true)
      ensures InOrder()
    {
      inSnapshot := true;
      book.Clear();
      orders := map[];
      book.complete := false;
    }

    method EndSnapshot()
      requires inSnapshot
      modifies this, book
      ensures View() == Flagged(old(View()), false)
      ensures book.bids == old(book.bids) && book.asks == old(book.asks)
    {
      inSnapshot := false;
      book.complete := true;
    }

    method ApplyAdd(id: int, side: Side, price: int, size: int)
      requires InOrder()
      modifies this, book
      ensures InOrder()
      ensures View() == old(View()).(held := OnAdd(old(View()).held, id, side, price, size))
    {
      if price == UNDEF_PRICE || size <= 0 {
        return;
      }
      if id in orders {
        TakeOff(orders[id].side, orders[id].price, orders[id].size, 1);
      }
      orders := orders[id := Order(side, price, size)];
      PutOn(side, price, size);
    }

    method ApplyCancel(id: int)
      requires InOrder()
      modifies this, book
      ensures InOrder()
      ensures View() == old(View()).(held := OnCancel(old(View()).held, id))
    {
      if id !in orders {
        dropped := dropped + 1;
        return;
      }
      TakeOff(orders[id].side, orders[id].price, orders[id].size, 1);
      orders := orders - {id};
    }

    method ApplyModify(id: int, side: Side, price: int, size: int)
      requires InOrder()
      modifies this, book
      ensures InOrder()
      ensures View() == old(View()).(held := OnModify(old(View()).held, id, side, price, size))
    {
      if id !in orders {
        if price != UNDEF_PRICE && size > 0 {
          orders := orders[id := Order(side, price, size)];
          PutOn(side, price, size);
        }
        dropped := dropped + 1;
        return;
      }
      TakeOff(orders[id].side, orders[id].price, orders[id].size, 1);
      if size <= 0 {
        orders := orders - {id};
      } else {
        orders := orders[id := orders[id].(price := price, size := size)];
        PutOn(side, price, size);
      }
    }

    method ApplyFill(id: int, size: int)
      requires InOrder()
      modifies this, book
      ensures InOrder()
      ensures View() == old(View()).(held := OnFill(old(View()).held, id, size))
    {
      if id !in orders {
        dropped := dropped + 1;
        return;
      }
      var filled := if size < orders[id].size then size else orders[id].size;
      var o := orders[id];
      orders := orders[id := o.(size := o.size - filled)];
      TakeOff(o.side, o.price, filled, 0);
      if orders[id].size <= 0 {
        TakeOff(o.side, o.price, 0, 1);
        orders := orders - {id};
        assert orders == old(orders) - {id};
      }
    }

    /** The book's add and remove, seen from here. */
    method PutOn(side: Side, price: int, size: int)
      requires InOrder()
      modifies book
      ensures InOrder()
      ensures View() == old(View()).(held := old(View()).held.Add(side, price, size))
    {
      AddEdits(side, book.Rows(side), price, size, 1);
      book.Add(side, price, size, 1);
      assert book.Rows(Bid) == book.bids && book.Rows(Ask) == book.asks;
    }

    method TakeOff(side: Side, price: int, size: int, count: int)
      requires InOrder()
      modifies book
      ensures InOrder()
      ensures View() == old(View()).(held := old(View()).held.Remove(side, price, size, count))
    {
      RemoveEdits(side, book.Rows(side), price, size, count);
      book.Remove(side, price, size, count);
      assert book.Rows(Bid) == book.bids && book.Rows(Ask) == book.asks;
    }

    /** In a consistent book, what would stand in front of a new order: the size of every order held at that price. */
    method QueueAhead(side: Side, price: int) returns (ahead: int)
      requires Consistent(View().held)
      ensures ahead == Resting(orders, side, price).size
    {
      assert Rows(side) == View().held.Rows(side);
      ListsAt(side, Rows(side), SumsOn(orders, side), price);
      RestingSized(orders, side, price);
      LevelAtIs(side, Rows(side), price);
      var level := book.Find(side, price);
      ahead := if level.Some? then level.value.size else 0;
    }

    function Rows(side: Side): seq<PriceLevel>
      reads book
    {
      book.Rows(side)
    }
  }

  /** One of the ten rows of a record: unsigned sizes and counts, as sent. */
  datatype BidAskPair = BidAskPair(bidPrice: int, askPrice: int, bidSize: nat, askSize: nat, bidCount: nat, askCount: nat) {
    function Price(side: Side): int { if side.Bid? then bidPrice else askPrice }

    function Size(side: Side): nat { if side.Bid? then bidSize else askSize }

    function Count(side: Side): nat { if side.Bid? then bidCount else askCount }

    predicate Quotes(side: Side) { Price(side) != UNDEF_PRICE && Size(side) > 0 }
  }

  datatype Mbp10Record = Mbp10Record(matched: bool, price: int, size: nat, side: Option<Side>, levels: seq<BidAskPair>)

  /** The last word of a record on a price, if it says anything of it. */
  function LastWord(levels: seq<BidAskPair>, side: Side, price: int): Option<PriceLevel> {
    if levels == [] then None
    else
      var last := levels[|levels| - 1];
      if last.Quotes(side) && last.Price(side) == price
      then if ToInt32(last.Size(side)) > 0 then Some(PriceLevel(price, ToInt32(last.Size(side)), ToInt32(last.Count(side)))) else None
      else LastWord(levels[..|levels| - 1], side, price)
  }

  /** One side is what the record says, however often it repeats a price. */
  ghost predicate Says(side: Side, rows: seq<PriceLevel>, levels: seq<BidAskPair>) {
    Sorted(side, rows) && forall l: PriceLevel :: l in rows <==> LastWord(levels, side, l.price) == Some(l)
  }

  /** One side after one row of a record. */
  function WithPair(side: Side, rows: seq<PriceLevel>, pair: BidAskPair): seq<PriceLevel> {
    if pair.Quotes(side) then Replaced(side, rows, pair.Price(side), ToInt32(pair.Size(side)), ToInt32(pair.Count(side)))
    else rows
  }

  lemma NextWord(side: Side, rows: seq<PriceLevel>, levels: seq<BidAskPair>, pair: BidAskPair)
    requires Says(side, rows, levels)
    ensures Says(side, WithPair(side, rows, pair), levels + [pair])
  {
    ReplaceEdits(side, rows, pair.Price(side), ToInt32(pair.Size(side)), ToInt32(pair.Count(side)));
    assert (levels + [pair])[..|levels|] == levels;
  }

  class Mbp10Builder {
    const book: OrderBook

    constructor ()
      ensures fresh(book) && book.bids == [] && book.asks == [] && !book.complete
    {
      book := new OrderBook();
    }

    method ApplyPair(pair: BidAskPair)
      requires Sorted(Bid, book.bids) && Sorted(Ask, book.asks)
      modifies book
      ensures book.bids == WithPair(Bid, old(book.bids), pair) && book.asks == WithPair(Ask, old(book.asks), pair)
    {
      assert book.Rows(Bid) == book.bids && book.Rows(Ask) == book.asks;
      if pair.bidPrice != UNDEF_PRICE && pair.bidSize > 0 {
        book.SetLevel(Bid, pair.bidPrice, ToInt32(pair.bidSize), ToInt32(pair.bidCount));
        assert book.Rows(Bid) == book.bids && book.Rows(Ask) == book.asks;
      }
      if pair.askPrice != UNDEF_PRICE && pair.askSize > 0 {
        book.SetLevel(Ask, pair.askPrice, ToInt32(pair.askSize), ToInt32(pair.askCount));
        assert book.Rows(Bid) == book.bids && book.Rows(Ask) == book.asks;
      }
    }

    /**
     * The book is replaced from the record: a price stands exactly when the
     * record's last word on it gives it size. A trade record yields its trade.
     */
    method Apply(record: Mbp10Record) returns (trade: Option<Trade>)
      modifies book
      ensures Says(Bid, book.bids, record.levels) && Says(Ask, book.asks, record.levels)
      ensures book.complete
      ensures trade == if record.matched then Some(TradeOf(record.price, record.size, record.side)) else None
    {
      var levels := record.levels;
      book.Clear();
      var i := 0;
      while i < |levels|
        invariant 0 <= i <= |levels|
        invariant Says(Bid, book.bids, levels[..i]) && Says(Ask, book.asks, levels[..i])
      {
        NextWord(Bid, book.bids, levels[..i], levels[i]);
        NextWord(Ask, book.asks, levels[..i], levels[i]);
        assert levels[..i + 1] == levels[..i] + [levels[i]];
        ApplyPair(levels[i]);
        i := i + 1;
      }
      book.complete := true;
      assert levels[..|levels|] == levels;
      if !record.matched {
        return None;
      }
      var aggressor := if record.side.None? then 0 else record.side.value.Sign();
      return Some(Trade(record.price as real / PRICE_SCALE, ToInt32(record.size), aggressor));
    }
  }
}
