/** What the manager, the brokers and the inventory say to each other. */
module Orders {
  import opened Common

  /** Bid is the source's side +1, Ask its side -1. */
  datatype Side = Bid | Ask {
    function Sign(): int { if Bid? then 1 else -1 }
  }

  function Other(side: Side): Side { if side.Bid? then Ask else Bid }

  /** One slot a side, the source's two-element arrays indexed by side. */
  datatype Pair<T> = Pair(bid: T, ask: T) {
    function At(side: Side): T { if side.Bid? then bid else ask }

    function With(side: Side, value: T): Pair<T> {
      if side.Bid? then Pair(value, ask) else Pair(bid, value)
    }
  }

  datatype Fill = Fill(ts: real, side: Side, price: real, size: int, fees: real, orderId: int) {
    function Signed(): int { size * side.Sign() }
  }

  datatype OrderEvent =
    | Ack(orderId: int)
    | Filled(orderId: int, fill: Option<Fill>)
    | Cancelled(orderId: int)
    | Rejected(orderId: int)

  datatype Level = Level(price: real, size: int, count: int)

  datatype BookSnapshot = BookSnapshot(bids: seq<Level>, asks: seq<Level>, complete: bool) {
    predicate TwoSided() { |bids| > 0 && |asks| > 0 && complete }

    function Rows(side: Side): seq<Level> { if side.Bid? then bids else asks }

    function Mid(): real
      requires TwoSided()
    {
      (bids[0].price + asks[0].price) / 2.0
    }

    /** The touch weighted by the size on the other side of it. */
    function Microprice(): real
      requires TwoSided()
    {
      var total := bids[0].size + asks[0].size;
      if total <= 0 then Mid()
      else (bids[0].price * asks[0].size as real + asks[0].price * bids[0].size as real) / total as real
    }
  }

  /** aggressor is +1 for a buyer, -1 for a seller, 0 where none is named. */
  datatype Trade = Trade(price: real, size: int, aggressor: int)

  datatype Quote = Quote(side: Side, price: real, size: int)

  /** The fills a batch of events carries, in order. */
  function FillsIn(events: seq<OrderEvent>): seq<Fill> {
    if events == [] then []
    else FillsIn(events[..|events| - 1]) + FillIn(events[|events| - 1])
  }

  function FillIn(event: OrderEvent): seq<Fill> {
    if event.Filled? && event.fill.Some? then [event.fill.value] else []
  }

  lemma OneFillIn(e: OrderEvent)
    ensures FillsIn([e]) == FillIn(e)
  {
    assert [e][..0] == [];
  }

  lemma {:induction false} FillsInAppend(first: seq<OrderEvent>, second: seq<OrderEvent>)
    ensures FillsIn(first + second) == FillsIn(first) + FillsIn(second)
  {
    if second == [] {
      assert first + second == first && FillsIn(first) + [] == FillsIn(first);
    } else {
      var n := |second| - 1;
      FillsInAppend(first, second[..n]);
      assert (first + second)[..|first + second| - 1] == first + second[..n];
      Associates(FillsIn(first), FillsIn(second[..n]), FillIn(second[n]));
    }
  }

  lemma QuietEvent(events: seq<OrderEvent>, e: OrderEvent)
    requires !e.Filled?
    ensures FillsIn(events + [e]) == FillsIn(events)
  {
    assert (events + [e])[..|events|] == events;
    assert FillsIn(events) + [] == FillsIn(events);
  }

  /** Net contracts of a list of fills: buys less sells. */
  function NetSize(fills: seq<Fill>): int {
    if fills == [] then 0
    else NetSize(fills[..|fills| - 1]) + fills[|fills| - 1].Signed()
  }

  lemma {:induction false} NetSizeAppend(first: seq<Fill>, second: seq<Fill>)
    ensures NetSize(first + second) == NetSize(first) + NetSize(second)
  {
    if second == [] {
      assert first + second == first;
    } else {
      var n := |second| - 1;
      NetSizeAppend(first, second[..n]);
      assert (first + second)[..|first + second| - 1] == first + second[..n];
    }
  }

  /** Contracts filled under one order id. */
  function FilledUnder(fills: seq<Fill>, id: int): int {
    if fills == [] then 0
    else
      var last := fills[|fills| - 1];
      FilledUnder(fills[..|fills| - 1], id) + if last.orderId == id then last.size else 0
  }

  lemma {:induction false} FilledUnderAppend(first: seq<Fill>, second: seq<Fill>, id: int)
    ensures FilledUnder(first + second, id) == FilledUnder(first, id) + FilledUnder(second, id)
  {
    if second == [] {
      assert first + second == first;
    } else {
      var n := |second| - 1;
      FilledUnderAppend(first, second[..n], id);
      assert (first + second)[..|first + second| - 1] == first + second[..n];
    }
  }

  /** The events that are not about one order, in order. */
  function Besides(events: seq<OrderEvent>, id: Option<int>): seq<OrderEvent> {
    if events == [] then []
    else
      var last := events[|events| - 1];
      Besides(events[..|events| - 1], id) + if Some(last.orderId) == id then [] else [last]
  }
}
