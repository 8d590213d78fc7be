/** The aggregated book: each side one vector of price levels, best first. */
module OrderBooks {
  import opened Common
  import opened Orders

  /** Fixed-point units in a point. */
  const PRICE_SCALE: real := 1000000000.0

  /** Levels a side a snapshot can carry. */
  const MAX_DEPTH := 32

  datatype PriceLevel = PriceLevel(price: int, size: int, count: int) {
    function InPoints(): Level { Level(price as real / PRICE_SCALE, size, count) }
  }

  /** Bids are kept descending and asks ascending, so that better is earlier. */
  predicate Better(side: Side, a: int, b: int) { if side.Bid? then a > b else a < b }

  predicate Sorted(side: Side, rows: seq<PriceLevel>) {
    forall i, j :: 0 <= i < j < |rows| ==> Better(side, rows[i].price, rows[j].price)
  }

  /** Where price sits, or would sit: the first level not better than it. */
  function Place(side: Side, rows: seq<PriceLevel>, price: int): (at: nat)
    ensures at <= |rows|
  {
    if rows == [] || !Better(side, rows[0].price, price) then 0 else 1 + Place(side, rows[1..], price)
  }

  predicate Found(side: Side, rows: seq<PriceLevel>, price: int) {
    var at := Place(side, rows, price);
    at < |rows| && rows[at].price == price
  }

  function Inserted(rows: seq<PriceLevel>, at: nat, level: PriceLevel): seq<PriceLevel>
    requires at <= |rows|
  {
    rows[..at] + [level] + rows[at..]
  }

  function Added(side: Side, rows: seq<PriceLevel>, price: int, size: int, count: int): seq<PriceLevel> {
    var at := Place(side, rows, price);
    if Found(side, rows, price) then rows[at := PriceLevel(price, rows[at].size + size, rows[at].count + count)]
    else Inserted(rows, at, PriceLevel(price, size, count))
  }

  function Removed(side: Side, rows: seq<PriceLevel>, price: int, size: int, count: int): seq<PriceLevel> {
    var at := Place(side, rows, price);
    if !Found(side, rows, price) then rows
    else
      var left := PriceLevel(price, rows[at].size - size, rows[at].count - count);
      if left.size <= 0 || left.count <= 0 then Dropped(rows, at) else rows[at := left]
  }

  function Replaced(side: Side, rows: seq<PriceLevel>, price: int, size: int, count: int): seq<PriceLevel> {
    var at := Place(side, rows, price);
    if size <= 0 then if Found(side, rows, price) then Dropped(rows, at) else rows
    else if Found(side, rows, price) then rows[at := PriceLevel(price, size, count)]
    else Inserted(rows, at, PriceLevel(price, size, count))
  }

  // ---- what the binary search finds -------------------------------------

  lemma {:induction false} PlaceIs(side: Side, rows: seq<PriceLevel>, price: int, at: nat)
    requires at <= |rows|
    requires forall i :: 0 <= i < at ==> Better(side, rows[i].price, price)
    requires at < |rows| ==> !Better(side, rows[at].price, price)
    ensures Place(side, rows, price) == at
  {
    if at > 0 {
      assert Better(side, rows[0].price, price);
      PlaceIs(side, rows[1..], price, at - 1);
    }
  }

  lemma {:induction false} PlaceSplits(side: Side, rows: seq<PriceLevel>, price: int)
    ensures var at := Place(side, rows, price);
            && (forall i :: 0 <= i < at ==> Better(side, rows[i].price, price))
            && (at < |rows| ==> !Better(side, rows[at].price, price))
  {
    if rows != [] && Better(side, rows[0].price, price) {
      PlaceSplits(side, rows[1..], price);
    }
  }

  /** In a sorted vector a level is found exactly when one is listed, and there is one. */
  lemma FoundIsListed(side: Side, rows: seq<PriceLevel>, price: int)
    requires Sorted(side, rows)
    ensures var at := Place(side, rows, price);
            && (forall i :: at < i < |rows| ==> Better(side, price, rows[i].price))
            && (Found(side, rows, price) <==> exists l :: l in rows && l.price == price)
            && (!Found(side, rows, price) && at < |rows| ==> Better(side, price, rows[at].price))
  {
    PlaceSplits(side, rows, price);
    var at := Place(side, rows, price);
    if at < |rows| {
      forall i | at < i < |rows| ensures Better(side, price, rows[i].price) {
        assert Better(side, rows[at].price, rows[i].price);
      }
    }
    if Found(side, rows, price) {
      assert rows[at] in rows;
    }
  }

  // ---- what each edit leaves --------------------------------------------

  /** The levels of rows, with what stands at price replaced by level, or by nothing. */
  ghost predicate Edits(side: Side, rows: seq<PriceLevel>, rows': seq<PriceLevel>, price: int, level: Option<PriceLevel>) {
    && Sorted(side, rows')
    && forall l :: l in rows' <==> (l in rows && l.price != price) || Some(l) == level
  }

  /** What stands at price. */
  function LevelAt(side: Side, rows: seq<PriceLevel>, price: int): Option<PriceLevel> {
    if Found(side, rows, price) then Some(rows[Place(side, rows, price)]) else None
  }

  lemma LevelAtIs(side: Side, rows: seq<PriceLevel>, price: int)
    requires Sorted(side, rows)
    ensures forall l :: l in rows && l.price == price <==> LevelAt(side, rows, price) == Some(l)
  {
    FoundIsListed(side, rows, price);
    forall l | l in rows && l.price == price ensures LevelAt(side, rows, price) == Some(l) {
      var i :| 0 <= i < |rows| && rows[i] == l;
      PlaceSplits(side, rows, price);
    }
  }

  lemma InsertedEdits(side: Side, rows: seq<PriceLevel>, level: PriceLevel)
    requires Sorted(side, rows) && !Found(side, rows, level.price)
    ensures Edits(side, rows, Inserted(rows, Place(side, rows, level.price), level), level.price, Some(level))
  {
    FoundIsListed(side, rows, level.price);
    PlaceSplits(side, rows, level.price);
  }

  lemma UpdatedEdits(side: Side, rows: seq<PriceLevel>, level: PriceLevel)
    requires Sorted(side, rows) && Found(side, rows, level.price)
    ensures Edits(side, rows, rows[Place(side, rows, level.price) := level], level.price, Some(level))
  {
    var at := Place(side, rows, level.price);
    var rows' := rows[at := level];
    assert forall i :: 0 <= i < |rows| ==> rows'[i].price == rows[i].price;
    forall l | l in rows && l.price != level.price ensures l in rows' {
      var i :| 0 <= i < |rows| && rows[i] == l;
      assert rows'[i] == l;
    }
    forall l | l in rows' ensures (l in rows && l.price != level.price) || l == level {
      var i :| 0 <= i < |rows| && rows'[i] == l;
      LevelAtIs(side, rows, level.price);
      PlaceSplits(side, rows, level.price);
      assert i != at ==> Better(side, rows[Min(i, at)].price, rows[Max(i, at)].price);
    }
    assert rows'[at] == level;
  }

  /** Where each level left by an erasure was. */
  function Before(at: nat, k: nat): nat { if k < at then k else k + 1 }

  lemma DroppedAt(rows: seq<PriceLevel>, at: nat)
    requires at < |rows|
    ensures |Dropped(rows, at)| == |rows| - 1
    ensures forall k :: 0 <= k < |rows| - 1 ==> Dropped(rows, at)[k] == rows[Before(at, k)]
  {
  }

  lemma DroppedLevels(rows: seq<PriceLevel>, at: nat, l: PriceLevel)
    requires at < |rows|
    ensures l in Dropped(rows, at) <==> exists i :: 0 <= i < |rows| && i != at && rows[i] == l
  {
    DroppedAt(rows, at);
    if i :| 0 <= i < |rows| && i != at && rows[i] == l {
      var k := if i < at then i else i - 1;
      assert Before(at, k) == i && Dropped(rows, at)[k] == l;
    }
    if l in Dropped(rows, at) {
      var k :| 0 <= k < |rows| - 1 && Dropped(rows, at)[k] == l;
      assert rows[Before(at, k)] == l;
    }
  }

  lemma DroppedEdits(side: Side, rows: seq<PriceLevel>, price: int)
    requires Sorted(side, rows) && Found(side, rows, price)
    ensures Edits(side, rows, Dropped(rows, Place(side, rows, price)), price, None)
  {
    var at := Place(side, rows, price);
    forall l ensures l in Dropped(rows, at) <==> l in rows && l.price != price {
      DroppedLevels(rows, at, l);
      OnlyPlace(side, rows, at, l);
    }
    DroppedSorted(side, rows, at);
  }

  lemma OnlyPlace(side: Side, rows: seq<PriceLevel>, at: nat, l: PriceLevel)
    requires Sorted(side, rows) && at < |rows|
    ensures (exists i :: 0 <= i < |rows| && i != at && rows[i] == l) <==> l in rows && l.price != rows[at].price
  {
    if i :| 0 <= i < |rows| && i != at && rows[i] == l {
      assert Better(side, rows[Min(i, at)].price, rows[Max(i, at)].price);
    }
  }

  lemma DroppedSorted(side: Side, rows: seq<PriceLevel>, at: nat)
    requires Sorted(side, rows) && at < |rows|
    ensures Sorted(side, Dropped(rows, at))
  {
    DroppedAt(rows, at);
  }

  lemma NothingEdited(side: Side, rows: seq<PriceLevel>, price: int)
    requires Sorted(side, rows) && !Found(side, rows, price)
    ensures Edits(side, rows, rows, price, None)
  {
    FoundIsListed(side, rows, price);
  }

  /** The level an add leaves: the old one grown, or a new one. */
  function Grown(level: Option<PriceLevel>, price: int, size: int, count: int): PriceLevel {
    if level.Some? then PriceLevel(price, level.value.size + size, level.value.count + count)
    else PriceLevel(price, size, count)
  }

  /** The level a removal leaves, if any. */
  function Shrunk(level: Option<PriceLevel>, size: int, count: int): Option<PriceLevel> {
    if level.None? || level.value.size - size <= 0 || level.value.count - count <= 0 then None
    else Some(PriceLevel(level.value.price, level.value.size - size, level.value.count - count))
  }

  lemma AddEdits(side: Side, rows: seq<PriceLevel>, price: int, size: int, count: int)
    requires Sorted(side, rows)
    ensures Edits(side, rows, Added(side, rows, price, size, count), price,
                  Some(Grown(LevelAt(side, rows, price), price, size, count)))
  {
    var level := Grown(LevelAt(side, rows, price), price, size, count);
    if Found(side, rows, price) {
      UpdatedEdits(side, rows, level);
    } else {
      InsertedEdits(side, rows, level);
    }
  }

  lemma RemovedIs(side: Side, rows: seq<PriceLevel>, price: int, size: int, count: int)
    requires Found(side, rows, price)
    ensures var at, left := Place(side, rows, price), Shrunk(LevelAt(side, rows, price), size, count);
            && rows[at].price == price && (left.Some? ==> left.value.price == price)
            && Removed(side, rows, price, size, count) == if left.Some? then rows[at := left.value] else Dropped(rows, at)
  {
  }

  lemma RemoveEdits(side: Side, rows: seq<PriceLevel>, price: int, size: int, count: int)
    requires Sorted(side, rows)
    ensures Edits(side, rows, Removed(side, rows, price, size, count), price, Shrunk(LevelAt(side, rows, price), size, count))
  {
    var left := Shrunk(LevelAt(side, rows, price), size, count);
    if !Found(side, rows, price) {
      NothingEdited(side, rows, price);
    } else {
      RemovedIs(side, rows, price, size, count);
      if left.Some? {
        UpdatedEdits(side, rows, left.value);
      } else {
        DroppedEdits(side, rows, price);
      }
    }
  }

  lemma ReplaceEdits(side: Side, rows: seq<PriceLevel>, price: int, size: int, count: int)
    requires Sorted(side, rows)
    ensures Edits(side, rows, Replaced(side, rows, price, size, count), price,
                  if size > 0 then Some(PriceLevel(price, size, count)) else None)
  {
    if size <= 0 {
      if Found(side, rows, price) {
        DroppedEdits(side, rows, price);
      } else {
        NothingEdited(side, rows, price);
      }
    } else if Found(side, rows, price) {
      UpdatedEdits(side, rows, PriceLevel(price, size, count));
    } else {
      InsertedEdits(side, rows, PriceLevel(price, size, count));
    }
  }

  /** Taking the size off and then the order off is taking both off at once. */
  lemma TwoStepRemoval(side: Side, rows: seq<PriceLevel>, price: int, size: int)
    requires Sorted(side, rows)
    requires forall l :: l in rows ==> l.count > 0
    ensures Removed(side, Removed(side, rows, price, size, 0), price, 0, 1) == Removed(side, rows, price, size, 1)
  {
    var at := Place(side, rows, price);
    var once := Removed(side, rows, price, size, 0);
    if Found(side, rows, price) {
      assert rows[at] in rows;
      PlaceSplits(side, rows, price);
      if rows[at].size - size > 0 {
        PlaceIs(side, once, price, at);
        assert Dropped(once, at) == Dropped(rows, at);
      } else {
        RemoveEdits(side, rows, price, size, 0);
        FoundIsListed(side, once, price);
      }
    }
  }

  // ---- the book itself --------------------------------------------------

  function InPoints(rows: seq<PriceLevel>): seq<Level> { seq(|rows|, i requires 0 <= i < |rows| => rows[i].InPoints()) }

  /** How many levels a side a snapshot of this depth carries at most. */
  function Kept(depth: int): nat { Min(Max(depth, 0), MAX_DEPTH) }

  lemma PointsBack(price: int)
    ensures price as real / PRICE_SCALE * 1000000000.0 == price as real
  {
  }

  /** A snapshot shows the best levels of a side, as many as asked for and at most thirty-two, at their prices in points. */
  lemma SnapshotIs(rows: seq<PriceLevel>, depth: int, i: nat)
    ensures var shown := InPoints(rows[..Min(Kept(depth), |rows|)]);
            && |shown| == (if depth < 0 then 0 else if depth < 32 then Min(depth, |rows|) else Min(32, |rows|))
            && (i < |shown| ==> shown[i].price * 1000000000.0 == rows[i].price as real
                                && shown[i].size == rows[i].size && shown[i].count == rows[i].count)
  {
    if i < |rows| {
      PointsBack(rows[i].price);
    }
  }

  class OrderBook {
    var bids: seq<PriceLevel>
    var asks: seq<PriceLevel>
    var complete: bool

    constructor ()
      ensures bids == [] && asks == [] && !complete
    {
      bids, asks, complete := [], [], false;
    }

    function Rows(side: Side): seq<PriceLevel>
      reads this
    {
      if side.Bid? then bids else asks
    }

    method Clear()
      modifies this`bids, this`asks
      ensures bids == [] && asks == []
    {
      bids, asks := [], [];
    }

    method SetRows(side: Side, rows: seq<PriceLevel>)
      modifies this`bids, this`asks
      ensures Rows(side) == rows
      ensures forall other :: other != side ==> Rows(other) == old(Rows(other))
    {
      if side.Bid? {
        bids := rows;
      } else {
        asks := rows;
      }
    }

    /** The binary search: halves the range until one place is left. */
    method Position(side: Side, price: int) returns (at: nat, found: bool)
      requires Sorted(side, Rows(side))
      ensures at == Place(side, Rows(side), price) && found == Found(side, Rows(side), price)
    {
      var rows := Rows(side);
      at := 0;
      var length := |rows|;
      while length > 0
        invariant 0 <= at <= at + length <= |rows|
        invariant forall i :: 0 <= i < at ==> Better(side, rows[i].price, price)
        invariant forall i :: at + length <= i < |rows| ==> !Better(side, rows[i].price, price)
      {
        var half := length / 2;
        var middle := at + half;
        if Better(side, rows[middle].price, price) {
          at := middle + 1;
          length := length - half - 1;
        } else {
          length := half;
        }
      }
      PlaceIs(side, rows, price, at);
      found := at < |rows| && rows[at].price == price;
    }

    method Add(side: Side, price: int, size: int, count: int)
      requires Sorted(side, Rows(side))
      modifies this`bids, this`asks
      ensures Rows(side) == Added(side, old(Rows(side)), price, size, count)
      ensures forall other :: other != side ==> Rows(other) == old(Rows(other))
    {
      var at, found := Position(side, price);
      var rows := Rows(side);
      if found {
        rows := rows[at := rows[at].(size := rows[at].size + size)];
        rows := rows[at := rows[at].(count := rows[at].count + count)];
      } else {
        rows := rows[..at] + [PriceLevel(price, size, count)] + rows[at..];
      }
      SetRows(side, rows);
    }

    method Remove(side: Side, price: int, size: int, count: int)
      requires Sorted(side, Rows(side))
      modifies this`bids, this`asks
      ensures Rows(side) == Removed(side, old(Rows(side)), price, size, count)
      ensures forall other :: other != side ==> Rows(other) == old(Rows(other))
    {
      var at, found := Position(side, price);
      if !found {
        return;
      }
      var rows := Rows(side);
      ghost var before := rows;
      rows := rows[at := rows[at].(size := rows[at].size - size)];
      rows := rows[at := rows[at].(count := rows[at].count - count)];
      if rows[at].size <= 0 || rows[at].count <= 0 {
        rows := rows[..at] + rows[at + 1..];
        assert rows == Dropped(before, at);
      }
      SetRows(side, rows);
    }

    method SetLevel(side: Side, price: int, size: int, count: int)
      requires Sorted(side, Rows(side))
      modifies this`bids, this`asks
      ensures Rows(side) == Replaced(side, old(Rows(side)), price, size, count)
      ensures forall other :: other != side ==> Rows(other) == old(Rows(other))
    {
      var at, found := Position(side, price);
      var rows := Rows(side);
      if size <= 0 {
        if found {
          SetRows(side, rows[..at] + rows[at + 1..]);
        }
        return;
      }
      if found {
        rows := rows[at := rows[at].(size := size)];
        rows := rows[at := rows[at].(count := count)];
      } else {
        rows := rows[..at] + [PriceLevel(price, size, count)] + rows[at..];
      }
      SetRows(side, rows);
    }

    /** The level at price: the one listed there, if there is one. */
    method Find(side: Side, price: int) returns (level: Option<PriceLevel>)
      requires Sorted(side, Rows(side))
      ensures forall l :: l in Rows(side) && l.price == price <==> level == Some(l)
    {
      LevelAtIs(side, Rows(side), price);
      var at, found := Position(side, price);
      level := if found then Some(Rows(side)[at]) else None;
    }

    /** No listed price is better than the best. */
    method Best(side: Side) returns (price: Option<int>)
      requires Sorted(side, Rows(side))
      ensures price.None? <==> Rows(side) == []
      ensures price.Some? ==> exists l :: l in Rows(side) && l.price == price.value
      ensures price.Some? ==> forall l :: l in Rows(side) ==> l.price == price.value || Better(side, price.value, l.price)
    {
      assert Rows(side) != [] ==> Rows(side)[0] in Rows(side);
      price := if Rows(side) == [] then None else Some(Rows(side)[0].price);
    }

    /** The top of each side, in points. */
    method Snapshot(depth: int) returns (out: BookSnapshot)
      ensures out.complete == complete
      ensures forall side :: out.Rows(side) == InPoints(Rows(side)[..Min(Kept(depth), |Rows(side)|)])
    {
      var n := if depth > 0 then depth else 0;
      if n > MAX_DEPTH {
        n := MAX_DEPTH;
      }
      var keptBids, keptAsks := [], [];
      var i := 0;
      while i < n && i < |bids|
        invariant 0 <= i <= n && i <= |bids|
        invariant keptBids == InPoints(bids[..i])
      {
        keptBids := keptBids + [Level(bids[i].price as real / PRICE_SCALE, bids[i].size, bids[i].count)];
        i := i + 1;
      }
      i := 0;
      while i < n && i < |asks|
        invariant 0 <= i <= n && i <= |asks|
        invariant keptAsks == InPoints(asks[..i])
      {
        keptAsks := keptAsks + [Level(asks[i].price as real / PRICE_SCALE, asks[i].size, asks[i].count)];
        i := i + 1;
      }
      out := BookSnapshot(keptBids, keptAsks, complete);
    }
  }
}
