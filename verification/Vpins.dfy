/** Volume-synchronised imbalance: the tape cut into buckets of a fixed number of contracts. */
module Vpins {
  import opened Common
  import opened Orders

  // ---- which side a volume goes to --------------------------------------

  /** What of a volume counts as bought; the rest of it counts as sold. */
  function Bought(volume: real): real { volume }

  function Sold(volume: real): real { 0.0 }

  function Halved(volume: real): real { volume / 2.0 }

  /** How a trade counts: not at all for an unnamed aggressor that is ignored. */
  function PartOf(split: bool, trade: Trade): Option<real -> real> {
    if trade.aggressor > 0 then Some(Bought)
    else if trade.aggressor < 0 then Some(Sold)
    else if split then Some(Halved)
    else None
  }

  /** A share of a volume takes the same share of either part of it. */
  ghost predicate Shares(part: real -> real, volume: real, taken: real) {
    volume > 0.0 ==>
      && part(volume) * (taken / volume) == part(taken)
      && part(volume) - part(taken) == part(volume - taken)
  }

  ghost predicate Proportional(part: real -> real) { forall volume, taken :: Shares(part, volume, taken) }

  /** Neither part of a volume is negative. */
  ghost predicate Parts(part: real -> real, volume: real) { volume >= 0.0 ==> 0.0 <= part(volume) <= volume }

  lemma SplitsAreProportional()
    ensures Proportional(Bought) && Proportional(Sold) && Proportional(Halved)
  {
    forall volume, taken
      ensures Shares(Bought, volume, taken) && Shares(Sold, volume, taken) && Shares(Halved, volume, taken)
    {
      if volume > 0.0 {
        assert volume * (taken / volume) == taken;
        assert volume / 2.0 * (taken / volume) == taken / 2.0;
      }
    }
  }

  // ---- buckets ----------------------------------------------------------

  /** The two volumes of a closed bucket. */
  datatype Bucket = Bucket(buy: real, sell: real)

  /** Every bucket ever closed, oldest first, and the two volumes of the one that is open. */
  datatype Series = Series(size: Positive, split: bool, closed: seq<Bucket>, buy: real, sell: real) {
    function Fill(): real { buy + sell }

    function Plus(part: real -> real, volume: real): Series {
      this.(buy := buy + part(volume), sell := sell + (volume - part(volume)))
    }
  }

  function Opened(size: Positive, split: bool): Series { Series(size, split, [], 0.0, 0.0) }

  predicate Valid(v: Series) { 0.0 <= v.Fill() < v.size }

  function Room(v: Series): real { v.size - v.Fill() }

  /** The open bucket filled to the brim by a trade, and closed. */
  function Close(v: Series, part: real -> real): Series {
    var full := v.Plus(part, Room(v));
    full.(closed := v.closed + [Bucket(full.buy, full.sell)], buy := 0.0, sell := 0.0)
  }

  /** A volume is under n + 1 buckets. */
  predicate Under(volume: real, size: Positive, n: nat)
    decreases n
  {
    if n == 0 then volume < size else Under(volume - size, size, n - 1)
  }

  lemma {:induction false} UnderProduct(volume: real, size: Positive, n: nat)
    ensures Under(volume, size, n) <==> volume < size * (n + 1) as real
    decreases n
  {
    if n > 0 {
      UnderProduct(volume - size, size, n - 1);
      assert size * (n + 1) as real == size * n as real + size;
    }
  }

  lemma UnderSome(volume: real, size: Positive)
    ensures exists n: nat :: Under(volume, size, n)
  {
    var n := Abs((volume / size).Floor);
    UnderProduct(volume, size, n);
    assert volume / size < (n + 1) as real;
    assert volume == size * (volume / size);
    assert size * (volume / size) < size * (n + 1) as real;
  }

  lemma {:induction false} UnderMore(volume: real, size: Positive, n: nat, m: nat)
    requires Under(volume, size, n) && n <= m
    ensures Under(volume, size, m)
    decreases m
  {
    if n > 0 {
      UnderMore(volume - size, size, n - 1, m - 1);
    } else if m > 0 {
      UnderMore(volume - size, size, 0, m - 1);
    }
  }

  /** The number of whole buckets in a volume. */
  ghost predicate Counts(volume: real, size: Positive, n: nat) { Under(volume, size, n) && (n > 0 ==> !Under(volume, size, n - 1)) }

  lemma CountFrom(volume: real, size: Positive, n: nat) returns (m: nat)
    requires Under(volume, size, n)
    ensures Counts(volume, size, m)
  {
    m := n;
    while m > 0 && Under(volume, size, m - 1)
      invariant Under(volume, size, m)
    {
      m := m - 1;
    }
  }

  /** Whole buckets in a volume: what the spill loop counts down. */
  ghost function Buckets(volume: real, size: Positive): (n: nat)
    ensures Counts(volume, size, n)
  {
    assert exists n: nat :: Counts(volume, size, n) by {
      UnderSome(volume, size);
      var n: nat :| Under(volume, size, n);
      var m := CountFrom(volume, size, n);
    }
    var n: nat :| Counts(volume, size, n);
    n
  }

  lemma OneFewer(volume: real, size: Positive)
    requires volume >= size
    ensures Buckets(volume - size, size) < Buckets(volume, size)
  {
    var n, m := Buckets(volume, size), Buckets(volume - size, size);
    if m > n - 1 {
      UnderMore(volume - size, size, n - 1, m - 1);
    }
  }

  /** What a volume does to the buckets: fill, close, spill on; a remainder under the slack is let go. */
  function Poured(v: Series, part: real -> real, volume: real): (v': Series)
    requires Valid(v)
    ensures Valid(v') && v'.size == v.size && v'.split == v.split
    decreases if volume > 0.0 then Buckets(v.Fill() + volume, v.size) else 0
  {
    if volume <= 0.0 then v
    else if volume < Room(v) then v.Plus(part, volume)
    else
      OneFewer(v.Fill() + volume, v.size);
      if volume - Room(v) < EPSILON then Close(v, part) else Poured(Close(v, part), part, volume - Room(v))
  }

  // ---- the same, as the loop computes it --------------------------------

  /** The share of an amount that room is of the total. */
  function Taken(amount: real, total: real, room: real): real
    requires total > 0.0
  {
    amount * (room / total)
  }

  lemma TakenFills(buys: real, sells: real, room: real)
    requires buys + sells > 0.0
    ensures Taken(buys, buys + sells, room) + Taken(sells, buys + sells, room) == room
  {
    var share := room / (buys + sells);
    assert buys * share + sells * share == (buys + sells) * share == room;
  }

  function CloseWith(v: Series, buys: real, sells: real): Series {
    v.(closed := v.closed + [Bucket(v.buy + buys, v.sell + sells)], buy := 0.0, sell := 0.0)
  }

  function Spilled(v: Series, buys: real, sells: real): (v': Series)
    requires Valid(v)
    ensures Valid(v') && v'.size == v.size && v'.split == v.split
    decreases if buys + sells > 0.0 then Buckets(v.Fill() + (buys + sells), v.size) else 0
  {
    var total := buys + sells;
    if total <= 0.0 then v
    else if total < Room(v) then v.(buy := v.buy + buys, sell := v.sell + sells)
    else
      var b, s := Taken(buys, total, Room(v)), Taken(sells, total, Room(v));
      TakenFills(buys, sells, Room(v));
      OneFewer(v.Fill() + total, v.size);
      if (buys - b) + (sells - s) < EPSILON then CloseWith(v, b, s) else Spilled(CloseWith(v, b, s), buys - b, sells - s)
  }

  /** Proportional spilling pours each part of the trade into the buckets in turn. */
  lemma {:induction false} SpilledIsPoured(v: Series, part: real -> real, volume: real)
    requires Valid(v) && Proportional(part)
    ensures Spilled(v, part(volume), volume - part(volume)) == Poured(v, part, volume)
    decreases if volume > 0.0 then Buckets(v.Fill() + volume, v.size) else 0
  {
    if volume >= Room(v) {
      PartsTaken(part, volume, Room(v));
      OneFewer(v.Fill() + volume, v.size);
      var b := part(Room(v));
      assert CloseWith(v, b, Room(v) - b) == Close(v, part);
      if volume - Room(v) >= EPSILON {
        SpilledIsPoured(Close(v, part), part, volume - Room(v));
      }
    }
  }

  lemma PartsTaken(part: real -> real, volume: real, room: real)
    requires Proportional(part) && volume > 0.0
    ensures Taken(part(volume), volume, room) == part(room)
    ensures Taken(volume - part(volume), volume, room) == room - part(room)
    ensures part(volume) - part(room) == part(volume - room)
  {
    assert Shares(part, volume, room);
    TakenFills(part(volume), volume - part(volume), room);
  }

  function Updated(v: Series, trade: Trade): (v': Series)
    requires Valid(v)
    ensures Valid(v') && v'.size == v.size && v'.split == v.split
  {
    match PartOf(v.split, trade)
    case None => v
    case Some(part) => Poured(v, part, trade.size as real)
  }

  // ---- what is read off the buckets -------------------------------------

  function Imbalance(b: Bucket, size: Positive): real { AbsReal(b.buy - b.sell) / size }

  function Imbalances(buckets: seq<Bucket>, size: Positive): seq<real> {
    seq(|buckets|, i requires 0 <= i < |buckets| => Imbalance(buckets[i], size))
  }

  function Newest<T>(s: seq<T>, n: nat): seq<T> { if |s| <= n then s else s[|s| - n..] }

  function Sum(readings: seq<real>): real {
    if readings == [] then 0.0 else Sum(readings[..|readings| - 1]) + readings[|readings| - 1]
  }

  /** Mean absolute imbalance over the last buckets closed; none before one. */
  function Value(v: Series, window: nat): Option<real> {
    var readings := Newest(Imbalances(v.closed, v.size), window);
    if readings == [] then None else Some(Sum(readings) / |readings| as real)
  }

  predicate IsShare(x: real) { 0.0 <= x <= 1.0 }

  lemma Ratio(x: real, of: Positive)
    requires 0.0 <= x <= of
    ensures IsShare(x / of)
  {
  }

  /** A closed bucket holds exactly its size. */
  predicate Full(b: Bucket, size: real) { 0.0 <= b.buy && 0.0 <= b.sell && b.buy + b.sell == size }

  predicate AllFull(buckets: seq<Bucket>, size: real) { forall i :: 0 <= i < |buckets| ==> Full(buckets[i], size) }

  /** Every imbalance is a share of its bucket. */
  lemma ImbalanceWithin(v: Series)
    requires AllFull(v.closed, v.size)
    ensures forall x :: x in Imbalances(v.closed, v.size) ==> IsShare(x)
  {
    forall i | 0 <= i < |v.closed| ensures IsShare(Imbalance(v.closed[i], v.size)) {
      assert Full(v.closed[i], v.size);
      Ratio(AbsReal(v.closed[i].buy - v.closed[i].sell), v.size);
    }
  }

  lemma {:induction false} SumWithin(readings: seq<real>)
    requires forall x :: x in readings ==> IsShare(x)
    ensures 0.0 <= Sum(readings) <= |readings| as real
  {
    if readings != [] {
      var n := |readings| - 1;
      assert readings[n] in readings;
      SumWithin(readings[..n]);
    }
  }

  lemma ValueWithin(v: Series, window: nat)
    requires AllFull(v.closed, v.size)
    ensures Value(v, window).Some? ==> IsShare(Value(v, window).value)
  {
    var readings := Newest(Imbalances(v.closed, v.size), window);
    if readings != [] {
      ImbalanceWithin(v);
      SumWithin(readings);
      Ratio(Sum(readings), |readings| as real);
    }
  }

  // ---- the series itself ------------------------------------------------

  /** A reading slid into a window, the oldest out first when it is full. */
  function Slid(readings: seq<real>, window: int, reading: real): seq<real>
    requires window >= 1
  {
    (if |readings| >= window then readings[1..] else readings) + [reading]
  }

  lemma SlidNewest(readings: seq<real>, window: int, reading: real)
    requires window >= 1
    ensures Newest(readings + [reading], window) == Slid(Newest(readings, window), window, reading)
  {
  }

  lemma OneMoreReading(closed: seq<Bucket>, b: Bucket, size: Positive, window: int)
    requires window >= 1
    ensures Newest(Imbalances(closed + [b], size), window) ==
            Slid(Newest(Imbalances(closed, size), window), window, Imbalance(b, size))
  {
    assert Imbalances(closed + [b], size) == Imbalances(closed, size) + [Imbalance(b, size)];
    SlidNewest(Imbalances(closed, size), window, Imbalance(b, size));
  }

  /** Closing only ever adds buckets. */
  lemma {:induction false} PouredGrows(v: Series, part: real -> real, volume: real)
    requires Valid(v)
    ensures |Poured(v, part, volume).closed| >= |v.closed|
    decreases if volume > 0.0 then Buckets(v.Fill() + volume, v.size) else 0
  {
    if volume > 0.0 && volume >= Room(v) && volume - Room(v) >= EPSILON {
      OneFewer(v.Fill() + volume, v.size);
      PouredGrows(Close(v, part), part, volume - Room(v));
    }
  }

  lemma UpdatedGrows(v: Series, trade: Trade)
    requires Valid(v)
    ensures |Updated(v, trade).closed| >= |v.closed|
  {
    if PartOf(v.split, trade).Some? {
      PouredGrows(v, PartOf(v.split, trade).value, trade.size as real);
    }
  }

  /** A trade split into its parts spills as its volume pours. */
  lemma PartsSpill(v: Series, part: real -> real, volume: real, buys: real, sells: real)
    requires Valid(v) && Proportional(part) && buys == part(volume) && sells == volume - part(volume)
    ensures Spilled(v, buys, sells) == Poured(v, part, volume)
  {
    SpilledIsPoured(v, part, volume);
  }

  lemma UpdatedIsSpilled(v: Series, trade: Trade, buys: real, sells: real)
    requires Valid(v) && PartOf(v.split, trade).Some?
    requires trade.aggressor > 0 ==> buys == trade.size as real && sells == 0.0
    requires trade.aggressor < 0 ==> buys == 0.0 && sells == trade.size as real
    requires trade.aggressor == 0 ==> buys == trade.size as real / 2.0 && sells == buys
    ensures Updated(v, trade) == Spilled(v, buys, sells)
  {
    SplitsAreProportional();
    PartsSpill(v, PartOf(v.split, trade).value, trade.size as real, buys, sells);
  }

  class Vpin {
    const bucket: Positive
    const window: int
    const split: bool
    var bucketsClosed: int
    var buy: real
    var sell: real
    var imbalances: seq<real>
    ghost var closed: seq<Bucket>

    ghost function View(): Series
      reads this
    {
      Series(bucket, split, closed, buy, sell)
    }

    /** The window holds the imbalances of the last buckets closed, and no others. */
    ghost predicate Sound()
      reads this
    {
      && Valid(View()) && window >= 1
      && bucketsClosed == |closed|
      && imbalances == Newest(Imbalances(closed, bucket), window)
    }

    constructor (bucket: Positive, window: int, split: bool)
      requires window >= 1
      ensures Sound() && View() == Opened(bucket, split) && this.window == window
    {
      this.bucket, this.window, this.split := bucket, window, split;
      bucketsClosed, buy, sell, imbalances, closed := 0, 0.0, 0.0, [], [];
    }

    /** Fold one trade in, and say how many buckets it closed. */
    method Update(trade: Trade) returns (newlyClosed: int)
      requires Sound()
      modifies this
      ensures Sound()
      ensures View() == Updated(old(View()), trade)
      ensures newlyClosed == |closed| - |old(closed)|
    {
      var buys, sells := 0.0, 0.0;
      if trade.aggressor > 0 {
        buys := trade.size as real;
      } else if trade.aggressor < 0 {
        sells := trade.size as real;
      } else if split {
        buys := trade.size as real / 2.0;
        sells := buys;
      } else {
        return 0;
      }
      UpdatedIsSpilled(View(), trade, buys, sells);
      newlyClosed := Spill(buys, sells);
    }

    /** Fill the open bucket, close it, and spill what is left into the next. */
    method Spill(buys0: real, sells0: real) returns (newlyClosed: int)
      requires Sound()
      modifies this
      ensures Sound()
      ensures View() == Spilled(old(View()), buys0, sells0)
      ensures newlyClosed == |closed| - |old(closed)|
    {
      newlyClosed := 0;
      var buys, sells := buys0, sells0;
      ghost var end := Spilled(View(), buys0, sells0);
      while buys + sells > 0.0
        invariant Sound()
        invariant Spilled(View(), buys, sells) == end
        invariant newlyClosed == |closed| - |old(closed)|
        decreases if buys + sells > 0.0 then Buckets(View().Fill() + (buys + sells), bucket) else 0
      {
        var room := bucket - (buy + sell);
        var total := buys + sells;
        if total < room {
          TopUp(buys, sells);
          break;
        }
        var takenBuys, takenSells := TakeShare(buys, sells, room);
        OneFewer(View().Fill() + total, bucket);
        CloseOne(takenBuys, takenSells);
        newlyClosed := newlyClosed + 1;
        buys, sells := buys - takenBuys, sells - takenSells;
        if buys + sells < EPSILON {
          break;
        }
      }
    }

    /** The shares of a trade that fill the room. */
    static method TakeShare(buys: real, sells: real, room: real) returns (takenBuys: real, takenSells: real)
      requires buys + sells > 0.0
      ensures takenBuys == Taken(buys, buys + sells, room) && takenSells == Taken(sells, buys + sells, room)
      ensures takenBuys + takenSells == room
    {
      TakenFills(buys, sells, room);
      var share := room / (buys + sells);
      takenBuys, takenSells := buys * share, sells * share;
    }

    /** A trade the open bucket has room for. */
    method TopUp(buys: real, sells: real)
      requires Sound() && 0.0 < buys + sells < Room(View())
      modifies this
      ensures Sound()
      ensures View() == old(View()).(buy := old(buy) + buys, sell := old(sell) + sells)
    {
      buy, sell := buy + buys, sell + sells;
    }

    /** The bucket is full: its reading slides into the window, and the next is open. */
    method CloseOne(buys: real, sells: real)
      requires Sound() && buys + sells == Room(View())
      modifies this
      ensures Sound()
      ensures View() == CloseWith(old(View()), buys, sells)
    {
      OneMoreReading(closed, Bucket(buy + buys, sell + sells), bucket, window);
      buy, sell := buy + buys, sell + sells;
      var kept := if |imbalances| >= window then imbalances[1..] else imbalances;
      imbalances := kept + [Imbalance(Bucket(buy, sell), bucket)];
      closed := closed + [Bucket(buy, sell)];
      bucketsClosed := bucketsClosed + 1;
      buy, sell := 0.0, 0.0;
    }

    method CurrentValue() returns (value: Option<real>)
      requires Sound()
      ensures value == Value(View(), window)
    {
      if imbalances == [] {
        return None;
      }
      return Some(Sum(imbalances) / |imbalances| as real);
    }
  }

  // ---- volume is conserved ----------------------------------------------

  function Total(buckets: seq<Bucket>): real {
    if buckets == [] then 0.0
    else Total(buckets[..|buckets| - 1]) + (buckets[|buckets| - 1].buy + buckets[|buckets| - 1].sell)
  }

  /** Every contract a series accounts for. */
  function Volume(v: Series): real { Total(v.closed) + v.Fill() }

  lemma {:induction false} TotalIs(buckets: seq<Bucket>, size: real)
    requires AllFull(buckets, size)
    ensures Total(buckets) == size * |buckets| as real
  {
    if buckets != [] {
      TotalIs(buckets[..|buckets| - 1], size);
      assert size * |buckets| as real == size * (|buckets| - 1) as real + size;
    }
  }

  /** So the buckets closed, times their size, are every contract not in the open one. */
  lemma VolumeIs(v: Series)
    requires AllFull(v.closed, v.size)
    ensures Volume(v) == v.size * |v.closed| as real + v.buy + v.sell
  {
    TotalIs(v.closed, v.size);
  }

  lemma CloseFull(v: Series, part: real -> real)
    requires Valid(v) && AllFull(v.closed, v.size) && 0.0 <= v.buy && 0.0 <= v.sell
    requires Parts(part, Room(v))
    ensures AllFull(Close(v, part).closed, v.size)
  {
    var full := v.Plus(part, Room(v));
    assert Full(Bucket(full.buy, full.sell), v.size);
  }

  /** Neither volume of the open bucket is negative, and every closed one is exactly full. */
  predicate Proper(v: Series) { Valid(v) && 0.0 <= v.buy && 0.0 <= v.sell && AllFull(v.closed, v.size) }

  lemma {:induction false} PourProper(v: Series, part: real -> real, volume: real)
    requires Proper(v) && forall x :: Parts(part, x)
    ensures Proper(Poured(v, part, volume))
    decreases if volume > 0.0 then Buckets(v.Fill() + volume, v.size) else 0
  {
    if volume > 0.0 {
      if volume < Room(v) {
        assert Parts(part, volume);
      } else {
        assert Parts(part, Room(v));
        CloseFull(v, part);
        if volume - Room(v) >= EPSILON {
          OneFewer(v.Fill() + volume, v.size);
          PourProper(Close(v, part), part, volume - Room(v));
        }
      }
    }
  }

  /** What the slack lets go of when so much volume stands in one bucket. */
  function Dust(volume: real, size: Positive): (dust: real)
    ensures 0.0 <= dust < EPSILON
    decreases if volume >= size then Buckets(volume, size) else 0
  {
    if volume < size then 0.0
    else if volume - size < EPSILON then volume - size
    else
      OneFewer(volume, size);
      Dust(volume - size, size)
  }

  lemma CloseVolume(v: Series, part: real -> real)
    ensures Volume(Close(v, part)) == Volume(v) + Room(v)
  {
    assert Close(v, part).closed[..|v.closed|] == v.closed;
  }

  /** A pour adds its volume, all but the dust. */
  lemma {:induction false} PourConserves(v: Series, part: real -> real, volume: real)
    requires Valid(v) && volume > 0.0
    ensures Volume(Poured(v, part, volume)) == Volume(v) + volume - Dust(v.Fill() + volume, v.size)
    decreases Buckets(v.Fill() + volume, v.size)
  {
    if volume >= Room(v) {
      CloseVolume(v, part);
      if volume - Room(v) >= EPSILON {
        OneFewer(v.Fill() + volume, v.size);
        PourConserves(Close(v, part), part, volume - Room(v));
      }
    }
  }

  /** What is left over when every whole bucket is taken out. */
  function Leftover(volume: real, size: Positive): real
    decreases if volume >= size then Buckets(volume, size) else 0
  {
    if volume < size then volume
    else
      OneFewer(volume, size);
      Leftover(volume - size, size)
  }

  /** It is the volume less a whole number of buckets, and under one of them. */
  lemma {:induction false} LeftoverIs(volume: real, size: Positive) returns (n: nat)
    requires volume >= 0.0
    ensures Leftover(volume, size) == volume - n as real * size && 0.0 <= Leftover(volume, size) < size
    decreases if volume >= size then Buckets(volume, size) else 0
  {
    n := 0;
    if volume >= size {
      OneFewer(volume, size);
      var m := LeftoverIs(volume - size, size);
      n := m + 1;
      assert n as real * size == m as real * size + size;
    }
  }

  /**
   * The volumes that lose some to the slack: those that leave something under
   * it over a whole number of buckets, and where a bucket is itself thinner
   * than the slack, all that are more than one.
   */
  predicate Loses(volume: real, size: Positive) {
    volume >= size && if size >= EPSILON then 0.0 < Leftover(volume, size) < EPSILON else volume > size
  }

  lemma {:induction false} DustIff(volume: real, size: Positive)
    ensures Dust(volume, size) > 0.0 <==> Loses(volume, size)
    decreases if volume >= size then Buckets(volume, size) else 0
  {
    if volume >= size && volume - size >= EPSILON {
      OneFewer(volume, size);
      DustIff(volume - size, size);
      assert Leftover(volume, size) == Leftover(volume - size, size);
    } else if volume >= size {
      assert size >= EPSILON ==> Leftover(volume, size) == volume - size;
    }
  }

  /** A pour loses volume exactly when what stands in the open bucket with it is such a volume. */
  lemma LosesIff(v: Series, part: real -> real, volume: real)
    requires Valid(v) && volume > 0.0
    ensures Volume(Poured(v, part, volume)) < Volume(v) + volume <==> Loses(v.Fill() + volume, v.size)
  {
    var standing := v.Fill() + volume;
    assert Volume(Poured(v, part, volume)) == Volume(v) + volume - Dust(standing, v.size) by {
      PourConserves(v, part, volume);
    }
    DustIff(standing, v.size);
  }

  /** One contract into a bucket half the slack short of one: the bucket closes, and the half is gone. */
  lemma VolumeCanBeLost(trade: Trade)
    requires trade.size == 1 && trade.aggressor > 0
    ensures var v := Opened(1.0 - EPSILON / 2.0, false);
            Volume(v) == 0.0 && Volume(Updated(v, trade)) == 1.0 - EPSILON / 2.0 < trade.size as real
  {
    var v := Opened(1.0 - EPSILON / 2.0, false);
    assert PartOf(v.split, trade) == Some(Bought) && Updated(v, trade) == Poured(v, Bought, 1.0);
    assert Dust(v.Fill() + 1.0, v.size) == EPSILON / 2.0;
    PourConserves(v, Bought, 1.0);
  }

  lemma {:induction false} NoDust(volume: int, size: int)
    requires size > 0
    ensures Dust(volume as real, size as real) == 0.0
    decreases if volume >= size then volume else 0
  {
    if volume > size {
      NoDust(volume - size, size);
      assert (volume - size) as real == volume as real - size as real;
    }
  }

  // ---- only volume time matters -----------------------------------------

  /** A series of whole buckets that has only been fed whole trades stays on whole contracts. */
  predicate Integral(v: Series, size: int, fill: int) { Valid(v) && v.size == size as real && v.Fill() == fill as real }

  /** A whole volume that closes the bucket goes on as what is left of it. */
  lemma {:induction false} PourOn(v: Series, part: real -> real, volume: int, rest: int, size: int, fill: int)
    requires Integral(v, size, fill) && rest == volume - (size - fill) && rest >= 0
    ensures Integral(Close(v, part), size, 0)
    ensures Poured(v, part, volume as real) == Poured(Close(v, part), part, rest as real)
  {
    assert volume as real - Room(v) == rest as real;
  }

  /** Where a pour of whole contracts leaves the open bucket. */
  lemma {:induction false} PourIntegral(v: Series, part: real -> real, volume: int, size: int, fill: int) returns (fill': int)
    requires Integral(v, size, fill)
    ensures Integral(Poured(v, part, volume as real), size, fill')
    decreases if volume >= size - fill then volume + fill else 0
  {
    if volume <= 0 {
      fill' := fill;
    } else if volume < size - fill {
      fill' := fill + volume;
    } else {
      var rest := volume - (size - fill);
      PourOn(v, part, volume, rest, size, fill);
      fill' := PourIntegral(Close(v, part), part, rest, size, 0);
    }
  }

  /** A first part that leaves the bucket open only moves the second along. */
  lemma {:induction false} PourWithin(v: Series, part: real -> real, a: real, b: real)
    requires Valid(v) && 0.0 < a < Room(v) && b > 0.0
    requires part(a) + part(b) == part(a + b) && part(a) + part(Room(v) - a) == part(Room(v))
    ensures Poured(v, part, a + b) == Poured(Poured(v, part, a), part, b)
  {
    var v' := v.Plus(part, a);
    assert Poured(v, part, a) == v' && Room(v') == Room(v) - a;
    if a + b >= Room(v) {
      assert Close(v', part) == Close(v, part);
      assert b - Room(v') == a + b - Room(v);
    }
  }

  /** Cutting the volume left after the bucket closes cuts the volume that closes it. */
  lemma {:induction false} PourOnTwice(v: Series, part: real -> real, a: int, b: int, rest: int, size: int, fill: int)
    requires Integral(v, size, fill) && rest == a - (size - fill) && rest >= 0 && b >= 0
    requires Integral(Close(v, part), size, 0)
    requires Poured(Close(v, part), part, (rest + b) as real) ==
             Poured(Poured(Close(v, part), part, rest as real), part, b as real)
    ensures Poured(v, part, (a + b) as real) == Poured(Poured(v, part, a as real), part, b as real)
  {
    PourOn(v, part, a, rest, size, fill);
    PourOn(v, part, a + b, rest + b, size, fill);
  }

  /** A volume poured in two goes, the same way, is one pour. */
  lemma {:induction false} PouredTwice(v: Series, part: real -> real, a: int, b: int, size: int, fill: int)
    requires Integral(v, size, fill) && a >= 0 && b >= 0 && Proportional(part)
    ensures Poured(v, part, (a + b) as real) == Poured(Poured(v, part, a as real), part, b as real)
    decreases if a >= size - fill then a + fill else 0
  {
    if a == 0 || b == 0 {
      NothingPoured(v, part);
      NothingPoured(Poured(v, part, a as real), part);
    } else if a < size - fill {
      assert Shares(part, a as real + b as real, a as real) && Shares(part, Room(v), a as real);
      PourWithin(v, part, a as real, b as real);
    } else {
      var rest := a - (size - fill);
      PouredTwice(Close(v, part), part, rest, b, size, 0);
      PourOnTwice(v, part, a, b, rest, size, fill);
    }
  }

  lemma {:induction false} NothingPoured(v: Series, part: real -> real)
    requires Valid(v)
    ensures Poured(v, part, 0.0) == v
  {
  }

  /** Over a whole tape. */
  function Tape(v: Series, trades: seq<Trade>): (v': Series)
    requires Valid(v)
    ensures Valid(v') && v'.size == v.size && v'.split == v.split
  {
    if trades == [] then v else Updated(Tape(v, trades[..|trades| - 1]), trades[|trades| - 1])
  }

  lemma UpdateProper(v: Series, trade: Trade)
    requires Proper(v)
    ensures Proper(Updated(v, trade))
  {
    if PartOf(v.split, trade).Some? {
      var part := PartOf(v.split, trade).value;
      forall x ensures Parts(part, x) {
      }
      PourProper(v, part, trade.size as real);
    }
  }

  /** Over any tape, every bucket that has been closed is exactly full, so every reading is a share. */
  lemma {:induction false} TapeProper(v: Series, trades: seq<Trade>, window: nat)
    requires Proper(v)
    ensures Proper(Tape(v, trades))
    ensures Value(Tape(v, trades), window).Some? ==> IsShare(Value(Tape(v, trades), window).value)
  {
    if trades != [] {
      var n := |trades| - 1;
      TapeProper(v, trades[..n], window);
      UpdateProper(Tape(v, trades[..n]), trades[n]);
    }
    ValueWithin(Tape(v, trades), window);
  }

  /** Contracts of a tape that a series counts. */
  function Classified(split: bool, trades: seq<Trade>): int {
    if trades == [] then 0
    else Classified(split, trades[..|trades| - 1]) + Counted(split, trades[|trades| - 1])
  }

  function Counted(split: bool, trade: Trade): int {
    if PartOf(split, trade).Some? && trade.size > 0 then trade.size else 0
  }

  lemma {:induction false} TradeConserves(v: Series, trade: Trade, size: int, fill: int) returns (fill': int)
    requires Integral(v, size, fill)
    ensures Integral(Updated(v, trade), size, fill')
    ensures Volume(Updated(v, trade)) == Volume(v) + Counted(v.split, trade) as real
  {
    fill' := fill;
    if PartOf(v.split, trade).Some? {
      var part := PartOf(v.split, trade).value;
      fill' := PourIntegral(v, part, trade.size, size, fill);
      if trade.size > 0 {
        PourConserves(v, part, trade.size as real);
        NoDust(fill + trade.size, size);
      }
    }
  }

  lemma {:induction false} TapeVolume(v: Series, trades: seq<Trade>, size: int, fill: int) returns (fill': int)
    requires Integral(v, size, fill)
    ensures Integral(Tape(v, trades), size, fill')
    ensures Volume(Tape(v, trades)) == Volume(v) + Classified(v.split, trades) as real
  {
    if trades == [] {
      fill' := fill;
    } else {
      var n := |trades| - 1;
      fill' := TapeVolume(v, trades[..n], size, fill);
      fill' := TradeConserves(Tape(v, trades[..n]), trades[n], size, fill');
    }
  }

  /**
   * Volume is conserved over any tape when the bucket is a whole number of
   * contracts: every contract counted is in the open bucket or in a closed
   * one, and each closed one holds exactly its size.
   */
  lemma {:induction false} TapeConserves(v: Series, trades: seq<Trade>, size: int)
    requires size > 0 && v == Opened(size as real, v.split)
    ensures var v' := Tape(v, trades);
            && AllFull(v'.closed, v.size)
            && Total(v'.closed) + v'.Fill() == Classified(v.split, trades) as real
  {
    var fill := TapeVolume(v, trades, size, 0);
    TapeProper(v, trades, 1);
  }

  function Cut<T>(s: seq<T>, i: nat, x: T, y: T): seq<T>
    requires i < |s|
  {
    s[..i] + [x, y] + s[i + 1..]
  }

  lemma CutFront<T>(s: seq<T>, i: nat, x: T, y: T)
    requires i < |s|
    ensures var n := |s| - 1;
            Cut(s, i, x, y) == if i < n then Cut(s[..n], i, x, y) + [s[n]] else s[..n] + [x] + [y]
  {
  }

  lemma TapeMore(v: Series, trades: seq<Trade>, trade: Trade)
    requires Valid(v)
    ensures Tape(v, trades + [trade]) == Updated(Tape(v, trades), trade)
  {
    assert (trades + [trade])[..|trades|] == trades;
  }

  /** One trade cut in two, anywhere in a tape, changes nothing: not the buckets, not their number. */
  lemma {:induction false} CutTrade(v: Series, trades: seq<Trade>, i: nat, a: int, b: int, size: int, fill: int)
    requires Integral(v, size, fill)
    requires i < |trades| && trades[i].size == a + b && a >= 0 && b >= 0
    ensures Tape(v, Cut(trades, i, trades[i].(size := a), trades[i].(size := b))) == Tape(v, trades)
  {
    var first, second := trades[i].(size := a), trades[i].(size := b);
    var n := |trades| - 1;
    CutFront(trades, i, first, second);
    if i < n {
      CutTrade(v, trades[..n], i, a, b, size, fill);
      TapeMore(v, Cut(trades[..n], i, first, second), trades[n]);
    } else {
      TapeMore(v, trades[..n], first);
      TapeMore(v, trades[..n] + [first], second);
      CutLast(v, trades[..n], trades[n], a, b, size, fill);
    }
  }

  lemma {:induction false} CutLast(v: Series, before: seq<Trade>, trade: Trade, a: int, b: int, size: int, fill: int)
    requires Integral(v, size, fill) && trade.size == a + b && a >= 0 && b >= 0
    ensures var v' := Tape(v, before);
            Updated(Updated(v', trade.(size := a)), trade.(size := b)) == Updated(v', trade)
  {
    var fill' := TapeVolume(v, before, size, fill);
    SplitsAreProportional();
    if PartOf(v.split, trade).Some? {
      PouredTwice(Tape(v, before), PartOf(v.split, trade).value, a, b, size, fill');
    }
  }
}
