/** What the volume buckets hold of each side, and what is read off them. */
module BucketRules {
  import opened Common
  import opened Orders
  import opened Vpins

  // ---- each side's volume -----------------------------------------------

  function BoughtIn(buckets: seq<Bucket>): real {
    if buckets == [] then 0.0 else BoughtIn(buckets[..|buckets| - 1]) + buckets[|buckets| - 1].buy
  }

  /** What the buckets hold as bought, closed or open. */
  function BoughtOf(v: Series): real { BoughtIn(v.closed) + v.buy }

  /**
   * What a trade counts as bought: a buyer's whole, nothing of a seller's, and half where nobody is named and such
   * trades are split.
   */
  function BoughtBy(split: bool, t: Trade): real {
    if t.size <= 0 then 0.0
    else if t.aggressor > 0 then t.size as real
    else if t.aggressor == 0 && split then t.size as real / 2.0
    else 0.0
  }

  function BoughtOn(split: bool, trades: seq<Trade>): real {
    if trades == [] then 0.0 else BoughtOn(split, trades[..|trades| - 1]) + BoughtBy(split, trades[|trades| - 1])
  }

  lemma CloseBought(v: Series, part: real -> real)
    ensures BoughtOf(Close(v, part)) == BoughtOf(v) + part(Room(v))
  {
    assert Close(v, part).closed[..|v.closed|] == v.closed;
  }

  /** A bucket closed and the rest poured on takes both parts of what is bought. */
  lemma PartsAdd(part: real -> real, volume: real, room: real)
    requires Proportional(part) && volume > 0.0
    ensures part(room) + part(volume - room) == part(volume)
  {
    assert Shares(part, volume, room);
  }

  lemma NoRest(v: Series, volume: real)
    requires Valid(v) && volume >= Room(v) && volume - Room(v) < EPSILON && Dust(v.Fill() + volume, v.size) == 0.0
    ensures volume == Room(v)
  {
  }

  lemma NoDustOn(v: Series, part: real -> real, volume: real)
    requires Valid(v) && volume - Room(v) >= EPSILON && Dust(v.Fill() + volume, v.size) == 0.0
    ensures Dust(Close(v, part).Fill() + (volume - Room(v)), v.size) == 0.0
  {
    assert v.Fill() + volume - v.size == Close(v, part).Fill() + (volume - Room(v));
  }

  lemma LastBucketBuys(v: Series, part: real -> real, volume: real)
    requires Valid(v) && volume > 0.0 && volume >= Room(v) && volume - Room(v) < EPSILON
    requires Dust(v.Fill() + volume, v.size) == 0.0
    ensures BoughtOf(Poured(v, part, volume)) == BoughtOf(v) + part(volume)
  {
    NoRest(v, volume);
    CloseBought(v, part);
    assert Poured(v, part, volume) == Close(v, part);
  }

  lemma PourBuysOn(v: Series, part: real -> real, volume: real, poured: Series)
    requires Valid(v) && volume > 0.0 && volume - Room(v) >= EPSILON && Proportional(part)
    requires poured == Poured(Close(v, part), part, volume - Room(v))
    requires BoughtOf(poured) == BoughtOf(Close(v, part)) + part(volume - Room(v))
    ensures BoughtOf(poured) == BoughtOf(v) + part(volume)
  {
    CloseBought(v, part);
    PartsAdd(part, volume, Room(v));
  }

  lemma PouredOn(v: Series, part: real -> real, volume: real)
    requires Valid(v) && volume > 0.0 && volume - Room(v) >= EPSILON
    ensures Poured(v, part, volume) == Poured(Close(v, part), part, volume - Room(v))
  {
  }

  /** A pour that loses nothing adds its bought part to what is bought. */
  lemma {:induction false} PourBuys(v: Series, part: real -> real, volume: real) returns (poured: Series)
    requires Valid(v) && volume > 0.0 && Proportional(part) && Dust(v.Fill() + volume, v.size) == 0.0
    ensures poured == Poured(v, part, volume) && BoughtOf(poured) == BoughtOf(v) + part(volume)
    decreases Buckets(v.Fill() + volume, v.size)
  {
    if volume < Room(v) {
      poured := Poured(v, part, volume);
    } else if volume - Room(v) < EPSILON {
      LastBucketBuys(v, part, volume);
      poured := Poured(v, part, volume);
    } else {
      OneFewer(v.Fill() + volume, v.size);
      NoDustOn(v, part, volume);
      PouredOn(v, part, volume);
      poured := PourBuys(Close(v, part), part, volume - Room(v));
      PourBuysOn(v, part, volume, poured);
    }
  }

  lemma {:induction false} TradeBuys(v: Series, trade: Trade, size: int, fill: int)
    requires Integral(v, size, fill)
    ensures BoughtOf(Updated(v, trade)) == BoughtOf(v) + BoughtBy(v.split, trade)
  {
    SplitsAreProportional();
    if trade.size > 0 && PartOf(v.split, trade).Some? {
      NoDust(fill + trade.size, size);
      var _ := PourBuys(v, PartOf(v.split, trade).value, trade.size as real);
    }
  }

  /**
   * Over any tape and a whole bucket size: what the buckets hold as bought is what was bought, and so with what
   * was sold.
   */
  lemma {:induction false} SidesKept(v: Series, trades: seq<Trade>, size: int) returns (fill: int)
    requires size > 0 && v == Opened(size as real, v.split)
    ensures Integral(Tape(v, trades), size, fill)
    ensures BoughtOf(Tape(v, trades)) == BoughtOn(v.split, trades)
  {
    if trades == [] {
      fill := 0;
    } else {
      var n := |trades| - 1;
      fill := SidesKept(v, trades[..n], size);
      TradeBuys(Tape(v, trades[..n]), trades[n], size, fill);
      fill := TradeConserves(Tape(v, trades[..n]), trades[n], size, fill);
    }
  }

  // ---- the reading ------------------------------------------------------

  /** The imbalances of some buckets, in contracts. */
  function Apart(buckets: seq<Bucket>): real {
    if buckets == [] then 0.0
    else
      var last := buckets[|buckets| - 1];
      Apart(buckets[..|buckets| - 1]) + if last.buy >= last.sell then last.buy - last.sell else last.sell - last.buy
  }

  lemma {:induction false} SumIsApart(buckets: seq<Bucket>, size: Positive)
    ensures Sum(Imbalances(buckets, size)) * size == Apart(buckets)
  {
    if buckets != [] {
      var n := |buckets| - 1;
      SumIsApart(buckets[..n], size);
      assert Imbalances(buckets, size)[..n] == Imbalances(buckets[..n], size);
      Undivided(Sum(Imbalances(buckets[..n], size)), AbsReal(buckets[n].buy - buckets[n].sell), size);
    }
  }

  lemma Undivided(sum: real, x: real, size: Positive)
    ensures (sum + x / size) * size == sum * size + x
  {
    assert x / size * size == x;
  }

  lemma NewestImbalances(buckets: seq<Bucket>, size: Positive, window: nat)
    ensures Newest(Imbalances(buckets, size), window) == Imbalances(Newest(buckets, window), size)
  {
  }

  /** x is the mean, over k buckets of a size, of what they are apart in all. */
  predicate Means(x: real, k: int, size: real, apart: real) { x * k as real * size == apart }

  lemma MeansIf(x: real, sum: real, k: int, size: Positive, apart: real)
    requires k > 0 && x == sum / k as real && sum * size == apart
    ensures Means(x, k, size, apart)
  {
    Averaged(sum, k as real);
  }

  lemma Averaged(sum: real, k: Positive)
    ensures sum / k * k == sum
  {
  }

  lemma ReadingOf(v: Series, window: nat, newest: seq<Bucket>) returns (x: real, sum: real)
    requires window >= 1 && v.closed != [] && newest == Newest(v.closed, window)
    ensures Value(v, window) == Some(x) && x == sum / |newest| as real && Means(sum, 1, v.size, Apart(newest))
  {
    NewestImbalances(v.closed, v.size, window);
    x, sum := Value(v, window).value, Sum(Imbalances(newest, v.size));
    SumIsApart(newest, v.size);
  }

  lemma ReadingMeans(v: Series, window: nat, newest: seq<Bucket>) returns (x: real)
    requires window >= 1 && v.closed != [] && newest == Newest(v.closed, window)
    ensures Value(v, window) == Some(x) && Means(x, |newest|, v.size, Apart(newest))
  {
    var sum;
    x, sum := ReadingOf(v, window, newest);
    MeansIf(x, sum, |newest|, v.size, Apart(newest));
  }

  /** The last k of the closed buckets, as many as the window holds. */
  function Last(closed: seq<Bucket>, window: nat): seq<Bucket> {
    if |closed| <= window then closed else closed[|closed| - window..]
  }

  /**
   * The reading is the mean imbalance of the newest buckets, each as a share of its size; there is none before one
   * has closed.
   */
  lemma ReadingIs(v: Series, window: nat)
    requires window >= 1
    ensures if v.closed == [] then Value(v, window) == None
            else Value(v, window).Some? &&
                 Means(Value(v, window).value, |Last(v.closed, window)|, v.size, Apart(Last(v.closed, window)))
  {
    if v.closed != [] {
      var x := ReadingMeans(v, window, Last(v.closed, window));
    }
  }
}
