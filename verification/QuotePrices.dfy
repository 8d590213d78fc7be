/** Which quotes a decision asks for, said of the book, the signals, the settings and the position alone. */
module QuotePrices {
  import opened Common
  import opened Orders
  import opened Toxicity
  import opened QuotingEngine

  // ---- the anchor -------------------------------------------------------

  /** The middle, or the touch weighted by the size on the other side where there is any. */
  predicate Anchored(cfg: QuotingConfig, s: BookSnapshot, anchor: real)
    requires s.TwoSided()
  {
    var bid, ask := s.bids[0], s.asks[0];
    if cfg.useMicroprice && bid.size + ask.size > 0
    then anchor * (bid.size + ask.size) as real == bid.price * ask.size as real + ask.price * bid.size as real
    else anchor + anchor == bid.price + ask.price
  }

  lemma Quotient(x: real, y: real, n: Positive)
    ensures x * n == y <==> x == y / n
  {
    if x * n == y {
      assert (x - y / n) * n == 0.0;
    }
  }

  lemma AnchorIs(cfg: QuotingConfig, s: BookSnapshot, anchor: real)
    requires s.TwoSided()
    ensures Anchored(cfg, s, anchor) <==> anchor == Anchor(cfg, s)
  {
    var bid, ask := s.bids[0], s.asks[0];
    if cfg.useMicroprice && bid.size + ask.size > 0 {
      Quotient(anchor, bid.price * ask.size as real + ask.price * bid.size as real, (bid.size + ask.size) as real);
    }
  }

  // ---- the prices -------------------------------------------------------

  /** How far from the reservation price each side has to be. */
  predicate Spread(cfg: QuotingConfig, g: Signals, half: real) {
    var model, least := g.modelHalfSpread * g.toxicity.spreadMultiplier, cfg.minHalfSpreadTicks * cfg.tickSize;
    half >= model && half >= least && (half == model || half == least)
  }

  /** Down with a long position and a nervous market, up with the flow. */
  function Leaned(cfg: QuotingConfig, g: Signals, inventory: int, anchor: real): real {
    anchor - inventory as real * (cfg.gamma * (g.sigma * g.sigma) * cfg.horizonSeconds) + g.skewTicks * cfg.tickSize
  }

  /** n ticks is the highest price, to within the slack, that is over neither bound. */
  predicate HighestUnder(n: int, tick: Positive, a: real, b: real) {
    var p, slack := n as real * tick, EPSILON * tick;
    p <= a + slack && p <= b + slack && (p + tick > a + slack || p + tick > b + slack)
  }

  /** n ticks is the lowest price, to within the slack, that is under neither bound. */
  predicate LowestOver(n: int, tick: Positive, a: real, b: real) {
    var p, slack := n as real * tick, EPSILON * tick;
    p >= a - slack && p >= b - slack && (p - tick < a - slack || p - tick < b - slack)
  }

  lemma FloorIs(x: real, tick: Positive, n: int)
    ensures (x / tick + EPSILON).Floor == n <==> n as real * tick <= x + EPSILON * tick < n as real * tick + tick
  {
    var q := x / tick;
    assert q * tick == x;
    Spreads(q, EPSILON, tick);
    Spreads(n as real, 1.0, tick);
    FloorScaled(q + EPSILON, (q + EPSILON) * tick, tick, n as real * tick, n);
  }

  lemma FloorScaled(y: real, scaled: real, tick: Positive, low: real, n: int)
    requires scaled == y * tick && low == n as real * tick && (n as real + 1.0) * tick == low + tick
    ensures y.Floor == n <==> low <= scaled < low + tick
  {
    OrderedAs(n as real, y, tick, low, scaled);
    OrderedAs(n as real + 1.0, y, tick, low + tick, scaled);
    FloorBetween(y, n);
  }

  lemma FloorBetween(y: real, n: int)
    ensures y.Floor == n <==> n as real <= y && !(n as real + 1.0 <= y)
  {
  }

  lemma OrderedAs(a: real, b: real, k: Positive, ak: real, bk: real)
    requires ak == a * k && bk == b * k
    ensures a <= b <==> ak <= bk
  {
    Ordered(a, b, k);
  }

  lemma Spreads(a: real, b: real, k: real)
    ensures (a + b) * k == a * k + b * k
  {
  }

  lemma Ordered(a: real, b: real, k: Positive)
    ensures a <= b <==> a * k <= b * k
  {
    if a <= b {
      assert (b - a) * k >= 0.0;
    } else {
      assert (a - b) * k > 0.0;
    }
  }

  lemma CeilingIs(x: real, tick: Positive, n: int)
    ensures Ceiling(x / tick - EPSILON) == n <==> n as real * tick - tick < x - EPSILON * tick <= n as real * tick
  {
    var q := x / tick;
    assert (-x) / tick == -q by {
      assert q * tick == x;
      Quotient(-q, -x, tick);
    }
    FloorIs(-x, tick, -n);
    assert (-n) as real * tick == -(n as real * tick);
  }

  /** Where a bid stands, if one is asked for. */
  predicate BidTicks(cfg: QuotingConfig, s: BookSnapshot, g: Signals, inventory: int, anchor: real, half: real, n: int)
    requires s.TwoSided()
  {
    HighestUnder(n, cfg.tickSize, Leaned(cfg, g, inventory, anchor) - half,
                 s.bids[0].price - cfg.behindBestTicks as real * cfg.tickSize)
  }

  predicate AskTicks(cfg: QuotingConfig, s: BookSnapshot, g: Signals, inventory: int, anchor: real, half: real, n: int)
    requires s.TwoSided()
  {
    LowestOver(n, cfg.tickSize, Leaned(cfg, g, inventory, anchor) + half,
               s.asks[0].price + cfg.behindBestTicks as real * cfg.tickSize)
  }

  lemma ReservationIs(cfg: QuotingConfig, s: BookSnapshot, g: Signals, inventory: int, anchor: real)
    requires s.TwoSided() && Anchored(cfg, s, anchor)
    ensures Reservation(cfg, s, g, inventory) == Leaned(cfg, g, inventory, anchor)
  {
    AnchorIs(cfg, s, anchor);
    Regroup(inventory as real, cfg.gamma, g.sigma, cfg.horizonSeconds);
  }

  lemma Regroup(i: real, gamma: real, sigma: real, horizon: real)
    ensures i * gamma * sigma * sigma * horizon == i * (gamma * (sigma * sigma) * horizon)
  {
  }

  lemma BidPriceIs(cfg: QuotingConfig, s: BookSnapshot, g: Signals, inventory: int, anchor: real, half: real, n: int)
    requires s.TwoSided() && Anchored(cfg, s, anchor) && Spread(cfg, g, half)
    ensures BidTicks(cfg, s, g, inventory, anchor, half, n) ==>
              n as real * cfg.tickSize == BidPrice(cfg, s.bids[0].price, Reservation(cfg, s, g, inventory), HalfSpread(cfg, g))
  {
    ReservationIs(cfg, s, g, inventory, anchor);
    var low := MinReal(Leaned(cfg, g, inventory, anchor) - half, s.bids[0].price - Ticks(cfg, cfg.behindBestTicks));
    FloorIs(low, cfg.tickSize, n);
  }

  lemma AskPriceIs(cfg: QuotingConfig, s: BookSnapshot, g: Signals, inventory: int, anchor: real, half: real, n: int)
    requires s.TwoSided() && Anchored(cfg, s, anchor) && Spread(cfg, g, half)
    ensures AskTicks(cfg, s, g, inventory, anchor, half, n) ==>
              n as real * cfg.tickSize == AskPrice(cfg, s.asks[0].price, Reservation(cfg, s, g, inventory), HalfSpread(cfg, g))
  {
    ReservationIs(cfg, s, g, inventory, anchor);
    var high := MaxReal(Leaned(cfg, g, inventory, anchor) + half, s.asks[0].price + Ticks(cfg, cfg.behindBestTicks));
    CeilingIs(high, cfg.tickSize, n);
  }

  // ---- which sides, and how much ----------------------------------------

  /** The base size times the regime's multiplier, rounded up, as a number of lots. */
  predicate Lots(cfg: QuotingConfig, g: Signals, lots: int) {
    var scaled := cfg.baseSize as real * g.toxicity.sizeMultiplier - EPSILON;
    scaled <= lots as real < scaled + 1.0
  }

  /**
   * In an extreme regime that is not simply pulled, the side that shrinks the position stays, at no less than one
   * lot.
   */
  predicate WorkingOut(cfg: QuotingConfig, g: Signals, inventory: int) {
    g.toxicity.level == Extreme && !cfg.extremePull && inventory != 0
  }

  /** The size before the cap. */
  function Clipped(cfg: QuotingConfig, g: Signals, inventory: int, lots: int): int {
    var whole := if lots < 0 then 0 else lots;
    var most := if whole > cfg.maxSize then cfg.maxSize else whole;
    if WorkingOut(cfg, g, inventory) && most < 1 then 1 else most
  }

  /**
   * A side is asked for exactly when the regime, the position, the cap and
   * the distance from the touch all let it. against is the position as the
   * side adds to it: positive where a fill would take it further from flat.
   */
  predicate Asked(cfg: QuotingConfig, g: Signals, inventory: int, against: int, lots: int, behind: real) {
    && (g.toxicity.level == Extreme ==> WorkingOut(cfg, g, inventory) && against < 0)
    && Clipped(cfg, g, inventory, lots) > 0
    && !(against > 0 && against >= cfg.reduceOnlyPosition)
    && cfg.maxPosition > against
    && (behind <= cfg.maxBehindTicks as real * cfg.tickSize + EPSILON || WorkingOut(cfg, g, inventory))
  }

  lemma LotsAre(cfg: QuotingConfig, g: Signals, lots: int)
    ensures Lots(cfg, g, lots) <==> lots == Shrunk(cfg.baseSize, g.toxicity.sizeMultiplier)
  {
  }

  lemma ClippedIs(cfg: QuotingConfig, g: Signals, inventory: int, lots: int)
    requires Lots(cfg, g, lots)
    ensures Clipped(cfg, g, inventory, lots) == QuoteSize(cfg, g, inventory)
  {
    LotsAre(cfg, g, lots);
  }

  lemma AskedIs(cfg: QuotingConfig, g: Signals, inventory: int, side: Side, lots: int, behind: real)
    requires Lots(cfg, g, lots)
    ensures Asked(cfg, g, inventory, if side.Bid? then inventory else -inventory, lots, behind) <==> Wanted(cfg, g, inventory, side, behind)
  {
    ClippedIs(cfg, g, inventory, lots);
  }

  /**
   * The bid of a decision, from what it is given: it is asked for exactly
   * when every rule allows it, at the highest tick that is no closer than the
   * leaned anchor less the half spread and the distance behind the touch, for
   * the clipped size or what is left under the cap.
   */
  lemma BidIs(cfg: QuotingConfig, s: BookSnapshot, g: Signals, inventory: int, anchor: real, half: real, n: int,
          lots: int)
    requires s.TwoSided() && Anchored(cfg, s, anchor) && Spread(cfg, g, half) && Lots(cfg, g, lots)
    requires BidTicks(cfg, s, g, inventory, anchor, half, n)
    ensures var bid, price := Decide(cfg, s, g, inventory).bid, n as real * cfg.tickSize;
            if Asked(cfg, g, inventory, inventory, lots, s.bids[0].price - price)
            then bid == Some(Quote(Bid, price, Min(Clipped(cfg, g, inventory, lots), cfg.maxPosition - inventory)))
            else bid == None
  {
    var price := n as real * cfg.tickSize;
    BidPriceIs(cfg, s, g, inventory, anchor, half, n);
    AskedIs(cfg, g, inventory, Bid, lots, s.bids[0].price - price);
    ClippedIs(cfg, g, inventory, lots);
  }

  /** And the ask, its mirror image. */
  lemma AskIs(cfg: QuotingConfig, s: BookSnapshot, g: Signals, inventory: int, anchor: real, half: real, n: int,
          lots: int)
    requires s.TwoSided() && Anchored(cfg, s, anchor) && Spread(cfg, g, half) && Lots(cfg, g, lots)
    requires AskTicks(cfg, s, g, inventory, anchor, half, n)
    ensures var ask, price := Decide(cfg, s, g, inventory).ask, n as real * cfg.tickSize;
            if Asked(cfg, g, inventory, -inventory, lots, price - s.asks[0].price)
            then ask == Some(Quote(Ask, price, Min(Clipped(cfg, g, inventory, lots), cfg.maxPosition + inventory)))
            else ask == None
  {
    var price := n as real * cfg.tickSize;
    AskPriceIs(cfg, s, g, inventory, anchor, half, n);
    AskedIs(cfg, g, inventory, Ask, lots, price - s.asks[0].price);
    ClippedIs(cfg, g, inventory, lots);
  }

  lemma TicksUnder(tick: Positive, a: real, b: real) returns (n: int)
    ensures HighestUnder(n, tick, a, b)
  {
    n := (MinReal(a, b) / tick + EPSILON).Floor;
    FloorIs(MinReal(a, b), tick, n);
  }

  lemma TicksOver(tick: Positive, a: real, b: real) returns (n: int)
    ensures LowestOver(n, tick, a, b)
  {
    n := Ceiling(MaxReal(a, b) / tick - EPSILON);
    CeilingIs(MaxReal(a, b), tick, n);
  }

  /** There is such an anchor, half spread, number of ticks and of lots for every book and position. */
  lemma AlwaysPriced(cfg: QuotingConfig, s: BookSnapshot, g: Signals, inventory: int, anchor: real, half: real)
    returns (bid: int, ask: int)
    requires s.TwoSided() && Anchored(cfg, s, anchor) && Spread(cfg, g, half)
    ensures BidTicks(cfg, s, g, inventory, anchor, half, bid) && AskTicks(cfg, s, g, inventory, anchor, half, ask)
  {
    var leaned, behind := Leaned(cfg, g, inventory, anchor), cfg.behindBestTicks as real * cfg.tickSize;
    bid := TicksUnder(cfg.tickSize, leaned - half, s.bids[0].price - behind);
    ask := TicksOver(cfg.tickSize, leaned + half, s.asks[0].price + behind);
  }

  lemma AlwaysAnchored(cfg: QuotingConfig, s: BookSnapshot, g: Signals) returns (anchor: real, half: real, lots: int)
    requires s.TwoSided()
    ensures Anchored(cfg, s, anchor) && Spread(cfg, g, half) && Lots(cfg, g, lots)
  {
    anchor, half, lots := Anchor(cfg, s), HalfSpread(cfg, g), Shrunk(cfg.baseSize, g.toxicity.sizeMultiplier);
    AnchorIs(cfg, s, anchor);
    LotsAre(cfg, g, lots);
  }

  /** Without two sides there is no quote. */
  lemma OneSidedIsSilent(cfg: QuotingConfig, s: BookSnapshot, g: Signals, inventory: int)
    requires s.bids == [] || s.asks == [] || !s.complete
    ensures Decide(cfg, s, g, inventory) == Decision(None, None)
  {
  }

  // ---- leaning ----------------------------------------------------------

  /** Where the two quotes are, if they are asked for. */
  predicate PricedAt(d: Decision, tick: Positive, bid: int, ask: int) {
    && (d.bid.Some? ==> d.bid.value.price == bid as real * tick)
    && (d.ask.Some? ==> d.ask.value.price == ask as real * tick)
  }

  lemma DecisionPriced(cfg: QuotingConfig, s: BookSnapshot, g: Signals, inventory: int, anchor: real, half: real,
          lots: int)
    returns (d: Decision, bid: int, ask: int)
    requires s.TwoSided() && Anchored(cfg, s, anchor) && Spread(cfg, g, half) && Lots(cfg, g, lots)
    ensures d == Decide(cfg, s, g, inventory) && PricedAt(d, cfg.tickSize, bid, ask)
    ensures BidTicks(cfg, s, g, inventory, anchor, half, bid) && AskTicks(cfg, s, g, inventory, anchor, half, ask)
  {
    d := Decide(cfg, s, g, inventory);
    bid, ask := AlwaysPriced(cfg, s, g, inventory, anchor, half);
    BidIs(cfg, s, g, inventory, anchor, half, bid, lots);
    AskIs(cfg, s, g, inventory, anchor, half, ask, lots);
  }

  /** Neither price of b is over that of a. */
  predicate Lower(a: Decision, b: Decision) {
    && (a.bid.Some? && b.bid.Some? ==> b.bid.value.price <= a.bid.value.price)
    && (a.ask.Some? && b.ask.Some? ==> b.ask.value.price <= a.ask.value.price)
  }

  /** The longer the position, the lower both prices. */
  lemma LeansDown(cfg: QuotingConfig, s: BookSnapshot, g: Signals, less: int, more: int)
    requires cfg.gamma >= 0.0 && cfg.horizonSeconds >= 0.0 && less <= more
    ensures Lower(Decide(cfg, s, g, less), Decide(cfg, s, g, more))
  {
    if s.TwoSided() {
      var anchor, half, lots := AlwaysAnchored(cfg, s, g);
      var a, n, m := DecisionPriced(cfg, s, g, less, anchor, half, lots);
      var b, n', m' := DecisionPriced(cfg, s, g, more, anchor, half, lots);
      LowerTicks(cfg, s, g, less, more, anchor, half, n, n', m, m');
      LowerPrices(a, b, cfg.tickSize, n, n', m, m');
    } else {
      OneSidedIsSilent(cfg, s, g, less);
      OneSidedIsSilent(cfg, s, g, more);
    }
  }

  lemma LowerTicks(cfg: QuotingConfig, s: BookSnapshot, g: Signals, less: int, more: int, anchor: real, half: real,
      n: int, n': int, m: int, m': int)
    requires cfg.gamma >= 0.0 && cfg.horizonSeconds >= 0.0 && less <= more && s.TwoSided()
    requires BidTicks(cfg, s, g, less, anchor, half, n) && BidTicks(cfg, s, g, more, anchor, half, n')
    requires AskTicks(cfg, s, g, less, anchor, half, m) && AskTicks(cfg, s, g, more, anchor, half, m')
    ensures n' as real * cfg.tickSize <= n as real * cfg.tickSize && m' as real * cfg.tickSize <= m as real * cfg.tickSize
  {
    var behind := cfg.behindBestTicks as real * cfg.tickSize;
    var high, low := Leaned(cfg, g, less, anchor), Leaned(cfg, g, more, anchor);
    LeanedDown(cfg, g, less, more, anchor);
    UnderLess(n, n', cfg.tickSize, high - half, low - half, s.bids[0].price - behind);
    OverLess(m, m', cfg.tickSize, high + half, low + half, s.asks[0].price + behind);
  }

  lemma LowerPrices(a: Decision, b: Decision, tick: Positive, n: int, n': int, m: int, m': int)
    requires PricedAt(a, tick, n, m) && PricedAt(b, tick, n', m')
    requires n' as real * tick <= n as real * tick && m' as real * tick <= m as real * tick
    ensures Lower(a, b)
  {
  }

  lemma LeanedDown(cfg: QuotingConfig, g: Signals, less: int, more: int, anchor: real)
    requires cfg.gamma >= 0.0 && cfg.horizonSeconds >= 0.0 && less <= more
    ensures Leaned(cfg, g, more, anchor) <= Leaned(cfg, g, less, anchor)
  {
    var variance := g.sigma * g.sigma;
    Squares(g.sigma);
    Products(cfg.gamma, variance);
    Products(cfg.gamma * variance, cfg.horizonSeconds);
    Grows(less as real, more as real, cfg.gamma * variance * cfg.horizonSeconds);
  }

  lemma Squares(x: real)
    ensures x * x >= 0.0
  {
  }

  lemma Products(x: real, y: real)
    ensures x >= 0.0 && y >= 0.0 ==> x * y >= 0.0
  {
  }

  lemma Grows(a: real, b: real, k: real)
    requires a <= b && k >= 0.0
    ensures a * k <= b * k
  {
    Products(b - a, k);
    Spreads(b - a, a, k);
  }

  lemma ATickApart(n: int, n': int, tick: Positive, p: real, p': real)
    requires n' > n && p == n as real * tick && p' == n' as real * tick
    ensures p' >= p + tick
  {
    var k := (n' - n) as real;
    assert n' as real == n as real + k;
    Spreads(n as real, k, tick);
    Grows(1.0, k, tick);
  }

  /** A price a tick over the highest under two bounds is not under lower ones. */
  lemma NotUnder(p: real, p': real, tick: real, slack: real, a: real, a': real, b: real)
    requires p + tick > a + slack || p + tick > b + slack
    requires a' <= a && p' >= p + tick
    ensures !(p' <= a' + slack && p' <= b + slack)
  {
  }

  lemma NotOver(p: real, p': real, tick: real, slack: real, a: real, a': real, b: real)
    requires p >= a - slack && p >= b - slack
    requires a' <= a && p' >= p + tick
    ensures !(p' - tick < a' - slack || p' - tick < b - slack)
  {
  }

  lemma UnderLess(n: int, n': int, tick: Positive, a: real, a': real, b: real)
    requires HighestUnder(n, tick, a, b) && HighestUnder(n', tick, a', b) && a' <= a
    ensures n' as real * tick <= n as real * tick
  {
    var p, p' := n as real * tick, n' as real * tick;
    if n' > n {
      ATickApart(n, n', tick, p, p');
      NotUnder(p, p', tick, EPSILON * tick, a, a', b);
    } else {
      Grows(n' as real, n as real, tick);
    }
  }

  lemma OverLess(n: int, n': int, tick: Positive, a: real, a': real, b: real)
    requires LowestOver(n, tick, a, b) && LowestOver(n', tick, a', b) && a' <= a
    ensures n' as real * tick <= n as real * tick
  {
    var p, p' := n as real * tick, n' as real * tick;
    if n' > n {
      ATickApart(n, n', tick, p, p');
      NotOver(p, p', tick, EPSILON * tick, a, a', b);
    } else {
      Grows(n' as real, n as real, tick);
    }
  }
}
