/** Where the two quotes go, and how big they are. */
module QuotingEngine {
  import opened Common
  import opened Orders
  import opened Toxicity

  datatype QuotingConfig = QuotingConfig(
    tickSize: Positive,
    useMicroprice: bool,
    gamma: real,
    horizonSeconds: real,
    minHalfSpreadTicks: real,
    behindBestTicks: int,
    maxBehindTicks: int,
    baseSize: int,
    maxSize: int,
    maxPosition: int,
    reduceOnlyPosition: int,
    extremePull: bool)

  /** What the engine reads besides the book: the model's spread and the signals' skew are inputs here. */
  datatype Signals = Signals(sigma: real, modelHalfSpread: real, skewTicks: real, toxicity: ToxicityState)

  datatype Decision = Decision(bid: Option<Quote>, ask: Option<Quote>)

  const NO_QUOTES := Decision(None, None)

  function Anchor(cfg: QuotingConfig, s: BookSnapshot): real
    requires s.TwoSided()
  {
    if cfg.useMicroprice then s.Microprice() else s.Mid()
  }

  /** The reservation price, leaning against the inventory and with the flow. */
  function Reservation(cfg: QuotingConfig, s: BookSnapshot, g: Signals, inventory: int): real
    requires s.TwoSided()
  {
    Anchor(cfg, s) - inventory as real * cfg.gamma * g.sigma * g.sigma * cfg.horizonSeconds + g.skewTicks * cfg.tickSize
  }

  function HalfSpread(cfg: QuotingConfig, g: Signals): real {
    MaxReal(g.modelHalfSpread * g.toxicity.spreadMultiplier, cfg.minHalfSpreadTicks * cfg.tickSize)
  }

  function Ticks(cfg: QuotingConfig, n: int): real { n as real * cfg.tickSize }

  function SnapDown(price: real, tick: Positive): real { (price / tick + EPSILON).Floor as real * tick }

  function SnapUp(price: real, tick: Positive): real { Ceiling(price / tick - EPSILON) as real * tick }

  /** Behind the touch, snapped outwards. */
  function BidPrice(cfg: QuotingConfig, bestBid: real, reservation: real, half: real): real {
    SnapDown(MinReal(reservation - half, bestBid - Ticks(cfg, cfg.behindBestTicks)), cfg.tickSize)
  }

  function AskPrice(cfg: QuotingConfig, bestAsk: real, reservation: real, half: real): real {
    SnapUp(MaxReal(reservation + half, bestAsk + Ticks(cfg, cfg.behindBestTicks)), cfg.tickSize)
  }

  /** Only reducing quotes are allowed, and their distance from the touch is not capped. */
  predicate Flattening(cfg: QuotingConfig, g: Signals, inventory: int) {
    g.toxicity.level.Extreme? && !cfg.extremePull && inventory != 0
  }

  /** Rounded up, so that only a multiplier of 0 removes a quote. */
  function Shrunk(size: int, multiplier: real): int { Ceiling(size as real * multiplier - EPSILON) }

  function QuoteSize(cfg: QuotingConfig, g: Signals, inventory: int): int {
    var size := Min(Max(Shrunk(cfg.baseSize, g.toxicity.sizeMultiplier), 0), cfg.maxSize);
    if Flattening(cfg, g, inventory) then Max(size, 1) else size
  }

  /** Room under the cap on the side that a quote would push towards. */
  function Room(cfg: QuotingConfig, side: Side, inventory: int): int {
    cfg.maxPosition - side.Sign() * inventory
  }

  /** A side is quoted exactly when nothing stops it. */
  predicate Wanted(cfg: QuotingConfig, g: Signals, inventory: int, side: Side, behind: real) {
    var adding := side.Sign() * inventory >= 0;
    && (g.toxicity.level.Extreme? ==> Flattening(cfg, g, inventory) && !adding)
    && QuoteSize(cfg, g, inventory) > 0
    && !(Abs(inventory) >= cfg.reduceOnlyPosition && side.Sign() * inventory > 0)
    && Room(cfg, side, inventory) > 0
    && (behind > Ticks(cfg, cfg.maxBehindTicks) + EPSILON ==> Flattening(cfg, g, inventory))
  }

  function Decide(cfg: QuotingConfig, s: BookSnapshot, g: Signals, inventory: int): Decision {
    if !s.TwoSided() then NO_QUOTES
    else
      var r := Reservation(cfg, s, g, inventory);
      var half := HalfSpread(cfg, g);
      var bid, ask := BidPrice(cfg, s.bids[0].price, r, half), AskPrice(cfg, s.asks[0].price, r, half);
      var size := QuoteSize(cfg, g, inventory);
      Decision(
        if Wanted(cfg, g, inventory, Bid, s.bids[0].price - bid) then Some(Quote(Bid, bid, Min(size, Room(cfg, Bid, inventory)))) else None,
        if Wanted(cfg, g, inventory, Ask, ask - s.asks[0].price) then Some(Quote(Ask, ask, Min(size, Room(cfg, Ask, inventory)))) else None)
  }

  class QuoteEngine {
    const cfg: QuotingConfig

    constructor (cfg: QuotingConfig)
      ensures this.cfg == cfg
    {
      this.cfg := cfg;
    }

    method DecideQuotes(s: BookSnapshot, g: Signals, inventory: int) returns (out: Decision)
      ensures out == Decide(cfg, s, g, inventory)
    {
      if !s.TwoSided() {
        return NO_QUOTES;
      }
      var r, half := Reservation(cfg, s, g, inventory), HalfSpread(cfg, g);
      var bidPrice, askPrice := BidPrice(cfg, s.bids[0].price, r, half), AskPrice(cfg, s.asks[0].price, r, half);
      var wantBid, wantAsk, size := ChooseSides(g, inventory, s.bids[0].price - bidPrice, askPrice - s.asks[0].price);
      out := Decision(if wantBid then Some(Quote(Bid, bidPrice, Min(size, cfg.maxPosition - inventory))) else None,
                      if wantAsk then Some(Quote(Ask, askPrice, Min(size, cfg.maxPosition + inventory))) else None);
    }

    /** Which sides survive the regime, the inventory, the cap and the distance from the touch. */
    method ChooseSides(g: Signals, inventory: int, bidBehind: real, askBehind: real)
      returns (wantBid: bool, wantAsk: bool, size: int)
      ensures size == QuoteSize(cfg, g, inventory)
      ensures wantBid == Wanted(cfg, g, inventory, Bid, bidBehind)
      ensures wantAsk == Wanted(cfg, g, inventory, Ask, askBehind)
    {
      size := Shrunk(cfg.baseSize, g.toxicity.sizeMultiplier);
      size := Min(Max(size, 0), cfg.maxSize);
      wantBid, wantAsk := true, true;
      var extremeFlattening := false;
      if g.toxicity.level.Extreme? {
        if cfg.extremePull || inventory == 0 {
          wantBid, wantAsk := false, false;
        } else {
          size := Max(size, 1);
          wantBid := inventory < 0;
          wantAsk := inventory > 0;
          extremeFlattening := true;
        }
      }
      if size <= 0 {
        wantBid, wantAsk := false, false;
      }
      if Abs(inventory) >= cfg.reduceOnlyPosition && inventory != 0 {
        if inventory > 0 && wantBid {
          wantBid := false;
        }
        if inventory < 0 && wantAsk {
          wantAsk := false;
        }
      }
      var bidSize := Min(size, cfg.maxPosition - inventory);
      var askSize := Min(size, cfg.maxPosition + inventory);
      if wantBid && bidSize <= 0 {
        wantBid := false;
      }
      if wantAsk && askSize <= 0 {
        wantAsk := false;
      }
      var maxBehind := Ticks(cfg, cfg.maxBehindTicks) + EPSILON;
      if wantBid && bidBehind > maxBehind && !extremeFlattening {
        wantBid := false;
      }
      if wantAsk && askBehind > maxBehind && !extremeFlattening {
        wantAsk := false;
      }
    }
  }

  // ---- what a decision promises -----------------------------------------

  /** A quote a decision may ask for on one side. */
  predicate Fits(cfg: QuotingConfig, quote: Option<Quote>, side: Side, inventory: int) {
    quote.Some? ==>
      && quote.value.side == side
      && 0 < quote.value.size <= cfg.maxSize
      && quote.value.size <= Room(cfg, side, inventory)
  }

  /** No single quote, filled whole, takes the position past the cap. */
  lemma DecisionFits(cfg: QuotingConfig, s: BookSnapshot, g: Signals, inventory: int)
    requires 1 <= cfg.maxSize
    ensures var d := Decide(cfg, s, g, inventory);
            Fits(cfg, d.bid, Bid, inventory) && Fits(cfg, d.ask, Ask, inventory)
  {
  }

  /** In an extreme regime, and past the reduce-only position, a quote can only shrink the position. */
  lemma OnlyReduces(cfg: QuotingConfig, s: BookSnapshot, g: Signals, inventory: int)
    requires g.toxicity.level.Extreme? || (Abs(inventory) >= cfg.reduceOnlyPosition && inventory != 0)
    ensures var d := Decide(cfg, s, g, inventory);
            (d.bid.Some? ==> inventory < 0) && (d.ask.Some? ==> inventory > 0)
  {
  }

  lemma SnapDownBound(price: real, tick: Positive)
    ensures SnapDown(price, tick) <= price + EPSILON * tick
  {
    var q := price / tick;
    assert q * tick == price;
    assert (q + EPSILON) * tick == price + EPSILON * tick;
    Scaled((q + EPSILON).Floor as real, q + EPSILON, tick);
  }

  lemma SnapUpBound(price: real, tick: Positive)
    ensures SnapUp(price, tick) >= price - EPSILON * tick
  {
    var q := price / tick;
    assert q * tick == price;
    assert (q - EPSILON) * tick == price - EPSILON * tick;
    Scaled(q - EPSILON, Ceiling(q - EPSILON) as real, tick);
  }

  lemma Scaled(a: real, b: real, k: Positive)
    requires a <= b
    ensures a * k <= b * k
  {
  }

  /** How far behind its touch a quote has to sit, less the slack of the snap. */
  function Distance(cfg: QuotingConfig): real { Ticks(cfg, cfg.behindBestTicks) - EPSILON * cfg.tickSize }

  lemma PricesBehind(cfg: QuotingConfig, bestBid: real, bestAsk: real, r: real, half: real)
    ensures BidPrice(cfg, bestBid, r, half) <= bestBid - Distance(cfg)
    ensures AskPrice(cfg, bestAsk, r, half) >= bestAsk + Distance(cfg)
  {
    SnapDownBound(MinReal(r - half, bestBid - Ticks(cfg, cfg.behindBestTicks)), cfg.tickSize);
    SnapUpBound(MaxReal(r + half, bestAsk + Ticks(cfg, cfg.behindBestTicks)), cfg.tickSize);
  }

  /**
   * Cooperative placement: each quote sits behind_best_ticks or more behind
   * its touch, to within the slack of the snap.
   */
  lemma BehindTheTouch(cfg: QuotingConfig, s: BookSnapshot, g: Signals, inventory: int)
    requires s.TwoSided()
    ensures var d := Decide(cfg, s, g, inventory);
            && (d.bid.Some? ==> d.bid.value.price <= s.bids[0].price - Distance(cfg))
            && (d.ask.Some? ==> d.ask.value.price >= s.asks[0].price + Distance(cfg))
  {
    PricesBehind(cfg, s.bids[0].price, s.asks[0].price, Reservation(cfg, s, g, inventory), HalfSpread(cfg, g));
  }
}
