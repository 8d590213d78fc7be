/** What the pipeline does with a verdict, said of the position, the book and the budget alone. */
module FlattenRules {
  import opened Common
  import opened Orders
  import opened Throttle
  import opened QuoteManagement
  import opened Pipeline
  import X = SimulatedExchange
  import Risk
  import E = QuotingEngine

  /** The bucket has a whole token once it has been refilled, or all but one to within the slack. */
  predicate HasToken(b: Bucket, now: real) {
    var since := if now > b.last then now - b.last else 0.0;
    b.burst >= 1.0 - EPSILON && b.tokens + since * b.rate >= 1.0 - EPSILON
  }

  /** The price is a whole number of ticks, none nearer, and the even one of two as near. */
  ghost predicate OnTick(price: real, tick: Positive, target: real) {
    exists n: int :: price == n as real * tick && Nearby(n, tick, target)
  }

  predicate Nearby(n: int, tick: Positive, target: real) {
    var off := n as real * tick - target;
    off + off <= tick && off + off + tick >= 0.0 && (off + off == tick || off + off + tick == 0.0 ==> n % 2 == 0)
  }

  /** Through the other side's touch: below the bid to sell, above the ask to buy. */
  function Across(cfg: Config, position: int, s: BookSnapshot): real
    requires s.TwoSided()
  {
    var cross := cfg.risk.flattenCrossTicks as real * cfg.quoting.tickSize;
    if position > 0 then s.bids[0].price - cross else s.asks[0].price + cross
  }

  lemma NearestIs(x: real)
    ensures var n := Nearest(x);
            var off := n as real - x;
            -1.0 <= off + off <= 1.0 && (off + off == 1.0 || off + off == -1.0 ==> n % 2 == 0)
  {
  }

  lemma RoundIs(tick: Positive, price: real)
    ensures OnTick(RoundToTick(tick, price), tick, price)
  {
    var q := price / tick;
    var n := Nearest(q);
    NearestIs(q);
    assert q * tick == price;
    Stretched(n as real - q, tick, n as real * tick - price);
    assert RoundToTick(tick, price) == n as real * tick && Nearby(n, tick, price);
  }

  lemma Stretched(off: real, tick: Positive, scaled: real)
    requires scaled == off * tick
    ensures off + off <= 1.0 <==> scaled + scaled <= tick
    ensures off + off >= -1.0 <==> scaled + scaled + tick >= 0.0
    ensures off + off == 1.0 <==> scaled + scaled == tick
    ensures off + off == -1.0 <==> scaled + scaled + tick == 0.0
  {
    assert scaled + scaled - tick == (off + off - 1.0) * tick;
    assert scaled + scaled + tick == (off + off + 1.0) * tick;
  }

  /** With nothing to flatten, or no book to flatten into, nothing is done. */
  lemma NothingToFlatten(cfg: Config, s: Session, now: real, book: BookSnapshot)
    requires s.account.position == 0 || book.bids == [] || book.asks == [] || !book.complete
    ensures FlattenPosition(cfg, s, now, book) == s
  {
  }

  /** A position is first crossed out with one order: all of it, against the touch, for a token. */
  lemma FirstFlatten(cfg: Config, s: Session, now: real, book: BookSnapshot)
    requires s.account.position != 0 && book.TwoSided() && s.flatten.None?
    ensures var r, id, position := FlattenPosition(cfg, s, now, book), s.desk.exchange.nextId, s.account.position;
            && (r.flatten.Some? <==> HasToken(s.desk.budget, now))
            && (r.flatten.None? ==> r == s.(desk := s.desk.(budget := r.desk.budget)))
            && (r.flatten.Some? ==>
                  exists price: real ::
                    && OnTick(price, cfg.quoting.tickSize, Across(cfg, position, book))
                    && r == s.(desk := s.desk.(exchange := X.Place(s.desk.exchange, if position > 0 then Ask else Bid, price,
                                                                   if position > 0 then position else -position),
                                               budget := r.desk.budget),
                               flatten := Some(id), flattenSize := if position > 0 then position else -position,
                               flattenSentAt := now, foreign := s.foreign + {id}))
  {
    RoundIs(cfg.quoting.tickSize, Across(cfg, s.account.position, book));
    assert FlattenPrice(cfg, s.account.position, book) == RoundToTick(cfg.quoting.tickSize, Across(cfg, s.account.position, book));
  }

  /**
   * A flatten order that still works is sent after the touch every three seconds, for a token and for what is left
   * of it.
   */
  lemma NextFlatten(cfg: Config, s: Session, now: real, book: BookSnapshot)
    requires s.account.position != 0 && book.TwoSided() && s.flatten.Some?
    ensures var r := FlattenPosition(cfg, s, now, book);
            var due := now >= s.flattenSentAt + 3.0 && HasToken(s.desk.budget, now);
            && r.flatten == s.flatten && r.flattenSize == s.flattenSize && r.account == s.account
            && (now < s.flattenSentAt + 3.0 ==> r == s)
            && (!due ==> r == s.(desk := s.desk.(budget := r.desk.budget)))
            && (due ==>
                  exists price: real ::
                    && OnTick(price, cfg.quoting.tickSize, Across(cfg, s.account.position, book))
                    && r == s.(desk := s.desk.(exchange := X.Replace(s.desk.exchange, s.flatten.value, price, s.flattenSize),
                                               budget := r.desk.budget),
                               flattenSentAt := now))
  {
    RoundIs(cfg.quoting.tickSize, Across(cfg, s.account.position, book));
    assert FlattenPrice(cfg, s.account.position, book) == RoundToTick(cfg.quoting.tickSize, Across(cfg, s.account.position, book));
  }

  /**
   * A verdict that does not quote wishes for nothing, and flattens if it says so; one that does wishes for the
   * decision and leaves the flatten order alone.
   */
  lemma VerdictActs(cfg: Config, s: Session, i: Input)
    ensures var v, r := VerdictOf(cfg, s, i), Judged(cfg, s, i);
            && (!v.quote ==> r.desk.manager.desired == Pair(None, None))
            && (v.quote ==>
                  var d := E.Decide(cfg.quoting, i.snapshot, i.signals, s.account.position);
                  && r.desk.manager.desired == Pair(d.bid, d.ask)
                  && r.desk.exchange == s.desk.exchange && r.desk.budget == s.desk.budget && r.flatten == s.flatten)
            && (v.flatten ==>
                  exists wished: Session ::
                    && wished.account == s.account && wished.flatten == s.flatten && wished.flattenSize == s.flattenSize
                    && wished.flattenSentAt == s.flattenSentAt
                    && wished.desk.exchange == s.desk.exchange && wished.desk.budget == s.desk.budget
                    && r == FlattenPosition(cfg, wished, i.now, i.snapshot))
            && (!v.flatten ==> r.desk.exchange == s.desk.exchange && r.desk.budget == s.desk.budget && r.flatten == s.flatten)
  {
    var judged := s.(halted := Risk.HaltedAfter(cfg.risk, s.halted, s.account, ConditionsOf(cfg, i)));
    Risk.QuotesWhen(cfg.risk, s.halted, s.account, ConditionsOf(cfg, i));
    var wished := Wish(judged, None, None);
    assert VerdictOf(cfg, s, i).flatten ==> Judged(cfg, s, i) == FlattenPosition(cfg, wished, i.now, i.snapshot);
  }

  // ---- when a flatten order is let go -----------------------------------

  /** What a log says has been filled of one order. */
  function FilledOf(events: seq<OrderEvent>, id: int): int {
    if events == [] then 0
    else
      var last := events[|events| - 1];
      FilledOf(events[..|events| - 1], id) +
      if last.orderId == id && last.Filled? && last.fill.Some? then last.fill.value.size else 0
  }

  /** Event k ends an order of so many contracts: a cancellation, a rejection, or the fill that completes it. */
  predicate EndsIt(events: seq<OrderEvent>, k: nat, id: int, size: int)
    requires k < |events|
  {
    var e := events[k];
    && e.orderId == id
    && (e.Cancelled? || e.Rejected? || (e.Filled? && e.fill.Some? && FilledOf(events[..k + 1], id) >= size))
  }

  /** Over any log the flatten order is let go exactly when some event ends it, and what is left of it is less its fills. */
  lemma {:induction false} FlattenTold(id: int, size: int, events: seq<OrderEvent>)
    ensures var r := OnFlattenEvents(Flatten(Some(id), size), id, events);
            && r.size == size - FilledOf(events, id)
            && r.order == if exists k: nat :: k < |events| && EndsIt(events, k, id, size) then None else Some(id)
  {
    if events != [] {
      var n := |events| - 1;
      FlattenTold(id, size, events[..n]);
      assert events[..n + 1] == events;
      forall k: nat | k < n ensures EndsIt(events, k, id, size) <==> EndsIt(events[..n], k, id, size) {
        assert events[..n][..k + 1] == events[..k + 1];
      }
      assert (exists k: nat :: k < |events| && EndsIt(events, k, id, size)) <==>
             (exists k: nat :: k < n && EndsIt(events[..n], k, id, size)) || EndsIt(events, n, id, size);
    }
  }
}
