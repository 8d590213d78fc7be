/** The position and its P&L. */
module Inventory {
  import opened Common
  import opened Orders

  datatype Account = Account(
    multiplier: real,
    position: int,
    avgPrice: real,
    realised: real,
    fees: real,
    contractsTraded: int,
    fills: seq<Fill>)
  {
    function Unrealised(mark: Option<real>): real {
      if mark.None? || position == 0 then 0.0
      else position as real * (mark.value - avgPrice) * multiplier
    }

    function TotalPnl(mark: Option<real>): real {
      realised + Unrealised(mark) - fees
    }
  }

  function Gain(contracts: int, direction: int, bought: real, sold: real, multiplier: real): real {
    contracts as real * direction as real * (sold - bought) * multiplier
  }

  /** What a fill closes out, gross of fees. */
  function RealisedBy(a: Account, f: Fill): real {
    var q := f.Signed();
    if Opens(a, q) then 0.0
    else
      var closing := Min(Abs(q), Abs(a.position));
      var direction := if a.position > 0 then 1 else -1;
      Gain(closing, direction, a.avgPrice, f.price, a.multiplier)
  }

  /** The fill adds to the position rather than taking from it. */
  predicate Opens(a: Account, q: int) {
    a.position == 0 || (a.position > 0) == (q > 0)
  }

  /** The average of n contracts at one price and q more at another. */
  function Weighted(n: int, average: real, q: int, price: real): real
    requires n + q != 0
  {
    (average * n as real + price * q as real) / (n + q) as real
  }

  function AverageAfter(a: Account, f: Fill): real {
    var q := f.Signed();
    var total := a.position + q;
    if total == 0 then 0.0
    else if Opens(a, q) then Weighted(a.position, a.avgPrice, q, f.price)
    else if (total > 0) != (a.position > 0) then f.price
    else a.avgPrice
  }

  function Book(a: Account, f: Fill): Account {
    a.(position := a.position + f.Signed(),
       avgPrice := AverageAfter(a, f),
       realised := a.realised + RealisedBy(a, f),
       fees := a.fees + f.fees,
       contractsTraded := a.contractsTraded + f.size,
       fills := a.fills + [f])
  }

  function BookAll(a: Account, fills: seq<Fill>): Account {
    if fills == [] then a
    else Book(BookAll(a, fills[..|fills| - 1]), fills[|fills| - 1])
  }

  class PositionBook {
    const multiplier: real
    var position: int
    var avgPrice: real
    var realised: real
    var fees: real
    var contractsTraded: int
    var fills: seq<Fill>

    ghost function View(): Account
      reads this
    {
      Account(multiplier, position, avgPrice, realised, fees, contractsTraded, fills)
    }

    constructor (multiplier: real)
      ensures View() == Account(multiplier, 0, 0.0, 0.0, 0.0, 0, [])
    {
      this.multiplier := multiplier;
      position, avgPrice, realised, fees, contractsTraded, fills := 0, 0.0, 0.0, 0.0, 0, [];
    }

    method Adopt(newPosition: int, newAvgPrice: real)
      modifies this
      ensures View() == old(View()).(position := newPosition, avgPrice := if newPosition != 0 then newAvgPrice else 0.0)
    {
      position := newPosition;
      avgPrice := if newPosition != 0 then newAvgPrice else 0.0;
    }

    /** Book a fill; the realised P&L it closed out is returned, gross of fees. */
    method ApplyFill(f: Fill) returns (realisedNow: real)
      modifies this
      ensures View() == Book(old(View()), f)
      ensures realisedNow == RealisedBy(old(View()), f)
    {
      realisedNow := 0.0;
      var q := f.Signed();
      if position == 0 || (position > 0) == (q > 0) {
        var total := position + q;
        avgPrice := if total != 0 then Weighted(position, avgPrice, q, f.price) else 0.0;
        position := total;
      } else {
        var closing := Min(Abs(q), Abs(position));
        var direction := if position > 0 then 1 else -1;
        realisedNow := Gain(closing, direction, avgPrice, f.price, multiplier);
        realised := realised + realisedNow;
        position := position + q;
        if position == 0 {
          avgPrice := 0.0;
        } else if (position > 0) != (direction > 0) {
          avgPrice := f.price;
        }
      }
      fees := fees + f.fees;
      fills := fills + [f];
      contractsTraded := contractsTraded + f.size;
    }

    method Pnl(mark: Option<real>) returns (total: real)
      ensures total == View().TotalPnl(mark)
    {
      var unrealised := if mark.None? || position == 0 then 0.0 else position as real * (mark.value - avgPrice) * multiplier;
      total := realised + unrealised - fees;
    }
  }

  // ---- what the P&L is --------------------------------------------------

  /** Any per-fill quantity, added up. */
  function Total(fills: seq<Fill>, of: Fill -> real): real {
    if fills == [] then 0.0
    else Total(fills[..|fills| - 1], of) + of(fills[|fills| - 1])
  }

  /** What a fill paid out: bought contracts cost, sold contracts earn. */
  function Outlay(f: Fill): real { f.Signed() as real * f.price }

  function FeesOf(f: Fill): real { f.fees }

  /** The position at what it cost. */
  function AtCost(a: Account): real { a.position as real * a.avgPrice }

  /** The realised P&L moved from a to b is the change in position at cost less what was paid. */
  predicate Conserves(a: Account, b: Account, paid: real) {
    b.multiplier == a.multiplier && b.realised - a.realised == a.multiplier * (AtCost(b) - AtCost(a) - paid)
  }

  lemma OpeningConserves(a: Account, f: Fill)
    requires Opens(a, f.Signed())
    ensures Conserves(a, Book(a, f), Outlay(f))
  {
    var q, b := f.Signed(), Book(a, f);
    assert b.realised == a.realised;
    assert AtCost(b) == AtCost(a) + Outlay(f) by {
      if b.position == 0 {
        assert a.position == 0 && q == 0;
      }
    }
  }

  lemma ReducingConserves(a: Account, f: Fill)
    requires !Opens(a, f.Signed()) && Abs(f.Signed()) <= Abs(a.position)
    ensures Conserves(a, Book(a, f), Outlay(f))
  {
    var q, b := f.Signed(), Book(a, f);
    var direction := if a.position > 0 then 1 else -1;
    assert Min(Abs(q), Abs(a.position)) as real * direction as real == (-q) as real;
    assert b.realised - a.realised == (-q) as real * (f.price - a.avgPrice) * a.multiplier;
    assert AtCost(b) == (a.position + q) as real * a.avgPrice == AtCost(a) + q as real * a.avgPrice;
    Factored(a.multiplier, AtCost(b) - AtCost(a), q as real, f.price, a.avgPrice);
  }

  lemma FlippingConserves(a: Account, f: Fill)
    requires !Opens(a, f.Signed()) && Abs(f.Signed()) > Abs(a.position)
    ensures Conserves(a, Book(a, f), Outlay(f))
  {
    var q, b, p := f.Signed(), Book(a, f), a.position as real;
    var direction := if a.position > 0 then 1 else -1;
    assert Min(Abs(q), Abs(a.position)) as real * direction as real == p;
    assert b.realised - a.realised == p * (f.price - a.avgPrice) * a.multiplier;
    assert AtCost(b) == (a.position + q) as real * f.price == p * f.price + Outlay(f);
    assert AtCost(b) - AtCost(a) - Outlay(f) == p * (f.price - a.avgPrice);
  }

  lemma Factored(m: real, change: real, q: real, price: real, cost: real)
    requires change == q * cost
    ensures (-q) * (price - cost) * m == m * (change - q * price)
  {
    assert (-q) * (price - cost) == q * cost - q * price;
  }

  lemma BookConserves(a: Account, f: Fill)
    ensures Conserves(a, Book(a, f), Outlay(f))
  {
    if Opens(a, f.Signed()) {
      OpeningConserves(a, f);
    } else if Abs(f.Signed()) <= Abs(a.position) {
      ReducingConserves(a, f);
    } else {
      FlippingConserves(a, f);
    }
  }

  function Fold(step: (Account, Fill) -> Account, a: Account, fills: seq<Fill>): Account {
    if fills == [] then a
    else step(Fold(step, a, fills[..|fills| - 1]), fills[|fills| - 1])
  }

  /** A step that conserves over one fill conserves over any list of them. */
  lemma {:induction false} FoldConserves(step: (Account, Fill) -> Account, a: Account, fills: seq<Fill>)
    requires forall x, f :: Conserves(x, step(x, f), Outlay(f))
    ensures Conserves(a, Fold(step, a, fills), Total(fills, Outlay))
  {
    if fills == [] {
      assert AtCost(a) - AtCost(a) - Total(fills, Outlay) == 0.0;
    } else {
      var n := |fills| - 1;
      var before := Fold(step, a, fills[..n]);
      FoldConserves(step, a, fills[..n]);
      Chained(a, before, step(before, fills[n]), Total(fills[..n], Outlay), Outlay(fills[n]));
    }
  }

  lemma Chained(a: Account, b: Account, c: Account, paid: real, last: real)
    requires Conserves(a, b, paid) && Conserves(b, c, last)
    ensures Conserves(a, c, paid + last)
  {
    Distribute(a.multiplier, AtCost(b) - AtCost(a) - paid, AtCost(c) - AtCost(b) - last);
  }

  lemma Distribute(m: real, x: real, y: real)
    ensures m * (x + y) == m * x + m * y
  {
  }

  lemma {:induction false} BookAllIsFold(a: Account, fills: seq<Fill>)
    ensures BookAll(a, fills) == Fold(Book, a, fills)
  {
    if fills != [] {
      BookAllIsFold(a, fills[..|fills| - 1]);
    }
  }

  /**
   * Through adds, partial closes and flips, from any starting position, the
   * realised P&L is the change in position at cost less what the fills paid.
   */
  lemma RealisedIdentity(a: Account, fills: seq<Fill>)
    ensures Conserves(a, BookAll(a, fills), Total(fills, Outlay))
  {
    forall x, f
      ensures Conserves(x, Book(x, f), Outlay(f))
    {
      BookConserves(x, f);
    }
    FoldConserves(Book, a, fills);
    BookAllIsFold(a, fills);
  }

  /** Position, fees and multiplier after a list of fills. */
  lemma {:induction false} BookedTotals(a: Account, fills: seq<Fill>)
    ensures var b := BookAll(a, fills);
            && b.multiplier == a.multiplier
            && b.position == a.position + NetSize(fills)
            && b.fees == a.fees + Total(fills, FeesOf)
  {
    if fills != [] {
      BookedTotals(a, fills[..|fills| - 1]);
    }
  }

  predicate Flat(a: Account) { a.position == 0 && a.realised == 0.0 && a.fees == 0.0 }

  function Revalued(multiplier: real, position: int, paid: real, mark: real): real {
    multiplier * (position as real * mark - paid)
  }

  lemma MarkedPnl(a: Account, b: Account, paid: real, mark: real)
    requires Flat(a) && Conserves(a, b, paid)
    ensures b.TotalPnl(Some(mark)) == Revalued(a.multiplier, b.position, paid, mark) - b.fees
  {
    var m, held := a.multiplier, b.position as real;
    assert held * (mark - b.avgPrice) == held * mark - AtCost(b);
    assert b.Unrealised(Some(mark)) == m * (held * mark - AtCost(b));
    Distribute(m, AtCost(b) - paid, held * mark - AtCost(b));
  }

  /** From flat and marked, the P&L is the fills revalued at the mark, less fees. */
  lemma PnlIsRevaluation(a: Account, fills: seq<Fill>, mark: real)
    requires Flat(a)
    ensures BookAll(a, fills).TotalPnl(Some(mark)) ==
            Revalued(a.multiplier, NetSize(fills), Total(fills, Outlay), mark) - Total(fills, FeesOf)
  {
    RealisedIdentity(a, fills);
    BookedTotals(a, fills);
    MarkedPnl(a, BookAll(a, fills), Total(fills, Outlay), mark);
  }

  lemma {:induction false} TotalAppend(first: seq<Fill>, second: seq<Fill>, of: Fill -> real)
    ensures Total(first + second, of) == Total(first, of) + Total(second, of)
  {
    if second == [] {
      assert first + second == first;
    } else {
      var n := |second| - 1;
      TotalAppend(first, second[..n], of);
      assert (first + second)[..|first + second| - 1] == first + second[..n];
    }
  }

  lemma {:induction false} TotalOfPermutation(first: seq<Fill>, second: seq<Fill>, of: Fill -> real)
    requires multiset(first) == multiset(second)
    ensures Total(first, of) == Total(second, of)
  {
    if first == [] {
      assert |multiset(first)| == |multiset(second)|;
    } else {
      var n := |first| - 1;
      var last := first[n];
      var i := Matched(first, second);
      TotalOfPermutation(first[..n], Dropped(second, i), of);
      assert second == second[..i] + [last] + second[i + 1..];
      TotalAppend(second[..i], second[i + 1..], of);
      TotalAppend(second[..i] + [last], second[i + 1..], of);
      TotalAppend(second[..i], [last], of);
      assert [last][..0] == [];
      assert Total([last], of) == of(last);
    }
  }

  function SignedOf(f: Fill): real { f.Signed() as real }

  lemma {:induction false} NetSizeIsTotal(fills: seq<Fill>)
    ensures NetSize(fills) as real == Total(fills, SignedOf)
  {
    if fills != [] {
      NetSizeIsTotal(fills[..|fills| - 1]);
    }
  }

  /** From flat, neither the marked P&L nor the position depends on the order the fills came in. */
  lemma PnlIgnoresOrder(a: Account, first: seq<Fill>, second: seq<Fill>, mark: real)
    requires Flat(a) && multiset(first) == multiset(second)
    ensures BookAll(a, first).TotalPnl(Some(mark)) == BookAll(a, second).TotalPnl(Some(mark))
    ensures BookAll(a, first).position == BookAll(a, second).position
  {
    SumsIgnoreOrder(first, second);
    PnlIsRevaluation(a, first, mark);
    PnlIsRevaluation(a, second, mark);
    BookedTotals(a, first);
    BookedTotals(a, second);
  }

  lemma SumsIgnoreOrder(first: seq<Fill>, second: seq<Fill>)
    requires multiset(first) == multiset(second)
    ensures NetSize(first) == NetSize(second)
    ensures Total(first, Outlay) == Total(second, Outlay) && Total(first, FeesOf) == Total(second, FeesOf)
  {
    NetSizeIsTotal(first);
    NetSizeIsTotal(second);
    TotalOfPermutation(first, second, SignedOf);
    TotalOfPermutation(first, second, Outlay);
    TotalOfPermutation(first, second, FeesOf);
  }
}
