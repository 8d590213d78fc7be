/** The probe's queue of fills: one pointer a horizon, in place of a scan of every row. */
module EdgeProbes {
  import opened Common

  /** The book a row is stamped with. */
  datatype Mark = Mark(mid: real, micro: real)

  datatype Row = Row(ts: int, marks: seq<Option<Mark>>)

  /** How many horizons a row is marked at. */
  const NH := 6

  /** Nanoseconds after a fill at which it is marked: at once, and 0.1, 1, 5, 30 and 60 seconds on. */
  function Horizon(h: nat): int
    requires h < NH
  {
    match h
    case 0 => 0
    case 1 => 100000000
    case 2 => 1000000000
    case 3 => 5000000000
    case 4 => 30000000000
    case _ => 60000000000
  }

  predicate Shaped(rows: seq<Row>) { forall i :: 0 <= i < |rows| ==> |rows[i].marks| == NH }

  /** Rows are pushed in time order. */
  predicate InOrder(rows: seq<Row>) { forall i, j :: 0 <= i < j < |rows| ==> rows[i].ts <= rows[j].ts }

  predicate Complete(row: Row) { forall h :: 0 <= h < |row.marks| ==> row.marks[h].Some? }

  // ---- the naive scan ---------------------------------------------------

  /** A slot is stamped by the first book at or after its horizon, and kept. */
  function Slot(row: Row, h: nat, now: int, mark: Mark): Option<Mark>
    requires |row.marks| == NH && h < NH
  {
    if row.marks[h].None? && now >= row.ts + Horizon(h) then Some(mark) else row.marks[h]
  }

  function Scan(row: Row, now: int, mark: Mark): Row
    requires |row.marks| == NH
  {
    row.(marks := seq(NH, h requires 0 <= h < NH => Slot(row, h, now, mark)))
  }

  /** Every slot of every row ever pushed is looked at; a book that is not two-sided stamps nothing. */
  function Scanned(rows: seq<Row>, now: int, book: Option<Mark>): seq<Row>
    requires Shaped(rows)
  {
    if book.None? then rows
    else seq(|rows|, i requires 0 <= i < |rows| => Scan(rows[i], now, book.value))
  }

  function Fresh(ts: int): Row { Row(ts, seq(NH, _ => None)) }

  datatype Op = Push(ts: int) | Resolve(now: int, book: Option<Mark>)

  function Naive(ops: seq<Op>): (rows: seq<Row>)
    ensures Shaped(rows)
  {
    if ops == [] then []
    else
      var before := Naive(ops[..|ops| - 1]);
      match ops[|ops| - 1]
      case Push(ts) => before + [Fresh(ts)]
      case Resolve(now, book) => Scanned(before, now, book)
  }

  // ---- what the scan stamps, read off the history -----------------------

  /** What happens after the i-th row is pushed. */
  function Since(ops: seq<Op>, i: nat): seq<Op> {
    if ops == [] || Pushes(ops[..|ops| - 1]) <= i then [] else Since(ops[..|ops| - 1], i) + [ops[|ops| - 1]]
  }

  function Pushes(ops: seq<Op>): nat {
    if ops == [] then 0 else Pushes(ops[..|ops| - 1]) + if ops[|ops| - 1].Push? then 1 else 0
  }

  /** The first two-sided book at or after a time. */
  function FirstAfter(time: int, later: seq<Op>): Option<Mark> {
    if later == [] then None
    else
      var earlier := FirstAfter(time, later[..|later| - 1]);
      var last := later[|later| - 1];
      if earlier.Some? then earlier else if last.Resolve? && last.now >= time then last.book else None
  }

  lemma OneMore(ops: seq<Op>, last: Op, i: nat)
    ensures Since(ops + [last], i) == if i < Pushes(ops) then Since(ops, i) + [last] else []
    ensures Pushes(ops + [last]) == Pushes(ops) + if last.Push? then 1 else 0
  {
    assert (ops + [last])[..|ops|] == ops;
  }

  lemma OneLater(time: int, later: seq<Op>, last: Op)
    ensures var earlier := FirstAfter(time, later);
            FirstAfter(time, later + [last]) ==
            if earlier.Some? then earlier else if last.Resolve? && last.now >= time then last.book else None
  {
    assert (later + [last])[..|later|] == later;
  }

  lemma {:induction false} NaiveLength(ops: seq<Op>)
    ensures |Naive(ops)| == Pushes(ops)
  {
    if ops != [] {
      NaiveLength(ops[..|ops| - 1]);
    }
  }

  lemma NaiveStep(before: seq<Op>, last: Op, i: nat, h: nat)
    requires i < |Naive(before)| && h < NH
    ensures i < |Naive(before + [last])|
    ensures var was, now := Naive(before)[i], Naive(before + [last])[i];
            && now.ts == was.ts
            && now.marks[h] == if last.Resolve? && last.book.Some? then Slot(was, h, last.now, last.book.value) else was.marks[h]
  {
    assert (before + [last])[..|before|] == before;
  }

  lemma NaivePush(before: seq<Op>, last: Op, h: nat)
    requires last.Push? && h < NH
    ensures var rows := Naive(before + [last]);
            |rows| == |Naive(before)| + 1 && rows[|rows| - 1].marks[h].None?
  {
    assert (before + [last])[..|before|] == before;
  }

  /** Slot h of a row holds the first two-sided book of what came after it at or after its time plus the horizon. */
  predicate HeldFirst(row: Row, later: seq<Op>, h: nat)
    requires |row.marks| == NH && h < NH
  {
    row.marks[h] == FirstAfter(row.ts + Horizon(h), later)
  }

  predicate HoldsFirst(ops: seq<Op>, i: nat, h: nat)
    requires h < NH
  {
    i < |Naive(ops)| && HeldFirst(Naive(ops)[i], Since(ops, i), h)
  }

  /** What a scan makes of a slot that held the first book so far. */
  lemma FirstOnceMore(row: Row, row': Row, h: nat, later: seq<Op>, last: Op)
    requires |row.marks| == |row'.marks| == NH && h < NH && HeldFirst(row, later, h) && row'.ts == row.ts
    requires row'.marks[h] ==
             if last.Resolve? && last.book.Some? then Slot(row, h, last.now, last.book.value) else row.marks[h]
    ensures HeldFirst(row', later + [last], h)
  {
    OneLater(row.ts + Horizon(h), later, last);
  }

  lemma StillFirst(before: seq<Op>, last: Op, i: nat, h: nat)
    requires h < NH && i < Pushes(before) && HoldsFirst(before, i, h)
    ensures HoldsFirst(before + [last], i, h)
  {
    OneMore(before, last, i);
    NaiveStep(before, last, i, h);
    FirstOnceMore(Naive(before)[i], Naive(before + [last])[i], h, Since(before, i), last);
  }

  lemma NothingYet(before: seq<Op>, last: Op, h: nat)
    requires h < NH && last.Push?
    ensures HoldsFirst(before + [last], Pushes(before), h)
  {
    NaiveLength(before);
    OneMore(before, last, Pushes(before));
    NaivePush(before, last, h);
  }

  lemma FirstSoFar(before: seq<Op>, last: Op, i: nat, h: nat)
    requires h < NH && i < Pushes(before + [last])
    requires i < Pushes(before) ==> HoldsFirst(before, i, h)
    ensures HoldsFirst(before + [last], i, h)
  {
    OneMore(before, last, i);
    if i < Pushes(before) {
      StillFirst(before, last, i, h);
    } else {
      NothingYet(before, last, h);
    }
  }

  /** So over any run. */
  lemma {:induction false} NaiveIsFirst(ops: seq<Op>, i: nat, h: nat)
    requires h < NH && i < Pushes(ops)
    ensures HoldsFirst(ops, i, h)
  {
    var before, last := ops[..|ops| - 1], ops[|ops| - 1];
    assert ops == before + [last];
    if i < Pushes(before) {
      NaiveIsFirst(before, i, h);
    }
    FirstSoFar(before, last, i, h);
  }

  // ---- one horizon at a time --------------------------------------------

  function StampAt(row: Row, h: nat, now: int, mark: Mark): Row
    requires |row.marks| == NH && h < NH
  {
    row.(marks := row.marks[h := Slot(row, h, now, mark)])
  }

  /** The first n rows stamped at one horizon. */
  function StampFirst(rows: seq<Row>, n: int, h: nat, now: int, mark: Mark): (r: seq<Row>)
    requires Shaped(rows) && h < NH
    ensures |r| == |rows| && Shaped(r)
  {
    seq(|rows|, i requires 0 <= i < |rows| => if i < n then StampAt(rows[i], h, now, mark) else rows[i])
  }

  function StampUpTo(rows: seq<Row>, hs: nat, now: int, mark: Mark): (r: seq<Row>)
    requires Shaped(rows) && hs <= NH
    ensures |r| == |rows| && Shaped(r)
  {
    if hs == 0 then rows else StampFirst(StampUpTo(rows, hs - 1, now, mark), |rows|, hs - 1, now, mark)
  }

  lemma {:induction false} StampUpToIs(rows: seq<Row>, hs: nat, now: int, mark: Mark, i: nat)
    requires Shaped(rows) && hs <= NH && i < |rows|
    ensures var row := StampUpTo(rows, hs, now, mark)[i];
            && row.ts == rows[i].ts
            && forall h :: 0 <= h < NH ==> row.marks[h] == if h < hs then Slot(rows[i], h, now, mark) else rows[i].marks[h]
  {
    if hs > 0 {
      StampUpToIs(rows, hs - 1, now, mark, i);
    }
  }

  /** Horizon by horizon or row by row, the scan is the same. */
  lemma HorizonsMakeScan(rows: seq<Row>, now: int, mark: Mark)
    requires Shaped(rows)
    ensures StampUpTo(rows, NH, now, mark) == Scanned(rows, now, Some(mark))
  {
    forall i | 0 <= i < |rows| ensures StampUpTo(rows, NH, now, mark)[i] == Scan(rows[i], now, mark) {
      StampUpToIs(rows, NH, now, mark, i);
      assert StampUpTo(rows, NH, now, mark)[i].marks == Scan(rows[i], now, mark).marks;
    }
  }

  // ---- the pointers -----------------------------------------------------

  /** The rows stamped at horizon h are the first n. */
  predicate Marked(row: Row, h: nat)
    requires |row.marks| == NH && h < NH
  {
    row.marks[h].Some?
  }

  predicate Pointed(rows: seq<Row>, h: nat, n: int)
    requires Shaped(rows) && h < NH
  {
    && 0 <= n <= |rows|
    && forall i :: 0 <= i < |rows| ==> (Marked(rows[i], h) <==> i < n)
  }

  /** Stamping one horizon moves its own pointer and no other. */
  lemma OtherPointers(rows: seq<Row>, n: int, h: nat, now: int, mark: Mark, g: nat, at: int)
    requires Shaped(rows) && h < NH && g < NH && g != h && Pointed(rows, g, at)
    ensures Pointed(StampFirst(rows, n, h, now, mark), g, at)
  {
    var stamped := StampFirst(rows, n, h, now, mark);
    forall i | 0 <= i < |rows| ensures Marked(stamped[i], g) <==> i < at {
      assert Marked(rows[i], g) <==> i < at;
    }
  }

  /** Where a pointer stops, nothing later has come due: the rows are in time order. */
  lemma NothingLaterDue(rows: seq<Row>, from: int, n: int, h: nat, now: int, mark: Mark)
    requires Shaped(rows) && InOrder(rows) && h < NH && Pointed(rows, h, from) && from <= n <= |rows|
    requires forall i :: from <= i < n ==> now >= rows[i].ts + Horizon(h)
    requires n < |rows| ==> now < rows[n].ts + Horizon(h)
    ensures StampFirst(rows, n, h, now, mark) == StampFirst(rows, |rows|, h, now, mark)
    ensures Pointed(StampFirst(rows, n, h, now, mark), h, n)
  {
    var stamped := StampFirst(rows, n, h, now, mark);
    forall i | 0 <= i < |rows|
      ensures Marked(stamped[i], h) <==> i < n
      ensures i >= n ==> StampAt(rows[i], h, now, mark) == rows[i]
    {
      assert Marked(rows[i], h) <==> i < from;
      if i >= n {
        assert rows[n].ts <= rows[i].ts;
        assert rows[i].marks[h := rows[i].marks[h]] == rows[i].marks;
      }
    }
  }

  lemma StampNext(rows: seq<Row>, n: nat, h: nat, now: int, mark: Mark)
    requires Shaped(rows) && h < NH && n < |rows|
    ensures StampFirst(rows, n + 1, h, now, mark) == StampFirst(rows, n, h, now, mark)[n := StampAt(rows[n], h, now, mark)]
  {
  }

  /** A row the pointer has not reached is as it was. */
  lemma Unstamped(rows: seq<Row>, from: int, n: nat, h: nat, now: int, mark: Mark)
    requires Shaped(rows) && h < NH && Pointed(rows, h, from) && from <= n < |rows| && now >= rows[n].ts + Horizon(h)
    ensures StampFirst(rows, n, h, now, mark)[n] == rows[n]
    ensures StampAt(rows[n], h, now, mark) == rows[n].(marks := rows[n].marks[h := Some(mark)])
  {
    assert Marked(rows[n], h) <==> n < from;
  }

  lemma NoneStamped(rows: seq<Row>, from: int, h: nat, now: int, mark: Mark)
    requires Shaped(rows) && h < NH && Pointed(rows, h, from)
    ensures StampFirst(rows, from, h, now, mark) == rows
  {
    forall i | 0 <= i < from ensures StampAt(rows[i], h, now, mark) == rows[i] {
      assert Marked(rows[i], h);
      assert rows[i].marks[h := rows[i].marks[h]] == rows[i].marks;
    }
  }

  // ---- the probe's queue ------------------------------------------------

  class ProbeQueue {
    const next: array<int>
    var base: int
    var pending: seq<Row>
    var emitted: seq<Row>
    /** Every row ever pushed, as the naive scan has it. */
    ghost var rows: seq<Row>

    /** The queue is the rows not yet written, and each pointer the first row its horizon has not stamped. */
    ghost predicate Sound()
      reads this, next
    {
      && next.Length == NH && 0 <= base <= |rows|
      && Shaped(rows) && InOrder(rows)
      && pending == rows[base..] && emitted == rows[..base]
      && forall h :: 0 <= h < NH ==> Pointed(rows, h, next[h]) && base <= next[h]
    }

    constructor ()
      ensures Sound() && rows == [] && fresh(next)
    {
      next := new int[NH](_ => 0);
      base, pending, emitted, rows := 0, [], [], [];
    }

    method PushRow(ts: int)
      requires Sound() && (rows != [] ==> rows[|rows| - 1].ts <= ts)
      modifies this
      ensures Sound() && rows == old(rows) + [Fresh(ts)] && emitted == old(emitted)
    {
      pending := pending + [Row(ts, seq(NH, _ => None))];
      rows := rows + [Fresh(ts)];
      forall h | 0 <= h < NH ensures Pointed(rows, h, next[h]) {
        assert Pointed(old(rows), h, next[h]);
        forall i | 0 <= i < |rows| ensures Marked(rows[i], h) <==> i < next[h] {
          assert i < |old(rows)| ==> rows[i] == old(rows)[i];
        }
      }
    }

    /** Stamp what has come due, and write out the rows that completes: in push order, and no others. */
    method Resolve(now: int, book: Option<Mark>)
      requires Sound()
      modifies this, next
      ensures Sound() && rows == Scanned(old(rows), now, book)
      ensures old(emitted) <= emitted
      ensures forall i :: |old(emitted)| <= i < |emitted| ==> Complete(emitted[i])
      ensures book.Some? && pending != [] ==> !Complete(pending[0])
    {
      if book.None? {
        return;
      }
      ghost var was, wrote := rows, emitted;
      var h := 0;
      while h < NH
        invariant 0 <= h <= NH && Sound()
        invariant rows == StampUpTo(was, h, now, book.value)
        invariant emitted == wrote
      {
        Advance(h, now, book.value);
        h := h + 1;
      }
      HorizonsMakeScan(was, now, book.value);
      WriteOut();
    }

    /** One horizon's pointer moves over every row that has come due, stamping each. */
    method Advance(h: nat, now: int, mark: Mark)
      requires Sound() && h < NH
      modifies this`pending, this`rows, next
      ensures Sound()
      ensures rows == StampFirst(old(rows), |old(rows)|, h, now, mark)
    {
      ghost var was, from := rows, next[h];
      NoneStamped(was, from, h, now, mark);
      while next[h] < base + |pending|
        invariant next.Length == NH && from <= next[h] <= |was|
        invariant rows == StampFirst(was, next[h], h, now, mark)
        invariant pending == rows[base..] && emitted == rows[..base]
        invariant forall g :: 0 <= g < NH && g != h ==> next[g] == old(next[g])
        invariant forall i :: from <= i < next[h] ==> now >= was[i].ts + Horizon(h)
      {
        var at := next[h] - base;
        if now < pending[at].ts + Horizon(h) {
          break;
        }
        StampNext(was, next[h], h, now, mark);
        Unstamped(was, from, next[h], h, now, mark);
        rows := rows[next[h] := StampAt(was[next[h]], h, now, mark)];
        pending := pending[at := pending[at].(marks := pending[at].marks[h := Some(mark)])];
        next[h] := next[h] + 1;
      }
      NothingLaterDue(was, from, next[h], h, now, mark);
      forall g | 0 <= g < NH ensures Pointed(rows, g, next[g]) {
        if g != h {
          OtherPointers(was, next[h], h, now, mark, g, next[g]);
        }
      }
    }

    /** The oldest rows that every pointer is past go out. */
    method WriteOut()
      requires Sound()
      modifies this`base, this`pending, this`emitted
      ensures Sound()
      ensures old(emitted) <= emitted
      ensures forall i :: |old(emitted)| <= i < |emitted| ==> Complete(emitted[i])
      ensures pending != [] ==> !Complete(pending[0])
    {
      while pending != []
        invariant Sound() && old(emitted) <= emitted
        invariant forall i :: |old(emitted)| <= i < |emitted| ==> Complete(emitted[i])
        decreases |pending|
      {
        var complete := true;
        var h := 0;
        while h < NH
          invariant 0 <= h <= NH
          invariant complete && forall g :: 0 <= g < h ==> next[g] > base
        {
          assert Pointed(rows, h, next[h]) && (Marked(rows[base], h) <==> base < next[h]);
          if next[h] <= base {
            assert !Complete(rows[base]);
            complete := false;
            break;
          }
          h := h + 1;
        }
        if !complete {
          break;
        }
        forall g | 0 <= g < NH ensures Marked(rows[base], g) {
          assert Pointed(rows, g, next[g]);
        }
        assert pending[0] == rows[base] && Complete(rows[base]) by {
          assert forall g :: 0 <= g < NH ==> Marked(rows[base], g) ==> rows[base].marks[g].Some?;
        }
        emitted := emitted + [pending[0]];
        pending := pending[1..];
        base := base + 1;
      }
    }

    /** At the end of the tape whatever is left goes out as it stands. */
    method Finish()
      requires Sound()
      modifies this`base, this`pending, this`emitted
      ensures emitted == rows && pending == [] && base == |rows|
    {
      while pending != []
        invariant 0 <= base <= |rows| && pending == rows[base..] && emitted == rows[..base]
        decreases |pending|
      {
        emitted := emitted + [pending[0]];
        pending := pending[1..];
        base := base + 1;
      }
    }
  }
}
