/** The regime gate: VPIN ranked against its own history, with hysteresis and dwell. */
module ToxicityGates {
  import opened Common
  import opened Orders
  import opened Toxicity
  import Vpins

  datatype GateConfig = GateConfig(
    enabled: bool,
    historyBuckets: int,
    warmupBuckets: int,
    minDwell: int,
    elevatedEnter: real,
    elevatedExit: real,
    toxicEnter: real,
    toxicExit: real,
    extremeEnter: real,
    extremeExit: real,
    spreadMultiplier: map<ToxicityLevel, real>,
    sizeMultiplier: map<ToxicityLevel, real>)
  {
    /** The rank at which level n is left upwards. */
    function Enter(n: int): real { if n == 0 then elevatedEnter else if n == 1 then toxicEnter else extremeEnter }

    /** The rank under which level n + 1 is left downwards. */
    function Exit(n: int): real { if n == 0 then elevatedExit else if n == 1 then toxicExit else extremeExit }
  }

  /** What the configuration is checked for when it is loaded. */
  predicate Checked(cfg: GateConfig) {
    && cfg.historyBuckets >= 1 && cfg.minDwell >= 0
    && 0.0 < cfg.elevatedExit <= cfg.elevatedEnter <= 1.0
    && 0.0 < cfg.toxicExit <= cfg.toxicEnter <= 1.0
    && 0.0 < cfg.extremeExit <= cfg.extremeEnter <= 1.0
    && cfg.elevatedEnter <= cfg.toxicEnter <= cfg.extremeEnter
  }

  // ---- a sorted list of readings ----------------------------------------

  predicate Ascending(s: seq<real>) { forall i, j :: 0 <= i < j < |s| ==> s[i] <= s[j] }

  /** The first place not under x. */
  function Lower(s: seq<real>, x: real): (at: nat)
    ensures at <= |s|
  {
    if s == [] || s[0] >= x then 0 else 1 + Lower(s[1..], x)
  }

  /** The first place over x. */
  function Upper(s: seq<real>, x: real): (at: nat)
    ensures at <= |s|
  {
    if s == [] || s[0] > x then 0 else 1 + Upper(s[1..], x)
  }

  lemma {:induction false} LowerIs(s: seq<real>, x: real, at: nat)
    requires at <= |s|
    requires forall i :: 0 <= i < at ==> s[i] < x
    requires at < |s| ==> s[at] >= x
    ensures Lower(s, x) == at
  {
    if at > 0 {
      assert s[0] < x;
      LowerIs(s[1..], x, at - 1);
    }
  }

  lemma {:induction false} UpperIs(s: seq<real>, x: real, at: nat)
    requires at <= |s|
    requires forall i :: 0 <= i < at ==> s[i] <= x
    requires at < |s| ==> s[at] > x
    ensures Upper(s, x) == at
  {
    if at > 0 {
      assert s[0] <= x;
      UpperIs(s[1..], x, at - 1);
    }
  }

  lemma {:induction false} LowerSplits(s: seq<real>, x: real)
    requires Ascending(s)
    ensures forall i :: 0 <= i < |s| ==> (i < Lower(s, x) <==> s[i] < x)
  {
    if s != [] && s[0] < x {
      LowerSplits(s[1..], x);
    }
  }

  lemma {:induction false} UpperSplits(s: seq<real>, x: real)
    requires Ascending(s)
    ensures forall i :: 0 <= i < |s| ==> (i < Upper(s, x) <==> s[i] <= x)
  {
    if s != [] && s[0] <= x {
      UpperSplits(s[1..], x);
    }
  }

  function Without(s: seq<real>, x: real): seq<real> {
    var at := Lower(s, x);
    if at < |s| then Dropped(s, at) else s
  }

  function With(s: seq<real>, x: real): seq<real> { s[..Upper(s, x)] + [x] + s[Upper(s, x)..] }

  /** Sorted is the ascending arrangement of history. */
  ghost predicate Arranges(sorted: seq<real>, history: seq<real>) {
    Ascending(sorted) && multiset(sorted) == multiset(history)
  }

  lemma WithAscends(s: seq<real>, x: real)
    requires Ascending(s)
    ensures Ascending(With(s, x))
  {
    UpperSplits(s, x);
  }

  lemma WithArranges(sorted: seq<real>, history: seq<real>, x: real)
    requires Arranges(sorted, history)
    ensures Arranges(With(sorted, x), history + [x])
  {
    WithAscends(sorted, x);
    assert sorted == sorted[..Upper(sorted, x)] + sorted[Upper(sorted, x)..];
  }

  lemma DroppedAscends(s: seq<real>, at: nat)
    requires Ascending(s) && at < |s|
    ensures Ascending(Dropped(s, at))
  {
  }

  /** What is in an ascending list stands where the search for it ends. */
  lemma LowerFinds(s: seq<real>, x: real)
    requires Ascending(s) && x in s
    ensures Lower(s, x) < |s| && s[Lower(s, x)] == x
  {
    LowerSplits(s, x);
  }

  lemma WithoutArranges(sorted: seq<real>, history: seq<real>)
    requires Arranges(sorted, history) && history != []
    ensures Arranges(Without(sorted, history[0]), history[1..])
  {
    var x := history[0];
    assert history == [x] + history[1..];
    assert x in multiset(sorted);
    LowerFinds(sorted, x);
    DroppedAscends(sorted, Lower(sorted, x));
    DroppedIs(sorted, Lower(sorted, x));
    Cancels(multiset(Dropped(sorted, Lower(sorted, x))), multiset(history[1..]), x);
  }

  // ---- the rank, the simple way -----------------------------------------

  function CountUnder(history: seq<real>, x: real): nat {
    if history == [] then 0
    else CountUnder(history[..|history| - 1], x) + if history[|history| - 1] < x then 1 else 0
  }

  function CountAt(history: seq<real>, x: real): nat {
    if history == [] then 0
    else CountAt(history[..|history| - 1], x) + if history[|history| - 1] == x then 1 else 0
  }

  /** The middle rank of a reading among a history: those under it, and half of those level with it. */
  function MidRank(history: seq<real>, x: real): real
    requires history != []
  {
    (CountUnder(history, x) as real + CountAt(history, x) as real / 2.0) / |history| as real
  }

  lemma {:induction false} CountAppend(a: seq<real>, b: seq<real>, x: real)
    ensures CountUnder(a + b, x) == CountUnder(a, x) + CountUnder(b, x)
    ensures CountAt(a + b, x) == CountAt(a, x) + CountAt(b, x)
  {
    if b == [] {
      assert a + b == a;
    } else {
      var n := |b| - 1;
      CountAppend(a, b[..n], x);
      assert (a + b)[..|a + b| - 1] == a + b[..n];
    }
  }

  /** Counts do not see the order of the readings. */
  lemma {:induction false} CountsIgnoreOrder(a: seq<real>, b: seq<real>, x: real)
    requires multiset(a) == multiset(b)
    ensures |a| == |b| && CountUnder(a, x) == CountUnder(b, x) && CountAt(a, x) == CountAt(b, x)
    decreases |a|
  {
    if a == [] {
      assert |multiset(b)| == 0;
    } else {
      var n := |a| - 1;
      var i := Matched(a, b);
      CountsIgnoreOrder(a[..n], Dropped(b, i), x);
      CountDropped(b, i, x);
    }
  }

  lemma CountDropped(s: seq<real>, i: nat, x: real)
    requires i < |s|
    ensures CountUnder(s, x) == CountUnder(Dropped(s, i), x) + if s[i] < x then 1 else 0
    ensures CountAt(s, x) == CountAt(Dropped(s, i), x) + if s[i] == x then 1 else 0
  {
    assert s == s[..i + 1] + s[i + 1..] && s[..i + 1][..i] == s[..i];
    CountAppend(s[..i], s[i + 1..], x);
    CountAppend(s[..i + 1], s[i + 1..], x);
  }

  lemma {:induction false} UnderOfSorted(s: seq<real>, x: real)
    requires Ascending(s)
    ensures CountUnder(s, x) == Lower(s, x)
  {
    if s != [] {
      var n := |s| - 1;
      UnderOfSorted(s[..n], x);
      LowerSplits(s[..n], x);
      LowerIs(s, x, if s[n] < x then n + 1 else Lower(s[..n], x));
    }
  }

  lemma {:induction false} UpToOfSorted(s: seq<real>, x: real)
    requires Ascending(s)
    ensures CountUnder(s, x) + CountAt(s, x) == Upper(s, x)
  {
    if s != [] {
      var n := |s| - 1;
      UpToOfSorted(s[..n], x);
      UpperSplits(s[..n], x);
      UpperIs(s, x, if s[n] <= x then n + 1 else Upper(s[..n], x));
    }
  }

  /** The rank as the two searches give it. */
  function FastRank(sorted: seq<real>, x: real): real
    requires sorted != []
  {
    (Lower(sorted, x) as real + (Upper(sorted, x) - Lower(sorted, x)) as real / 2.0) / |sorted| as real
  }

  /** Two binary searches in the arrangement rank a reading as counting it over the history does. */
  lemma FastRankIsMidRank(sorted: seq<real>, history: seq<real>, x: real)
    requires Arranges(sorted, history) && history != []
    ensures sorted != [] && FastRank(sorted, x) == MidRank(history, x)
  {
    CountsIgnoreOrder(sorted, history, x);
    UnderOfSorted(sorted, x);
    UpToOfSorted(sorted, x);
  }

  lemma {:induction false} CountsFit(history: seq<real>, x: real)
    ensures CountUnder(history, x) + CountAt(history, x) <= |history|
    ensures x in history ==> CountAt(history, x) >= 1
  {
    if history != [] {
      CountsFit(history[..|history| - 1], x);
    }
  }

  lemma Quotients(a: real, b: real, n: real)
    requires n > 0.0 && 0.5 <= a <= n - 0.5
    ensures 0.5 / n <= a / n <= 1.0 - 0.5 / n
  {
    assert (n - 0.5) / n == 1.0 - 0.5 / n;
    assert a / n - 0.5 / n == (a - 0.5) / n >= 0.0;
    assert (n - 0.5) / n - a / n == (n - 0.5 - a) / n >= 0.0;
  }

  /** The rank of a reading in its own history is never nearer either end than half a place. */
  lemma RankWithin(history: seq<real>, x: real)
    requires x in history
    ensures 0.5 / |history| as real <= MidRank(history, x) <= 1.0 - 0.5 / |history| as real
  {
    CountsFit(history, x);
    var under, level := CountUnder(history, x) as real, CountAt(history, x) as real;
    Quotients(under + level / 2.0, 0.0, |history| as real);
  }

  // ---- the gate's steps -------------------------------------------------

  datatype Transition = Transition(bucket: int, from: int, to: int)

  datatype Gate = Gate(
    history: seq<real>,
    sorted: seq<real>,
    level: int,
    dwell: int,
    percentile: Option<real>,
    transitions: seq<Transition>)

  const START := Gate([], [], 0, 0, None, [])

  ghost predicate Sound(cfg: GateConfig, g: Gate) {
    && Arranges(g.sorted, g.history)
    && |g.history| <= cfg.historyBuckets
    && 0 <= g.level <= 3 && g.dwell >= 0
  }

  /** The history with room made for one more. */
  function Trimmed(cfg: GateConfig, g: Gate): Gate
    requires Checked(cfg)
  {
    if |g.history| >= cfg.historyBuckets then g.(history := g.history[1..], sorted := Without(g.sorted, g.history[0])) else g
  }

  /** A reading ranked among the history it is now part of. */
  function Pushed(cfg: GateConfig, g: Gate, value: real): Gate
    requires Checked(cfg)
  {
    var t := Trimmed(cfg, g);
    var sorted := With(t.sorted, value);
    t.(history := t.history + [value], sorted := sorted, percentile := Some(FastRank(sorted, value)), dwell := g.dwell + 1)
  }

  /** Up: as many levels as the rank has crossed. */
  function Climb(cfg: GateConfig, level: int, rank: real): int
    decreases 3 - level
  {
    if level < 3 && rank >= cfg.Enter(level) then Climb(cfg, level + 1, rank) else level
  }

  function Moved(g: Gate, to: int, bucket: int): Gate {
    g.(level := to, dwell := 0, transitions := g.transitions + [Transition(bucket, g.level, to)])
  }

  /** Up at once; down one level at a time, past the exit, after the dwell. */
  function Stepped(cfg: GateConfig, g: Gate, rank: real, bucket: int): Gate {
    var top := Climb(cfg, g.level, rank);
    if top > g.level then Moved(g, top, bucket)
    else if g.level > 0 && rank < cfg.Exit(g.level - 1) && g.dwell >= cfg.minDwell then Moved(g, g.level - 1, bucket)
    else g
  }

  predicate WarmedUp(cfg: GateConfig, g: Gate) { |g.history| >= cfg.warmupBuckets }

  predicate Stepping(cfg: GateConfig, g: Gate) { WarmedUp(cfg, g) && cfg.enabled }

  function OnBucket(cfg: GateConfig, g: Gate, value: real, bucket: int): Gate
    requires Checked(cfg)
  {
    var p := Pushed(cfg, g, value);
    if Stepping(cfg, p) then Stepped(cfg, p, p.percentile.value, bucket) else p
  }

  /** Every bucket a trade closes is read at the value the trade leaves. */
  function OnBuckets(cfg: GateConfig, g: Gate, value: Option<real>, bucket: int, n: nat): Gate
    requires Checked(cfg)
  {
    if n == 0 || value.None? then g else OnBucket(cfg, OnBuckets(cfg, g, value, bucket, n - 1), value.value, bucket)
  }

  lemma PushedSound(cfg: GateConfig, g: Gate, value: real)
    requires Checked(cfg) && Sound(cfg, g)
    ensures var p := Pushed(cfg, g, value);
            && Sound(cfg, p) && |p.history| >= 1 && value in p.history
            && p.percentile == Some(MidRank(p.history, value))
  {
    if |g.history| >= cfg.historyBuckets {
      WithoutArranges(g.sorted, g.history);
    }
    var t := Trimmed(cfg, g);
    WithArranges(t.sorted, t.history, value);
    FastRankIsMidRank(With(t.sorted, value), t.history + [value], value);
  }

  lemma {:induction false} ClimbIs(cfg: GateConfig, level: int, rank: real)
    requires 0 <= level <= 3
    ensures var top := Climb(cfg, level, rank);
            && level <= top <= 3 && (top == 3 || rank < cfg.Enter(top))
            && forall n :: level <= n < top ==> rank >= cfg.Enter(n)
    decreases 3 - level
  {
    if level < 3 && rank >= cfg.Enter(level) {
      ClimbIs(cfg, level + 1, rank);
    }
  }

  /** Wherever a step ends, the rank is under the way up from there. */
  lemma StepSettles(cfg: GateConfig, g: Gate, rank: real, bucket: int)
    requires Checked(cfg) && 0 <= g.level <= 3
    ensures var s := Stepped(cfg, g, rank, bucket);
            && 0 <= s.level <= 3
            && (s.level == 3 || rank < cfg.Enter(s.level))
  {
    ClimbIs(cfg, g.level, rank);
  }

  /** A rank between the exit of the level it is at and the enter of the next moves nothing. */
  predicate InBand(cfg: GateConfig, level: int, rank: real) {
    && (level > 0 ==> cfg.Exit(level - 1) <= rank)
    && (level < 3 ==> rank < cfg.Enter(level))
  }

  lemma BandHolds(cfg: GateConfig, g: Gate, rank: real, bucket: int)
    requires InBand(cfg, g.level, rank)
    ensures Stepped(cfg, g, rank, bucket) == g
  {
  }

  lemma OnBucketSound(cfg: GateConfig, g: Gate, value: real, bucket: int)
    requires Checked(cfg) && Sound(cfg, g)
    ensures Sound(cfg, OnBucket(cfg, g, value, bucket))
  {
    PushedSound(cfg, g, value);
    var p := Pushed(cfg, g, value);
    StepSettles(cfg, p, p.percentile.value, bucket);
  }

  // ---- the gate itself --------------------------------------------------

  function LevelOf(n: int): ToxicityLevel {
    if n <= 0 then Calm else if n == 1 then Elevated else if n == 2 then Toxic else Extreme
  }

  /** The multiplier of a level, one where the table has none. */
  function MultiplierFor(table: map<ToxicityLevel, real>, level: ToxicityLevel): real {
    if level in table then table[level] else 1.0
  }

  /** What the gate says of itself and of the reading it stands at; a gate that is off is calm. */
  function StateOf(cfg: GateConfig, g: Gate, value: Option<real>, buckets: int): ToxicityState {
    var level := if cfg.enabled then LevelOf(g.level) else Calm;
    ToxicityState(level, value, g.percentile, WarmedUp(cfg, g),
                  MultiplierFor(cfg.spreadMultiplier, level), MultiplierFor(cfg.sizeMultiplier, level), buckets)
  }

  class ToxicityGate {
    const cfg: GateConfig
    const vpin: Vpins.Vpin
    var history: seq<real>
    var sorted: seq<real>
    var level: int
    var dwell: int
    var percentile: Option<real>
    var transitions: seq<Transition>

    function View(): Gate
      reads this
    {
      Gate(history, sorted, level, dwell, percentile, transitions)
    }

    constructor (cfg: GateConfig, bucket: Positive, window: int, split: bool)
      requires Checked(cfg) && window >= 1
      ensures View() == START && this.cfg == cfg && fresh(vpin)
      ensures vpin.Sound() && vpin.window == window && vpin.View() == Vpins.Opened(bucket, split)
    {
      this.cfg := cfg;
      vpin := new Vpins.Vpin(bucket, window, split);
      history, sorted, level, dwell, percentile, transitions := [], [], 0, 0, None, [];
    }

    /** Fold a trade in; the new state if a bucket closed. */
    method Update(trade: Trade) returns (state: Option<ToxicityState>)
      requires Checked(cfg) && Sound(cfg, View()) && vpin.Sound()
      modifies this, vpin
      ensures Sound(cfg, View()) && vpin.Sound()
      ensures vpin.View() == Vpins.Updated(old(vpin.View()), trade)
      ensures var closed := |vpin.closed| - |old(vpin.closed)|;
              && closed >= 0
              && View() == OnBuckets(cfg, old(View()), Vpins.Value(vpin.View(), vpin.window), |vpin.closed|, closed)
              && state == if closed == 0 then None
                          else Some(StateOf(cfg, View(), Vpins.Value(vpin.View(), vpin.window), |vpin.closed|))
    {
      Vpins.UpdatedGrows(vpin.View(), trade);
      var closed := vpin.Update(trade);
      if closed == 0 {
        return None;
      }
      ReadBuckets(closed);
      var now := CurrentState();
      state := Some(now);
    }

    method CurrentState() returns (state: ToxicityState)
      requires vpin.Sound()
      ensures state == StateOf(cfg, View(), Vpins.Value(vpin.View(), vpin.window), |vpin.closed|)
    {
      var value := vpin.CurrentValue();
      state := StateOf(cfg, View(), value, vpin.bucketsClosed);
    }

    /** One reading for every bucket closed. */
    method ReadBuckets(closed: nat)
      requires Checked(cfg) && Sound(cfg, View()) && vpin.Sound()
      modifies this
      ensures Sound(cfg, View())
      ensures View() == OnBuckets(cfg, old(View()), Vpins.Value(vpin.View(), vpin.window), |vpin.closed|, closed)
    {
      ghost var g, value, count := View(), Vpins.Value(vpin.View(), vpin.window), |vpin.closed|;
      for i := 0 to closed
        invariant Sound(cfg, View()) && vpin.Sound()
        invariant Vpins.Value(vpin.View(), vpin.window) == value && |vpin.closed| == count
        invariant View() == OnBuckets(cfg, g, value, count, i)
      {
        OnBucketClosed(g, i);
      }
    }

    /** The n-th bucket a trade closed, for a gate that stood at g before it. */
    method OnBucketClosed(ghost g: Gate, ghost n: nat)
      requires Checked(cfg) && Sound(cfg, View()) && vpin.Sound()
      requires View() == OnBuckets(cfg, g, Vpins.Value(vpin.View(), vpin.window), |vpin.closed|, n)
      modifies this
      ensures Sound(cfg, View())
      ensures View() == OnBuckets(cfg, g, Vpins.Value(vpin.View(), vpin.window), |vpin.closed|, n + 1)
    {
      var value := vpin.CurrentValue();
      if value.None? {
        return;
      }
      OnBucketSound(cfg, View(), value.value, |vpin.closed|);
      PushedSound(cfg, View(), value.value);
      Push(value.value);
      if |history| < cfg.warmupBuckets || !cfg.enabled {
        return;
      }
      Step(percentile.value, vpin.bucketsClosed);
    }

    /** Rank the reading among the history it joins, the oldest going out for it. */
    method Push(value: real)
      requires Checked(cfg) && Sound(cfg, View())
      modifies this
      ensures View() == Pushed(cfg, old(View()), value)
    {
      PushedSound(cfg, View(), value);
      DropOldest();
      Insert(value);
      Rank(value);
      dwell := dwell + 1;
    }

    method DropOldest()
      requires Checked(cfg) && Sound(cfg, View())
      modifies this`history, this`sorted
      ensures View() == Trimmed(cfg, old(View())) && Arranges(sorted, history)
    {
      if |history| >= cfg.historyBuckets {
        WithoutArranges(sorted, history);
        var oldest := history[0];
        var at := LowerBound(sorted, oldest);
        history := history[1..];
        if at != |sorted| {
          sorted := sorted[..at] + sorted[at + 1..];
        }
      }
    }

    method Insert(value: real)
      requires Arranges(sorted, history)
      modifies this`history, this`sorted
      ensures sorted == With(old(sorted), value) && history == old(history) + [value] && Arranges(sorted, history)
    {
      WithArranges(sorted, history, value);
      var place := UpperBound(sorted, value);
      history := history + [value];
      sorted := sorted[..place] + [value] + sorted[place..];
    }

    method Rank(value: real)
      requires Ascending(sorted) && sorted != []
      modifies this`percentile
      ensures percentile == Some(FastRank(sorted, value))
    {
      var under: int := LowerBound(sorted, value);
      var upTo: int := UpperBound(sorted, value);
      percentile := Some((under as real + (upTo - under) as real / 2.0) / |sorted| as real);
    }

    method Step(rank: real, bucket: int)
      requires 0 <= level <= 3
      modifies this`level, this`dwell, this`transitions
      ensures View() == Stepped(cfg, old(View()), rank, bucket)
    {
      var before := level;
      while level < 3 && rank >= cfg.Enter(level)
        invariant before <= level <= 3
        invariant Climb(cfg, level, rank) == Climb(cfg, before, rank)
        invariant View() == old(View()).(level := level)
      {
        level := level + 1;
      }
      if level > before {
        dwell := 0;
        transitions := transitions + [Transition(bucket, before, level)];
        return;
      }
      if level > 0 && rank < cfg.Exit(level - 1) && dwell >= cfg.minDwell {
        level := level - 1;
        dwell := 0;
        transitions := transitions + [Transition(bucket, before, level)];
      }
    }

    static method LowerBound(s: seq<real>, x: real) returns (at: nat)
      requires Ascending(s)
      ensures at == Lower(s, x)
    {
      at := 0;
      var length := |s|;
      while length > 0
        invariant 0 <= at <= at + length <= |s|
        invariant forall i :: 0 <= i < at ==> s[i] < x
        invariant forall i :: at + length <= i < |s| ==> s[i] >= x
      {
        var half := length / 2;
        if s[at + half] < x {
          at := at + half + 1;
          length := length - half - 1;
        } else {
          length := half;
        }
      }
      LowerIs(s, x, at);
    }

    static method UpperBound(s: seq<real>, x: real) returns (at: nat)
      requires Ascending(s)
      ensures at == Upper(s, x)
    {
      at := 0;
      var length := |s|;
      while length > 0
        invariant 0 <= at <= at + length <= |s|
        invariant forall i :: 0 <= i < at ==> s[i] <= x
        invariant forall i :: at + length <= i < |s| ==> s[i] > x
      {
        var half := length / 2;
        if s[at + half] <= x {
          at := at + half + 1;
          length := length - half - 1;
        } else {
          length := half;
        }
      }
      UpperIs(s, x, at);
    }
  }

  // ---- over runs of readings --------------------------------------------

  datatype Reading = Reading(value: real, bucket: int)

  function Run(cfg: GateConfig, readings: seq<Reading>): Gate
    requires Checked(cfg)
  {
    if readings == [] then START
    else
      var last := readings[|readings| - 1];
      OnBucket(cfg, Run(cfg, readings[..|readings| - 1]), last.value, last.bucket)
  }

  function Copies(reading: Reading, n: nat): seq<Reading> { if n == 0 then [] else Copies(reading, n - 1) + [reading] }

  lemma RunMore(cfg: GateConfig, before: seq<Reading>, last: Reading)
    requires Checked(cfg)
    ensures Run(cfg, before + [last]) == OnBucket(cfg, Run(cfg, before), last.value, last.bucket)
  {
    assert (before + [last])[..|before|] == before;
  }

  lemma CopiesMore(before: seq<Reading>, reading: Reading, n: nat)
    requires n > 0
    ensures before + Copies(reading, n) == (before + Copies(reading, n - 1)) + [reading]
  {
  }

  /** The buckets one trade closes are as many readings, all at the value it leaves: so a gate's life is a run. */
  lemma {:induction false} BucketsAreReadings(cfg: GateConfig, before: seq<Reading>, value: real, bucket: int, n: nat)
    requires Checked(cfg)
    ensures OnBuckets(cfg, Run(cfg, before), Some(value), bucket, n) == Run(cfg, before + Copies(Reading(value, bucket), n))
  {
    if n == 0 {
      assert before + [] == before;
    } else {
      var reading, upTo := Reading(value, bucket), before + Copies(Reading(value, bucket), n - 1);
      calc {
        OnBuckets(cfg, Run(cfg, before), Some(value), bucket, n);
        OnBucket(cfg, OnBuckets(cfg, Run(cfg, before), Some(value), bucket, n - 1), value, bucket);
        { BucketsAreReadings(cfg, before, value, bucket, n - 1); }
        OnBucket(cfg, Run(cfg, upTo), value, bucket);
        { RunMore(cfg, upTo, reading); }
        Run(cfg, upTo + [reading]);
        { CopiesMore(before, reading, n); }
        Run(cfg, before + Copies(reading, n));
      }
    }
  }

  function Values(readings: seq<Reading>): seq<real> {
    if readings == [] then [] else Values(readings[..|readings| - 1]) + [readings[|readings| - 1].value]
  }

  lemma {:induction false} RunSound(cfg: GateConfig, readings: seq<Reading>)
    requires Checked(cfg)
    ensures Sound(cfg, Run(cfg, readings))
  {
    if readings != [] {
      var n := |readings| - 1;
      RunSound(cfg, readings[..n]);
      OnBucketSound(cfg, Run(cfg, readings[..n]), readings[n].value, readings[n].bucket);
    }
  }

  lemma {:induction false} HistoryIsNewest(cfg: GateConfig, readings: seq<Reading>)
    requires Checked(cfg)
    ensures Run(cfg, readings).history == Vpins.Newest(Values(readings), cfg.historyBuckets)
  {
    if readings != [] {
      var n := |readings| - 1;
      HistoryIsNewest(cfg, readings[..n]);
      Vpins.SlidNewest(Values(readings[..n]), cfg.historyBuckets, readings[n].value);
      LengthOfNewest(Values(readings[..n]), cfg.historyBuckets);
    }
  }

  lemma LengthOfNewest(s: seq<real>, n: nat)
    ensures |Vpins.Newest(s, n)| <= n
  {
  }

  /**
   * The history is the newest readings, sorted is their ascending
   * arrangement, and the rank is the naive middle rank of the last of them.
   */
  lemma RankedAmongNewest(cfg: GateConfig, readings: seq<Reading>)
    requires Checked(cfg) && readings != []
    ensures var g, x := Run(cfg, readings), readings[|readings| - 1].value;
            && g.history == Vpins.Newest(Values(readings), cfg.historyBuckets)
            && Arranges(g.sorted, g.history)
            && x in g.history && g.percentile == Some(MidRank(g.history, x))
            && 0.5 / |g.history| as real <= MidRank(g.history, x) <= 1.0 - 0.5 / |g.history| as real
  {
    var n := |readings| - 1;
    HistoryIsNewest(cfg, readings);
    RunSound(cfg, readings[..n]);
    RunSound(cfg, readings);
    PushedSound(cfg, Run(cfg, readings[..n]), readings[n].value);
    RankWithin(Run(cfg, readings).history, readings[n].value);
  }

  function LevelAfter(cfg: GateConfig, readings: seq<Reading>): int
    requires Checked(cfg)
  {
    Run(cfg, readings).level
  }

  /** After every reading the gate steps on, the level is the highest or the rank is under its next enter. */
  lemma {:induction false} RunSettles(cfg: GateConfig, readings: seq<Reading>)
    requires Checked(cfg) && readings != []
    ensures var g := Run(cfg, readings);
            && 0 <= g.level <= 3
            && (Stepping(cfg, g) ==> g.level == 3 || g.percentile.value < cfg.Enter(g.level))
  {
    var n := |readings| - 1;
    RunSound(cfg, readings[..n]);
    var p := Pushed(cfg, Run(cfg, readings[..n]), readings[n].value);
    StepSettles(cfg, p, p.percentile.value, readings[n].bucket);
  }

  /** Each transition starts where the one before it ended; none stays, and none falls by more than one. */
  predicate Chains(transitions: seq<Transition>, level: int) {
    if transitions == [] then level == 0
    else
      var last := transitions[|transitions| - 1];
      last.to == level && (last.to > last.from || last.to == last.from - 1)
      && Chains(transitions[..|transitions| - 1], last.from)
  }

  lemma {:induction false} TransitionsChain(cfg: GateConfig, readings: seq<Reading>)
    requires Checked(cfg)
    ensures Chains(Run(cfg, readings).transitions, LevelAfter(cfg, readings))
  {
    if readings != [] {
      var n := |readings| - 1;
      TransitionsChain(cfg, readings[..n]);
      var g, g' := Run(cfg, readings[..n]), Run(cfg, readings);
      if g'.transitions != g.transitions {
        assert g'.transitions[..|g.transitions|] == g.transitions;
      }
    }
  }

  /** The dwell counts the readings the level has held for. */
  lemma {:induction false} DwellCounts(cfg: GateConfig, readings: seq<Reading>, j: nat)
    requires Checked(cfg)
    ensures var dwell := Run(cfg, readings).dwell;
            && 0 <= dwell <= |readings|
            && (|readings| - dwell <= j <= |readings| ==> LevelAfter(cfg, readings[..j]) == LevelAfter(cfg, readings))
  {
    if readings != [] {
      var n := |readings| - 1;
      DwellCounts(cfg, readings[..n], j);
      if j <= n {
        assert readings[..n][..j] == readings[..j];
      }
    }
    if j == |readings| {
      assert readings[..j] == readings;
    }
  }

  /**
   * A level is left downwards by one, and only after it has held for the
   * minimum dwell: at each of that many readings back the gate already
   * stood at it.
   */
  lemma DownAfterDwell(cfg: GateConfig, readings: seq<Reading>, j: nat)
    requires Checked(cfg) && readings != []
    requires LevelAfter(cfg, readings) < LevelAfter(cfg, readings[..|readings| - 1])
    ensures var n := |readings| - 1;
            && LevelAfter(cfg, readings) == LevelAfter(cfg, readings[..n]) - 1
            && |readings| >= cfg.minDwell
            && (|readings| - cfg.minDwell <= j <= n ==> LevelAfter(cfg, readings[..j]) == LevelAfter(cfg, readings[..n]))
  {
    var n := |readings| - 1;
    DwellCounts(cfg, readings[..n], j);
    RunSound(cfg, readings[..n]);
    var p := Pushed(cfg, Run(cfg, readings[..n]), readings[n].value);
    ClimbIs(cfg, p.level, p.percentile.value);
    if j <= n {
      assert readings[..n][..j] == readings[..j];
    }
  }

  /** Every rank after the first k readings is in the band of a level. */
  ghost predicate StaysInBand(cfg: GateConfig, readings: seq<Reading>, k: nat, level: int)
    requires Checked(cfg)
  {
    forall m :: k < m <= |readings| ==> RankInBand(cfg, readings[..m], level)
  }

  predicate RankInBand(cfg: GateConfig, readings: seq<Reading>, level: int)
    requires Checked(cfg)
  {
    Run(cfg, readings).percentile.Some? && InBand(cfg, level, Run(cfg, readings).percentile.value)
  }

  lemma FrontStays(cfg: GateConfig, readings: seq<Reading>, k: nat, level: int)
    requires Checked(cfg) && k < |readings| && StaysInBand(cfg, readings, k, level)
    ensures StaysInBand(cfg, readings[..|readings| - 1], k, level) && RankInBand(cfg, readings, level)
  {
    var front := readings[..|readings| - 1];
    forall m | k < m <= |front| ensures RankInBand(cfg, front[..m], level) {
      assert front[..m] == readings[..m];
    }
    assert readings[..|readings|] == readings;
  }

  lemma OneInBand(cfg: GateConfig, readings: seq<Reading>)
    requires Checked(cfg) && readings != []
    requires RankInBand(cfg, readings, LevelAfter(cfg, readings[..|readings| - 1]))
    ensures LevelAfter(cfg, readings) == LevelAfter(cfg, readings[..|readings| - 1])
  {
    var n := |readings| - 1;
    var p := Pushed(cfg, Run(cfg, readings[..n]), readings[n].value);
    BandHolds(cfg, p, p.percentile.value, readings[n].bucket);
  }

  lemma LastInBand(cfg: GateConfig, readings: seq<Reading>, k: nat, level: int)
    requires Checked(cfg) && k < |readings| && StaysInBand(cfg, readings, k, level)
    requires LevelAfter(cfg, readings[..|readings| - 1]) == level
    ensures LevelAfter(cfg, readings) == level
  {
    assert readings[..|readings|] == readings;
    OneInBand(cfg, readings);
  }

  /** Ranks that stay in the band of the level the gate stands at never change it. */
  lemma {:induction false} BandNeverChanges(cfg: GateConfig, readings: seq<Reading>, k: nat, level: int)
    requires Checked(cfg) && k <= |readings| && StaysInBand(cfg, readings, k, level)
    requires LevelAfter(cfg, readings[..k]) == level
    ensures LevelAfter(cfg, readings) == level
  {
    if k < |readings| {
      var n := |readings| - 1;
      FrontStays(cfg, readings, k, level);
      assert readings[..n][..k] == readings[..k];
      BandNeverChanges(cfg, readings[..n], k, level);
      LastInBand(cfg, readings, k, level);
    } else {
      assert readings[..k] == readings;
    }
  }
}
