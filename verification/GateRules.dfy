/** How the regime gate moves, said of ranks, thresholds and counts alone. */
module GateRules {
  import opened Common
  import opened Orders
  import opened Toxicity
  import opened ToxicityGates

  /** The rank from which each level is left upwards. */
  function Up(cfg: GateConfig, level: int): real {
    if level == 0 then cfg.elevatedEnter else if level == 1 then cfg.toxicEnter else cfg.extremeEnter
  }

  /** The rank under which each level may be left downwards. */
  function Down(cfg: GateConfig, level: int): real {
    if level == 1 then cfg.elevatedExit else if level == 2 then cfg.toxicExit else cfg.extremeExit
  }

  /** How many readings of a history are under one, and how many are level with it. */
  ghost predicate RankedAt(history: seq<real>, x: real, rank: real) {
    rank * (2 * |history|) as real == (2 * |Unders(history, x)| + |Levels(history, x)|) as real
  }

  function Unders(history: seq<real>, x: real): set<int> { set i | 0 <= i < |history| && history[i] < x }

  function Levels(history: seq<real>, x: real): set<int> { set i | 0 <= i < |history| && history[i] == x }

  lemma UndersMore(history: seq<real>, x: real)
    requires history != []
    ensures var n := |history| - 1;
            |Unders(history, x)| == |Unders(history[..n], x)| + if history[n] < x then 1 else 0
  {
    var n := |history| - 1;
    assert Unders(history, x) == if history[n] < x then Unders(history[..n], x) + {n} else Unders(history[..n], x);
  }

  lemma LevelsMore(history: seq<real>, x: real)
    requires history != []
    ensures var n := |history| - 1;
            |Levels(history, x)| == |Levels(history[..n], x)| + if history[n] == x then 1 else 0
  {
    var n := |history| - 1;
    assert Levels(history, x) == if history[n] == x then Levels(history[..n], x) + {n} else Levels(history[..n], x);
  }

  lemma {:induction false} CountsAre(history: seq<real>, x: real)
    ensures CountUnder(history, x) == |Unders(history, x)| && CountAt(history, x) == |Levels(history, x)|
  {
    if history != [] {
      CountsAre(history[..|history| - 1], x);
      UndersMore(history, x);
      LevelsMore(history, x);
    }
  }

  lemma RankIs(history: seq<real>, x: real)
    requires history != []
    ensures RankedAt(history, x, MidRank(history, x))
  {
    CountsAre(history, x);
    Doubled(CountUnder(history, x), CountAt(history, x), |history|);
  }

  lemma Doubled(under: nat, level: nat, n: nat)
    requires n > 0
    ensures (under as real + level as real / 2.0) / n as real * (2 * n) as real == (2 * under + level) as real
  {
    var x := under as real + level as real / 2.0;
    assert x / n as real * n as real == x;
  }

  /**
   * Where a rank moves a level to: up past every threshold it has reached, else down one past its exit after the
   * dwell, else nowhere.
   */
  ghost predicate Moves(cfg: GateConfig, from: int, rank: real, held: int, to: int) {
    if from < 3 && rank >= Up(cfg, from) then
      && from < to <= 3 && (forall n :: from <= n < to ==> rank >= Up(cfg, n)) && (to < 3 ==> rank < Up(cfg, to))
    else if from > 0 && rank < Down(cfg, from) && held >= cfg.minDwell then to == from - 1
    else to == from
  }

  /**
   * One reading joins the window, the oldest out first; is ranked in it; and moves the level once the gate is on
   * and warm.
   */
  lemma ReadingMeans(cfg: GateConfig, g: Gate, value: real, bucket: int)
    requires Checked(cfg) && Sound(cfg, g)
    ensures var g' := OnBucket(cfg, g, value, bucket);
            && g'.history == (if |g.history| >= cfg.historyBuckets then g.history[1..] else g.history) + [value]
            && g'.percentile.Some? && RankedAt(g'.history, value, g'.percentile.value)
            && (if cfg.enabled && |g'.history| >= cfg.warmupBuckets then Moves(cfg, g.level, g'.percentile.value, g.dwell + 1, g'.level)
                else g'.level == g.level)
            && g'.dwell == (if g'.level == g.level then g.dwell + 1 else 0)
            && g'.transitions == g.transitions + if g'.level == g.level then [] else [Transition(bucket, g.level, g'.level)]
  {
    var p := Pushed(cfg, g, value);
    PushedSound(cfg, g, value);
    RankIs(p.history, value);
    StepMeans(cfg, p, p.percentile.value, bucket);
    assert g.transitions + [] == g.transitions;
  }

  lemma StepMeans(cfg: GateConfig, g: Gate, rank: real, bucket: int)
    requires 0 <= g.level <= 3
    ensures var g' := Stepped(cfg, g, rank, bucket);
            && Moves(cfg, g.level, rank, g.dwell, g'.level)
            && g' == g.(level := g'.level, dwell := if g'.level == g.level then g.dwell else 0,
                        transitions := g'.transitions)
            && g'.transitions == if g'.level == g.level then g.transitions else g.transitions + [Transition(bucket, g.level, g'.level)]
  {
    ClimbIs(cfg, g.level, rank);
    assert forall n :: 0 <= n < 3 ==> Up(cfg, n) == cfg.Enter(n) && Down(cfg, n + 1) == cfg.Exit(n);
  }

  /** What the gate says of itself: calm while it is off, and the multipliers of the level it says, or one. */
  lemma StateMeans(cfg: GateConfig, g: Gate, value: Option<real>, buckets: int)
    requires 0 <= g.level <= 3
    ensures var s := StateOf(cfg, g, value, buckets);
            && s.level == (if !cfg.enabled || g.level == 0 then Calm
                           else if g.level == 1 then Elevated else if g.level == 2 then Toxic else Extreme)
            && s.vpin == value && s.percentile == g.percentile && s.buckets == buckets
            && s.warmedUp == (|g.history| >= cfg.warmupBuckets)
            && s.spreadMultiplier == (if s.level in cfg.spreadMultiplier then cfg.spreadMultiplier[s.level] else 1.0)
            && s.sizeMultiplier == (if s.level in cfg.sizeMultiplier then cfg.sizeMultiplier[s.level] else 1.0)
  {
  }
}
