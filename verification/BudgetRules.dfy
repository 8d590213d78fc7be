/** When the budget refuses a message: only where the window since it was last full has used up what it is owed. */
module BudgetRules {
  import opened Common
  import opened Orders
  import opened Throttle

  /** The bucket before each request for a token, and after the last. */
  predicate Asked(trace: seq<Bucket>, times: seq<real>) {
    && |trace| == |times| + 1
    && forall i :: 0 <= i < |times| ==> AskedAt(trace, times, i)
  }

  predicate AskedAt(trace: seq<Bucket>, times: seq<real>, i: nat)
    requires i < |times| && |trace| == |times| + 1
  {
    trace[i + 1] == TryAcquire(trace[i], times[i])
  }

  /** Times that do not go back, from the bucket's own on. */
  predicate Forward(from: real, times: seq<real>) {
    && (forall i :: 0 <= i < |times| ==> from <= times[i])
    && (forall i, j :: 0 <= i < j < |times| ==> times[i] <= times[j])
  }

  /** A time at which the bucket was full, and what it had spent by then. */
  datatype Mark = Mark(since: real, spent: int)

  /** Since the mark the bucket has lost a token a message and gained the rate, and nothing else. */
  predicate Owes(b: Bucket, m: Mark) {
    m.since <= b.last && m.spent <= b.spent && b.tokens == b.burst + (b.last - m.since) * b.rate - (b.spent - m.spent) as real
  }

  /** By this time the bucket has refilled to the brim. */
  predicate FullBy(b: Bucket, now: real) { b.tokens + (now - b.last) * b.rate >= b.burst }

  /** The mark is the start, or a request that found the bucket full. */
  predicate Brimmed(trace: seq<Bucket>, times: seq<real>, n: nat, m: Mark)
    requires n <= |times| && |trace| == |times| + 1
  {
    || m == Mark(trace[0].last, trace[0].spent)
    || exists k :: 0 <= k < n && BrimmedAt(trace, times, k, m)
  }

  predicate BrimmedAt(trace: seq<Bucket>, times: seq<real>, k: nat, m: Mark)
    requires k < |times| && |trace| == |times| + 1
  {
    m == Mark(times[k], trace[k].spent) && FullBy(trace[k], times[k])
  }

  /** One more request: the mark stays unless the bucket has refilled to the brim, and then it is this one. */
  lemma AskedOnce(b: Bucket, m: Mark, now: real) returns (m': Mark)
    requires Owes(b, m) && b.last <= now && b.rate >= 0.0
    ensures m' == if FullBy(b, now) then Mark(now, b.spent) else m
    ensures Owes(TryAcquire(b, now), m')
  {
    m' := if FullBy(b, now) then Mark(now, b.spent) else m;
    Window(b.rate, m.since, b.last, now);
    assert (now - now) * b.rate == 0.0;
  }

  lemma Window(rate: real, a: real, b: real, c: real)
    ensures (c - a) * rate == (b - a) * rate + (c - b) * rate
  {
  }

  lemma AskingKeeps(b: Bucket, now: real)
    ensures var b' := TryAcquire(b, now);
            b'.rate == b.rate && b'.burst == b.burst && b'.last == now
    ensures var b' := TryAcquire(b, now);
            (b'.spent == b.spent + 1 && b'.refused == b.refused) || (b'.spent == b.spent && b'.refused == b.refused + 1)
  {
  }

  /** The rate, the burst and the time of a bucket after n requests. */
  lemma {:induction false} AskingAt(trace: seq<Bucket>, times: seq<real>, n: nat)
    requires Asked(trace, times) && n <= |times|
    ensures trace[n].rate == trace[0].rate && trace[n].burst == trace[0].burst
    ensures trace[n].last == if n == 0 then trace[0].last else times[n - 1]
  {
    if n > 0 {
      AskingAt(trace, times, n - 1);
      assert AskedAt(trace, times, n - 1);
      AskingKeeps(trace[n - 1], times[n - 1]);
    }
  }

  /** Over any requests from a full bucket, what it holds is told by when it was last full. */
  lemma {:induction false} SinceFull(trace: seq<Bucket>, times: seq<real>, n: nat) returns (m: Mark)
    requires Asked(trace, times) && n <= |times| && Forward(trace[0].last, times)
    requires trace[0].tokens == trace[0].burst && trace[0].rate >= 0.0
    ensures Brimmed(trace, times, n, m) && Owes(trace[n], m)
  {
    if n == 0 {
      m := Mark(trace[0].last, trace[0].spent);
      assert (m.since - m.since) * trace[0].rate == 0.0;
    } else {
      var was := SinceFull(trace, times, n - 1);
      AskingAt(trace, times, n - 1);
      assert AskedAt(trace, times, n - 1);
      m := AskedOnce(trace[n - 1], was, times[n - 1]);
      if FullBy(trace[n - 1], times[n - 1]) {
        assert BrimmedAt(trace, times, n - 1, m);
      }
    }
  }

  /** What a bucket that owes so much grants. */
  lemma GrantsIff(b: Bucket, m: Mark, now: real)
    requires Owes(b, m) && b.last <= now && b.rate >= 0.0 && b.burst >= 1.0
    ensures TryAcquire(b, now).spent == b.spent + 1 <==>
            (b.spent - m.spent + 1) as real <= b.burst + (now - m.since) * b.rate + EPSILON
  {
    Window(b.rate, m.since, b.last, now);
  }

  /**
   * From a full bucket, over any requests at times that do not go back: each
   * is granted exactly when the messages granted since the bucket was last
   * full, and this one, are within the burst and what the rate has added
   * since, to within the slack. A request is granted or counted as refused.
   */
  lemma GrantedIff(trace: seq<Bucket>, times: seq<real>, n: nat) returns (m: Mark)
    requires Asked(trace, times) && n < |times| && Forward(trace[0].last, times)
    requires trace[0].tokens == trace[0].burst >= 1.0 && trace[0].rate >= 0.0
    ensures Brimmed(trace, times, n, m)
    ensures trace[n + 1].spent == trace[n].spent + 1 <==>
            (trace[n].spent - m.spent + 1) as real <= trace[0].burst + (times[n] - m.since) * trace[0].rate + EPSILON
    ensures (trace[n + 1].spent == trace[n].spent + 1 && trace[n + 1].refused == trace[n].refused)
            || (trace[n + 1].spent == trace[n].spent && trace[n + 1].refused == trace[n].refused + 1)
  {
    m := SinceFull(trace, times, n);
    AskingAt(trace, times, n);
    assert AskedAt(trace, times, n);
    AskingKeeps(trace[n], times[n]);
    GrantsIff(trace[n], m, times[n]);
  }
}
