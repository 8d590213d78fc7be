/** IBKR's message budget, and the coalescing queue that spends it. */
module Throttle {
  import opened Common
  import opened Orders

  const PRIORITY_CANCEL := 0
  const PRIORITY_REPLACE := 1
  const PRIORITY_PLACE := 2

  // ---- the token bucket -------------------------------------------------

  datatype Bucket = Bucket(rate: real, burst: real, tokens: real, last: real, spent: int, refused: int)

  function Refill(b: Bucket, now: real): Bucket {
    b.(tokens := MinReal(b.burst, b.tokens + MaxReal(now - b.last, 0.0) * b.rate), last := now)
  }

  predicate Affords(b: Bucket, now: real, headroom: real) {
    Refill(b, now).tokens - 1.0 >= headroom - EPSILON
  }

  function TryAcquire(b: Bucket, now: real, headroom: real := 0.0): Bucket {
    var r := Refill(b, now);
    if Affords(b, now, headroom) then r.(tokens := r.tokens - 1.0, spent := r.spent + 1)
    else r.(refused := r.refused + 1)
  }

  class MessageBudget {
    const rate: real
    const burst: real
    var tokens: real
    var last: real
    var spent: int
    var refused: int

    ghost function View(): Bucket
      reads this
    {
      Bucket(rate, burst, tokens, last, spent, refused)
    }

    constructor (rate: real, burst: int, now: real)
      ensures View() == Bucket(rate, burst as real, burst as real, now, 0, 0)
    {
      this.rate, this.burst := rate, burst as real;
      tokens, last, spent, refused := burst as real, now, 0, 0;
    }

    method RefillTo(now: real)
      modifies this
      ensures View() == Refill(old(View()), now)
    {
      var elapsed := MaxReal(now - last, 0.0);
      tokens := MinReal(burst, tokens + elapsed * rate);
      last := now;
    }

    /** Take one token if more than headroom would remain. */
    method Acquire(now: real, headroom: real := 0.0) returns (taken: bool)
      modifies this
      ensures View() == TryAcquire(old(View()), now, headroom)
      ensures taken == old(Affords(View(), now, headroom))
    {
      RefillTo(now);
      if tokens - 1.0 >= headroom - EPSILON {
        tokens := tokens - 1.0;
        spent := spent + 1;
        return true;
      }
      refused := refused + 1;
      return false;
    }
  }

  // ---- the action queue -------------------------------------------------

  /** The closures the manager queues, as data. */
  datatype Command =
    | PlaceQuote(side: Side, quote: Quote)
    | ReplaceQuote(side: Side)
    | CancelQuote(side: Side)
    | RetryCancel(side: Side)

  datatype Queued = Queued(priority: int, sequence: int, key: Side, action: Command) {
    /** Lower priority first, then earlier submission. */
    predicate Before(other: Queued) {
      priority < other.priority || (priority == other.priority && sequence < other.sequence)
    }
  }

  datatype Queue = Queue(pending: seq<Queued>, sequence: int, coalesced: int, executed: int)

  function IndexOfKey(pending: seq<Queued>, key: Side): (i: nat)
    ensures i <= |pending|
    ensures i < |pending| ==> pending[i].key == key
    ensures forall j :: 0 <= j < i ==> pending[j].key != key
  {
    if pending == [] then 0
    else if pending[0].key == key then 0
    else
      var rest := IndexOfKey(pending[1..], key);
      assert forall j :: 1 <= j < 1 + rest ==> pending[j] == pending[1..][j - 1];
      1 + rest
  }

  function Submit(q: Queue, key: Side, priority: int, action: Command): Queue {
    var i := IndexOfKey(q.pending, key);
    var entry := Queued(priority, q.sequence + 1, key, action);
    if i < |q.pending| then
      q.(pending := q.pending[i := entry], sequence := q.sequence + 1, coalesced := q.coalesced + 1)
    else
      q.(pending := q.pending + [entry], sequence := q.sequence + 1)
  }

  function Withdraw(q: Queue, key: Side): Queue {
    var i := IndexOfKey(q.pending, key);
    if i < |q.pending| then q.(pending := Dropped(q.pending, i)) else q
  }

  /** The first entry of a key. */
  predicate FirstOf(pending: seq<Queued>, key: Side, i: nat) {
    i < |pending| && pending[i].key == key && forall j :: 0 <= j < i ==> pending[j].key != key
  }

  /**
   * An action takes the place of its key's entry, or joins at the end; either
   * way it is the newest, behind every other of its priority.
   */
  lemma SubmitMeans(q: Queue, key: Side, priority: int, action: Command)
    requires forall e :: e in q.pending ==> e.sequence <= q.sequence
    ensures var q', newest := Submit(q, key, priority, action), Queued(priority, q.sequence + 1, key, action);
            && (forall i: nat :: FirstOf(q.pending, key, i) ==>
                  q'.pending == q.pending[i := newest] && q'.coalesced == q.coalesced + 1)
            && ((forall i: nat :: !FirstOf(q.pending, key, i)) ==>
                  q'.pending == q.pending + [newest] && q'.coalesced == q.coalesced)
            && (forall e :: e in q'.pending && e != newest && e.priority == priority ==> e.Before(newest))
            && q'.sequence == q.sequence + 1 && q'.executed == q.executed
  {
    var i := IndexOfKey(q.pending, key);
    assert i < |q.pending| ==> FirstOf(q.pending, key, i);
  }

  lemma WithdrawMeans(q: Queue, key: Side)
    ensures forall i: nat :: FirstOf(q.pending, key, i) ==> Withdraw(q, key) == q.(pending := q.pending[..i] + q.pending[i + 1..])
    ensures (forall i: nat :: !FirstOf(q.pending, key, i)) ==> Withdraw(q, key) == q
  {
    var i := IndexOfKey(q.pending, key);
    assert i < |q.pending| ==> FirstOf(q.pending, key, i);
  }

  /** The entry pump runs next: the first of the least. */
  function BestIndex(pending: seq<Queued>): (best: nat)
    requires |pending| > 0
    ensures best < |pending|
    ensures forall j :: 0 <= j < |pending| ==> !pending[j].Before(pending[best])
    ensures forall j :: 0 <= j < best ==> pending[best].Before(pending[j])
  {
    var n := |pending| - 1;
    if n == 0 then 0
    else
      var best := BestIndex(pending[..n]);
      assert pending[..n][best] == pending[best];
      assert forall j :: 0 <= j < n ==> pending[..n][j] == pending[j];
      if pending[n].Before(pending[best]) then n else best
  }

  class ActionQueue {
    const budget: MessageBudget
    var pending: seq<Queued>
    var sequence: int
    var coalesced: int
    var executed: int

    ghost function View(): Queue
      reads this
    {
      Queue(pending, sequence, coalesced, executed)
    }

    constructor (budget: MessageBudget)
      ensures this.budget == budget && View() == Queue([], 0, 0, 0)
    {
      this.budget := budget;
      pending, sequence, coalesced, executed := [], 0, 0, 0;
    }

    /** Where key waits, or the end of the list. */
    method Locate(key: Side) returns (i: nat)
      ensures i == IndexOfKey(pending, key)
    {
      i := 0;
      while i < |pending|
        invariant 0 <= i <= |pending|
        invariant forall j :: 0 <= j < i ==> pending[j].key != key
      {
        if pending[i].key == key {
          return;
        }
        i := i + 1;
      }
    }

    /** Queue an action under key, replacing whatever waited there. */
    method SubmitAction(key: Side, priority: int, action: Command)
      modifies this
      ensures View() == Submit(old(View()), key, priority, action)
    {
      sequence := sequence + 1;
      var i := Locate(key);
      if i < |pending| {
        coalesced := coalesced + 1;
        pending := pending[i := Queued(priority, sequence, key, action)];
        return;
      }
      pending := pending + [Queued(priority, sequence, key, action)];
    }

    method WithdrawKey(key: Side) returns (found: bool)
      modifies this
      ensures View() == Withdraw(old(View()), key)
      ensures found == exists entry :: entry in old(pending) && entry.key == key
    {
      var i := Locate(key);
      found := i < |pending|;
      if found {
        assert pending[i] in pending;
        pending := pending[..i] + pending[i + 1..];
      }
    }

    /** One turn of pump's loop up to the action itself: choose, pay, erase. */
    method TakeBest(now: real) returns (chosen: Option<Queued>)
      requires |pending| > 0
      modifies this, budget
      ensures budget.View() == TryAcquire(old(budget.View()), now)
      ensures chosen == if old(Affords(budget.View(), now, 0.0)) then Some(old(pending)[BestIndex(old(pending))]) else None
      ensures View() == if chosen.Some?
                        then old(View()).(pending := Dropped(old(pending), BestIndex(old(pending))))
                        else old(View())
    {
      var best := 0;
      for i := 1 to |pending|
        invariant 0 <= best < i
        invariant best == BestIndex(pending[..i])
      {
        assert pending[..i + 1][..i] == pending[..i];
        if pending[i].Before(pending[best]) {
          best := i;
        }
      }
      assert pending[..|pending|] == pending;
      var paid := budget.Acquire(now);
      if !paid {
        return None;
      }
      chosen := Some(pending[best]);
      pending := pending[..best] + pending[best + 1..];
    }
  }
}
