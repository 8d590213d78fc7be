/** Small values shared by every module. */
module Common {

  datatype Option<+T> = None | Some(value: T)

  /** A real that may be divided by. */
  type Positive = r: real | r > 0.0 witness 1.0

  /** The slack every price and token comparison of the source carries. */
  const EPSILON: real := 0.000000001

  function Min(a: int, b: int): int { if a <= b then a else b }

  function Max(a: int, b: int): int { if a >= b then a else b }

  function Abs(a: int): nat { if a >= 0 then a else -a }

  function MinReal(a: real, b: real): real { if a <= b then a else b }

  function MaxReal(a: real, b: real): real { if a >= b then a else b }

  function AbsReal(a: real): real { if a >= 0.0 then a else -a }

  function Ceiling(x: real): int { -((-x).Floor) }

  /** Towards zero, as a cast to an integer goes. */
  function Truncate(x: real): int { if x >= 0.0 then x.Floor else -((-x).Floor) }

  /** The nearest integer, halves to the even one. */
  function Nearest(x: real): int {
    var low := x.Floor;
    var above := x - low as real;
    if above < 0.5 || (above == 0.5 && low % 2 == 0) then low else low + 1
  }

  lemma Associates<T>(a: seq<T>, b: seq<T>, c: seq<T>)
    ensures (a + b) + c == a + (b + c)
  {
  }

  /** A sequence without its i-th element. */
  function Dropped<T>(s: seq<T>, i: nat): seq<T>
    requires i < |s|
  {
    s[..i] + s[i + 1..]
  }

  lemma DroppedIs<T>(s: seq<T>, i: nat)
    requires i < |s|
    ensures multiset(s) == multiset(Dropped(s, i)) + multiset{s[i]}
  {
    assert s == s[..i] + [s[i]] + s[i + 1..];
  }

  lemma Cancels<T>(a: multiset<T>, b: multiset<T>, x: T)
    requires a + multiset{x} == b + multiset{x}
    ensures a == b
  {
    assert a == (a + multiset{x}) - multiset{x};
    assert b == (b + multiset{x}) - multiset{x};
  }

  /** The last element of one arrangement stands somewhere in any other. */
  lemma Matched<T>(first: seq<T>, second: seq<T>) returns (i: nat)
    requires multiset(first) == multiset(second) && first != []
    ensures i < |second| && second[i] == first[|first| - 1]
    ensures multiset(first[..|first| - 1]) == multiset(Dropped(second, i))
  {
    var last := first[|first| - 1];
    assert last in multiset(second);
    i :| 0 <= i < |second| && second[i] == last;
    DroppedIs(second, i);
    assert first == first[..|first| - 1] + [last];
    Cancels(multiset(first[..|first| - 1]), multiset(Dropped(second, i)), last);
  }
}
