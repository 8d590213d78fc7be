/** Decimal64 in the binary-integer-significand encoding: IEEE 754-2008, section 3.5.2. */
module Bid64 {
  import opened Common
  import Words = Bid64Words

  // ---- bits -------------------------------------------------------------

  const BIAS := 398
  const MAX_EXPONENT := 369
  const MIN_EXPONENT := -398
  const MAX_COEFFICIENT := 9999999999999999

  const TWO_51 := 0x8_0000_0000_0000
  const TWO_53 := 0x20_0000_0000_0000
  const TWO_58 := 0x400_0000_0000_0000
  const TWO_61 := 0x2000_0000_0000_0000
  const TWO_63 := 0x8000_0000_0000_0000
  const TWO_64 := 0x1_0000_0000_0000_0000

  /**
   * A 64-bit word as a number. A field shifted down and masked is a quotient
   * and a remainder, and fields that do not overlap are or-ed by adding them.
   */
  type Bits = x: int | 0 <= x < TWO_64 witness 0

  const QUIET_NAN: Bits := 0x7c00_0000_0000_0000
  const INFINITY: Bits := 0x7800_0000_0000_0000

  datatype Decoded = NaN(negative: bool) | Inf(negative: bool) | Finite(negative: bool, coefficient: nat, exponent: int)

  function SignBit(negative: bool): Bits { if negative then TWO_63 else 0 }

  /** Whether the significand is in the long form, with its two leading bits understood. */
  predicate LongForm(bits: Bits) { bits / TWO_61 % 4 == 3 }

  /** The significand as the bits spell it, before an over-large one is read as zero. */
  function Spelled(bits: Bits): nat {
    if LongForm(bits) then bits % TWO_51 + TWO_53 else bits % TWO_53
  }

  function Exponent(bits: Bits): int {
    (if LongForm(bits) then bits / TWO_51 % 1024 else bits / TWO_53 % 1024) - BIAS
  }

  function Decode(bits: Bits): Decoded {
    var negative := bits / TWO_63 == 1;
    var top5 := bits / TWO_58 % 32;
    if top5 == 31 then NaN(negative)
    else if top5 == 30 then Inf(negative)
    else Finite(negative, if Spelled(bits) > MAX_COEFFICIENT then 0 else Spelled(bits), Exponent(bits))
  }

  /** The word for a coefficient and an exponent that fit. */
  function Packed(negative: bool, c: nat, e: int): Bits
    requires c <= MAX_COEFFICIENT && MIN_EXPONENT <= e <= MAX_EXPONENT
  {
    if c < TWO_53 then SignBit(negative) + (e + BIAS) * TWO_53 + c
    else SignBit(negative) + 3 * TWO_61 + (e + BIAS) * TWO_51 + c % TWO_51
  }

  // ---- the shifts and masks ---------------------------------------------

  lemma SmallPackedIs(word: int, sign: int, biased: int, c: int)
    requires 0 <= sign <= 1 && 0 <= biased <= 767 && 0 <= c < TWO_53
    requires word == sign * TWO_63 + biased * TWO_53 + c
    ensures word == Packed(sign == 1, c, biased - BIAS)
  {
  }

  lemma LargePackedIs(word: int, sign: int, biased: int, c: int)
    requires 0 <= sign <= 1 && 0 <= biased <= 767 && TWO_53 <= c <= MAX_COEFFICIENT
    requires word == sign * TWO_63 + 3 * TWO_61 + biased * TWO_51 + (c - TWO_53)
    ensures word == Packed(sign == 1, c, biased - BIAS)
  {
  }

  /** The word the shifts and masks build, as a number, is the one Packed adds up. */
  lemma SmallShiftsPack(sign: bv64, biased: bv64, c: bv64)
    requires sign <= 1 && biased <= 767 && c < 0x20_0000_0000_0000
    ensures 0 <= biased as int <= 767 && c as int < 0x20_0000_0000_0000
    ensures ((sign << 63) | (biased << 53) | c) as int == Packed(sign as int == 1, c as int, biased as int - BIAS)
  {
    var word, s, b, n := Words.SmallWordIs(sign, biased, c);
    SmallPackedIs(word, s, b, n);
  }

  lemma LargeShiftsPack(sign: bv64, biased: bv64, c: bv64)
    requires sign <= 1 && biased <= 767 && 0x20_0000_0000_0000 <= c <= 9999999999999999
    ensures 0 <= biased as int <= 767 && TWO_53 <= c as int <= MAX_COEFFICIENT
    ensures ((sign << 63) | (3 << 61) | (biased << 51) | (c & 0x7_ffff_ffff_ffff)) as int ==
            Packed(sign as int == 1, c as int, biased as int - BIAS)
  {
    Words.FieldBounds(sign, biased);
    Words.LargeBounds(c);
    Words.LongSignificand(c);
    Words.LargeWordAdds(sign, biased, c & 0x7_ffff_ffff_ffff);
    LargePackedIs(((sign << 63) | (3 << 61) | (biased << 51) | (c & 0x7_ffff_ffff_ffff)) as int, sign as int, biased as int, c as int);
  }

  /** A word read as eleven bits over fifty-three. */
  lemma SmallWord(high: int, low: int)
    requires 0 <= high < 2048 && 0 <= low < TWO_53
    ensures var word := high * TWO_53 + low;
            && 0 <= word < TWO_64 && word / TWO_53 == high && word % TWO_53 == low
            && word / TWO_58 == high / 32 && word / TWO_61 == high / 256 && word / TWO_63 == high / 1024
  {
  }

  /** A word read as thirteen bits over fifty-one. */
  lemma LargeWord(high: int, low: int)
    requires 0 <= high < 8192 && 0 <= low < TWO_51
    ensures var word := high * TWO_51 + low;
            && 0 <= word < TWO_64 && word / TWO_51 == high && word % TWO_51 == low
            && word / TWO_58 == high / 128 && word / TWO_61 == high / 1024 && word / TWO_63 == high / 4096
  {
  }

  /** The sign, the form and the exponent are the digits of the high bits. */
  lemma LargeDigits(high: int)
    requires 0 <= high < 8192
    ensures high == high / 4096 * 4096 + high / 1024 % 4 * 1024 + high % 1024
    ensures high % 1024 == high / 256 % 4 * 256 + high % 256
    ensures high / 128 == high / 4096 * 32 + high / 1024 % 4 * 8 + high % 1024 / 128
    ensures high % 1024 / 128 / 2 == high / 256 % 4
  {
  }

  lemma LargeTop(high: int)
    requires 0 <= high < 8192 && high / 1024 % 4 == 3
    ensures high / 128 % 32 == 24 + high % 1024 / 128
    ensures 0 <= high % 1024 / 128 < 8
    ensures high / 256 % 4 != 3 <==> high % 1024 / 128 < 6
    ensures high / 256 % 4 != 3 <==> high % 1024 < 768
    ensures high == high / 4096 * 4096 + 3072 + high % 1024
  {
    LargeDigits(high);
  }

  lemma SmallTop(high: int)
    requires 0 <= high < 2048
    ensures high / 256 % 4 == 3 <==> high / 32 % 32 >= 24
    ensures high / 256 % 4 == 3 <==> high % 1024 >= 768
    ensures high == high / 1024 * 1024 + high % 1024
  {
    assert high / 32 == high / 1024 * 32 + high % 1024 / 32;
  }

  /** The two leading bits of the exponent are never both set, so a small word is a number. */
  lemma DecodeSmall(high: int, low: int)
    requires 0 <= high < 2048 && 0 <= low < TWO_53 && high / 256 % 4 != 3
    ensures 0 <= high * TWO_53 + low < TWO_64
    ensures !LongForm(high * TWO_53 + low) && Spelled(high * TWO_53 + low) == low
    ensures Decode(high * TWO_53 + low) == Finite(high / 1024 == 1, low, high % 1024 - BIAS)
  {
    SmallWord(high, low);
    SmallTop(high);
  }

  lemma DecodeLarge(high: int, low: int)
    requires 0 <= high < 8192 && 0 <= low < TWO_51 && high / 1024 % 4 == 3 && high / 256 % 4 != 3
    ensures 0 <= high * TWO_51 + low < TWO_64
    ensures LongForm(high * TWO_51 + low) && Spelled(high * TWO_51 + low) == low + TWO_53
    ensures Decode(high * TWO_51 + low) ==
            Finite(high / 4096 == 1, if low + TWO_53 > MAX_COEFFICIENT then 0 else low + TWO_53, high % 1024 - BIAS)
  {
    LargeWord(high, low);
    LargeTop(high);
  }

  /** Sign and exponent, side by side, are the high bits of a small word. */
  function SmallHigh(negative: bool, e: int): int { (if negative then 1024 else 0) + e + BIAS }

  lemma SmallHighIs(negative: bool, e: int)
    requires MIN_EXPONENT <= e <= MAX_EXPONENT
    ensures var high := SmallHigh(negative, e);
            0 <= high < 2048 && high / 256 % 4 != 3 && high / 1024 == (if negative then 1 else 0) && high % 1024 - BIAS == e
  {
  }

  function LargeHigh(negative: bool, e: int): int { (if negative then 4096 else 0) + 3072 + e + BIAS }

  lemma LargeHighIs(negative: bool, e: int)
    requires MIN_EXPONENT <= e <= MAX_EXPONENT
    ensures var high := LargeHigh(negative, e);
            && 0 <= high < 8192 && high / 1024 % 4 == 3 && high / 256 % 4 != 3
            && high / 4096 == (if negative then 1 else 0) && high % 1024 - BIAS == e
  {
  }

  lemma PackedIs(negative: bool, c: nat, e: int)
    requires c <= MAX_COEFFICIENT && MIN_EXPONENT <= e <= MAX_EXPONENT
    ensures c < TWO_53 ==> Packed(negative, c, e) == SmallHigh(negative, e) * TWO_53 + c
    ensures c >= TWO_53 ==> Packed(negative, c, e) == LargeHigh(negative, e) * TWO_51 + (c - TWO_53)
  {
  }

  /** Every coefficient of up to sixteen digits survives, in either form, and never reads as NaN or infinity. */
  lemma UnpackPacked(negative: bool, c: nat, e: int)
    requires c <= MAX_COEFFICIENT && MIN_EXPONENT <= e <= MAX_EXPONENT
    ensures Decode(Packed(negative, c, e)) == Finite(negative, c, e)
    ensures Spelled(Packed(negative, c, e)) == c
  {
    PackedIs(negative, c, e);
    if c < TWO_53 {
      SmallHighIs(negative, e);
      DecodeSmall(SmallHigh(negative, e), c);
    } else {
      LargeHighIs(negative, e);
      DecodeLarge(LargeHigh(negative, e), c - TWO_53);
    }
  }

  predicate IsFinite(bits: Bits) { Decode(bits).Finite? }

  /** The significand is one the format allows. */
  predicate Canonical(bits: Bits) { IsFinite(bits) && Spelled(bits) <= MAX_COEFFICIENT }

  /** A finite word is one of the two forms, with an exponent in range. */
  lemma FiniteSmall(bits: Bits)
    requires IsFinite(bits) && !LongForm(bits)
    ensures var high, low := bits / TWO_53, bits % TWO_53;
            && 0 <= high < 2048 && 0 <= low < TWO_53 && bits == high * TWO_53 + low
            && high / 256 % 4 != 3 && MIN_EXPONENT <= high % 1024 - BIAS <= MAX_EXPONENT
            && high == SmallHigh(high / 1024 == 1, high % 1024 - BIAS)
  {
    SmallWord(bits / TWO_53, bits % TWO_53);
    SmallTop(bits / TWO_53);
  }

  lemma FiniteLarge(bits: Bits)
    requires IsFinite(bits) && LongForm(bits)
    ensures var high, low := bits / TWO_51, bits % TWO_51;
            && 0 <= high < 8192 && 0 <= low < TWO_51 && bits == high * TWO_51 + low
            && high / 1024 % 4 == 3 && high / 256 % 4 != 3
            && MIN_EXPONENT <= high % 1024 - BIAS <= MAX_EXPONENT
            && high == LargeHigh(high / 4096 == 1, high % 1024 - BIAS)
  {
    LargeWord(bits / TWO_51, bits % TWO_51);
    LargeTop(bits / TWO_51);
  }

  lemma ExponentInRange(bits: Bits)
    requires IsFinite(bits)
    ensures MIN_EXPONENT <= Exponent(bits) <= MAX_EXPONENT
  {
    if LongForm(bits) {
      FiniteLarge(bits);
    } else {
      FiniteSmall(bits);
    }
  }

  lemma PackUnpacked(bits: Bits)
    requires Canonical(bits)
    ensures var d := Decode(bits);
            && d.coefficient <= MAX_COEFFICIENT && MIN_EXPONENT <= d.exponent <= MAX_EXPONENT
            && Packed(d.negative, d.coefficient, d.exponent) == bits
  {
    if LongForm(bits) {
      FiniteLarge(bits);
      DecodeLarge(bits / TWO_51, bits % TWO_51);
    } else {
      FiniteSmall(bits);
      DecodeSmall(bits / TWO_53, bits % TWO_53);
    }
    PackedIs(Decode(bits).negative, Decode(bits).coefficient, Decode(bits).exponent);
  }

  // ---- rounding ---------------------------------------------------------

  /** A coefficient and the power of ten it is scaled by. */
  datatype Scaled = Scaled(coefficient: nat, exponent: int)

  /** The last digit dropped, to the nearest, a half to even. */
  function RoundedTenth(c: nat): nat {
    c / 10 + if c % 10 > 5 || (c % 10 == 5 && c / 10 % 2 == 1) then 1 else 0
  }

  lemma TenthIsNearestEven(c: nat)
    ensures Abs(10 * RoundedTenth(c) - c) <= 5
    ensures Abs(10 * RoundedTenth(c) - c) == 5 ==> RoundedTenth(c) % 2 == 0
    ensures c > 0 ==> RoundedTenth(c) < c
  {
  }

  /** Down to sixteen digits, one digit at a time. */
  function Normalised(s: Scaled): Scaled
    decreases s.coefficient
  {
    if s.coefficient <= MAX_COEFFICIENT then s
    else
      TenthIsNearestEven(s.coefficient);
      Normalised(Scaled(RoundedTenth(s.coefficient), s.exponent + 1))
  }

  /** An exponent too large, brought down by trading zeros for it. */
  function Traded(s: Scaled): Scaled
    decreases s.exponent - MAX_EXPONENT
  {
    if s.exponent > MAX_EXPONENT && s.coefficient * 10 <= MAX_COEFFICIENT
    then Traded(Scaled(s.coefficient * 10, s.exponent - 1))
    else s
  }

  /** An exponent too small, brought up by rounding digits off. */
  function Denormalised(s: Scaled): Scaled
    decreases MIN_EXPONENT - s.exponent
  {
    if s.exponent >= MIN_EXPONENT then s
    else
      var c := RoundedTenth(s.coefficient);
      if c == 0 then Scaled(0, MIN_EXPONENT) else Denormalised(Scaled(c, s.exponent + 1))
  }

  function Settled(s: Scaled): Scaled { Denormalised(Traded(Normalised(s))) }

  function Pow10(k: nat): (p: nat)
    ensures p > 0
  {
    if k == 0 then 1 else 10 * Pow10(k - 1)
  }

  /** What dropping k digits one at a time can be out by, in units of the last digit dropped first. */
  function Slack(k: nat): nat { if k == 0 then 0 else 10 * Slack(k - 1) + 5 }

  lemma {:induction false} SlackIs(k: nat)
    ensures 9 * Slack(k) == 5 * (Pow10(k) - 1)
  {
    if k > 0 {
      SlackIs(k - 1);
    }
  }

  /** A value rounded k digits down is near the one it came from. */
  predicate Near(rounded: nat, k: nat, c: nat) { Abs(Pow10(k) * rounded - c) <= Slack(k) }

  /** One more digit dropped first: ten times the error there was, and a half. */
  lemma NearOnceMore(rounded: nat, k: nat, c: nat)
    requires Near(rounded, k, RoundedTenth(c))
    ensures Near(rounded, k + 1, c)
  {
    TenthIsNearestEven(c);
    var x := Pow10(k) * rounded;
    assert Pow10(k + 1) * rounded == 10 * x;
  }

  /**
   * Normalising ends at no more than sixteen digits, and, where it drops
   * any, at no fewer; dropping k of them is out by at most 5 * (10^k - 1) / 9,
   * and dropping one is rounding to the nearest, a half to even.
   */
  lemma {:induction false} NormaliseNear(s: Scaled) returns (k: nat)
    ensures var n := Normalised(s);
            && n.coefficient <= MAX_COEFFICIENT && n.exponent == s.exponent + k
            && Near(n.coefficient, k, s.coefficient)
            && (k == 0 <==> s.coefficient <= MAX_COEFFICIENT)
            && (k == 1 ==> n.coefficient == RoundedTenth(s.coefficient))
            && (k > 0 ==> n.coefficient >= 1000000000000000)
    decreases s.coefficient
  {
    if s.coefficient <= MAX_COEFFICIENT {
      k := 0;
    } else {
      TenthIsNearestEven(s.coefficient);
      var j := NormaliseNear(Scaled(RoundedTenth(s.coefficient), s.exponent + 1));
      k := j + 1;
      NearOnceMore(Normalised(s).coefficient, j, s.coefficient);
    }
  }

  // ---- when dropping digits one at a time rounds to the nearest ---------

  /** A coefficient with k digits dropped, one at a time. */
  function Shortened(c: nat, k: nat): nat { if k == 0 then c else Shortened(RoundedTenth(c), k - 1) }

  /** Whole steps of p in a value, and what is over. */
  function Kept(c: nat, p: nat): (q: nat)
    requires p > 0
  {
    c / p
  }

  function Tail(c: nat, p: nat): (r: nat)
    requires p > 0
  {
    c % p
  }

  /** The nearest value with k digits fewer, a half to even: one rounding of the whole tail. */
  function NearestEven(c: nat, k: nat): nat { HalfEven(Pow10(k), Kept(c, Pow10(k)), Tail(c, Pow10(k))) }

  function HalfEven(p: nat, q: nat, r: nat): nat {
    q + if 2 * r > p || (2 * r == p && q % 2 == 1) then 1 else 0
  }

  /** NearestEven is what its name says: no value is nearer, and of two that are as near it is the even one. */
  lemma NearestEvenIs(c: nat, k: nat)
    ensures var p, n := Pow10(k), NearestEven(c, k);
            && 2 * Abs(p * n - c) <= p
            && (forall m: nat :: Abs(p * m - c) <= Abs(p * n - c) && m != n ==> Abs(p * m - c) == Abs(p * n - c) && n % 2 == 0)
  {
    var p, n := Pow10(k), NearestEven(c, k);
    var q, r := Kept(c, p), Tail(c, p);
    Split(c, p);
    HalfEvenNear(p, q, r);
    TensAreEven(k);
    forall m: nat | Abs(p * m - c) <= Abs(p * n - c) && m != n
      ensures Abs(p * m - c) == Abs(p * n - c) && n % 2 == 0
    {
      Between(p, q, r, m);
    }
  }

  lemma {:induction false} TensAreEven(k: nat)
    ensures k > 0 ==> Pow10(k) % 2 == 0
  {
    if k > 0 {
      assert Pow10(k) == 2 * (5 * Pow10(k - 1));
    }
  }

  lemma HalfEvenNear(p: nat, q: nat, r: nat)
    requires r < p
    ensures Abs(p * HalfEven(p, q, r) - (p * q + r)) == if HalfEven(p, q, r) == q then r else p - r
    ensures 2 * Abs(p * HalfEven(p, q, r) - (p * q + r)) <= p
  {
    Next(p, q);
  }

  lemma Split(c: nat, p: nat)
    requires p > 0
    ensures c == p * Kept(c, p) + Tail(c, p) && Tail(c, p) < p
  {
  }

  lemma Next(p: nat, q: nat)
    ensures p * (q + 1) == p * q + p
  {
  }

  /** Only the two multiples on either side of a value are within half a step of it. */
  lemma Between(p: nat, q: nat, r: nat, m: nat)
    requires r < p && 2 * Abs(p * m - (p * q + r)) <= p
    ensures (m == q && 2 * r <= p && p * m == p * q) || (m == q + 1 && 2 * r >= p && p * m == p * q + p)
  {
    Next(p, q);
    if m < q {
      Next(p, m);
      AtLeast(p, m + 1, q);
    } else if m > q + 1 {
      Next(p, q + 1);
      AtLeast(p, q + 2, m);
    }
  }

  lemma AtLeast(p: nat, a: nat, b: nat)
    requires a <= b
    ensures p * a <= p * b
  {
  }

  /** The least value one drop rounds to n or more: a half goes to the even neighbour. */
  function LeastTenth(n: int): int { 10 * n - if n % 2 == 0 then 5 else 4 }

  lemma TenthReaches(c: nat, n: int)
    ensures RoundedTenth(c) >= n <==> c >= LeastTenth(n)
  {
  }

  /** The least value k drops round to n or more. */
  function Least(n: int, k: nat): int { if k == 0 then n else LeastTenth(Least(n, k - 1)) }

  lemma {:induction false} ShortenedReaches(c: nat, k: nat, n: int)
    ensures Shortened(c, k) >= n <==> c >= Least(n, k)
  {
    if k > 0 {
      ShortenedReaches(RoundedTenth(c), k - 1, n);
      TenthReaches(c, Least(n, k - 1));
    }
  }

  /** Each drop changes the parity of the bound. */
  predicate EvenAfter(n: int, k: nat) { if k == 0 then n % 2 == 0 else !EvenAfter(n, k - 1) }

  lemma TenthParity(n: int)
    ensures LeastTenth(n) % 2 == 0 <==> n % 2 != 0
  {
    assert LeastTenth(n) == 2 * (5 * n - 3) + if n % 2 == 0 then 1 else 2;
  }

  lemma {:induction false} LeastParity(n: int, k: nat)
    ensures Least(n, k) % 2 == 0 <==> EvenAfter(n, k)
  {
    if k > 0 {
      LeastParity(n, k - 1);
      TenthParity(Least(n, k - 1));
    }
  }

  /** How far below 10^k * n the bound is; so its digits alternate between 5 and 4. */
  function Reach(n: int, k: nat): nat {
    if k == 0 then 0 else 10 * Reach(n, k - 1) + if EvenAfter(n, k - 1) then 5 else 4
  }

  lemma {:induction false} ReachWithin(n: int, k: nat)
    ensures Reach(n, k) < Pow10(k)
  {
    if k > 0 {
      ReachWithin(n, k - 1);
    }
  }

  lemma {:induction false} LeastIs(n: int, k: nat, p: nat)
    requires p == Pow10(k)
    ensures Least(n, k) == p * n - Reach(n, k)
  {
    if k > 0 {
      LeastIs(n, k - 1, Pow10(k - 1));
      LeastParity(n, k - 1);
      OneMoreDrop(Least(n, k - 1), Pow10(k - 1), p, n, Reach(n, k - 1));
    }
  }

  lemma OneMoreDrop(least: int, p: nat, p': nat, n: int, reach: nat)
    requires p' == 10 * p && least == p * n - reach
    ensures LeastTenth(least) == p' * n - (10 * reach + if least % 2 == 0 then 5 else 4)
  {
    TimesTen(p, n);
  }

  /** The tail from which k drops round up, past this many steps kept. */
  function UpFrom(q: nat, k: nat): int { Pow10(k) - Reach(q + 1, k) }

  /** Any number of drops, at once: up from a tail that is fixed by k and the parity of what is kept. */
  lemma ShortenedIs(c: nat, k: nat)
    ensures var q, r := Kept(c, Pow10(k)), Tail(c, Pow10(k)); Shortened(c, k) == q + if r >= UpFrom(q, k) then 1 else 0
  {
    var p := Pow10(k);
    var q := Kept(c, p);
    Split(c, p);
    Next(p, q);
    Next(p, q + 1);
    ReachWithin(q, k);
    ReachWithin(q + 1, k);
    ReachWithin(q + 2, k);
    LeastIs(q, k, p);
    LeastIs(q + 1, k, p);
    LeastIs(q + 2, k, p);
    ShortenedReaches(c, k, q);
    ShortenedReaches(c, k, q + 1);
    ShortenedReaches(c, k, q + 2);
  }

  /** The tails that k drops round the wrong way: under a half but up, past an odd digit; over a half but down, past an even one. */
  predicate Astray(c: nat, k: nat) {
    var p := Pow10(k);
    var q, r := Kept(c, p), Tail(c, p);
    if q % 2 == 1 then UpFrom(q, k) <= r && 2 * r < p else 2 * r > p && r < UpFrom(q, k)
  }

  /** Dropping k digits one at a time is rounding them off at once exactly when the tail is not one of those. */
  lemma NearestIff(c: nat, k: nat)
    ensures Shortened(c, k) == NearestEven(c, k) <==> !Astray(c, k)
    ensures 2 * Abs(Pow10(k) * Shortened(c, k) - c) <= Pow10(k) <==> !Astray(c, k)
  {
    var p := Pow10(k);
    var q, r := Kept(c, p), Tail(c, p);
    ShortenedIs(c, k);
    Split(c, p);
    UpFromHalf(q, k);
    OneWay(p, q, r, UpFrom(q, k));
  }

  lemma UpFromHalf(q: nat, k: nat)
    ensures if q % 2 == 1 then 2 * UpFrom(q, k) <= Pow10(k) || k == 0 else 2 * UpFrom(q, k) > Pow10(k)
    ensures k == 0 ==> UpFrom(q, k) == Pow10(k) == 1
  {
    if k > 0 {
      HalfReached(q + 1, k);
    }
  }

  /** Rounding up from a threshold on the right side of a half. */
  lemma OneWay(p: nat, q: nat, r: nat, up: int)
    requires r < p && (if q % 2 == 1 then 2 * up <= p || up == p == 1 else 2 * up > p)
    ensures var n := q + if r >= up then 1 else 0;
            var astray := if q % 2 == 1 then up <= r && 2 * r < p else 2 * r > p && r < up;
            && (n == HalfEven(p, q, r) <==> !astray)
            && (2 * Abs(p * n - (p * q + r)) <= p <==> !astray)
  {
    Next(p, q);
  }

  /** An even value reaches at least a half below, an odd one less than a half. */
  lemma {:induction false} HalfReached(n: int, k: nat)
    requires k > 0
    ensures 2 * Reach(n, k) >= Pow10(k) <==> n % 2 == 0
  {
    if k > 1 {
      HalfReached(n, k - 1);
      TensAreEven(k - 1);
    } else {
      assert Reach(n, 0) == 0 && EvenAfter(n, 0) == (n % 2 == 0);
    }
  }

  /** Dropping two digits goes astray for tails from 46 to 49 past an odd digit, and from 51 to 54 past an even one. */
  lemma TwoDigits(c: nat)
    ensures Astray(c, 2) <==> if c / 100 % 2 == 1 then 46 <= c % 100 <= 49 else 51 <= c % 100 <= 54
  {
    var n := c / 100 + 1;
    assert Pow10(2) == 10 * Pow10(1) == 100;
    assert Reach(n, 2) == 10 * Reach(n, 1) + if n % 2 == 0 then 4 else 5;
    assert Reach(n, 1) == 10 * Reach(n, 0) + if n % 2 == 0 then 5 else 4;
  }

  /** Two drops take this one further than the nearest: up, where the nearest is down. */
  lemma TwiceRounded()
    ensures var c := 100000000000000146;
            && Astray(c, 2) && Normalised(Scaled(c, 0)) == Scaled(1000000000000002, 2)
            && Abs(100 * 1000000000000001 - c) < Abs(100 * 1000000000000002 - c)
  {
    TwoDigits(100000000000000146);
    assert RoundedTenth(100000000000000146) == 10000000000000015;
    assert RoundedTenth(10000000000000015) == 1000000000000002;
  }

  /** After k drops the coefficient fits in sixteen digits. */
  predicate FitsAfter(c: nat, k: nat) { c < Least(MAX_COEFFICIENT + 1, k) }

  lemma FitsAfterIs(c: nat, k: nat)
    ensures FitsAfter(c, k) <==> Shortened(c, k) <= MAX_COEFFICIENT
    ensures FitsAfter(c, k + 1) <==> FitsAfter(RoundedTenth(c), k)
  {
    ShortenedReaches(c, k, MAX_COEFFICIENT + 1);
    TenthReaches(c, Least(MAX_COEFFICIENT + 1, k));
  }

  /** Normalising drops as many digits as it takes, and no more: k is the first number of drops that leaves sixteen. */
  lemma {:induction false} NormaliseDrops(s: Scaled) returns (k: nat)
    ensures Normalised(s) == Scaled(Shortened(s.coefficient, k), s.exponent + k)
    ensures FitsAfter(s.coefficient, k) && forall j :: 0 <= j < k ==> !FitsAfter(s.coefficient, j)
    decreases s.coefficient
  {
    var c := s.coefficient;
    if c <= MAX_COEFFICIENT {
      k := 0;
    } else {
      TenthIsNearestEven(c);
      var before := NormaliseDrops(Scaled(RoundedTenth(c), s.exponent + 1));
      k := before + 1;
      FitsAfterIs(c, before);
      forall j | 0 <= j < k ensures !FitsAfter(c, j) {
        if j > 0 {
          FitsAfterIs(c, j - 1);
        }
      }
    }
  }

  /** Normalising is one rounding to the nearest even exactly when the tail it drops is not one of those gone astray. */
  lemma NormaliseNearestIff(s: Scaled) returns (k: nat)
    ensures var n := Normalised(s);
            && n.exponent == s.exponent + k && n.coefficient <= MAX_COEFFICIENT
            && (n.coefficient == NearestEven(s.coefficient, k) <==> !Astray(s.coefficient, k))
    ensures FitsAfter(s.coefficient, k) && forall j :: 0 <= j < k ==> !FitsAfter(s.coefficient, j)
  {
    var _ := NormaliseNear(s);
    k := NormaliseDrops(s);
    NearestIff(s.coefficient, k);
  }

  /** Trading zeros keeps the value exactly, and stops only in range or out of digits. */
  lemma {:induction false} TradingIsExact(s: Scaled) returns (k: nat)
    requires s.coefficient <= MAX_COEFFICIENT
    ensures var t := Traded(s);
            && t == Scaled(s.coefficient * Pow10(k), s.exponent - k)
            && t.coefficient <= MAX_COEFFICIENT
            && (s.exponent <= MAX_EXPONENT ==> k == 0)
            && (s.exponent > MAX_EXPONENT ==> t.exponent == MAX_EXPONENT || (t.exponent > MAX_EXPONENT && t.coefficient * 10 > MAX_COEFFICIENT))
    decreases s.exponent - MAX_EXPONENT
  {
    if s.exponent > MAX_EXPONENT && s.coefficient * 10 <= MAX_COEFFICIENT {
      var j := TradingIsExact(Scaled(s.coefficient * 10, s.exponent - 1));
      k := j + 1;
      assert s.coefficient * 10 * Pow10(j) == s.coefficient * Pow10(k);
    } else {
      k := 0;
    }
  }

  /** Rounding up to the smallest exponent is out by no more than dropping as many digits from the start. */
  lemma {:induction false} DenormaliseNear(s: Scaled) returns (k: nat)
    requires s.coefficient <= MAX_COEFFICIENT
    ensures var d := Denormalised(s);
            && d.coefficient <= MAX_COEFFICIENT && d.exponent == s.exponent + k >= MIN_EXPONENT
            && Near(d.coefficient, k, s.coefficient)
            && (s.exponent >= MIN_EXPONENT ==> k == 0) && (s.exponent < MIN_EXPONENT ==> d.exponent == MIN_EXPONENT)
    decreases MIN_EXPONENT - s.exponent
  {
    if s.exponent >= MIN_EXPONENT {
      k := 0;
    } else {
      var c := RoundedTenth(s.coefficient);
      k := MIN_EXPONENT - s.exponent;
      if c == 0 {
        NothingNear(k, s.coefficient);
      } else {
        TenthIsNearestEven(s.coefficient);
        var j := DenormaliseNear(Scaled(c, s.exponent + 1));
        NearOnceMore(Denormalised(s).coefficient, j, s.coefficient);
      }
    }
  }

  lemma {:induction false} NothingNear(k: nat, c: nat)
    requires k > 0 && RoundedTenth(c) == 0
    ensures Near(0, k, c)
  {
    if k > 1 {
      NothingNear(k - 1, c);
    }
  }

  // ---- encoding ---------------------------------------------------------

  lemma SettledFits(s: Scaled)
    ensures Settled(s).coefficient <= MAX_COEFFICIENT && Settled(s).exponent >= MIN_EXPONENT
  {
    var _ := NormaliseNear(s);
    var _ := TradingIsExact(Normalised(s));
    var _ := DenormaliseNear(Traded(Normalised(s)));
  }

  function Encoded(negative: bool, coefficient: nat, exponent: int): Bits {
    var s := Settled(Scaled(coefficient, exponent));
    SettledFits(Scaled(coefficient, exponent));
    if s.exponent > MAX_EXPONENT then SignBit(negative) + INFINITY else Packed(negative, s.coefficient, s.exponent)
  }

  method Normalise(coefficient: nat, exponent: int) returns (c: nat, e: int)
    ensures Scaled(c, e) == Normalised(Scaled(coefficient, exponent))
    ensures c <= MAX_COEFFICIENT
  {
    c, e := coefficient, exponent;
    while c > MAX_COEFFICIENT
      invariant Normalised(Scaled(c, e)) == Normalised(Scaled(coefficient, exponent))
      decreases c
    {
      TenthIsNearestEven(c);
      var digit := c % 10;
      c, e := c / 10, e + 1;
      if digit > 5 || (digit == 5 && c % 2 == 1) {
        c := c + 1;
      }
    }
  }

  method Encode(negative: bool, coefficient: nat, exponent: int) returns (bits: Bits)
    ensures bits == Encoded(negative, coefficient, exponent)
  {
    var c, e := Normalise(coefficient, exponent);
    ghost var n := Scaled(c, e);
    while e > MAX_EXPONENT && c * 10 <= MAX_COEFFICIENT
      invariant 0 <= c <= MAX_COEFFICIENT && Traded(Scaled(c, e)) == Traded(n)
      decreases e - MAX_EXPONENT
    {
      c, e := c * 10, e - 1;
    }
    ghost var t := Scaled(c, e);
    while e < MIN_EXPONENT
      invariant 0 <= c && Denormalised(Scaled(c, e)) == Denormalised(t)
      decreases MIN_EXPONENT - e
    {
      var digit := c % 10;
      c, e := c / 10, e + 1;
      if digit > 5 || (digit == 5 && c % 2 == 1) {
        c := c + 1;
      }
      if c == 0 {
        e := MIN_EXPONENT;
        break;
      }
    }
    SettledFits(Scaled(coefficient, exponent));
    if e > MAX_EXPONENT {
      return SignBit(negative) + INFINITY;
    }
    bits := Packed(negative, c, e);
  }

  lemma DecodeInfinity(negative: bool)
    ensures Decode(SignBit(negative) + INFINITY) == Inf(negative)
  {
  }

  /** What a settled value is encoded as, and so read as. */
  function Reads(negative: bool, s: Scaled): Decoded {
    if s.exponent > MAX_EXPONENT then Inf(negative) else Finite(negative, s.coefficient, s.exponent)
  }

  lemma DecodeEncoded(negative: bool, c: nat, e: int)
    ensures Decode(Encoded(negative, c, e)) == Reads(negative, Settled(Scaled(c, e)))
  {
    var s := Settled(Scaled(c, e));
    SettledFits(Scaled(c, e));
    if s.exponent > MAX_EXPONENT {
      DecodeInfinity(negative);
    } else {
      UnpackPacked(negative, s.coefficient, s.exponent);
    }
  }

  /** Round trip: what fits is encoded as it is, and read back as it was. */
  lemma EncodeThenDecode(negative: bool, c: nat, e: int)
    requires c <= MAX_COEFFICIENT && MIN_EXPONENT <= e <= MAX_EXPONENT
    ensures Encoded(negative, c, e) == Packed(negative, c, e)
    ensures Decode(Encoded(negative, c, e)) == Finite(negative, c, e)
  {
    UnpackPacked(negative, c, e);
  }

  /** And back: every canonical finite word is the encoding of what it decodes to. */
  lemma DecodeThenEncode(bits: Bits)
    requires Canonical(bits)
    ensures var d := Decode(bits); Encoded(d.negative, d.coefficient, d.exponent) == bits
  {
    PackUnpacked(bits);
  }

  lemma {:induction false} Pow10Grows(j: nat, k: nat)
    requires j <= k
    ensures Pow10(j) <= Pow10(k)
  {
    if j < k {
      Pow10Grows(j, k - 1);
    }
  }

  /** An exponent past the largest is exact while the zeros fit in sixteen digits, and infinity when they do not. */
  lemma PastTheLargest(s: Scaled)
    requires s.coefficient <= MAX_COEFFICIENT && s.exponent > MAX_EXPONENT
    ensures var grown := s.coefficient * Pow10(s.exponent - MAX_EXPONENT);
            if grown <= MAX_COEFFICIENT then Settled(s) == Scaled(grown, MAX_EXPONENT) else Settled(s).exponent > MAX_EXPONENT
  {
    var k := TradingIsExact(s);
    if Traded(s).exponent > MAX_EXPONENT {
      Overgrown(s.coefficient, k, s.exponent - MAX_EXPONENT);
    }
  }

  lemma Overgrown(c: nat, k: nat, over: nat)
    requires c * Pow10(k) * 10 > MAX_COEFFICIENT && k < over
    ensures c * Pow10(over) > MAX_COEFFICIENT
  {
    Pow10Grows(k + 1, over);
    Scales(c, Pow10(k), Pow10(over));
  }

  lemma Scales(c: nat, p: nat, q: nat)
    requires 10 * p <= q
    ensures c * p * 10 <= c * q
  {
    assert c * p * 10 == c * (10 * p);
  }

  /**
   * Whatever goes in, what comes out is near it in value, and exactly it
   * where the exponent came down: rounding and trading never both happen.
   */
  lemma SettledNear(s: Scaled)
    ensures var t := Settled(s);
            && (t.exponent >= s.exponent ==> Near(t.coefficient, t.exponent - s.exponent, s.coefficient))
            && (t.exponent < s.exponent ==> t.coefficient == s.coefficient * Pow10(s.exponent - t.exponent))
  {
    var k := NormaliseNear(s);
    var n := Normalised(s);
    var j := TradingIsExact(n);
    var t := Traded(n);
    var m := DenormaliseNear(t);
    if k > 0 {
      FullDigitsStay(n);
      if m > 0 {
        NearTwice(Settled(s).coefficient, m, n.coefficient, k, s.coefficient);
      }
    }
  }

  lemma {:induction false} NothingShortened(k: nat)
    ensures Shortened(0, k) == 0
  {
    if k > 0 {
      NothingShortened(k - 1);
    }
  }

  lemma {:induction false} ShortenedTwice(c: nat, k: nat, m: nat)
    ensures Shortened(Shortened(c, k), m) == Shortened(c, k + m)
  {
    if k > 0 {
      ShortenedTwice(RoundedTenth(c), k - 1, m);
    }
  }

  lemma {:induction false} DenormaliseDrops(s: Scaled) returns (k: nat)
    ensures k == Max(MIN_EXPONENT - s.exponent, 0)
    ensures Denormalised(s) == Scaled(Shortened(s.coefficient, k), s.exponent + k)
    decreases MIN_EXPONENT - s.exponent
  {
    k := Max(MIN_EXPONENT - s.exponent, 0);
    if k > 0 {
      var c := RoundedTenth(s.coefficient);
      if c == 0 {
        NothingShortened(k - 1);
      } else {
        var _ := DenormaliseDrops(Scaled(c, s.exponent + 1));
      }
    }
  }

  lemma SettledDrops(s: Scaled)
    ensures var t := Settled(s);
            t.exponent >= s.exponent ==> t.coefficient == Shortened(s.coefficient, t.exponent - s.exponent)
  {
    var n := Normalised(s);
    var j := NormaliseNear(s);
    var k := NormaliseDrops(s);
    var x := TradingIsExact(n);
    var m := DenormaliseDrops(Traded(n));
    if k > 0 {
      FullDigitsStay(n);
    }
    ShortenedTwice(s.coefficient, k, m);
  }

  /**
   * Where encoding drops digits, for length or for a small exponent or for
   * both, it is one rounding to the nearest even exactly when the tail it
   * drops in all is not one of those gone astray.
   */
  lemma SettledNearestIff(s: Scaled)
    ensures var t := Settled(s);
            t.exponent >= s.exponent ==>
              (t.coefficient == NearestEven(s.coefficient, t.exponent - s.exponent)
               <==> !Astray(s.coefficient, t.exponent - s.exponent))
  {
    SettledDrops(s);
    if Settled(s).exponent >= s.exponent {
      NearestIff(s.coefficient, Settled(s).exponent - s.exponent);
    }
  }

  /** Sixteen digits leave no zero to trade. */
  lemma FullDigitsStay(n: Scaled)
    requires n.coefficient >= 1000000000000000
    ensures Traded(n) == n
  {
  }

  lemma TimesTen(p: nat, s: int)
    ensures 10 * (p * s) == 10 * p * s
  {
  }

  lemma {:induction false} Pow10Adds(j: nat, k: nat)
    ensures Pow10(j + k) == Pow10(j) * Pow10(k)
  {
    if j > 0 {
      Pow10Adds(j - 1, k);
      TimesTen(Pow10(j - 1), Pow10(k));
    }
  }

  lemma {:induction false} SlackAdds(j: nat, k: nat)
    ensures Slack(j + k) == Pow10(j) * Slack(k) + Slack(j)
  {
    if j > 0 {
      SlackAdds(j - 1, k);
      TimesTen(Pow10(j - 1), Slack(k));
    }
  }

  /** Rounding a rounded value is near the first to the sum of the digits dropped. */
  lemma NearTwice(last: nat, m: nat, middle: nat, k: nat, first: nat)
    requires Near(last, m, middle) && Near(middle, k, first)
    ensures Near(last, k + m, first)
  {
    Pow10Adds(k, m);
    SlackAdds(k, m);
    Compound(Pow10(k), Pow10(m), last, middle, first, Slack(m), Slack(k));
  }

  lemma Compound(p: nat, q: nat, last: nat, middle: nat, first: nat, a: nat, b: nat)
    requires Abs(q * last - middle) <= a && Abs(p * middle - first) <= b
    ensures Abs(p * q * last - first) <= p * a + b
  {
    var x := q * last - middle;
    ScaleAbs(p, x, a);
    Distributes(p, q, last, middle);
  }

  lemma Distributes(p: nat, q: nat, last: nat, middle: nat)
    ensures p * q * last == p * (q * last - middle) + p * middle
  {
    var y := q * last;
    assert p * q * last == p * y;
  }

  lemma ScaleAbs(p: nat, x: int, bound: nat)
    requires Abs(x) <= bound
    ensures Abs(p * x) <= p * bound
  {
    assert p * x <= p * bound && p * -x <= p * bound;
    assert p * -x == -(p * x);
  }
}
