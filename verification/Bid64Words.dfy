/** The fields of a decimal word in shifts and masks, on 64 bits. Bounds are written out: the solver then stays with the bits. */
module Bid64Words {
  /** The fields of a word do not overlap, whichever form it is in. */
  lemma SmallFieldsDisjoint(sign: bv64, biased: bv64, c: bv64)
    requires sign <= 1 && biased <= 767 && c < 0x20_0000_0000_0000
    ensures var word := (sign << 63) | (biased << 53) | c;
            && word == (sign << 63) + (biased << 53) + c
            && (word >> 63) & 1 == sign && (word >> 53) & 0x3ff == biased && word & 0x1f_ffff_ffff_ffff == c
            && (word >> 61) & 3 != 3
  {
  }

  lemma LargeFieldsDisjoint(sign: bv64, biased: bv64, c: bv64)
    requires sign <= 1 && biased <= 767 && 0x20_0000_0000_0000 <= c <= 9999999999999999
    ensures var word := (sign << 63) | (3 << 61) | (biased << 51) | (c & 0x7_ffff_ffff_ffff);
            && word == (sign << 63) + (3 << 61) + (biased << 51) + (c & 0x7_ffff_ffff_ffff)
            && (word >> 63) & 1 == sign && (word >> 51) & 0x3ff == biased
            && (word & 0x7_ffff_ffff_ffff) | (1 << 53) == c
            && (word >> 61) & 3 == 3
  {
  }

  // ---- the same words as numbers ----------------------------------------

  lemma SmallWordAdds(sign: bv64, biased: bv64, c: bv64)
    requires sign <= 1 && biased <= 767 && c < 0x20_0000_0000_0000
    ensures ((sign << 63) | (biased << 53) | c) as int ==
            sign as int * 0x8000_0000_0000_0000 + biased as int * 0x20_0000_0000_0000 + c as int
  {
  }

  lemma LargeWordAdds(sign: bv64, biased: bv64, low: bv64)
    requires sign <= 1 && biased <= 767 && low <= 0x7_ffff_ffff_ffff
    ensures ((sign << 63) | (3 << 61) | (biased << 51) | low) as int ==
            sign as int * 0x8000_0000_0000_0000 + 0x6000_0000_0000_0000 + biased as int * 0x8_0000_0000_0000 + low as int
  {
  }

  /** A long significand is its leading bit and fifty-one more. */
  lemma LongSignificand(c: bv64)
    requires 0x20_0000_0000_0000 <= c <= 9999999999999999
    ensures c as int == 0x20_0000_0000_0000 + (c & 0x7_ffff_ffff_ffff) as int
  {
  }

  lemma FieldBounds(sign: bv64, biased: bv64)
    requires sign <= 1 && biased <= 767
    ensures 0 <= sign as int <= 1 && 0 <= biased as int <= 767
  {
  }

  lemma OnesAdd(c: bv64)
    requires c < 0x20_0000_0000_0000
    ensures (0xffe0_0000_0000_0000 | c) as int == 0xffe0_0000_0000_0000 + c as int
  {
  }

  /** With every bit above it set the word is still a word. */
  lemma SmallBound(c: bv64)
    requires c < 0x20_0000_0000_0000
    ensures c as int < 0x20_0000_0000_0000
  {
    OnesAdd(c);
  }

  lemma LargeBounds(c: bv64)
    requires 0x20_0000_0000_0000 <= c <= 9999999999999999
    ensures 0x20_0000_0000_0000 <= c as int <= 9999999999999999
  {
  }

  /** The word of the short form and its fields, as numbers. */
  lemma SmallWordIs(sign: bv64, biased: bv64, c: bv64) returns (word: int, s: int, b: int, n: int)
    requires sign <= 1 && biased <= 767 && c < 0x20_0000_0000_0000
    ensures word == ((sign << 63) | (biased << 53) | c) as int && s == sign as int && b == biased as int && n == c as int
    ensures 0 <= s <= 1 && 0 <= b <= 767 && 0 <= n < 0x20_0000_0000_0000
    ensures word == s * 0x8000_0000_0000_0000 + b * 0x20_0000_0000_0000 + n
  {
    word, s, b, n := ((sign << 63) | (biased << 53) | c) as int, sign as int, biased as int, c as int;
    FieldBounds(sign, biased);
    SmallBound(c);
    SmallWordAdds(sign, biased, c);
  }
}
