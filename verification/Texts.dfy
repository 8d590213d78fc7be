/** Text as the parsers see it: characters under a cursor, and numbers in decimal. */
module Texts {
  // ---- characters -------------------------------------------------------

  /** What the pointer shows at i: the character, or the terminator past the last. */
  function At(text: string, i: nat): char { if i < |text| then text[i] else '\0' }

  predicate IsDigit(c: char) { '0' <= c <= '9' }

  function DigitOf(c: char): int { c as int - '0' as int }

  /** The text from i starts with this word. */
  predicate Starts(text: string, i: nat, word: string) {
    i + |word| <= |text| && text[i..i + |word|] == word
  }

  lemma StartsParts(text: string, i: nat, first: string, second: string)
    requires Starts(text, i, first + second)
    ensures Starts(text, i, first) && Starts(text, i + |first|, second)
  {
    var all := first + second;
    assert first == all[..|first|] && second == all[|first|..];
  }

  lemma StartsAt(text: string, i: nat, word: string, k: nat)
    requires Starts(text, i, word) && k < |word|
    ensures At(text, i + k) == word[k]
  {
    assert text[i..i + |word|][k] == word[k];
  }

  lemma StartsFirst(text: string, i: nat, word: string)
    requires word != ""
    ensures Starts(text, i, word) ==> At(text, i) == word[0]
  {
    if Starts(text, i, word) {
      StartsAt(text, i, word, 0);
    }
  }

  // ---- decimal digits ---------------------------------------------------

  function DigitChar(d: nat): char
    requires d < 10
  {
    '0' + d as char
  }

  /** A number in decimal, most significant digit first. */
  function Digits(n: nat): string { if n < 10 then [DigitChar(n)] else Digits(n / 10) + [DigitChar(n % 10)] }

  lemma {:induction false} DigitsAre(n: nat)
    ensures |Digits(n)| >= 1 && forall k :: 0 <= k < |Digits(n)| ==> IsDigit(Digits(n)[k])
  {
    if n >= 10 {
      DigitsAre(n / 10);
    }
  }

  predicate AllDigits(s: string) { forall k :: 0 <= k < |s| ==> IsDigit(s[k]) }

  /** The number that digits spell when they follow a number. */
  function SpellsOn(value: nat, s: string): nat
    requires AllDigits(s)
  {
    if s == "" then value else 10 * SpellsOn(value, s[..|s| - 1]) + DigitOf(s[|s| - 1])
  }

  lemma {:induction false} SpellsAppend(value: nat, a: string, b: string)
    requires AllDigits(a) && AllDigits(b)
    ensures AllDigits(a + b) && SpellsOn(value, a + b) == SpellsOn(SpellsOn(value, a), b)
  {
    if b == "" {
      assert a + b == a;
    } else {
      SpellsAppend(value, a, b[..|b| - 1]);
      assert (a + b)[..|a + b| - 1] == a + b[..|b| - 1];
    }
  }

  /** The digits of a number spell it. */
  lemma {:induction false} DigitsSpell(n: nat)
    ensures AllDigits(Digits(n)) && SpellsOn(0, Digits(n)) == n
  {
    DigitsAre(n);
    if n >= 10 {
      DigitsSpell(n / 10);
      assert Digits(n)[..|Digits(n)| - 1] == Digits(n / 10);
    } else {
      assert Digits(n)[..0] == "";
    }
  }
}
