/** A decimal numeral as it stands in a text, told by places. */
module Numerals {
  import opened Texts

  /** Where the parts of a number stand: its sign, its digits to the point and past it, and its exponent's digits. */
  datatype Layout = Layout(sign: nat, whole: nat, point: nat, part: nat, letter: nat, power: nat, end: nat) {
    /** Every digit before the exponent, in order. */
    function Figures(text: string): string
      requires whole <= point <= part <= letter <= |text|
    {
      text[whole..point] + text[part..letter]
    }
  }

  predicate DigitRun(text: string, i: nat, j: nat) {
    i <= j <= |text| && forall k :: i <= k < j ==> '0' <= text[k] <= '9'
  }

  predicate SignAt(text: string, i: nat) { i < |text| && (text[i] == '+' || text[i] == '-') }

  /** Perhaps a sign. */
  predicate Signed(text: string, n: Layout) {
    n.whole == n.sign || (n.whole == n.sign + 1 && SignAt(text, n.sign))
  }

  /** Digits with at most one point among them. */
  predicate Pointed(text: string, n: Layout) {
    && DigitRun(text, n.whole, n.point) && DigitRun(text, n.part, n.letter)
    && (n.part == n.point == n.letter || (n.part == n.point + 1 && text[n.point] == '.'))
  }

  /** At least one digit. */
  predicate Decimal(text: string, n: Layout) {
    Pointed(text, n) && n.point - n.whole + n.letter - n.part > 0
  }

  /** Nothing, or a letter, perhaps a sign, and at least one digit. */
  predicate Power(text: string, n: Layout) {
    || n.letter == n.power == n.end
    || (&& DigitRun(text, n.power, n.end) && n.letter < n.power < n.end && (text[n.letter] == 'e' || text[n.letter] == 'E')
        && (n.power == n.letter + 1 || (n.power == n.letter + 2 && SignAt(text, n.letter + 1))))
  }

  predicate Ordered(n: Layout) { n.sign <= n.whole <= n.point <= n.part <= n.letter <= n.power <= n.end }

  lemma FiguresAreDigits(text: string, n: Layout)
    requires Pointed(text, n)
    ensures AllDigits(n.Figures(text))
  {
  }
}
