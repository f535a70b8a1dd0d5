/** Unsigned 64-bit words, and rounding up (utility.hpp:10-25). */
module Utility {

  const WORD_RANGE := 0x1_0000_0000_0000_0000

  /** Both round_to_multiple forms. */
  function RoundToMultiple(number: nat, multiple: nat): (m: nat)
    requires multiple > 0
  {
    (number + multiple - 1) / multiple * multiple
  }

  lemma MultiplyOrdered(m: nat, p: int, q: int)
    requires p <= q
    ensures m * p <= m * q
  {
  }

  lemma ModUnique(a: nat, m: nat, q: nat, r: nat)
    requires a == m * q + r && r < m
    ensures a / m == q && a % m == r
  {
    if a / m < q {
      MultiplyOrdered(m, a / m + 1, q);
    } else if a / m > q {
      MultiplyOrdered(m, q + 1, a / m);
    }
  }

  /** The result is the least multiple that is not below the number. */
  lemma RoundsUp(number: nat, multiple: nat, other: nat)
    requires multiple > 0
    ensures var m := RoundToMultiple(number, multiple);
            && m % multiple == 0 && number <= m < number + multiple
            && (other % multiple == 0 && number <= other ==> m <= other)
  {
    var q := (number + multiple - 1) / multiple;
    ModUnique(q * multiple, multiple, q, 0);
    if other % multiple == 0 && number <= other {
      var p := other / multiple;
      MultiplyOrdered(multiple, if p < q then p else q, if p < q then q - 1 else p);
    }
  }
}
