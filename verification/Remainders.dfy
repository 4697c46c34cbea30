/** Counting modulo m. The product hides behind `Times`, so that each step is linear. */
module Remainders {

  function Times(a: int, b: int): int {
    a * b
  }

  lemma TimesMinus(a: int, b: int, c: int)
    ensures Times(a, c) - Times(b, c) == Times(a - b, c)
  {
  }

  lemma TimesAtLeast(k: int, m: int)
    requires k >= 1 && m >= 1
    ensures Times(k, m) >= m
  {
  }

  lemma Division(x: int, m: int)
    requires m >= 1
    ensures Times(x / m, m) + x % m == x && 0 <= x % m < m
  {
  }

  lemma IsRemainder(x: int, q: int, r: int, m: int)
    requires 0 <= r < m && x == Times(q, m) + r
    ensures x % m == r
  {
    hide Times;
    Division(x, m);
    TimesMinus(q, x / m, m);
    TimesMinus(x / m, q, m);
    if q > x / m {
      TimesAtLeast(q - x / m, m);
    } else if q < x / m {
      TimesAtLeast(x / m - q, m);
    }
  }

  lemma NextMultiple(q: int, m: int)
    ensures Times(q + 1, m) == Times(q, m) + m
  {
  }

  lemma NextRemainder(x: int, m: int)
    requires m >= 1
    ensures (x + 1) % m == if x % m + 1 == m then 0 else x % m + 1
  {
    hide Times;
    var q, r := x / m, x % m;
    Division(x, m);
    assert Times(q + 1, m) == Times(q, m) + m by {
      NextMultiple(q, m);
    }
    if r + 1 == m {
      IsRemainder(x + 1, q + 1, 0, m);
    } else {
      IsRemainder(x + 1, q, r + 1, m);
    }
  }
}
