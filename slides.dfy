/**
 * The slide index shared by the hero banner and the testimonial carousel:
 * `next` is `(i + 1) % n` and `prev` is `(i - 1 + n) % n`. Both operands
 * are non-negative for an index in range, so JavaScript's `%` and Dafny's
 * agree here.
 */
module Slides {
  /** The index after "next" among `n` slides. */
  function Next(i: int, n: nat): (r: int)
    requires n > 0
    ensures 0 <= r < n
    ensures 0 <= i < n - 1 ==> r == i + 1
    ensures i == n - 1 ==> r == 0
  {
    (i + 1) % n
  }

  /** The index after "previous" among `n` slides. */
  function Prev(i: int, n: nat): (r: int)
    requires n > 0
    ensures 0 <= r < n
    ensures 0 < i < n ==> r == i - 1
    ensures i == 0 ==> r == n - 1
  {
    (i - 1 + n) % n
  }

  /** "Previous" undoes "next". */
  lemma PrevAfterNext(i: int, n: nat)
    requires n > 0 && 0 <= i < n
    ensures Prev(Next(i, n), n) == i
  {
  }

  /** "Next" undoes "previous". */
  lemma NextAfterPrev(i: int, n: nat)
    requires n > 0 && 0 <= i < n
    ensures Next(Prev(i, n), n) == i
  {
  }

  /** The index after `k` calls of "next", as the autoplay timer makes them. */
  function NextTimes(i: int, n: nat, k: nat): int
    requires n > 0
  {
    if k == 0 then i else Next(NextTimes(i, n, k - 1), n)
  }

  /** `d` whole rounds of `n` cover at least one round. */
  lemma MulAtLeast(d: int, n: nat)
    requires d >= 1
    ensures d * n >= n
  {
    assert d * n == (d - 1) * n + n;
    assert (d - 1) * n >= 0;
  }

  /** The remainder is the only `r` in `[0, n)` with `a == q * n + r`. */
  lemma ModUnique(a: int, n: nat, q: int, r: int)
    requires n > 0 && 0 <= r < n && a == q * n + r
    ensures a % n == r
  {
    var q', r' := a / n, a % n;
    assert (q - q') * n == r' - r;
    if q > q' {
      MulAtLeast(q - q', n);
    } else if q < q' {
      MulAtLeast(q' - q, n);
    }
  }

  /** One more step past a remainder is the remainder one further on. */
  lemma ModStep(a: nat, n: nat)
    requires n > 0
    ensures (a % n + 1) % n == (a + 1) % n
  {
    var q, r := a / n, a % n;
    if r + 1 < n {
      ModUnique(a + 1, n, q, r + 1);
      ModUnique(r + 1, n, 0, r + 1);
    } else {
      ModUnique(a + 1, n, q + 1, 0);
      ModUnique(r + 1, n, 1, 0);
    }
  }

  /** `k` calls of "next" advance the index by `k`, round the slides. */
  lemma {:induction false} NextTimesMod(i: int, n: nat, k: nat)
    requires n > 0 && 0 <= i < n
    ensures NextTimes(i, n, k) == (i + k) % n
  {
    if k > 0 {
      NextTimesMod(i, n, k - 1);
      ModStep(i + k - 1, n);
    }
  }

  /** `n` calls of "next" come back to the slide they started from. */
  lemma FullCircle(i: int, n: nat)
    requires n > 0 && 0 <= i < n
    ensures NextTimes(i, n, n) == i
  {
    NextTimesMod(i, n, n);
    ModUnique(i + n, n, 1, i);
  }
}
