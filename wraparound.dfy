/**
 * The index arithmetic of the lightbox: JavaScript's `%` operator and the
 * two wrapping steps used by the arrow keys and by swipes.
 */
module Wraparound {

  /** JavaScript's `a % n`: the remainder of truncating division, which takes
      the sign of the dividend (Dafny's own `%` is Euclidean). */
  function JsRem(a: int, n: int): (r: int)
    requires n > 0
    ensures a >= 0 ==> 0 <= r < n
    ensures a < 0 ==> -n < r <= 0
    ensures (a - r) % n == 0
  {
    if a >= 0 then
      ModOfMultiplePlus(a / n, n, 0);
      a % n
    else
      ModOfMultiplePlus(-((-a) / n), n, 0);
      assert a + (-a) % n == -((-a) / n) * n;
      -((-a) % n)
  }

  /** The index after `currentIndex`, as ArrowRight and a left swipe compute it. */
  function Next(k: int, n: int): (r: int)
    requires n > 0
    ensures k >= -1 ==> 0 <= r < n
  {
    JsRem(k + 1, n)
  }

  /** The index before `currentIndex`, as ArrowLeft and a right swipe compute it. */
  function Prev(k: int, n: int): (r: int)
    requires n > 0
    ensures k >= -1 ==> 0 <= r < n
  {
    JsRem(k - 1 + n, n)
  }

  /** Division with remainder has one answer: `q * n + r` leaves remainder `r`. */
  lemma ModOfMultiplePlus(q: int, n: int, r: int)
    requires n > 0 && 0 <= r < n
    ensures (q * n + r) % n == r
  {
    var x := q * n + r;
    var q', r' := x / n, x % n;
    assert x == q' * n + r';
    var d := q - q';
    assert d * n == r' - r by {
      assert d * n == q * n - q' * n;
    }
    if d > 0 {
      MultipleAtLeast(d, n);
    } else if d < 0 {
      MultipleAtLeast(-d, n);
    }
  }

  lemma MultipleAtLeast(d: int, n: int)
    requires d >= 1 && n > 0
    ensures d * n >= n
  {
    assert d * n == (d - 1) * n + n;
    assert (d - 1) * n >= 0;
  }

  /** Inside the range, ArrowRight goes one up and from the last image to the first. */
  lemma NextInRange(k: int, n: int)
    requires 0 <= k < n
    ensures Next(k, n) == if k == n - 1 then 0 else k + 1
  {
    if k == n - 1 {
      ModOfMultiplePlus(1, n, 0);
    } else {
      ModOfMultiplePlus(0, n, k + 1);
    }
  }

  /** Inside the range, ArrowLeft goes one down and from the first image to the last. */
  lemma PrevInRange(k: int, n: int)
    requires 0 <= k < n
    ensures Prev(k, n) == if k == 0 then n - 1 else k - 1
  {
    if k == 0 {
      ModOfMultiplePlus(0, n, n - 1);
    } else {
      ModOfMultiplePlus(1, n, k - 1);
    }
  }

  /** Before any image was shown the index is -1: a step forward lands on the
      first image, a step back on the last but one (on the only one when n == 1,
      where JavaScript computes -1 % 1 == -0). */
  lemma StepsFromUnset(n: int)
    requires n > 0
    ensures Next(-1, n) == 0
    ensures Prev(-1, n) == if n == 1 then 0 else n - 2
  {
    ModOfMultiplePlus(0, n, 0);
    if n > 1 {
      ModOfMultiplePlus(0, n, n - 2);
    }
  }

  /** A step forward and a step back undo each other, in either order. */
  lemma PrevNextInverse(k: int, n: int)
    requires 0 <= k < n
    ensures Prev(Next(k, n), n) == k
    ensures Next(Prev(k, n), n) == k
  {
    NextInRange(k, n);
    PrevInRange(k, n);
    NextInRange(Prev(k, n), n);
    PrevInRange(Next(k, n), n);
  }

  /** The index after `m` presses of ArrowRight. */
  function Advance(k: int, n: int, m: nat): (r: int)
    requires n > 0
    ensures m > 0 && k >= -1 ==> 0 <= r < n
  {
    if m == 0 then k else Next(Advance(k, n, m - 1), n)
  }

  /** The index after `m` presses of ArrowLeft. */
  function Retreat(k: int, n: int, m: nat): (r: int)
    requires n > 0
    ensures m > 0 && k >= -1 ==> 0 <= r < n
  {
    if m == 0 then k else Prev(Retreat(k, n, m - 1), n)
  }

  /** A step forward from the reduced value of x is the reduced value of x + 1. */
  lemma NextOfReduced(x: int, n: int)
    requires n > 0
    ensures Next(x % n, n) == (x + 1) % n
  {
    var a, q := x % n, x / n;
    NextInRange(a, n);
    assert x + 1 == q * n + (a + 1);
    if a == n - 1 {
      assert x + 1 == (q + 1) * n + 0;
      ModOfMultiplePlus(q + 1, n, 0);
    } else {
      ModOfMultiplePlus(q, n, a + 1);
    }
  }

  /** A step back from the reduced value of x is the reduced value of x - 1. */
  lemma PrevOfReduced(x: int, n: int)
    requires n > 0
    ensures Prev(x % n, n) == (x - 1) % n
  {
    var a, q := x % n, x / n;
    PrevInRange(a, n);
    assert x - 1 == q * n + (a - 1);
    if a == 0 {
      assert x - 1 == (q - 1) * n + (n - 1);
      ModOfMultiplePlus(q - 1, n, n - 1);
    } else {
      ModOfMultiplePlus(q, n, a - 1);
    }
  }

  /** `m` presses of ArrowRight move the index `m` places forward, modulo n. */
  lemma {:induction false} AdvanceIs(k: int, n: int, m: nat)
    requires 0 <= k < n
    ensures Advance(k, n, m) == (k + m) % n
  {
    if m == 0 {
      ModOfMultiplePlus(0, n, k);
    } else {
      AdvanceIs(k, n, m - 1);
      NextOfReduced(k + m - 1, n);
    }
  }

  /** `m` presses of ArrowLeft move the index `m` places back, modulo n. */
  lemma {:induction false} RetreatIs(k: int, n: int, m: nat)
    requires 0 <= k < n
    ensures Retreat(k, n, m) == (k - m) % n
  {
    if m == 0 {
      ModOfMultiplePlus(0, n, k);
    } else {
      RetreatIs(k, n, m - 1);
      PrevOfReduced(k - m + 1, n);
    }
  }

  /** Pressing an arrow key once per image comes back to the image it started at. */
  lemma FullCycle(k: int, n: int)
    requires 0 <= k < n
    ensures Advance(k, n, n) == k
    ensures Retreat(k, n, n) == k
  {
    AdvanceIs(k, n, n);
    RetreatIs(k, n, n);
    ModOfMultiplePlus(1, n, k);
    ModOfMultiplePlus(-1, n, k);
  }
}
