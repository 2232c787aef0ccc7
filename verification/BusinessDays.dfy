/** Counting business days, for any calendar: the laws of `addBusinessDays` and `businessDaysBetween`. */
module BusinessDays {

  /** Business days after day `a`, up to and including day `b`. */
  function Count(business: int -> bool, a: int, b: int): nat
    requires a <= b
    decreases b - a
  {
    if a == b then 0 else Count(business, a, b - 1) + (if business(b) then 1 else 0)
  }

  function Distance(business: int -> bool, a: int, b: int): nat {
    if a <= b then Count(business, a, b) else Count(business, b, a)
  }

  /** Day `r` is `k` business days from day `n`: the `k`-th after it, or the `-k`-th before it. */
  predicate IsAdded(business: int -> bool, n: int, k: int, r: int) {
    if k == 0 then r == n
    else if k > 0 then n < r && business(r) && Count(business, n, r) == k
    else r < n && business(r) && Count(business, r - 1, n - 1) == -k
  }

  // ----- Distance -----

  lemma {:induction false} CountSplit(business: int -> bool, a: int, b: int, c: int)
    requires a <= b <= c
    ensures Count(business, a, c) == Count(business, a, b) + Count(business, b, c)
    decreases c - b
  {
    if b < c {
      CountSplit(business, a, b, c - 1);
    }
  }

  /** The distance is symmetric, adds up along time, and never exceeds a detour. */
  lemma DistanceLaws(business: int -> bool, a: int, b: int, c: int)
    ensures Distance(business, a, b) == Distance(business, b, a)
    ensures a <= b <= c ==> Distance(business, a, c) == Distance(business, a, b) + Distance(business, b, c)
    ensures Distance(business, a, c) <= Distance(business, a, b) + Distance(business, b, c)
  {
    var low, high := if a <= c then a else c, if a <= c then c else a;
    if b < low {
      CountSplit(business, b, low, high);
    } else if b > high {
      CountSplit(business, low, high, b);
    } else {
      CountSplit(business, low, b, high);
    }
  }

  // ----- Adding -----

  /** Shifting the window of a count by one day trades its first day for the next. */
  lemma CountShifted(business: int -> bool, r: int, n: int)
    requires r <= n
    ensures Count(business, r, n) + (if business(r) then 1 else 0) ==
            Count(business, r - 1, n - 1) + (if business(n) then 1 else 0)
  {
    CountSplit(business, r - 1, r, n);
    assert Count(business, r - 1, r - 1) == 0;
  }

  /**
   The distance to the day `k` business days on is `k`; going back, it is `-k` from a business day and
   one less from any other day, which the end of the window then does not count.
   */
  lemma DistanceOfAdded(business: int -> bool, n: int, k: int, r: int)
    requires IsAdded(business, n, k, r)
    ensures Distance(business, n, r) == if k >= 0 then k else if business(n) then -k else -k - 1
  {
    if k < 0 {
      CountShifted(business, r, n);
    }
  }

  /** The day is determined. */
  lemma AddedUnique(business: int -> bool, n: int, k: int, r: int, r': int)
    requires IsAdded(business, n, k, r) && IsAdded(business, n, k, r')
    ensures r == r'
  {
    if k > 0 {
      if r < r' {
        Farther(business, n, r, r');
      } else if r' < r {
        Farther(business, n, r', r);
      }
    } else if k < 0 {
      if r < r' {
        CountSplit(business, r - 1, r' - 1, n - 1);
        CountFirst(business, r - 1, r' - 1);
      } else if r' < r {
        CountSplit(business, r' - 1, r - 1, n - 1);
        CountFirst(business, r' - 1, r - 1);
      }
    }
  }

  lemma Farther(business: int -> bool, n: int, r: int, r': int)
    requires n <= r < r' && business(r')
    ensures Count(business, n, r) < Count(business, n, r')
  {
    CountSplit(business, n, r, r' - 1);
  }

  lemma CountFirst(business: int -> bool, a: int, b: int)
    requires a < b && business(a + 1)
    ensures Count(business, a, b) > 0
  {
    CountSplit(business, a, a + 1, b);
    assert Count(business, a, a) == 0;
  }

  /** Adding in two goes is adding at once. */
  lemma AddedTwice(business: int -> bool, n: int, j: int, k: int, r: int, s: int)
    requires j >= 0 && k >= 0 && IsAdded(business, n, j, r) && IsAdded(business, r, k, s)
    ensures IsAdded(business, n, j + k, s)
  {
    CountSplit(business, n, r, s);
  }

  // ----- Gaps -----

  predicate ComesWithin(business: int -> bool, n: int, gap: nat) {
    exists m :: n < m <= n + gap && business(m)
  }

  /** Whatever the day, one of the next `gap` days is a business day. */
  ghost predicate Dense(business: int -> bool, gap: nat) {
    forall n: int :: ComesWithin(business, n, gap)
  }

  /** A business day ahead in the direction of `step`. */
  lemma BusinessDayAhead(business: int -> bool, n: int, step: int, gap: nat) returns (m: int)
    requires Dense(business, gap) && (step == 1 || step == -1)
    ensures business(m) && 1 <= step * (m - n) <= gap
  {
    if step == 1 {
      assert ComesWithin(business, n, gap);
      m :| n < m <= n + gap && business(m);
    } else {
      assert ComesWithin(business, n - gap - 1, gap);
      m :| n - gap - 1 < m <= n - gap - 1 + gap && business(m);
    }
  }
}
