/** An independent reference for what the solvers compute: 5-smooth numbers
    recognised by trial division, and the ascending enumeration of them obtained
    by searching upward for the next one. */
module SmoothNumbers {
  import opened HammingNumbers

  /** x is a positive integer whose only prime factors are 2, 3 and 5. */
  predicate Smooth(x: nat)
    decreases x
  {
    x == 1 ||
    (x >= 2 &&
     ((x % 2 == 0 && Smooth(x / 2)) ||
      (x % 3 == 0 && Smooth(x / 3)) ||
      (x % 5 == 0 && Smooth(x / 5))))
  }

  /** Multiplying a smooth number by 2, 3 or 5 keeps it smooth. */
  lemma {:induction false} SmoothTimes(x: nat, k: nat)
    requires Smooth(x) && (k == 2 || k == 3 || k == 5)
    ensures Smooth(k * x) && k * x > x
  {
    if k == 2 {
      assert (2 * x) / 2 == x;
    } else if k == 3 {
      assert (3 * x) / 3 == x;
    } else {
      assert (5 * x) / 5 == x;
    }
  }

  /** A smooth number above 1 is 2, 3 or 5 times a smaller smooth number. */
  lemma {:induction false} SmoothFactor(y: nat) returns (k: nat, g: nat)
    requires Smooth(y) && y != 1
    ensures (k == 2 || k == 3 || k == 5) && Smooth(g) && Scale(k, g) == y
  {
    if y % 2 == 0 && Smooth(y / 2) {
      k, g := 2, y / 2;
    } else if y % 3 == 0 && Smooth(y / 3) {
      k, g := 3, y / 3;
    } else {
      k, g := 5, y / 5;
    }
  }

  /** Every exponent triple denotes a smooth number. */
  lemma {:induction false} ValueIsSmooth(h: HammingNumber)
    ensures Smooth(Value(h))
    decreases h.p + h.q + h.r
  {
    if h.p > 0 {
      var h' := h.(p := h.p - 1);
      assert Mul(h', 2) == h;
      ValueIsSmooth(h');
      SmoothTimes(Value(h'), 2);
    } else if h.q > 0 {
      var h' := h.(q := h.q - 1);
      assert Mul(h', 3) == h;
      ValueIsSmooth(h');
      SmoothTimes(Value(h'), 3);
    } else if h.r > 0 {
      var h' := h.(r := h.r - 1);
      assert Mul(h', 5) == h;
      ValueIsSmooth(h');
      SmoothTimes(Value(h'), 5);
    } else {
      assert h == One();
    }
  }

  /** Every smooth number has an exponent triple. */
  lemma {:induction false} SmoothHasExponents(x: nat)
    requires Smooth(x)
    ensures exists h :: Value(h) == x
    decreases x
  {
    if x == 1 {
      assert Value(One()) == x;
    } else {
      var k := if x % 2 == 0 && Smooth(x / 2) then 2 else if x % 3 == 0 && Smooth(x / 3) then 3 else 5;
      var g := x / k;
      assert x == k * g;
      SmoothHasExponents(g);
      var h :| Value(h) == g;
      assert Value(Mul(h, k)) == x;
    }
  }

  /** The first smooth number at or above x, for x in (v, 2 * v]; the search
      stops at 2 * v at the latest, since 2 * v is smooth. */
  function NextSmoothFrom(v: nat, x: nat): (w: nat)
    requires Smooth(v) && v < x <= 2 * v
    ensures x <= w <= 2 * v && Smooth(w)
    decreases 2 * v - x
  {
    SmoothTimes(v, 2);
    if Smooth(x) then x else NextSmoothFrom(v, x + 1)
  }

  /** The search skips only numbers that are not smooth. */
  lemma {:induction false} NextSmoothFromSkips(v: nat, x: nat, y: nat)
    requires Smooth(v) && v < x <= 2 * v
    requires x <= y < NextSmoothFrom(v, x)
    ensures !Smooth(y)
    decreases 2 * v - x
  {
    if y > x {
      NextSmoothFromSkips(v, x + 1, y);
    }
  }

  /** The smallest smooth number strictly above the smooth number v. */
  function NextSmooth(v: nat): (w: nat)
    requires Smooth(v)
    ensures v < w && Smooth(w)
  {
    assert v >= 1;
    NextSmoothFrom(v, v + 1)
  }

  /** No smooth number lies strictly between v and NextSmooth(v). */
  lemma {:induction false} NextSmoothGap(v: nat, y: nat)
    requires Smooth(v)
    ensures v < y < NextSmooth(v) ==> !Smooth(y)
  {
    if v < y < NextSmooth(v) {
      NextSmoothFromSkips(v, v + 1, y);
    }
  }

  /** A smooth w above v with no smooth number in between is NextSmooth(v). */
  lemma {:induction false} NextSmoothUnique(v: nat, w: nat)
    requires Smooth(v) && Smooth(w) && v < w
    requires forall y :: v < y < w ==> !Smooth(y)
    ensures NextSmooth(v) == w
  {
    NextSmoothGap(v, w);
  }

  /** The k-th smooth number in ascending order, counting from Smallest(0) == 1. */
  function Smallest(k: nat): (s: nat)
    ensures Smooth(s)
  {
    if k == 0 then 1 else NextSmooth(Smallest(k - 1))
  }

  /** The number a solver reports for target n: the n-th Hamming number counting
      from 1, with target 0 also giving 1. */
  function Nth(n: nat): nat
  {
    if n == 0 then 1 else Smallest(n - 1)
  }

  /** The enumeration is strictly increasing. */
  lemma {:induction false} SmallestIncreasing(i: nat, j: nat)
    requires i < j
    ensures Smallest(i) < Smallest(j)
    decreases j
  {
    if i < j - 1 {
      SmallestIncreasing(i, j - 1);
    }
  }

  /** The enumeration misses no smooth number: every smooth number up to
      Smallest(k) is one of Smallest(0), ..., Smallest(k). */
  lemma {:induction false} SmallestComplete(k: nat, g: nat)
    requires Smooth(g) && g <= Smallest(k)
    ensures exists j :: 0 <= j <= k && Smallest(j) == g
    decreases k
  {
    if k == 0 {
      assert Smallest(0) == g;
    } else if g <= Smallest(k - 1) {
      SmallestComplete(k - 1, g);
      var j :| 0 <= j <= k - 1 && Smallest(j) == g;
      assert 0 <= j <= k;
    } else {
      NextSmoothGap(Smallest(k - 1), g);
    }
  }

  lemma {:induction false} SmallestStep(k: nat, v: nat, w: nat)
    requires Smallest(k) == v && Smooth(w) && v < w
    requires forall y :: v < y < w ==> !Smooth(y)
    ensures Smallest(k + 1) == w
  {
    NextSmoothUnique(v, w);
  }

  /** The first ten Hamming numbers in ascending order. */
  const FIRST_TEN: seq<nat> := [1, 2, 3, 4, 5, 6, 8, 9, 10, 12]

  lemma {:induction false} FirstTenSmooth(k: nat)
    requires k < |FIRST_TEN|
    ensures Smooth(FIRST_TEN[k])
  {
    assert Smooth(1) && Smooth(2) && Smooth(3) && Smooth(4) && Smooth(5) && Smooth(6);
    assert Smooth(8) && Smooth(9) && Smooth(10) && Smooth(12);
  }

  lemma {:induction false} FirstTenGaps(k: nat)
    requires 0 < k < |FIRST_TEN|
    ensures FIRST_TEN[k - 1] < FIRST_TEN[k]
    ensures forall y :: FIRST_TEN[k - 1] < y < FIRST_TEN[k] ==> !Smooth(y)
  {
    assert !Smooth(7) && !Smooth(11);
  }

  /** The enumeration starts 1, 2, 3, 4, 5, 6, 8, 9, 10, 12. */
  lemma {:induction false} FirstTen(k: nat)
    requires k < |FIRST_TEN|
    ensures Smallest(k) == FIRST_TEN[k]
  {
    if k > 0 {
      FirstTen(k - 1);
      FirstTenSmooth(k);
      FirstTenGaps(k);
      SmallestStep(k - 1, FIRST_TEN[k - 1], FIRST_TEN[k]);
    }
  }

  /** Target 0 gives 1, and targets 1 to 10 give the first ten Hamming numbers:
      target 1 gives 1, target 7 gives 8 and target 10 gives 12. */
  lemma {:induction false} TargetExamples(n: nat)
    requires n <= |FIRST_TEN|
    ensures n == 0 ==> Nth(n) == 1
    ensures n > 0 ==> Nth(n) == FIRST_TEN[n - 1]
  {
    if n > 0 {
      FirstTen(n - 1);
    }
  }
}
