/** The state of Solve_Naive's loop: a min-priority queue of plain integers
    (a multiset) and the tracer set of every integer ever queued, with the
    invariant that ties them to the ascending enumeration of Hamming numbers. */
module NaiveQueue {
  import opened SmoothNumbers

  /** The multipliers the solver offers, in the order it offers them. */
  const MULTIPLIERS: seq<nat> := [2, 3, 5]

  /** A least element of a non-empty multiset of naturals. */
  lemma {:induction false} Least(pq: multiset<nat>) returns (m: nat)
    requires pq != multiset{}
    ensures m in pq && forall x | x in pq :: m <= x
    decreases |pq|
  {
    var y :| y in pq;
    var rest := pq - multiset{y};
    if rest == multiset{} {
      m := y;
      forall x | x in pq ensures m <= x {
        RemoveOne(pq, y, x);
      }
    } else {
      var m' := Least(rest);
      m := if y < m' then y else m';
      forall x | x in pq ensures m <= x {
        RemoveOne(pq, y, x);
      }
    }
  }

  lemma {:induction false} HasMinimum(pq: multiset<nat>)
    requires pq != multiset{}
    ensures exists m :: m in pq && forall x | x in pq :: m <= x
  {
    var m := Least(pq);
  }

  /** Removing one occurrence of y keeps every other element. */
  lemma {:induction false} RemoveOne(pq: multiset<nat>, y: nat, x: nat)
    requires x in pq
    ensures x == y || x in pq - multiset{y}
    ensures x in pq - multiset{y} ==> x in pq
  {
  }

  /** top() of the min-priority queue: its least element. */
  function Top(pq: multiset<nat>): (m: nat)
    requires pq != multiset{}
    ensures m in pq && forall x | x in pq :: m <= x
  {
    HasMinimum(pq);
    var m :| m in pq && forall x | x in pq :: m <= x;
    m
  }

  /** x lies beyond the first n popped values, which are Smallest(0), ...,
      Smallest(n - 1). */
  ghost predicate Above(x: nat, n: nat)
  {
    n == 0 || Smallest(n - 1) < x
  }

  /** Every multiple of the first n popped values has been seen. */
  ghost predicate MultiplesSeen(tracer: set<nat>, n: nat)
  {
    forall j: nat | j < n :: 2 * Smallest(j) in tracer && 3 * Smallest(j) in tracer && 5 * Smallest(j) in tracer
  }

  /** The loop invariant after n pops: the tracer holds 1, only smooth numbers
      and every multiple of a popped value; the queue holds no duplicate and is
      exactly the part of the tracer beyond the last popped value. */
  ghost predicate Frontier(pq: multiset<nat>, tracer: set<nat>, n: nat)
  {
    && 1 in tracer
    && (forall x: nat {:trigger Smooth(x)} | x in tracer :: Smooth(x))
    && (forall x: nat | x in pq :: pq[x] == 1)
    && (forall x: nat {:trigger pq[x]} :: x in pq <==> x in tracer && Above(x, n))
    && MultiplesSeen(tracer, n)
  }

  /** The invariant part way through the pass that popped m == Smallest(n): m
      has left the queue and the first i multipliers have been offered. */
  ghost predicate Offered(pq: multiset<nat>, tracer: set<nat>, n: nat, m: nat, i: nat)
  {
    && 1 in tracer
    && (forall x: nat {:trigger Smooth(x)} | x in tracer :: Smooth(x))
    && (forall x: nat | x in pq :: pq[x] == 1)
    && (forall x: nat {:trigger pq[x]} :: x in pq <==> x in tracer && m < x)
    && MultiplesSeen(tracer, n)
    && (forall t: nat | t < i && t < |MULTIPLIERS| :: MULTIPLIERS[t] * m in tracer)
  }

  /** Before the loop: the queue and the tracer both hold just 1. */
  lemma {:induction false} InitialFrontier()
    ensures Frontier(multiset{1}, {1}, 0)
  {
  }

  lemma {:induction false} SmoothPositive(x: nat)
    ensures Smooth(x) ==> x >= 1
  {
  }

  /** The next Hamming number after Smallest(n - 1) is 2, 3 or 5 times one of
      Smallest(0), ..., Smallest(n - 1). */
  lemma {:induction false} NextIsMultiple(n: nat) returns (k: nat, j: nat)
    requires n > 0
    ensures (k == 2 || k == 3 || k == 5) && j < n && Smallest(n) == k * Smallest(j)
  {
    var last, u := Smallest(n - 1), Smallest(n);
    SmallestIncreasing(n - 1, n);
    SmoothPositive(last);
    var g;
    k, g := SmoothFactor(u);
    NextSmoothGap(last, g);
    SmallestComplete(n - 1, g);
    j :| 0 <= j <= n - 1 && Smallest(j) == g;
  }

  /** The next Hamming number Smallest(n) has been queued: it is a multiple of
      a smaller Hamming number, which has already been popped. */
  lemma {:induction false} NextIsQueued(pq: multiset<nat>, tracer: set<nat>, n: nat)
    requires Frontier(pq, tracer, n) && n > 0
    ensures Smallest(n) in pq
  {
    var k, j := NextIsMultiple(n);
    SmallestIncreasing(n - 1, n);
    assert Smallest(n) in tracer;
  }

  /** Nothing in the queue comes before Smallest(n). */
  lemma {:induction false} QueueNotBelowNext(pq: multiset<nat>, tracer: set<nat>, n: nat, x: nat)
    requires Frontier(pq, tracer, n) && x in pq
    ensures Smallest(n) <= x
  {
    assert Smooth(x);
    if n == 0 {
      SmoothPositive(x);
    } else {
      NextSmoothGap(Smallest(n - 1), x);
    }
  }

  /** top() is the next Hamming number. */
  lemma {:induction false} TopIsNext(pq: multiset<nat>, tracer: set<nat>, n: nat)
    requires Frontier(pq, tracer, n)
    ensures pq != multiset{} && Top(pq) == Smallest(n)
  {
    if n > 0 {
      NextIsQueued(pq, tracer, n);
    } else {
      assert 1 in pq;
    }
    var m := Top(pq);
    QueueNotBelowNext(pq, tracer, n, m);
  }

  /** Popping the next Hamming number leaves the rest of the queue beyond it. */
  lemma {:induction false} PopKeeps(pq: multiset<nat>, tracer: set<nat>, n: nat)
    requires Frontier(pq, tracer, n) && Smallest(n) in pq
    ensures Offered(pq - multiset{Smallest(n)}, tracer, n, Smallest(n), 0)
  {
    var m := Smallest(n);
    var pq' := pq - multiset{m};
    if n > 0 {
      SmallestIncreasing(n - 1, n);
    }
    forall x
      ensures x in pq' <==> x in tracer && m < x
    {
      if x in pq' {
        QueueNotBelowNext(pq, tracer, n, x);
      }
    }
  }

  /** pop(): the top of the queue is the next Hamming number, and removing it
      leaves the invariant of a pass about to offer its multiples. */
  lemma {:induction false} PopNext(pq: multiset<nat>, tracer: set<nat>, n: nat)
    requires Frontier(pq, tracer, n)
    ensures pq != multiset{} && Top(pq) == Smallest(n)
    ensures Offered(pq - multiset{Top(pq)}, tracer, n, Top(pq), 0)
  {
    TopIsNext(pq, tracer, n);
    PopKeeps(pq, tracer, n);
  }

  /** Offering candidate c = MULTIPLIERS[i] * m, which lies beyond m: pushed
      and recorded when the tracer has not seen it, skipped otherwise. */
  lemma {:induction false} OfferKeeps(pq: multiset<nat>, tracer: set<nat>, n: nat, m: nat, i: nat)
    requires Offered(pq, tracer, n, m, i) && m == Smallest(n) && i < |MULTIPLIERS|
    ensures m < MULTIPLIERS[i] * m
    ensures MULTIPLIERS[i] * m !in tracer ==> Offered(pq + multiset{MULTIPLIERS[i] * m}, tracer + {MULTIPLIERS[i] * m}, n, m, i + 1)
    ensures MULTIPLIERS[i] * m in tracer ==> Offered(pq, tracer, n, m, i + 1)
  {
    SmoothTimes(m, MULTIPLIERS[i]);
  }

  /** After all three multipliers the invariant holds for n + 1 pops. */
  lemma {:induction false} OfferDone(pq: multiset<nat>, tracer: set<nat>, n: nat, m: nat)
    requires Offered(pq, tracer, n, m, |MULTIPLIERS|) && m == Smallest(n)
    ensures Frontier(pq, tracer, n + 1)
  {
    assert MULTIPLIERS[0] * m in tracer && MULTIPLIERS[1] * m in tracer && MULTIPLIERS[2] * m in tracer;
  }
}
