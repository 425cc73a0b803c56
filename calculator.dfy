/** The HammingCalculator class: a target position, fixed multipliers and the
    three solvers, each of which writes its answer into the public result
    fields. */
module Calculator {
  import opened HammingNumbers
  import opened SmoothNumbers
  import opened Merge
  import opened NaiveQueue

  /** std::min on naturals: b only when b < a. */
  function MinNat(a: nat, b: nat): (m: nat)
    ensures m == a || m == b
    ensures m <= a && m <= b
  {
    if b < a then b else a
  }

  /** When each pointer moves forward by at most one, so does their minimum. */
  lemma {:induction false} MinAdvances(p: nat, q: nat, r: nat, p': nat, q': nat, r': nat)
    requires p <= p' <= p + 1 && q <= q' <= q + 1 && r <= r' <= r + 1
    ensures MinNat(p, MinNat(q, r)) <= MinNat(p', MinNat(q', r')) <= MinNat(p, MinNat(q, r)) + 1
  {
  }

  /** The deque window holds the entries of the full vector from offset on. */
  ghost predicate Window(window: seq<HammingNumber>, full: seq<HammingNumber>, offset: nat)
  {
    && offset + |window| == |full|
    && forall i | 0 <= i < |window| :: window[i] == full[offset + i]
  }

  /** push_back on the deque matches push_back on the full vector. */
  lemma {:induction false} WindowAppend(window: seq<HammingNumber>, full: seq<HammingNumber>, offset: nat, next: HammingNumber)
    requires Window(window, full, offset)
    ensures Window(window + [next], full + [next], offset)
  {
  }

  /** Position i of the full vector sits at position i - offset of the deque. */
  lemma {:induction false} WindowIndex(window: seq<HammingNumber>, full: seq<HammingNumber>, offset: nat, i: nat)
    requires Window(window, full, offset) && offset <= i < |full|
    ensures window[i - offset] == full[i]
  {
  }

  /** pop_front moves the window on by one entry. */
  lemma {:induction false} WindowDrop(window: seq<HammingNumber>, full: seq<HammingNumber>, offset: nat)
    requires Window(window, full, offset) && |window| > 0
    ensures Window(window[1..], full, offset + 1)
  {
  }

  /** The window starting at 0 is the whole vector. */
  lemma {:induction false} WindowWhole(full: seq<HammingNumber>)
    ensures Window(full, full, 0)
  {
  }

  class HammingCalculator {
    const targetNumber: nat
    const multipliers: seq<nat> := MULTIPLIERS
    const naiveLimit: nat := 10000
    var resultHamming: HammingNumber
    var resultInt: nat

    /** Both results start out as 1. */
    constructor (t: nat)
      ensures targetNumber == t
      ensures resultHamming == One() && resultInt == 1
    {
      targetNumber := t;
      resultHamming := One();
      resultInt := 1;
    }

    /** Pops the priority queue targetNumber times, offering 2, 3 and 5 times
        each popped value unless the tracer has seen it; the last pop is the
        result. Targets above naiveLimit are refused without touching the
        result, and target 0 pops nothing. */
    method SolveNaive()
      modifies this
      ensures resultHamming == old(resultHamming)
      ensures targetNumber > naiveLimit || targetNumber == 0 ==> resultInt == old(resultInt)
      ensures 0 < targetNumber <= naiveLimit ==> resultInt == Nth(targetNumber)
    {
      if targetNumber > naiveLimit {
        return;
      }
      var pq: multiset<nat> := multiset{1};
      var tracer: set<nat> := {1};
      var cntr: nat := 0;
      InitialFrontier();
      while cntr < targetNumber
        invariant cntr <= targetNumber
        invariant Frontier(pq, tracer, cntr)
        invariant resultHamming == old(resultHamming)
        invariant cntr == 0 ==> resultInt == old(resultInt)
        invariant cntr > 0 ==> resultInt == Smallest(cntr - 1)
      {
        resultInt, pq, tracer := PopAndOffer(pq, tracer, cntr);
        cntr := cntr + 1;
      }
    }

    /** One pass of Solve_Naive's loop after n pops: top() and pop() give the
        next Hamming number m, whose multiples are then offered. */
    method PopAndOffer(pq: multiset<nat>, tracer: set<nat>, ghost n: nat)
      returns (m: nat, pq': multiset<nat>, tracer': set<nat>)
      requires Frontier(pq, tracer, n)
      ensures m == Smallest(n)
      ensures Frontier(pq', tracer', n + 1)
      ensures tracer' == tracer + {2 * m, 3 * m, 5 * m}
    {
      PopNext(pq, tracer, n);
      m := Top(pq);
      pq' := pq - multiset{m};
      pq', tracer' := OfferMultiples(pq', tracer, m, n);
    }

    /** The for loop over the multipliers after popping m == Smallest(n): each
        multiple of m the tracer has not seen is pushed and recorded, and the
        queue and tracer then describe the first n + 1 pops. */
    method OfferMultiples(pq: multiset<nat>, tracer: set<nat>, m: nat, ghost n: nat)
      returns (pq': multiset<nat>, tracer': set<nat>)
      requires Offered(pq, tracer, n, m, 0) && m == Smallest(n)
      ensures Frontier(pq', tracer', n + 1)
      ensures tracer' == tracer + {2 * m, 3 * m, 5 * m}
    {
      pq', tracer' := pq, tracer;
      for i := 0 to |multipliers|
        invariant Offered(pq', tracer', n, m, i)
        invariant i == 0 ==> tracer' == tracer
        invariant i == 1 ==> tracer' == tracer + {2 * m}
        invariant i == 2 ==> tracer' == tracer + {2 * m, 3 * m}
        invariant i == 3 ==> tracer' == tracer + {2 * m, 3 * m, 5 * m}
      {
        OfferKeeps(pq', tracer', n, m, i);
        var candidate := multipliers[i] * m;
        var isSeen := candidate in tracer';
        if !isSeen {
          pq' := pq' + multiset{candidate};
          tracer' := tracer' + {candidate};
        }
      }
      OfferDone(pq', tracer', n, m);
    }

    /** The three-pointer merge over a growing vector: it runs until the vector
        holds targetNumber + 1 entries and reports the last one. */
    method SolveNeatHamming()
      modifies this
      ensures resultHamming == Run(targetNumber).res[targetNumber]
      ensures Value(resultHamming) == Nth(targetNumber)
      ensures resultInt == old(resultInt)
    {
      var res: seq<HammingNumber> := [];
      var p: nat, q: nat, r: nat := 0, 0, 0;
      var next, next2, next3, next5 := One(), One(), One(), One();
      res := res + [One()];
      while |res| < targetNumber + 1
        invariant 1 <= |res| <= targetNumber + 1
        invariant MergeState(res, p, q, r, next2, next3, next5) == Run(|res| - 1)
        invariant resultInt == old(resultInt)
      {
        ghost var s := MergeState(res, p, q, r, next2, next3, next5);
        next := Min(next2, Min(next3, next5));
        res := res + [next];
        p, next2 := AdvancePointer(res, next, p, next2, 2);
        q, next3 := AdvancePointer(res, next, q, next3, 3);
        r, next5 := AdvancePointer(res, next, r, next5, 5);
        PassIsStep(|s.res| - 1, s, next, res, p, q, r, next2, next3, next5);
      }
      resultHamming := res[targetNumber];
      RunAt(targetNumber, targetNumber);
    }

    /** The same merge over a deque that drops its front whenever every pointer
        has moved past it, indexing by position minus offset, the number of
        entries dropped. */
    method SolveNeaterHamming()
      modifies this
      ensures resultHamming == Run(targetNumber).res[targetNumber]
      ensures Value(resultHamming) == Nth(targetNumber)
      ensures resultInt == old(resultInt)
    {
      var res: seq<HammingNumber> := [];
      var offset: nat := 0;
      var p: nat, q: nat, r: nat := 0, 0, 0;
      var next, next2, next3, next5 := One(), One(), One(), One();
      res := res + [One()];
      ghost var full := res;
      WindowWhole(full);
      while |res| < targetNumber - offset + 1
        invariant 1 <= |full| <= targetNumber + 1
        invariant MergeState(full, p, q, r, next2, next3, next5) == Run(|full| - 1)
        invariant offset == MinNat(p, MinNat(q, r))
        invariant offset < |full| && Window(res, full, offset)
        invariant resultInt == old(resultInt)
        decreases targetNumber + 1 - |full|
      {
        ghost var s := MergeState(full, p, q, r, next2, next3, next5);
        next := Min(next2, Min(next3, next5));
        WindowAppend(res, full, offset, next);
        res := res + [next];
        full := full + [next];
        p, next2 := AdvanceInWindow(res, full, offset, next, p, next2, 2);
        q, next3 := AdvanceInWindow(res, full, offset, next, q, next3, 3);
        r, next5 := AdvanceInWindow(res, full, offset, next, r, next5, 5);
        PassIsStep(|s.res| - 1, s, next, full, p, q, r, next2, next3, next5);
        MinAdvances(s.p, s.q, s.r, p, q, r);
        var min := MinNat(p, MinNat(q, r));
        if offset < min {
          WindowDrop(res, full, offset);
          res := res[1..];
          offset := offset + 1;
        }
      }
      WindowIndex(res, full, offset, targetNumber);
      resultHamming := res[targetNumber - offset];
      RunAt(targetNumber, targetNumber);
    }
  }

  /** `if (next == nextK) nextK = res[++ptr] * K;` on the vector that already
      ends in next. */
  method AdvancePointer(res: seq<HammingNumber>, next: HammingNumber, ptr: nat, cand: HammingNumber, k: nat)
    returns (ptr': nat, cand': HammingNumber)
    requires ptr + 1 < |res| && (k == 2 || k == 3 || k == 5)
    ensures ptr <= ptr' <= ptr + 1
    ensures ptr' == Advance(res, next, ptr, cand, k).0 && cand' == Advance(res, next, ptr, cand, k).1
  {
    ptr', cand' := ptr, cand;
    if Equal(next, cand) {
      ptr' := ptr + 1;
      cand' := Mul(res[ptr'], k);
    }
  }

  /** `if (next == nextK) nextK = res[++ptr - offset] * K;` on the deque: the
      logical index ptr + 1 sits at position ptr + 1 - offset, so this is the
      same pointer update as on the full vector. */
  method AdvanceInWindow(window: seq<HammingNumber>, ghost full: seq<HammingNumber>, offset: nat,
                         next: HammingNumber, ptr: nat, cand: HammingNumber, k: nat)
    returns (ptr': nat, cand': HammingNumber)
    requires Window(window, full, offset) && offset <= ptr && ptr + 1 < |full|
    requires k == 2 || k == 3 || k == 5
    ensures ptr <= ptr' <= ptr + 1
    ensures ptr' == Advance(full, next, ptr, cand, k).0 && cand' == Advance(full, next, ptr, cand, k).1
  {
    ptr', cand' := ptr, cand;
    if Equal(next, cand) {
      ptr' := ptr + 1;
      WindowIndex(window, full, offset, ptr');
      cand' := Mul(window[ptr' - offset], k);
    }
  }

  /** The first problem: one calculator runs all three solvers on the same
      target, and for a target the naive solver accepts they agree. */
  method SolveWithAll(t: nat) returns (c: HammingCalculator)
    ensures c.targetNumber == t
    ensures Value(c.resultHamming) == Nth(t)
    ensures t <= c.naiveLimit ==> c.resultInt == Value(c.resultHamming)
  {
    c := new HammingCalculator(t);
    c.SolveNaive();
    c.SolveNeatHamming();
    c.SolveNeaterHamming();
  }
}
