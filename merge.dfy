/** The three-pointer merge that Solve_Neat_Hamming and Solve_Neater_Hamming
    share: the variables of their loop, one pass of it, the invariant every pass
    keeps and the state after k passes. */
module Merge {
  import opened HammingNumbers
  import opened SmoothNumbers

  /** The merge's variables: the vector built so far, the three pointers into it
      and the three candidates next2, next3, next5. */
  datatype MergeState = MergeState(res: seq<HammingNumber>, p: nat, q: nat, r: nat,
                                   next2: HammingNumber, next3: HammingNumber, next5: HammingNumber)

  /** Before the loop: res = [1], every pointer 0 and every candidate 1. */
  function Init(): (s: MergeState)
    ensures InBounds(s) && |s.res| == 1 && Value(s.res[0]) == 1
    ensures Value(s.next2) == 1 && Value(s.next3) == 1 && Value(s.next5) == 1
  {
    MergeState([One()], 0, 0, 0, One(), One(), One())
  }

  /** The pointers index the vector. */
  predicate InBounds(s: MergeState)
  {
    s.p < |s.res| && s.q < |s.res| && s.r < |s.res|
  }

  /** `if (next == nextK) nextK = res[++ptr] * K;`, run on the vector that
      already ends in next. */
  function Advance(res: seq<HammingNumber>, next: HammingNumber, ptr: nat, cand: HammingNumber, k: nat): (a: (nat, HammingNumber))
    requires ptr + 1 < |res| && (k == 2 || k == 3 || k == 5)
    ensures Equal(next, cand) ==> a.0 == ptr + 1 && Value(a.1) == Scale(k, Value(res[ptr + 1]))
    ensures !Equal(next, cand) ==> a.0 == ptr && a.1 == cand
  {
    if Equal(next, cand) then (ptr + 1, Mul(res[ptr + 1], k)) else (ptr, cand)
  }

  /** One pass of the loop: append the smallest candidate, then advance every
      pointer whose candidate it was, each by its own test. */
  function Step(s: MergeState): (t: MergeState)
    requires InBounds(s)
    ensures InBounds(t)
    ensures |t.res| == |s.res| + 1
    ensures s.p <= t.p <= s.p + 1 && s.q <= t.q <= s.q + 1 && s.r <= t.r <= s.r + 1
  {
    var next := Min(s.next2, Min(s.next3, s.next5));
    var res := s.res + [next];
    var a2 := Advance(res, next, s.p, s.next2, 2);
    var a3 := Advance(res, next, s.q, s.next3, 3);
    var a5 := Advance(res, next, s.r, s.next5, 5);
    MergeState(res, a2.0, a3.0, a5.0, a2.1, a3.1, a5.1)
  }

  /** From index 1 on, the vector lists the Hamming numbers in ascending order;
      index 0 holds the seeded 1 a second time. */
  ghost predicate Enumerates(res: seq<HammingNumber>)
  {
    && |res| >= 2
    && res[0] == One() && res[1] == One()
    && forall i :: 1 <= i < |res| ==> Value(res[i]) == Smallest(i - 1)
  }

  /** Pointer ptr with candidate cand for factor k: cand is res[ptr] * k, the
      previous multiple res[ptr - 1] * k (when ptr > 1) has been emitted already,
      and cand itself lies beyond the last element. */
  ghost predicate Tracks(res: seq<HammingNumber>, ptr: nat, cand: HammingNumber, k: nat)
  {
    && 1 <= ptr < |res|
    && cand == Mul(res[ptr], k)
    && (ptr > 1 ==> Value(Mul(res[ptr - 1], k)) <= Value(res[|res| - 1]))
    && Value(res[|res| - 1]) < Value(cand)
  }

  /** The merge invariant: the initial state, or (after the first pass) an
      enumerating vector with the three pointers tracking their factors. */
  ghost predicate Valid(s: MergeState)
  {
    if |s.res| < 2 then s == Init()
    else
      && Enumerates(s.res)
      && Tracks(s.res, s.p, s.next2, 2)
      && Tracks(s.res, s.q, s.next3, 3)
      && Tracks(s.res, s.r, s.next5, 5)
  }

  /** Every Hamming number up to the last element of an enumerating vector
      occurs in it. */
  lemma {:induction false} EnumeratesComplete(res: seq<HammingNumber>, g: nat) returns (i: nat)
    requires Enumerates(res)
    requires Smooth(g) && g <= Value(res[|res| - 1])
    ensures 1 <= i < |res| && Value(res[i]) == g
  {
    SmallestComplete(|res| - 2, g);
    var j :| 0 <= j <= |res| - 2 && Smallest(j) == g;
    i := j + 1;
  }

  /** An enumerating vector is strictly increasing in magnitude from index 1 on. */
  lemma {:induction false} EnumeratesOrder(res: seq<HammingNumber>, i: nat, j: nat)
    requires Enumerates(res)
    requires 1 <= i < |res| && 1 <= j < |res|
    ensures i <= j ==> Value(res[i]) <= Value(res[j])
    ensures i < j ==> Value(res[i]) < Value(res[j])
  {
    if i < j {
      SmallestIncreasing(i - 1, j - 1);
    }
  }

  /** A smooth number y = k * g beyond the last element has its cofactor g at
      or after the pointer that tracks factor k: every earlier cofactor has
      already been multiplied out. */
  lemma {:induction false} CofactorNotBehind(res: seq<HammingNumber>, ptr: nat, cand: HammingNumber, k: nat, i: nat, y: nat)
    requires Enumerates(res) && Tracks(res, ptr, cand, k)
    requires k == 2 || k == 3 || k == 5
    requires 1 <= i < |res| && Scale(k, Value(res[i])) == y && Value(res[|res| - 1]) < y
    ensures ptr <= i
  {
    if ptr > 1 {
      EnumeratesOrder(res, i, ptr - 1);
      ScaleMonotone(k, Value(res[i]), Value(res[ptr - 1]));
    }
  }

  /** A smooth number k * g beyond the last element, with g among the elements,
      is no smaller than the candidate for factor k. */
  lemma {:induction false} CandidateBoundWithin(res: seq<HammingNumber>, ptr: nat, cand: HammingNumber, k: nat, g: nat, y: nat)
    requires Enumerates(res) && Tracks(res, ptr, cand, k)
    requires k == 2 || k == 3 || k == 5
    requires Smooth(g) && g <= Value(res[|res| - 1])
    requires Scale(k, g) == y && Value(res[|res| - 1]) < y
    ensures Value(cand) <= y
  {
    var i := EnumeratesComplete(res, g);
    CofactorNotBehind(res, ptr, cand, k, i, y);
    EnumeratesOrder(res, ptr, i);
    ScaleMonotone(k, Value(res[ptr]), g);
  }

  /** A smooth number k * g with g beyond the last element is larger than the
      candidate for factor k. */
  lemma {:induction false} CandidateBoundBeyond(res: seq<HammingNumber>, ptr: nat, cand: HammingNumber, k: nat, g: nat, y: nat)
    requires Enumerates(res) && Tracks(res, ptr, cand, k)
    requires k == 2 || k == 3 || k == 5
    requires Value(res[|res| - 1]) < g && Scale(k, g) == y
    ensures Value(cand) < y
  {
    EnumeratesOrder(res, ptr, |res| - 1);
    ScaleMonotone(k, Value(res[ptr]), g);
  }

  /** A smooth number k * g beyond the last element is no smaller than the
      candidate of the pointer that tracks factor k. */
  lemma {:induction false} CandidateBound(res: seq<HammingNumber>, ptr: nat, cand: HammingNumber, k: nat, g: nat, y: nat)
    requires Enumerates(res) && Tracks(res, ptr, cand, k)
    requires k == 2 || k == 3 || k == 5
    requires Smooth(g) && Scale(k, g) == y && Value(res[|res| - 1]) < y
    ensures Value(cand) <= y
  {
    if g <= Value(res[|res| - 1]) {
      CandidateBoundWithin(res, ptr, cand, k, g, y);
    } else {
      CandidateBoundBeyond(res, ptr, cand, k, g, y);
    }
  }

  /** CandidateBound for each of the three pointers of a merge state. */
  lemma {:induction false} CandidateBoundTwo(s: MergeState, g: nat, y: nat)
    requires Valid(s) && |s.res| >= 2
    requires Smooth(g) && Scale(2, g) == y && Value(s.res[|s.res| - 1]) < y
    ensures Value(s.next2) <= y
  {
    CandidateBound(s.res, s.p, s.next2, 2, g, y);
  }

  lemma {:induction false} CandidateBoundThree(s: MergeState, g: nat, y: nat)
    requires Valid(s) && |s.res| >= 2
    requires Smooth(g) && Scale(3, g) == y && Value(s.res[|s.res| - 1]) < y
    ensures Value(s.next3) <= y
  {
    CandidateBound(s.res, s.q, s.next3, 3, g, y);
  }

  lemma {:induction false} CandidateBoundFive(s: MergeState, g: nat, y: nat)
    requires Valid(s) && |s.res| >= 2
    requires Smooth(g) && Scale(5, g) == y && Value(s.res[|s.res| - 1]) < y
    ensures Value(s.next5) <= y
  {
    CandidateBound(s.res, s.r, s.next5, 5, g, y);
  }

  /** Every smooth number beyond the last element is at least one of the
      candidates. */
  lemma {:induction false} CandidatesCoverAbove(s: MergeState, y: nat)
    requires Valid(s) && |s.res| >= 2
    requires Value(s.res[|s.res| - 1]) < y
    ensures Smooth(y) ==> Value(s.next2) <= y || Value(s.next3) <= y || Value(s.next5) <= y
  {
    if Smooth(y) {
      var k, g := SmoothFactor(y);
      if k == 2 {
        CandidateBoundTwo(s, g, y);
      } else if k == 3 {
        CandidateBoundThree(s, g, y);
      } else {
        CandidateBoundFive(s, g, y);
      }
    }
  }

  /** The number after the last element of an enumerating vector is the
      next Hamming number. */
  lemma {:induction false} NextOfLast(res: seq<HammingNumber>)
    requires Enumerates(res)
    ensures Smooth(Value(res[|res| - 1]))
    ensures NextSmooth(Value(res[|res| - 1])) == Smallest(|res| - 1)
  {
    var k := |res| - 2;
    assert Value(res[k + 1]) == Smallest(k);
  }

  /** A smooth number beyond the last element and no larger than any
      candidate is the next smooth number after the last element. */
  lemma {:induction false} NextAfterLast(s: MergeState, w: nat)
    requires Valid(s) && |s.res| >= 2 && Smooth(Value(s.res[|s.res| - 1]))
    requires Smooth(w) && Value(s.res[|s.res| - 1]) < w
    requires w <= Value(s.next2) && w <= Value(s.next3) && w <= Value(s.next5)
    ensures w == NextSmooth(Value(s.res[|s.res| - 1]))
  {
    var last := Value(s.res[|s.res| - 1]);
    CandidatesCoverAbove(s, NextSmooth(last));
    NextSmoothGap(last, w);
  }

  /** In a steady state the smallest candidate is the next Hamming number. */
  lemma {:induction false} SmallestCandidateIsNext(s: MergeState)
    requires Valid(s) && |s.res| >= 2
    ensures Value(Min(s.next2, Min(s.next3, s.next5))) == Smallest(|s.res| - 1)
  {
    var next := Min(s.next2, Min(s.next3, s.next5));
    ValueIsSmooth(next);
    NextOfLast(s.res);
    NextAfterLast(s, Value(next));
  }

  /** Appending the next Hamming number keeps the vector enumerating. */
  lemma {:induction false} EnumeratesAppend(res: seq<HammingNumber>, next: HammingNumber)
    requires Enumerates(res)
    requires Value(next) == Smallest(|res| - 1)
    ensures Enumerates(res + [next])
  {
    var res' := res + [next];
    forall i | 1 <= i < |res'|
      ensures Value(res'[i]) == Smallest(i - 1)
    {
      if i < |res| {
        assert res'[i] == res[i];
      }
    }
  }

  /** A pointer whose candidate was not emitted keeps tracking. */
  lemma {:induction false} TracksKept(res: seq<HammingNumber>, next: HammingNumber, ptr: nat, cand: HammingNumber, k: nat)
    requires Tracks(res, ptr, cand, k)
    requires Value(res[|res| - 1]) <= Value(next) < Value(cand)
    ensures Tracks(res + [next], ptr, cand, k)
  {
    var res' := res + [next];
    assert res'[ptr] == res[ptr] && res'[ptr - 1] == res[ptr - 1];
  }

  /** A pointer whose candidate was emitted moves on by one and keeps tracking. */
  lemma {:induction false} TracksAdvanced(res: seq<HammingNumber>, ptr: nat, cand: HammingNumber, k: nat)
    requires Tracks(res, ptr, cand, k)
    requires k == 2 || k == 3 || k == 5
    requires Value(res[ptr]) < Value((res + [cand])[ptr + 1])
    ensures Tracks(res + [cand], ptr + 1, Mul((res + [cand])[ptr + 1], k), k)
  {
    var res' := res + [cand];
    assert res'[ptr] == res[ptr];
    MulMonotone(res[ptr], res'[ptr + 1], k);
  }

  /** After a pass, a pointer still tracks its factor. */
  lemma {:induction false} AdvanceTracks(res: seq<HammingNumber>, next: HammingNumber, ptr: nat, cand: HammingNumber, k: nat)
    returns (ptr': nat, cand': HammingNumber)
    requires Enumerates(res) && Tracks(res, ptr, cand, k)
    requires k == 2 || k == 3 || k == 5
    requires Value(next) == Smallest(|res| - 1) && Value(next) <= Value(cand)
    ensures (ptr', cand') == Advance(res + [next], next, ptr, cand, k)
    ensures Tracks(res + [next], ptr', cand', k)
  {
    var res' := res + [next];
    EnumeratesAppend(res, next);
    EnumeratesOrder(res', |res| - 1, |res|);
    assert res'[|res| - 1] == res[|res| - 1];
    if Equal(next, cand) {
      EnumeratesOrder(res', ptr, ptr + 1);
      assert res'[ptr] == res[ptr];
      TracksAdvanced(res, ptr, next, k);
      ptr', cand' := ptr + 1, Mul(res'[ptr + 1], k);
    } else {
      EqualIffSameValue(next, cand);
      TracksKept(res, next, ptr, cand, k);
      ptr', cand' := ptr, cand;
    }
  }

  /** The first pass turns [1] into [1, 1] with every pointer at index 1. */
  lemma {:induction false} FirstStepValid()
    ensures Valid(Step(Init()))
  {
    var t := Step(Init());
    assert t.res == [One(), One()];
    assert Value(t.res[1]) == Smallest(0);
  }

  /** AdvanceTracks for each of the three pointers of a merge state. */
  lemma {:induction false} AdvanceTracksTwo(s: MergeState, next: HammingNumber)
    requires Valid(s) && |s.res| >= 2
    requires Value(next) == Smallest(|s.res| - 1) && Value(next) <= Value(s.next2)
    ensures var a := Advance(s.res + [next], next, s.p, s.next2, 2);
            Tracks(s.res + [next], a.0, a.1, 2)
  {
    var _, _ := AdvanceTracks(s.res, next, s.p, s.next2, 2);
  }

  lemma {:induction false} AdvanceTracksThree(s: MergeState, next: HammingNumber)
    requires Valid(s) && |s.res| >= 2
    requires Value(next) == Smallest(|s.res| - 1) && Value(next) <= Value(s.next3)
    ensures var a := Advance(s.res + [next], next, s.q, s.next3, 3);
            Tracks(s.res + [next], a.0, a.1, 3)
  {
    var _, _ := AdvanceTracks(s.res, next, s.q, s.next3, 3);
  }

  lemma {:induction false} AdvanceTracksFive(s: MergeState, next: HammingNumber)
    requires Valid(s) && |s.res| >= 2
    requires Value(next) == Smallest(|s.res| - 1) && Value(next) <= Value(s.next5)
    ensures var a := Advance(s.res + [next], next, s.r, s.next5, 5);
            Tracks(s.res + [next], a.0, a.1, 5)
  {
    var _, _ := AdvanceTracks(s.res, next, s.r, s.next5, 5);
  }

  /** Appending the next Hamming number and advancing the three pointers from
      a steady state keeps the merge invariant. */
  lemma {:induction false} AppendValid(s: MergeState, next: HammingNumber)
    requires Valid(s) && |s.res| >= 2
    requires Value(next) == Smallest(|s.res| - 1)
    requires Value(next) <= Value(s.next2) && Value(next) <= Value(s.next3) && Value(next) <= Value(s.next5)
    ensures var res := s.res + [next];
            var a2 := Advance(res, next, s.p, s.next2, 2);
            var a3 := Advance(res, next, s.q, s.next3, 3);
            var a5 := Advance(res, next, s.r, s.next5, 5);
            Valid(MergeState(res, a2.0, a3.0, a5.0, a2.1, a3.1, a5.1))
  {
    EnumeratesAppend(s.res, next);
    AdvanceTracksTwo(s, next);
    AdvanceTracksThree(s, next);
    AdvanceTracksFive(s, next);
  }

  /** A pass from a steady state keeps the merge invariant. */
  lemma {:induction false} SteadyStepValid(s: MergeState)
    requires Valid(s) && |s.res| >= 2
    ensures Valid(Step(s))
  {
    SmallestCandidateIsNext(s);
    AppendValid(s, Min(s.next2, Min(s.next3, s.next5)));
  }

  /** Every pass keeps the merge invariant. */
  lemma {:induction false} StepValid(s: MergeState)
    requires Valid(s)
    ensures Valid(Step(s))
  {
    if |s.res| < 2 {
      FirstStepValid();
    } else {
      SteadyStepValid(s);
    }
  }

  /** The merge state after k further passes of the loop from s. */
  function RunFrom(s: MergeState, k: nat): (t: MergeState)
    requires InBounds(s)
    ensures InBounds(t) && |t.res| == |s.res| + k
    decreases k
  {
    if k == 0 then s else RunFrom(Step(s), k - 1)
  }

  /** The merge state after k passes of the loop. */
  function Run(k: nat): (s: MergeState)
    ensures InBounds(s) && |s.res| == k + 1
  {
    RunFrom(Init(), k)
  }

  /** Passes can be peeled off at the end as well as at the start. */
  lemma {:induction false} RunFromSucc(s: MergeState, k: nat)
    requires InBounds(s)
    ensures RunFrom(s, k + 1) == Step(RunFrom(s, k))
    decreases k
  {
    if k > 0 {
      RunFromSucc(Step(s), k - 1);
      RunFromPeel(s, k);
    }
  }

  /** Both sides of RunFromSucc start with the same pass. */
  lemma {:induction false} RunFromPeel(s: MergeState, k: nat)
    requires InBounds(s) && k > 0
    ensures RunFrom(s, k + 1) == RunFrom(Step(s), k) && RunFrom(s, k) == RunFrom(Step(s), k - 1)
  {
  }

  /** The state after k + 1 passes is one pass after the state after k. */
  lemma {:induction false} RunSucc(k: nat)
    ensures Run(k + 1) == Step(Run(k))
  {
    RunFromSucc(Init(), k);
  }

  /** The invariant carries over from k passes to k + 1. */
  lemma {:induction false} RunValidStep(k: nat)
    requires Valid(Run(k))
    ensures Valid(Run(k + 1))
  {
    var s := Run(k);
    StepValid(s);
    RunSucc(k);
  }

  /** Every state the loop reaches satisfies the merge invariant. */
  lemma {:induction false} RunValid(k: nat)
    ensures Valid(Run(k))
  {
    if k > 0 {
      RunValid(k - 1);
      RunValidStep(k - 1);
    }
  }

  /** The vector after k passes starts with the seeded 1 and the pushed 1. */
  lemma {:induction false} RunStartsWithTwoOnes(k: nat)
    requires k >= 1
    ensures Run(k).res[0] == One() && Run(k).res[1] == One()
    ensures Value(Run(k).res[0]) == 1 && Value(Run(k).res[1]) == 1
  {
    RunValid(k);
  }

  /** Entry i of the vector after k >= i passes is the number reported for
      target i: res[i] is the i-th Hamming number counting from 1. */
  lemma {:induction false} RunAt(k: nat, i: nat)
    requires i <= k
    ensures Value(Run(k).res[i]) == Nth(i)
  {
    RunValid(k);
  }

  /** A pass keeps every element already in the vector. */
  lemma {:induction false} RunKeeps(k: nat, i: nat)
    requires k > 0 && i < k
    ensures Run(k).res[i] == Run(k - 1).res[i]
  {
    RunSucc(k - 1);
    var prev := Run(k - 1).res;
    assert Run(k).res[..k] == prev;
    assert Run(k).res[..k][i] == prev[i];
  }

  /** Later passes only append: entry i is fixed once it has been pushed. */
  lemma {:induction false} RunStable(i: nat, j: nat, k: nat)
    requires i <= j <= k
    ensures Run(k).res[i] == Run(j).res[i]
    decreases k - j
  {
    if j < k {
      RunStable(i, j, k - 1);
      RunKeeps(k, i);
    }
  }

  /** From index 1 on, the vector is strictly increasing under operator<. */
  lemma {:induction false} RunIncreasing(k: nat, i: nat, j: nat)
    requires 1 <= i < j <= k
    ensures Less(Run(k).res[i], Run(k).res[j])
  {
    RunValid(k);
    EnumeratesOrder(Run(k).res, i, j);
  }

  /** No value is pushed twice after index 1: ties advance every matching
      pointer. */
  lemma {:induction false} RunNoDuplicates(k: nat, i: nat, j: nat)
    requires 1 <= i < |Run(k).res| && 1 <= j < |Run(k).res|
    ensures Run(k).res[i] == Run(k).res[j] <==> i == j
  {
    if i < j {
      RunIncreasing(k, i, j);
    } else if j < i {
      RunIncreasing(k, j, i);
    }
  }

  /** After the first pass each candidate is its pointer's element times the
      factor, and every pointer indexes the vector. */
  lemma {:induction false} RunPointers(k: nat)
    requires k >= 1
    ensures var s := Run(k);
            && 1 <= s.p < |s.res| && 1 <= s.q < |s.res| && 1 <= s.r < |s.res|
            && s.next2 == Mul(s.res[s.p], 2)
            && s.next3 == Mul(s.res[s.q], 3)
            && s.next5 == Mul(s.res[s.r], 5)
  {
    RunValid(k);
  }

  /** One pass of the loop body as the solvers execute it: push the smallest
      candidate, then update each pointer by its own test. Taken from the
      state after k passes, it gives the state after k + 1. */
  lemma {:induction false} PassIsStep(k: nat, s: MergeState, next: HammingNumber, res: seq<HammingNumber>,
                                      p: nat, q: nat, r: nat, n2: HammingNumber, n3: HammingNumber, n5: HammingNumber)
    requires s == Run(k)
    requires next == Min(s.next2, Min(s.next3, s.next5)) && res == s.res + [next]
    requires p == Advance(res, next, s.p, s.next2, 2).0 && n2 == Advance(res, next, s.p, s.next2, 2).1
    requires q == Advance(res, next, s.q, s.next3, 3).0 && n3 == Advance(res, next, s.q, s.next3, 3).1
    requires r == Advance(res, next, s.r, s.next5, 5).0 && n5 == Advance(res, next, s.r, s.next5, 5).1
    ensures MergeState(res, p, q, r, n2, n3, n5) == Run(k + 1)
  {
    RunSucc(k);
  }
}
