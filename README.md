# Hamming calculator, modelled in Dafny

`hamming_calculator.cpp` computes Hamming numbers, the positive integers of the
form 2^p · 3^q · 5^r, in ascending order. It does this in two parts.

- **`HammingNumber`** holds an exponent triple (p, q, r). It has these operations:
  - a default constructor, which gives 1;
  - `operator*`, which bumps one exponent for the factors 2, 3 and 5;
  - `operator==`, which compares the triples;
  - `operator<`, which orders numbers by magnitude.
- **`HammingCalculator`** stores a target position and writes its answers into
  two public fields. It has three solvers:
  - **`Solve_Naive`** uses a min-priority queue of plain integers, plus a tracer
    set of every integer ever queued;
  - **`Solve_Neat_Hamming`** is the classic three-pointer merge over a growing
    vector;
  - **`Solve_Neater_Hamming`** is the same merge over a deque. The deque drops its
    front once every pointer has moved past it.

The model has five modules.

- `HammingNumbers` (`hamming_number.dfy`)
  - `HammingNumber` is a datatype of three naturals.
  - `Value` gives the exact magnitude 2^p · 3^q · 5^r.
  - `Mul`, `Equal`, `Less` and `Min` model the operators and `std::min`.
  - The lemmas prove:
    - unique factorisation;
    - that `operator<` is a strict total order consistent with `operator==`;
    - the effect of `operator*`.
- `SmoothNumbers` (`smooth_numbers.dfy`) is an independent reference, written
  without exponent triples.
  - `Smooth` recognises 5-smooth numbers by trial division.
  - `Smallest(k)` is the k-th of them in ascending order, found by searching
    upward.
  - `Nth(n)` is the number a solver reports for target `n`.
- `Merge` (`merge.dfy`) covers the loop of the two merge solvers.
  - `MergeState` holds the loop's variables.
  - `Step` is one pass of the loop body.
  - `Run(k)` is the state after k passes.
  - `Valid` is the invariant every pass keeps. Every pointer tracks its factor, and
    the vector lists `Smallest(0)`, `Smallest(1)`, … from index 1 on.
- `NaiveQueue` (`naive_queue.dfy`) covers the state of `Solve_Naive`.
  - The priority queue is a `multiset<nat>` and the tracer is a `set<nat>`.
  - `Frontier` is the loop invariant after n pops.
  - The lemmas show that `top()` is always the next Hamming number.
- `Calculator` (`calculator.dfy`) holds the class `HammingCalculator`.
  - It has the constructor and the three solvers as methods with loops. Each
    method is proved against the reference.
  - `SolveWithAll` is the first problem of `main`: one calculator runs all three
    solvers on the same target.

**Indexing.** The three candidates start at 1 on top of the seeded `res[0] = 1`,
so the first pass pushes a second 1. The vector is therefore `[1, 1, 2, 3, 4, 5, 6, 8, …]`.
`res[N]` is the N-th Hamming number counting from 1, and targets 0 and 1 both give 1.
`Solve_Naive` pops exactly `N` times and agrees with this. The model defines
`Nth(0) == 1` and `Nth(n) == Smallest(n - 1)` for `n >= 1`. `SmoothNumbers.TargetExamples`
pins this down: target 1 gives 1, target 7 gives 8 and target 10 gives 12.

**Comments in the source and what the code does.** Where they differ, the model follows the code.

| source | comment says | code does (modelled) |
|---|---|---|
| hamming_calculator.cpp:30-38 | `operator*` "works only with the factor of 2,3 and 5" | any other factor is accepted, and the argument comes back unchanged (`HammingNumbers.Mul`) |
| hamming_calculator.cpp:81-86 | `Solve_Naive` will "refuse to solve" targets "larger than 1500" | the bound is `naiveLimit`, 10000 (line 67). A larger target only prints a message and returns, and both result fields keep their values (`Calculator.HammingCalculator.SolveNaive`) |
| hamming_calculator.cpp:139-149 | the candidates are "multipliers of 2,3 and 5" | the candidates start out as 1, the same as the seeded `res[0]` (lines 140, 143). So the first pass pushes 1 a second time, and `res` holds 1 twice (`Merge.RunStartsWithTwoOnes`) |
| hamming_calculator.cpp:217-218 | the first problem asks for the "1500 th" number | with the repeated 1, `res[1500]` is the 1500th Hamming number counting from 1. `Solve_Naive` pops 1500 times and agrees (`Calculator.SolveWithAll`) |

## Model

| member | source | states |
|---|---|---|
| HammingNumbers.One | hamming_calculator.cpp:23 | The default constructor's all-zero triple stands for 1. |
| HammingNumbers.ValueIsProduct | hamming_calculator.cpp:50-55 | The magnitude of a triple is 2^p · 3^q · 5^r, the product `operator<<` materialises. |
| HammingNumbers.Mul | hamming_calculator.cpp:32-38 | For a factor of 2, 3 or 5 the magnitude is multiplied by that factor. For any other factor the argument comes back unchanged. |
| HammingNumbers.MulBumpsOneExponent | hamming_calculator.cpp:32-38 | Multiplying by 2, 3 or 5 raises exactly p, q or r by one and leaves the other two exponents alone. Any other factor changes nothing. |
| HammingNumbers.Equal | hamming_calculator.cpp:46-48 | `operator==` holds exactly when the two triples are identical. |
| HammingNumbers.Less | hamming_calculator.cpp:41-43 | `operator<` orders by magnitude. The source compares the `log()` doubles; the model compares the exact magnitudes. A number is never below an equal one, and when neither is below the other, the magnitudes are equal. |
| HammingNumbers.ValueInjective | hamming_calculator.cpp:41-48 | Unique factorisation: two triples with the same magnitude are the same triple. So ordering by magnitude never ties two triples that `operator==` tells apart. |
| HammingNumbers.EqualIffSameValue | hamming_calculator.cpp:41-48 | `operator==` holds if and only if the magnitudes are equal. |
| HammingNumbers.LessIsStrictTotalOrder | hamming_calculator.cpp:41-43 | `operator<` is irreflexive, asymmetric and transitive. Of two distinct triples, one is below the other. |
| HammingNumbers.LessThanMultiple | hamming_calculator.cpp:32-43 | x < x * k for every k in {2, 3, 5}. |
| HammingNumbers.MulMonotone | hamming_calculator.cpp:32-43 | Multiplying two numbers by the same factor preserves and reflects both `<` and `<=`. |
| HammingNumbers.Min | hamming_calculator.cpp:147 | `std::min` returns one of its two arguments, and neither argument is below it. |
| Calculator.MinNat | hamming_calculator.cpp:194 | `std::min` over the pointers returns one of its two arguments and is no larger than either. |
| SmoothNumbers.ValueIsSmooth | hamming_calculator.cpp:12-15 | Every exponent triple denotes a 5-smooth number. |
| SmoothNumbers.SmoothHasExponents | hamming_calculator.cpp:12-15 | Every 5-smooth number is the magnitude of some exponent triple. |
| SmoothNumbers.SmallestIncreasing | hamming_calculator.cpp:99-104 | The reference enumeration is strictly increasing, so the values the solvers pop or push one after another strictly increase. |
| SmoothNumbers.SmallestComplete | hamming_calculator.cpp:145-148 | The reference enumeration misses no smooth number up to any of its elements. |
| SmoothNumbers.FirstTen | hamming_calculator.cpp:143-153 | The enumeration starts 1, 2, 3, 4, 5, 6, 8, 9, 10, 12. |
| SmoothNumbers.TargetExamples | hamming_calculator.cpp:140-156 | Target 0 gives 1, and target n from 1 to 10 gives the n-th of 1, 2, 3, 4, 5, 6, 8, 9, 10, 12. So target 1 gives 1, target 7 gives 8 and target 10 gives 12. |
| Calculator.HammingCalculator.constructor | hamming_calculator.cpp:74 | The constructor stores the target and starts both results at 1. |
| Calculator.HammingCalculator.SolveNaive | hamming_calculator.cpp:79-123 | A target above `naiveLimit` (10000) leaves `resultInt` unchanged. Target 0 pops nothing and also leaves it unchanged. Otherwise `resultInt` ends as the target-th Hamming number. The method never touches `resultHamming`. |
| Calculator.HammingCalculator.PopAndOffer | hamming_calculator.cpp:100-116 | After n pops, `top()` and `pop()` give the next Hamming number, and offering its multiples keeps the invariant for n + 1 pops. The tracer gains exactly 2m, 3m and 5m. |
| Calculator.HammingCalculator.OfferMultiples | hamming_calculator.cpp:106-115 | Offering 2m, 3m and 5m, each only when the tracer has not seen it, extends the n-pop invariant to n + 1 pops. The new tracer is exactly the old one plus 2m, 3m and 5m, and by the invariant the queue then holds exactly the tracer's elements above m, each once. |
| NaiveQueue.Top | hamming_calculator.cpp:102 | `top()` of a non-empty queue is an element no larger than any other. |
| NaiveQueue.InitialFrontier | hamming_calculator.cpp:89-97 | A queue and tracer holding just 1 satisfy the loop invariant for zero pops. |
| NaiveQueue.NextIsMultiple | hamming_calculator.cpp:106-115 | Each Hamming number after the first is 2, 3 or 5 times an earlier one. So offering the multiples of every popped value reaches them all. |
| NaiveQueue.NextIsQueued | hamming_calculator.cpp:99-102 | After n pops the next Hamming number is in the queue. |
| NaiveQueue.QueueNotBelowNext | hamming_calculator.cpp:99-102 | After n pops nothing in the queue is below the next Hamming number. |
| NaiveQueue.TopIsNext | hamming_calculator.cpp:102 | The queue is non-empty whenever `top()` is called, and `top()` is the next Hamming number. |
| NaiveQueue.PopKeeps | hamming_calculator.cpp:103 | After popping the next Hamming number, the queue holds exactly the tracer's elements above it, each once. |
| NaiveQueue.PopNext | hamming_calculator.cpp:102-103 | `top()` then `pop()` yields the next Hamming number and leaves the invariant of a pass about to offer its multiples. |
| NaiveQueue.OfferKeeps | hamming_calculator.cpp:108-114 | The candidate lies beyond the popped value. It is pushed and recorded when the tracer has not seen it and skipped otherwise, and either way the queue keeps no duplicates. |
| NaiveQueue.OfferDone | hamming_calculator.cpp:106-115 | After all three multipliers, the queue and tracer satisfy the invariant for one more pop. |
| Merge.Step | hamming_calculator.cpp:145-153 | One pass of the loop grows the vector by one element (`RunKeeps` shows the earlier entries stay), keeps every pointer inside the vector and moves each pointer by at most one. |
| Merge.Init | hamming_calculator.cpp:135-143 | Before the loop the vector holds the single entry 1, every pointer is 0 and indexes it, and all three candidates are 1. |
| Merge.Advance | hamming_calculator.cpp:151-153 | `if (next == nextK) nextK = res[++ptr] * K`: when next equals the candidate, the pointer moves on by one and the new candidate's magnitude is K times the entry it now points at. Otherwise the pointer and the candidate stay as they were. |
| Calculator.AdvancePointer | hamming_calculator.cpp:151-153 | The three `if`s of `Solve_Neat_Hamming`, run one pointer at a time, move the pointer by at most one and do exactly what `Advance` specifies. |
| Calculator.AdvanceInWindow | hamming_calculator.cpp:190-192 | The same update on the deque, indexed by `ptr - offset`, moves the pointer by at most one and gives the same pointer and candidate as `Advance` on the full vector. |
| Merge.Run | hamming_calculator.cpp:140-156 | After k passes the vector holds k + 1 entries and the pointers index it. |
| Merge.RunFromSucc | hamming_calculator.cpp:145-153 | Running k + 1 passes equals running k passes and then one more. |
| Merge.RunSucc | hamming_calculator.cpp:145-153 | The state after k + 1 passes is one pass after the state after k. |
| Merge.EnumeratesComplete | hamming_calculator.cpp:143-153 | Every Hamming number up to the last element of the vector occurs in it. |
| Merge.EnumeratesOrder | hamming_calculator.cpp:143-153 | From index 1 on, the vector strictly increases in magnitude. |
| Merge.CandidatesCoverAbove | hamming_calculator.cpp:145 | Every smooth number beyond the last element is at least one of the three candidates. |
| Merge.NextOfLast | hamming_calculator.cpp:145-147 | The smooth number after the vector's last element is the next Hamming number. |
| Merge.NextAfterLast | hamming_calculator.cpp:145 | A smooth number beyond the last element and no larger than any candidate is the next smooth number. |
| Merge.SmallestCandidateIsNext | hamming_calculator.cpp:145-147 | Once the invariant holds, `std::min` of the three candidates is the next Hamming number. |
| Merge.AdvanceTracks | hamming_calculator.cpp:151-153 | After `if (next == nextK) nextK = res[++ptr] * K`, the pointer still tracks its factor. Its candidate is `res[ptr] * K` and lies beyond the last element, and the previous multiple has already been emitted. |
| Merge.AppendValid | hamming_calculator.cpp:147-153 | Appending the next Hamming number and advancing all three pointers keeps the merge invariant. |
| Merge.FirstStepValid | hamming_calculator.cpp:140-153 | The first pass turns `[1]` into `[1, 1]`, with every pointer at index 1 and the candidates 2, 3 and 5. |
| Merge.StepValid | hamming_calculator.cpp:145-153 | Every pass keeps the merge invariant. |
| Merge.RunValid | hamming_calculator.cpp:140-156 | Every state the loop reaches satisfies the merge invariant. |
| Merge.RunStartsWithTwoOnes | hamming_calculator.cpp:140-148 | After the first pass, `res[0]` and `res[1]` are both 1. |
| Merge.RunAt | hamming_calculator.cpp:155-156 | Entry i of the vector is the i-th Hamming number counting from 1, so `res[N]` is the answer for target N. |
| Merge.RunKeeps | hamming_calculator.cpp:147 | A pass keeps every element already pushed. |
| Merge.RunStable | hamming_calculator.cpp:147 | Once pushed, entry i never changes in later passes. |
| Merge.RunIncreasing | hamming_calculator.cpp:143-153 | From index 1 on, the vector is strictly increasing under `operator<`. |
| Merge.RunNoDuplicates | hamming_calculator.cpp:151-153 | From index 1 on, two entries are equal only at the same index. Ties advance every matching pointer, so no value is pushed twice. |
| Merge.RunPointers | hamming_calculator.cpp:151-153 | After the first pass, 1 <= p, q, r < \|res\| and each candidate is its pointer's element times the factor. |
| Merge.PassIsStep | hamming_calculator.cpp:145-153 | A pass as the solvers run it takes the state after k passes to the state after k + 1: push the smallest candidate, then update each pointer by its own test. |
| Calculator.HammingCalculator.SolveNeatHamming | hamming_calculator.cpp:127-160 | `resultHamming` ends as entry N of the merged vector after N passes, and its magnitude is the N-th Hamming number. `resultInt` is untouched. |
| Calculator.MinAdvances | hamming_calculator.cpp:190-201 | When each pointer moves forward by at most one, min(p, q, r) grows by at most one. So a single `pop_front` per pass keeps `offset == min(p, q, r)`. |
| Calculator.WindowWhole | hamming_calculator.cpp:182 | Before any eviction the deque is the whole vector. |
| Calculator.WindowAppend | hamming_calculator.cpp:188 | `push_back` on the deque matches `push_back` on the full vector. |
| Calculator.WindowIndex | hamming_calculator.cpp:190-192 | For a logical index at or beyond `offset`, position `idx - offset` of the deque holds entry `idx` of the full vector. |
| Calculator.WindowDrop | hamming_calculator.cpp:198-201 | `pop_front` with `offset++` keeps the deque equal to the suffix of the full vector from `offset` on. |
| Calculator.HammingCalculator.SolveNeaterHamming | hamming_calculator.cpp:165-208 | The windowed solver produces the same `resultHamming` as `SolveNeatHamming`, entry N of the merged vector, whose magnitude is the N-th Hamming number. `resultInt` is untouched. |
| Calculator.SolveWithAll | hamming_calculator.cpp:218-221 | After all three solvers run on one target, `resultHamming` is the target-th Hamming number. For a target the naive solver accepts, `resultInt` equals its magnitude. |

## Left out

- `log()` and the `double` constants ln 2, ln 3 and ln 5 (lines 17-28) are floating point. `Less` compares the exact magnitudes, so a rounding mis-order for very large exponents is not modelled.
- Printing and timing are output only and are not modelled. This covers `operator<<`, every `cout` line, `high_resolution_clock` and `duration_cast`.
- The 64-bit width of `_intType` is not modelled: exponents, counters, queue entries and `resultInt` are unbounded naturals. Whether `naiveLimit` really keeps `candidate` (line 108) below 2^64 is a numeric fact about the 10000th Hamming number, not part of this model.
- The internals of `std::priority_queue`, `std::set`, `std::vector` and `std::deque` are modelled abstractly, as a `multiset`, a `set` and two `seq`s. The same goes for `res.reserve`. The window's memory bound is a performance claim and is not stated.
- Calculator.HammingCalculator.SolveNaive: the loop body (lines 100-116) is the separate method `PopAndOffer`, and the for loop over `_multipliers` (lines 106-115) inside it is `OfferMultiples`. Both return the new queue and tracer instead of updating them in place.
- Calculator.SolveWithAll: only the first problem of `main` (lines 218-221) is modelled. `new`, `delete` and the other two hard-coded targets are not.
- In `Solve_Neater_Hamming` the loop bound `size_t(_targetNumber) - offset + 1` is unsigned arithmetic. The model computes it on integers. The loop invariants `offset < |full|` and `|full| <= targetNumber + 1` give `offset <= targetNumber`, so the subtraction never wraps.
