# Three-department flow shop: completion time and exhaustive search

This project models the scheduling routine in
`src/algorithm/pipeline_scheduling.py`. Four projects (甲, 乙, 丙, 丁) each pass
through three departments in a fixed order: design, then manufacturing, then
inspection. Every department handles the projects in the same order. The
routine has two parts:

- `calculate_completion_time(sequence, times)` fills three end-time lists, one
  per department, using the recurrence "a stage starts once the project's own
  previous stage is done and the previous project has left this department".
  It returns the inspection end of the last project, which is the makespan.
- `find_optimal_sequence()` evaluates every ordering produced by
  `itertools.permutations` on the project list `projects`. It keeps an ordering only
  when its makespan is strictly below the best seen so far.

The model has five modules:

- `Jobs` (`jobs.dfy`) holds the data. A project identifier is a string, and a
  duration row is a record of three `nat`s. The table is a map from
  identifier to row. The two exceptions the routine can raise become a
  `Failure` inside a `Result`:
  - `IndexError` comes from `sequence[0]` on an empty order.
  - `KeyError` names the first project the table lacks.
- `Completion` (`completion.dfy`) has two parts:
  - the recurrence as functions, `DesignEnd`, `ManufactureEnd` and
    `InspectEnd`, with `CompletionTime` as their specification, including
    the error cases;
  - the routine itself as the method `CalculateCompletionTime`. This method
    allocates three arrays and fills them in a loop, and it is proved equal
    to `CompletionTime`.
- `ScheduleLaws` (`schedule_laws.dfy`) holds facts about the end times:
  - the first project's ends;
  - design ends as prefix sums;
  - stage precedence within a project;
  - no overtaking within a department;
  - the makespan as the longest design→manufacture→inspection path;
  - lower bounds on the makespan;
  - monotonicity in the durations.
- `Orderings` (`permutations.dfy`) covers the enumeration.
  - `Permutations` lists the orderings of a sequence in the order
    `itertools.permutations` yields them: lexicographic in input positions.
  - Lemmas prove the list has n! entries, contains only rearrangements of the
    input, contains every rearrangement, starts with the input itself, and
    comes in (n-1)!-sized blocks, one per input position taken left to right.
    For four elements it is exactly the 24 orderings in the expected order.
- `OptimalSequence` (`optimal.dfy`) holds the search.
  - `FindOptimal` is the loop with its running best. `None` plays the part of
    the `float("inf")` start value.
  - It is proved to return the *first minimal* ordering in enumeration order.
    That ordering is a rearrangement of the projects, and no rearrangement
    finishes sooner.
  - `FindOptimal` takes the projects and the table as parameters.
    `FindOptimalSequence` applies it to the table at lines 70-75 and is proved
    to return 丁甲乙丙 with 84 days. Lemmas show that 84 is the unique
    minimum among the 24 orderings and that it sits at position 18.

The module description at lines 20-23 gives two candidate orders. It says
丁甲乙丙 takes 84 days, which the recurrence confirms. It says 丁乙甲丙 takes
90 days, but the recurrence at lines 49-62 gives 86:

| project | design end | manufacturing end | inspection end |
|---|---|---|---|
| 丁 | 8 | 18 | 33 |
| 乙 | 18 | 38 | 56 |
| 甲 | 31 | 53 | 76 |
| 丙 | 51 | 69 | 86 |

`CandidateOrders` proves 84 and 86. The wrong figure sits only in the
description text and does not change what the code computes or returns.

Ties are broken by enumeration position. `itertools.permutations` is
lexicographic in input *positions*, so the first minimal ordering is the one
whose position pattern comes first. This is not the same as ordering the
identifiers themselves. The model follows the code here, as it does for the
empty order (an `IndexError`, not a makespan of 0).

## Model

| member | source | states |
|---|---|---|
| Completion.FirstUnknown | src/algorithm/pipeline_scheduling.py:44-61 | the position where the first lookup `times[sequence[i]]` fails: no position exists iff every project of the order is in the table; otherwise the project there is missing and all earlier ones are present |
| Completion.CompletionTime | src/algorithm/pipeline_scheduling.py:35-65 | what evaluation yields: IndexError iff the order is empty; a makespan iff the order is non-empty and every project is in the table; a KeyError always names a project of the order that the table lacks and that follows only known projects |
| Completion.FailsAtFirstUnknown | src/algorithm/pipeline_scheduling.py:44-61 | when positions 0..i-1 are known and position i is not, evaluation raises KeyError for exactly that project, even if later projects are missing too |
| Completion.CalculateCompletionTime | src/algorithm/pipeline_scheduling.py:35-65 | the array-filling loop returns exactly `CompletionTime`; its invariant is that every filled array cell equals the recurrence's end time for that position and department |
| ScheduleLaws.FirstProjectEnds | src/algorithm/pipeline_scheduling.py:44-46 | the first project never waits: its ends are d, d+m, d+m+i of its own durations |
| ScheduleLaws.DesignEndIsPrefixSum | src/algorithm/pipeline_scheduling.py:49-51 | design end at position k is the sum of the design durations of positions 0..k |
| ScheduleLaws.StagePrecedence | src/algorithm/pipeline_scheduling.py:44-62 | within one project manufacturing ends at least its manufacture time after design ends, inspection at least its inspect time after manufacturing ends, so design end ≤ manufacture end ≤ inspect end |
| ScheduleLaws.FollowsPrevious | src/algorithm/pipeline_scheduling.py:49-62 | in every department a project ends at least its own duration after the previous project ends there |
| ScheduleLaws.NoOvertaking | src/algorithm/pipeline_scheduling.py:49-62 | for any earlier position i and later position j, in every department j ends at least its duration after i ends, so end times never decrease along the order |
| ScheduleLaws.ManufactureEndIsLongestPath | src/algorithm/pipeline_scheduling.py:53-57 | manufacturing end at k is the maximum over a ≤ k of (design durations 0..a + manufacture durations a..k): none is longer and one attains it |
| ScheduleLaws.InspectEndIsLongestPath | src/algorithm/pipeline_scheduling.py:59-62 | inspection end at k is the maximum over a ≤ b ≤ k of (design 0..a + manufacture a..b + inspect b..k): none is longer and one attains it |
| ScheduleLaws.MakespanLowerBounds | src/algorithm/pipeline_scheduling.py:60-65 | the returned makespan is at least all design work plus the last project's manufacture and inspection, at least the first design plus all manufacture plus the last inspection, and at least the first design and manufacture plus all inspection work |
| ScheduleLaws.EndsMonotone | src/algorithm/pipeline_scheduling.py:49-62 | with no duration shorter, no end time at any position in any department is earlier |
| ScheduleLaws.MakespanMonotone | src/algorithm/pipeline_scheduling.py:35-65 | lengthening durations never shortens the makespan and never turns a successful evaluation into a failure |
| Orderings.PermutationsCount | src/algorithm/pipeline_scheduling.py:79 | the enumeration of n elements has n! entries |
| Orderings.PermutationsSound | src/algorithm/pipeline_scheduling.py:79 | every enumerated ordering is a rearrangement of the input (same multiset) |
| Orderings.PermutationsComplete | src/algorithm/pipeline_scheduling.py:79 | every rearrangement of the input is enumerated |
| Orderings.PermutationsStartWithInput | src/algorithm/pipeline_scheduling.py:79 | the enumeration is non-empty and its first entry is the input order itself |
| Orderings.PermutationsInBlocks | src/algorithm/pipeline_scheduling.py:79 | for any n, the listing comes in n blocks of (n-1)! entries taken in input-position order: every entry m with b·(n-1)! ≤ m < (b+1)·(n-1)! starts with the input's element at position b |
| Orderings.PermutationsOfFour | src/algorithm/pipeline_scheduling.py:79 | for four elements the enumeration is the 24 orderings in itertools order, six blocks per first element taken left to right |
| OptimalSequence.FirstMinimalIsUnique | src/algorithm/pipeline_scheduling.py:85-89 | at most one (ordering, makespan) pair is the first minimal one of a list, so the strict-less search result is determined |
| OptimalSequence.SameProjectsSameOutcome | src/algorithm/pipeline_scheduling.py:85-86 | if an order evaluates successfully then so does every rearrangement of it |
| OptimalSequence.EveryOrderingEvaluates | src/algorithm/pipeline_scheduling.py:79-86 | when the project list evaluates, every enumerated ordering evaluates too, so only the first evaluation can raise |
| OptimalSequence.FirstMinimalBeatsEveryOrder | src/algorithm/pipeline_scheduling.py:79-91 | the first minimal ordering of the enumeration is a rearrangement of the projects, and every rearrangement evaluates to a makespan no smaller than it |
| OptimalSequence.FindOptimal | src/algorithm/pipeline_scheduling.py:79-91 | the loop with the strict-less update fails iff evaluating the project list fails, with the same error; otherwise it returns the first minimal ordering in enumeration order and its makespan, which is a rearrangement of the projects and no rearrangement beats it |
| OptimalSequence.CandidateOrders | src/algorithm/pipeline_scheduling.py:20-23 | on the table, 丁甲乙丙 takes 84 days and 丁乙甲丙 takes 86 days (the description says 90) |
| OptimalSequence.ReferenceOrdersListed | src/algorithm/pipeline_scheduling.py:78-79 | the enumeration of 甲乙丙丁 is the 24-entry list the model evaluates |
| OptimalSequence.ReferenceMakespanAt | src/algorithm/pipeline_scheduling.py:85-86 | every one of the 24 orderings evaluates successfully; position 18 takes 84 days and every other position more (each position is settled by its own lemma ReferenceMakespan00 … ReferenceMakespan23) |
| OptimalSequence.ReferenceOrdersFirstMinimal | src/algorithm/pipeline_scheduling.py:82-91 | position 18 is 丁甲乙丙 and is the first minimal ordering of the 24, with 84 days |
| OptimalSequence.ReferenceOptimum | src/algorithm/pipeline_scheduling.py:68-91 | any first minimal result over the enumeration of the table's projects is (丁甲乙丙, 84) |
| OptimalSequence.FindOptimalSequence | src/algorithm/pipeline_scheduling.py:68-91 | the search on the table returns the order 丁甲乙丙 with 84 days |

## Left out

- `main()` and its `print` calls (lines 94-101) only format output.
- Sequences are tuples in the source and `seq`s here. The result pair
  `(optimal_sequence, min_time)` is the datatype `Best`.
- The `float("inf")` start value is modelled as "no best yet" (`None`). It is
  not modelled as a number.
- Durations are `nat`. The table at lines 70-75 holds only non-negative
  integers. Negative or non-integer durations, which Python would accept,
  are not modelled.
- The inner duration dictionaries always carry the keys `design`,
  `manufacture` and `inspect`. A row missing one of them, which would raise
  KeyError on the inner lookup, is not modelled.
- `Completion.Row` gives a zero row for a project not in the table. The
  recurrence functions, `ScheduleLaws.StageSum` and the contracts of the
  `ScheduleLaws` lemmas read it. For an order holding a missing project those
  lemmas describe this zero-row extension, which the routine never reaches: it
  raises KeyError at line 44 or 51 first. Every law about a returned makespan
  (`MakespanLowerBounds`, `MakespanMonotone`) requires a successful evaluation,
  and `CompletionTime` never reports an end time for such an order.
- Only three departments are modelled, because the routine hard-codes three.
  A general number of stages is not modelled.
- A separate check that an order is a permutation of the table's projects is
  not modelled, because the routine has none. A duplicated project is
  evaluated as given.
- Pruned (branch-and-bound) search, the two-stage sorting rule and parallel
  search are not modelled, because the routine has none of them.
- The MILP formulation in `algorithm/pipeline_scheduling.1.py` and the other
  solver, simulation and download scripts of the repository are not part of
  this model.
