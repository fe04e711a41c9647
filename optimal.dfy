/**
 * The exhaustive search for the project order with the smallest makespan:
 * every ordering of the projects is evaluated in itertools.permutations
 * order, and an ordering replaces the best one seen so far only when its
 * makespan is strictly smaller.
 */
module OptimalSequence {
  import opened Jobs
  import opened Completion
  import opened Orderings

  /** The order the search settles on and its makespan. */
  datatype Best = Best(order: seq<Job>, makespan: nat)

  /**
   * Position `k` of `orders` evaluates to `t`, every listed order evaluates
   * to at least `t`, and every order listed before `k` to more than `t`.
   */
  predicate FirstMinimalAt(orders: seq<seq<Job>>, times: Times, k: nat, t: nat)
  {
    && k < |orders|
    && CompletionTime(orders[k], times) == Ok(t)
    && (forall j :: 0 <= j < |orders| ==>
          CompletionTime(orders[j], times).Ok? && t <= CompletionTime(orders[j], times).value)
    && (forall j :: 0 <= j < k ==> t < CompletionTime(orders[j], times).value)
  }

  /** `best` is the first order of `orders` with the smallest makespan. */
  ghost predicate IsFirstMinimal(orders: seq<seq<Job>>, times: Times, best: Best)
  {
    exists k: nat :: FirstMinimalAt(orders, times, k, best.makespan) && orders[k] == best.order
  }

  /** At most one result is the first minimal one, so the search result is determined. */
  lemma FirstMinimalIsUnique(orders: seq<seq<Job>>, times: Times, b1: Best, b2: Best)
    requires IsFirstMinimal(orders, times, b1) && IsFirstMinimal(orders, times, b2)
    ensures b1 == b2
  {
    var k1: nat :| FirstMinimalAt(orders, times, k1, b1.makespan) && orders[k1] == b1.order;
    var k2: nat :| FirstMinimalAt(orders, times, k2, b2.makespan) && orders[k2] == b2.order;
  }

  /**
   * Evaluation fails or succeeds alike for every rearrangement of the same
   * projects: what it depends on is the set of projects, not their order.
   */
  lemma SameProjectsSameOutcome(order: seq<Job>, p: seq<Job>, times: Times)
    requires IsPermutationOf(p, order) && CompletionTime(order, times).Ok?
    ensures CompletionTime(p, times).Ok?
  {
    assert |p| == |multiset(p)| == |multiset(order)| == |order|;
    forall j | 0 <= j < |p| ensures p[j] in times {
      assert p[j] in multiset(order);
      var m :| 0 <= m < |order| && order[m] == p[j];
    }
  }

  /** Once the projects themselves evaluate, so does each of their orderings. */
  lemma EveryOrderingEvaluates(projects: seq<Job>, times: Times, i: nat)
    requires i < |Permutations(projects)| && CompletionTime(projects, times).Ok?
    ensures CompletionTime(Permutations(projects)[i], times).Ok?
  {
    PermutationsSound(projects);
    SameProjectsSameOutcome(projects, Permutations(projects)[i], times);
  }

  /**
   * The first minimal ordering is a rearrangement of the projects, and no
   * rearrangement of them finishes sooner.
   */
  lemma FirstMinimalBeatsEveryOrder(projects: seq<Job>, times: Times, b: Best)
    requires IsFirstMinimal(Permutations(projects), times, b)
    ensures IsPermutationOf(b.order, projects)
    ensures forall p | IsPermutationOf(p, projects) ::
              CompletionTime(p, times).Ok? && b.makespan <= CompletionTime(p, times).value
  {
    var all := Permutations(projects);
    PermutationsSound(projects);
    forall p | IsPermutationOf(p, projects)
      ensures CompletionTime(p, times).Ok? && b.makespan <= CompletionTime(p, times).value
    {
      PermutationsComplete(projects, p);
      var j :| 0 <= j < |all| && all[j] == p;
    }
  }

  /**
   * Evaluates every ordering of `projects` and keeps the first one whose
   * makespan is strictly below the best so far; an evaluation failure ends
   * the search with that failure.
   */
  method FindOptimal(projects: seq<Job>, times: Times) returns (r: Result<Best>)
    ensures r.Err? <==> CompletionTime(projects, times).Err?
    ensures r.Err? ==> r.error == CompletionTime(projects, times).error
    ensures r.Ok? ==> IsFirstMinimal(Permutations(projects), times, r.value)
    ensures r.Ok? ==> IsPermutationOf(r.value.order, projects)
    ensures r.Ok? ==> forall p | IsPermutationOf(p, projects) ::
              CompletionTime(p, times).Ok? && r.value.makespan <= CompletionTime(p, times).value
  {
    var all := Permutations(projects);
    PermutationsStartWithInput(projects);

    var best: Option<Best> := None;
    ghost var bestIndex: nat := 0;
    for i := 0 to |all|
      invariant best.None? <==> i == 0
      invariant i > 0 ==> CompletionTime(projects, times).Ok?
      invariant best.Some? ==> bestIndex < i && all[bestIndex] == best.value.order
                               && CompletionTime(all[bestIndex], times) == Ok(best.value.makespan)
      invariant best.Some? ==> forall j :: 0 <= j < i ==>
                  CompletionTime(all[j], times).Ok? && best.value.makespan <= CompletionTime(all[j], times).value
      invariant best.Some? ==> forall j :: 0 <= j < bestIndex ==>
                  best.value.makespan < CompletionTime(all[j], times).value
    {
      var time := CalculateCompletionTime(all[i], times);
      if time.Err? {
        if i > 0 {
          EveryOrderingEvaluates(projects, times, i);
          assert false;
        }
        return Err(time.error);
      }
      if best.None? || time.value < best.value.makespan {
        best := Some(Best(all[i], time.value));
        bestIndex := i;
      }
    }
    r := Ok(best.value);
    assert FirstMinimalAt(all, times, bestIndex, best.value.makespan);
    FirstMinimalBeatsEveryOrder(projects, times, r.value);
  }

  /** Days per department for the four projects 甲, 乙, 丙 and 丁. */
  const ReferenceTimes: Times := map[
    "甲" := Durations(13, 15, 20),
    "乙" := Durations(10, 20, 18),
    "丙" := Durations(20, 16, 10),
    "丁" := Durations(8, 10, 15)]

  const ReferenceProjects: seq<Job> := ["甲", "乙", "丙", "丁"]

  /** The two orders the rule of thumb leaves open: 丁甲乙丙 takes 84 days, 丁乙甲丙 takes 86. */
  lemma CandidateOrders()
    ensures CompletionTime(["丁", "甲", "乙", "丙"], ReferenceTimes) == Ok(84)
    ensures CompletionTime(["丁", "乙", "甲", "丙"], ReferenceTimes) == Ok(86)
  {
    ReferenceMakespan18();
    ReferenceMakespan20();
    assert ReferenceOrders[18] == ["丁", "甲", "乙", "丙"];
    assert ReferenceOrders[20] == ["丁", "乙", "甲", "丙"];
  }

  /** The 24 orders of the reference projects, in itertools.permutations order. */
  const ReferenceOrders: seq<seq<Job>> :=
    FromFirst("甲", "乙", "丙", "丁") + FromFirst("乙", "甲", "丙", "丁") +
    FromFirst("丙", "甲", "乙", "丁") + FromFirst("丁", "甲", "乙", "丙")

  lemma ReferenceOrdersListed()
    ensures Permutations(ReferenceProjects) == ReferenceOrders
  {
    PermutationsOfFour("甲", "乙", "丙", "丁");
  }

  lemma ReferenceLookups()
    ensures ReferenceTimes["甲"] == Durations(13, 15, 20) && ReferenceTimes["乙"] == Durations(10, 20, 18)
    ensures ReferenceTimes["丙"] == Durations(20, 16, 10) && ReferenceTimes["丁"] == Durations(8, 10, 15)
  {
  }

  /*
   * The makespan of each reference order, one lemma per order so that each
   * evaluation is checked on its own.
   */
  lemma ReferenceMakespan00() ensures CompletionTime(ReferenceOrders[0], ReferenceTimes) == Ok(91) { ReferenceLookups(); }
  lemma ReferenceMakespan01() ensures CompletionTime(ReferenceOrders[1], ReferenceTimes) == Ok(91) { ReferenceLookups(); }
  lemma ReferenceMakespan02() ensures CompletionTime(ReferenceOrders[2], ReferenceTimes) == Ok(102) { ReferenceLookups(); }
  lemma ReferenceMakespan03() ensures CompletionTime(ReferenceOrders[3], ReferenceTimes) == Ok(97) { ReferenceLookups(); }
  lemma ReferenceMakespan04() ensures CompletionTime(ReferenceOrders[4], ReferenceTimes) == Ok(91) { ReferenceLookups(); }
  lemma ReferenceMakespan05() ensures CompletionTime(ReferenceOrders[5], ReferenceTimes) == Ok(95) { ReferenceLookups(); }
  lemma ReferenceMakespan06() ensures CompletionTime(ReferenceOrders[6], ReferenceTimes) == Ok(93) { ReferenceLookups(); }
  lemma ReferenceMakespan07() ensures CompletionTime(ReferenceOrders[7], ReferenceTimes) == Ok(93) { ReferenceLookups(); }
  lemma ReferenceMakespan08() ensures CompletionTime(ReferenceOrders[8], ReferenceTimes) == Ok(96) { ReferenceLookups(); }
  lemma ReferenceMakespan09() ensures CompletionTime(ReferenceOrders[9], ReferenceTimes) == Ok(93) { ReferenceLookups(); }
  lemma ReferenceMakespan10() ensures CompletionTime(ReferenceOrders[10], ReferenceTimes) == Ok(93) { ReferenceLookups(); }
  lemma ReferenceMakespan11() ensures CompletionTime(ReferenceOrders[11], ReferenceTimes) == Ok(93) { ReferenceLookups(); }
  lemma ReferenceMakespan12() ensures CompletionTime(ReferenceOrders[12], ReferenceTimes) == Ok(104) { ReferenceLookups(); }
  lemma ReferenceMakespan13() ensures CompletionTime(ReferenceOrders[13], ReferenceTimes) == Ok(104) { ReferenceLookups(); }
  lemma ReferenceMakespan14() ensures CompletionTime(ReferenceOrders[14], ReferenceTimes) == Ok(109) { ReferenceLookups(); }
  lemma ReferenceMakespan15() ensures CompletionTime(ReferenceOrders[15], ReferenceTimes) == Ok(109) { ReferenceLookups(); }
  lemma ReferenceMakespan16() ensures CompletionTime(ReferenceOrders[16], ReferenceTimes) == Ok(99) { ReferenceLookups(); }
  lemma ReferenceMakespan17() ensures CompletionTime(ReferenceOrders[17], ReferenceTimes) == Ok(104) { ReferenceLookups(); }
  lemma ReferenceMakespan18() ensures CompletionTime(ReferenceOrders[18], ReferenceTimes) == Ok(84) { ReferenceLookups(); }
  lemma ReferenceMakespan19() ensures CompletionTime(ReferenceOrders[19], ReferenceTimes) == Ok(95) { ReferenceLookups(); }
  lemma ReferenceMakespan20() ensures CompletionTime(ReferenceOrders[20], ReferenceTimes) == Ok(86) { ReferenceLookups(); }
  lemma ReferenceMakespan21() ensures CompletionTime(ReferenceOrders[21], ReferenceTimes) == Ok(89) { ReferenceLookups(); }
  lemma ReferenceMakespan22() ensures CompletionTime(ReferenceOrders[22], ReferenceTimes) == Ok(97) { ReferenceLookups(); }
  lemma ReferenceMakespan23() ensures CompletionTime(ReferenceOrders[23], ReferenceTimes) == Ok(102) { ReferenceLookups(); }

  /** Every reference order takes at least 84 days, and only 丁甲乙丙 (position 18) takes exactly 84. */
  lemma ReferenceMakespanAt(k: nat)
    requires k < |ReferenceOrders|
    ensures CompletionTime(ReferenceOrders[k], ReferenceTimes).Ok?
    ensures k == 18 ==> CompletionTime(ReferenceOrders[k], ReferenceTimes).value == 84
    ensures k != 18 ==> CompletionTime(ReferenceOrders[k], ReferenceTimes).value > 84
  {
    if k == 0 {
      ReferenceMakespan00();
    } else if k == 1 {
      ReferenceMakespan01();
    } else if k == 2 {
      ReferenceMakespan02();
    } else if k == 3 {
      ReferenceMakespan03();
    } else if k == 4 {
      ReferenceMakespan04();
    } else if k == 5 {
      ReferenceMakespan05();
    } else if k == 6 {
      ReferenceMakespan06();
    } else if k == 7 {
      ReferenceMakespan07();
    } else if k == 8 {
      ReferenceMakespan08();
    } else if k == 9 {
      ReferenceMakespan09();
    } else if k == 10 {
      ReferenceMakespan10();
    } else if k == 11 {
      ReferenceMakespan11();
    } else if k == 12 {
      ReferenceMakespan12();
    } else if k == 13 {
      ReferenceMakespan13();
    } else if k == 14 {
      ReferenceMakespan14();
    } else if k == 15 {
      ReferenceMakespan15();
    } else if k == 16 {
      ReferenceMakespan16();
    } else if k == 17 {
      ReferenceMakespan17();
    } else if k == 18 {
      ReferenceMakespan18();
    } else if k == 19 {
      ReferenceMakespan19();
    } else if k == 20 {
      ReferenceMakespan20();
    } else if k == 21 {
      ReferenceMakespan21();
    } else if k == 22 {
      ReferenceMakespan22();
    } else {
      ReferenceMakespan23();
    }
  }

  /** Among the reference orders, position 18 (丁甲乙丙, 84 days) is the first minimal one. */
  lemma ReferenceOrdersFirstMinimal()
    ensures ReferenceOrders[18] == ["丁", "甲", "乙", "丙"]
    ensures FirstMinimalAt(ReferenceOrders, ReferenceTimes, 18, 84)
  {
    forall j | 0 <= j < |ReferenceOrders|
      ensures CompletionTime(ReferenceOrders[j], ReferenceTimes).Ok?
      ensures 84 <= CompletionTime(ReferenceOrders[j], ReferenceTimes).value
      ensures j < 18 ==> 84 < CompletionTime(ReferenceOrders[j], ReferenceTimes).value
    {
      ReferenceMakespanAt(j);
    }
    ReferenceMakespanAt(18);
  }

  /** On the reference table the search result can only be 丁甲乙丙 with 84 days. */
  lemma ReferenceOptimum(b: Best)
    requires IsFirstMinimal(Permutations(ReferenceProjects), ReferenceTimes, b)
    ensures b == Best(["丁", "甲", "乙", "丙"], 84)
  {
    var best := Best(["丁", "甲", "乙", "丙"], 84);
    assert IsFirstMinimal(ReferenceOrders, ReferenceTimes, b) by {
      ReferenceOrdersListed();
    }
    assert IsFirstMinimal(ReferenceOrders, ReferenceTimes, best) by {
      ReferenceOrdersFirstMinimal();
    }
    FirstMinimalIsUnique(ReferenceOrders, ReferenceTimes, b, best);
  }

  /** The search on the reference table: order 丁甲乙丙, 84 days. */
  method FindOptimalSequence() returns (r: Result<Best>)
    ensures r == Ok(Best(["丁", "甲", "乙", "丙"], 84))
  {
    r := FindOptimal(ReferenceProjects, ReferenceTimes);
    assert r.Ok? by {
      assert CompletionTime(ReferenceProjects, ReferenceTimes) == Ok(91) by {
        ReferenceLookups();
      }
    }
    ReferenceOptimum(r.value);
  }
}
