/**
 * Facts about the end times the evaluator computes: the first project, the
 * order of departments within a project, the absence of overtaking within a
 * department, the makespan as the longest path through the schedule, and its
 * monotonicity in the durations.
 */
module ScheduleLaws {
  import opened Jobs
  import opened Completion

  /** Days department `s` spends on the projects at positions `lo` .. `hi - 1`. */
  function StageSum(order: seq<Job>, times: Times, s: Stage, lo: nat, hi: nat): nat
    requires lo <= hi <= |order|
    decreases hi - lo
  {
    if lo == hi then 0 else StageSum(order, times, s, lo, hi - 1) + Duration(Row(order, times, hi - 1), s)
  }

  /**
   * Length of the path that goes through design for positions 0 .. a, then
   * through manufacturing for positions a .. k.
   */
  function ManufacturePath(order: seq<Job>, times: Times, a: nat, k: nat): nat
    requires a <= k < |order|
  {
    StageSum(order, times, Design, 0, a + 1) + StageSum(order, times, Manufacture, a, k + 1)
  }

  /**
   * Length of the path that goes through design for positions 0 .. a,
   * manufacturing for a .. b and inspection for b .. k.
   */
  function InspectPath(order: seq<Job>, times: Times, a: nat, b: nat, k: nat): nat
    requires a <= b <= k < |order|
  {
    StageSum(order, times, Design, 0, a + 1) + StageSum(order, times, Manufacture, a, b + 1)
      + StageSum(order, times, Inspect, b, k + 1)
  }

  /** The first project in the order is never kept waiting. */
  lemma FirstProjectEnds(order: seq<Job>, times: Times)
    requires 0 < |order|
    ensures var d := Row(order, times, 0);
      && DesignEnd(order, times, 0) == d.design
      && ManufactureEnd(order, times, 0) == d.design + d.manufacture
      && InspectEnd(order, times, 0) == d.design + d.manufacture + d.inspect
  {
  }

  /** Design never waits: its end times are the running sums of design durations. */
  lemma {:induction false} DesignEndIsPrefixSum(order: seq<Job>, times: Times, k: nat)
    requires k < |order|
    ensures DesignEnd(order, times, k) == StageSum(order, times, Design, 0, k + 1)
  {
    if k > 0 {
      DesignEndIsPrefixSum(order, times, k - 1);
    }
  }

  /**
   * Within one project the departments follow each other: each stage starts
   * no earlier than the project's previous stage ends.
   */
  lemma StagePrecedence(order: seq<Job>, times: Times, k: nat)
    requires k < |order|
    ensures DesignEnd(order, times, k) + Row(order, times, k).manufacture <= ManufactureEnd(order, times, k)
    ensures ManufactureEnd(order, times, k) + Row(order, times, k).inspect <= InspectEnd(order, times, k)
    ensures DesignEnd(order, times, k) <= ManufactureEnd(order, times, k) <= InspectEnd(order, times, k)
  {
  }

  /** A department starts a project only after the previous one has left it. */
  lemma FollowsPrevious(order: seq<Job>, times: Times, s: Stage, k: nat)
    requires 0 < k < |order|
    ensures End(order, times, s, k - 1) + Duration(Row(order, times, k), s) <= End(order, times, s, k)
  {
  }

  /**
   * No overtaking: in every department, a project later in the order starts
   * only after every earlier project has left that department.
   */
  lemma {:induction false} NoOvertaking(order: seq<Job>, times: Times, s: Stage, i: nat, j: nat)
    requires i < j < |order|
    ensures End(order, times, s, i) + Duration(Row(order, times, j), s) <= End(order, times, s, j)
    ensures End(order, times, s, i) <= End(order, times, s, j)
  {
    FollowsPrevious(order, times, s, j);
    if i < j - 1 {
      NoOvertaking(order, times, s, i, j - 1);
    }
  }

  /**
   * Manufacturing end of position `k` is the longest design-then-manufacture
   * path ending there: no path is longer, and one path reaches it.
   */
  lemma {:induction false} ManufactureEndIsLongestPath(order: seq<Job>, times: Times, k: nat)
    requires k < |order|
    ensures forall a :: 0 <= a <= k ==> ManufacturePath(order, times, a, k) <= ManufactureEnd(order, times, k)
    ensures exists a :: 0 <= a <= k && ManufacturePath(order, times, a, k) == ManufactureEnd(order, times, k)
  {
    DesignEndIsPrefixSum(order, times, k);
    var m := Row(order, times, k).manufacture;
    assert StageSum(order, times, Manufacture, k, k + 1) == m;
    assert ManufacturePath(order, times, k, k) == DesignEnd(order, times, k) + m;
    if k > 0 {
      ManufactureEndIsLongestPath(order, times, k - 1);
      forall a | 0 <= a < k
        ensures ManufacturePath(order, times, a, k) == ManufacturePath(order, times, a, k - 1) + m
      {
      }
      if DesignEnd(order, times, k) < ManufactureEnd(order, times, k - 1) {
        var a :| 0 <= a <= k - 1 && ManufacturePath(order, times, a, k - 1) == ManufactureEnd(order, times, k - 1);
        assert ManufacturePath(order, times, a, k) == ManufactureEnd(order, times, k);
      }
    }
  }

  /**
   * Inspection end of position `k` is the longest design, manufacture,
   * inspect path ending there: no path is longer, and one path reaches it.
   */
  lemma {:induction false} InspectEndIsLongestPath(order: seq<Job>, times: Times, k: nat)
    requires k < |order|
    ensures forall a, b :: 0 <= a <= b <= k ==> InspectPath(order, times, a, b, k) <= InspectEnd(order, times, k)
    ensures exists a, b :: 0 <= a <= b <= k && InspectPath(order, times, a, b, k) == InspectEnd(order, times, k)
  {
    ManufactureEndIsLongestPath(order, times, k);
    var t := Row(order, times, k).inspect;
    assert StageSum(order, times, Inspect, k, k + 1) == t;
    forall a | 0 <= a <= k
      ensures InspectPath(order, times, a, k, k) == ManufacturePath(order, times, a, k) + t
    {
    }
    if k == 0 {
      assert InspectPath(order, times, 0, 0, 0) == InspectEnd(order, times, 0);
    } else {
      InspectEndIsLongestPath(order, times, k - 1);
      forall a, b | 0 <= a <= b < k
        ensures InspectPath(order, times, a, b, k) == InspectPath(order, times, a, b, k - 1) + t
      {
      }
      if ManufactureEnd(order, times, k) >= InspectEnd(order, times, k - 1) {
        var a :| 0 <= a <= k && ManufacturePath(order, times, a, k) == ManufactureEnd(order, times, k);
        assert InspectPath(order, times, a, k, k) == InspectEnd(order, times, k);
      } else {
        var a, b :| 0 <= a <= b <= k - 1 && InspectPath(order, times, a, b, k - 1) == InspectEnd(order, times, k - 1);
        assert InspectPath(order, times, a, b, k) == InspectEnd(order, times, k);
      }
    }
  }

  /**
   * The makespan is at least all design work plus the last project's
   * manufacture and inspection, at least the first project's design plus all
   * manufacture plus the last inspection, and at least the first project's
   * design and manufacture plus all inspection work.
   */
  lemma MakespanLowerBounds(order: seq<Job>, times: Times)
    requires CompletionTime(order, times).Ok?
    ensures var n, first, last := |order|, Row(order, times, 0), Row(order, times, |order| - 1);
      && CompletionTime(order, times).value >= StageSum(order, times, Design, 0, n) + last.manufacture + last.inspect
      && CompletionTime(order, times).value >= first.design + StageSum(order, times, Manufacture, 0, n) + last.inspect
      && CompletionTime(order, times).value >= first.design + first.manufacture + StageSum(order, times, Inspect, 0, n)
  {
    var n := |order|;
    InspectEndIsLongestPath(order, times, n - 1);
    assert InspectPath(order, times, n - 1, n - 1, n - 1) <= InspectEnd(order, times, n - 1);
    assert InspectPath(order, times, 0, n - 1, n - 1) <= InspectEnd(order, times, n - 1);
    assert InspectPath(order, times, 0, 0, n - 1) <= InspectEnd(order, times, n - 1);
  }

  /** The table `slow` gives every project at least the durations `fast` gives it. */
  predicate NoFaster(fast: Times, slow: Times)
  {
    forall job :: job in fast ==>
      job in slow && fast[job].design <= slow[job].design
      && fast[job].manufacture <= slow[job].manufacture && fast[job].inspect <= slow[job].inspect
  }

  /** Durations no shorter in any department make no end time earlier. */
  lemma {:induction false} EndsMonotone(order: seq<Job>, fast: Times, slow: Times, k: nat)
    requires k < |order| && NoFaster(fast, slow)
    ensures DesignEnd(order, fast, k) <= DesignEnd(order, slow, k)
    ensures ManufactureEnd(order, fast, k) <= ManufactureEnd(order, slow, k)
    ensures InspectEnd(order, fast, k) <= InspectEnd(order, slow, k)
  {
    if k > 0 {
      EndsMonotone(order, fast, slow, k - 1);
    }
  }

  /**
   * Lengthening durations never shortens the makespan of an order, and never
   * turns a successful evaluation into a failure.
   */
  lemma MakespanMonotone(order: seq<Job>, fast: Times, slow: Times)
    requires CompletionTime(order, fast).Ok? && NoFaster(fast, slow)
    ensures CompletionTime(order, slow).Ok?
    ensures CompletionTime(order, fast).value <= CompletionTime(order, slow).value
  {
    EndsMonotone(order, fast, slow, |order| - 1);
  }
}
