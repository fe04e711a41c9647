/**
 * The completion-time evaluator of the three-department flow shop: every
 * project goes through design, manufacturing and inspection, and every
 * department handles the projects in the same order.
 */
module Completion {
  import opened Jobs

  function Max(a: nat, b: nat): nat
  {
    if a >= b then a else b
  }

  /** The first `n` positions of `order` exist and name projects of the table. */
  predicate KnownPrefix(order: seq<Job>, times: Times, n: nat)
  {
    n <= |order| && forall j :: 0 <= j < n ==> order[j] in times
  }

  /**
   * Durations of the project at position `k`. The evaluator consults it only
   * after the project has been found in the table; the zero row for a
   * missing project is never used by a successful evaluation.
   */
  function Row(order: seq<Job>, times: Times, k: nat): Durations
    requires k < |order|
  {
    if order[k] in times then times[order[k]] else Durations(0, 0, 0)
  }

  /**
   * Design end of the project at position `k`: the design department takes
   * the projects one after the other.
   */
  function DesignEnd(order: seq<Job>, times: Times, k: nat): nat
    requires k < |order|
  {
    (if k == 0 then 0 else DesignEnd(order, times, k - 1)) + Row(order, times, k).design
  }

  /**
   * Manufacturing end of the project at position `k`: manufacturing starts
   * once the project's own design is done and the previous project has left
   * manufacturing.
   */
  function ManufactureEnd(order: seq<Job>, times: Times, k: nat): nat
    requires k < |order|
  {
    if k == 0 then DesignEnd(order, times, 0) + Row(order, times, 0).manufacture
    else Max(DesignEnd(order, times, k), ManufactureEnd(order, times, k - 1)) + Row(order, times, k).manufacture
  }

  /**
   * Inspection end of the project at position `k`: inspection starts once
   * the project's own manufacturing is done and the previous project has left
   * inspection.
   */
  function InspectEnd(order: seq<Job>, times: Times, k: nat): nat
    requires k < |order|
  {
    if k == 0 then ManufactureEnd(order, times, 0) + Row(order, times, 0).inspect
    else Max(ManufactureEnd(order, times, k), InspectEnd(order, times, k - 1)) + Row(order, times, k).inspect
  }

  /** End time of the project at position `k` in department `s`. */
  function End(order: seq<Job>, times: Times, s: Stage, k: nat): nat
    requires k < |order|
  {
    match s
    case Design => DesignEnd(order, times, k)
    case Manufacture => ManufactureEnd(order, times, k)
    case Inspect => InspectEnd(order, times, k)
  }

  /** The first position at or after `from` whose project is missing from the table. */
  function FirstUnknown(order: seq<Job>, times: Times, from: nat): (r: Option<nat>)
    requires KnownPrefix(order, times, from)
    ensures r.None? <==> KnownPrefix(order, times, |order|)
    ensures r.Some? ==> from <= r.value < |order| && order[r.value] !in times
                        && KnownPrefix(order, times, r.value)
    decreases |order| - from
  {
    if from == |order| then None
    else if order[from] !in times then Some(from)
    else FirstUnknown(order, times, from + 1)
  }

  /**
   * What evaluating `order` yields: IndexError for the empty order, KeyError
   * for the first project the table lacks, otherwise the inspection end of
   * the last project (the makespan).
   */
  function CompletionTime(order: seq<Job>, times: Times): (r: Result<nat>)
    ensures r == Err(IndexError) <==> order == []
    ensures r.Ok? <==> order != [] && KnownPrefix(order, times, |order|)
    ensures r.Err? && r.error.KeyError? ==>
              exists j :: 0 <= j < |order| && order[j] == r.error.key
                          && order[j] !in times && KnownPrefix(order, times, j)
  {
    if |order| == 0 then Err(IndexError)
    else match FirstUnknown(order, times, 0)
      case Some(j) => Err(KeyError(order[j]))
      case None => Ok(InspectEnd(order, times, |order| - 1))
  }

  /** Once the first `i` projects are known and the next one is not, evaluation fails on that one. */
  lemma {:induction false} FailsAtFirstUnknown(order: seq<Job>, times: Times, i: nat)
    requires KnownPrefix(order, times, i) && i < |order| && order[i] !in times
    ensures CompletionTime(order, times) == Err(KeyError(order[i]))
  {
  }

  /** The recurrence at a position whose project is in the table. */
  lemma EndsStep(order: seq<Job>, times: Times, i: nat)
    requires 0 < i < |order| && order[i] in times
    ensures DesignEnd(order, times, i) == DesignEnd(order, times, i - 1) + times[order[i]].design
    ensures ManufactureEnd(order, times, i)
            == Max(DesignEnd(order, times, i), ManufactureEnd(order, times, i - 1)) + times[order[i]].manufacture
    ensures InspectEnd(order, times, i)
            == Max(ManufactureEnd(order, times, i), InspectEnd(order, times, i - 1)) + times[order[i]].inspect
  {
  }

  /**
   * Fills the three end-time arrays position by position, stopping with the
   * exception the evaluation raises, and returns the last inspection end.
   */
  method CalculateCompletionTime(order: seq<Job>, times: Times) returns (r: Result<nat>)
    ensures r == CompletionTime(order, times)
  {
    var n := |order|;
    var designEnd := new nat[n];
    var manufactureEnd := new nat[n];
    var inspectEnd := new nat[n];

    if n == 0 {
      return Err(IndexError);
    }
    if order[0] !in times {
      FailsAtFirstUnknown(order, times, 0);
      return Err(KeyError(order[0]));
    }
    designEnd[0] := times[order[0]].design;
    manufactureEnd[0] := designEnd[0] + times[order[0]].manufacture;
    inspectEnd[0] := manufactureEnd[0] + times[order[0]].inspect;

    for i := 1 to n
      invariant KnownPrefix(order, times, i)
      invariant forall k {:trigger designEnd[k]} :: 0 <= k < i ==> designEnd[k] == DesignEnd(order, times, k)
      invariant forall k {:trigger manufactureEnd[k]} :: 0 <= k < i ==> manufactureEnd[k] == ManufactureEnd(order, times, k)
      invariant forall k {:trigger inspectEnd[k]} :: 0 <= k < i ==> inspectEnd[k] == InspectEnd(order, times, k)
    {
      if order[i] !in times {
        FailsAtFirstUnknown(order, times, i);
        return Err(KeyError(order[i]));
      }
      var d := times[order[i]];
      var design := designEnd[i - 1] + d.design;
      var manufacture := Max(design, manufactureEnd[i - 1]) + d.manufacture;
      var inspect := Max(manufacture, inspectEnd[i - 1]) + d.inspect;
      EndsStep(order, times, i);
      designEnd[i] := design;
      manufactureEnd[i] := manufacture;
      inspectEnd[i] := inspect;
    }
    r := Ok(inspectEnd[n - 1]);
  }
}
