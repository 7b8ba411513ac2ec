/**
 * The progressive bullwhip chart: a step counter driven by the scroll
 * thresholds, and the `hidden` flags of the four datasets of the order chart
 * and of the inventory chart, which a forward move to step `s` (for `s` up to
 * 3) clears at index `s`.
 */
module Bullwhip {
  import opened Wrappers
  import opened StepMapping


  /** The explanation the chart's panel shows for a step. */
  datatype ChartNote = ChartNote(title: string, text: string, highlightClass: string)

  const Notes: seq<ChartNote> := [
    ChartNote("The Bullwhip Effect",
      "Customer demand stays remarkably stable - just a small step change from 8 to 12 units, then back to 8. This is the only real input to the system.",
      "customer-text"),
    ChartNote("The Retailer Response",
      "The Retailer sees customer demand and tries to maintain inventory. Notice how their orders already show more variability than actual customer demand.",
      "retailer-text"),
    ChartNote("The Wholesaler Amplifies",
      "The Wholesaler faces amplified demand from the Retailer and adds their own forecasting errors. Orders become even more volatile.",
      "wholesaler-text"),
    ChartNote("The Factory Chaos",
      "By the time demand signals reach the Factory, they're completely distorted. Small customer changes create massive production swings - from 28 units to 0!",
      "factory-text"),
    ChartNote("The Complete Bullwhip Effect",
      "This is the bullwhip effect: stable customer demand creates chaos upstream. Each player acts rationally but lacks information, amplifying variability at every step.",
      "")
  ]

  /** Both charts start with only their first dataset shown. */
  const InitialHidden: seq<bool> := [false, true, true, true]

  /** `showNextDataset(step)` on one chart: dataset `step` is shown, if there is one. */
  function RevealAt(hidden: seq<bool>, step: nat): (r: seq<bool>)
    ensures |r| == |hidden|
    ensures forall k :: 0 <= k < |r| ==> r[k] == (hidden[k] && !(k == step && step <= 3))
  {
    if step <= 3 && step < |hidden| then hidden[step := false] else hidden
  }

  /** The flags after `updateBullwhipStep(step)` moved from `prev`: only a
      forward move to a step up to 3 reveals anything. */
  function Advance(prev: nat, step: nat, hidden: seq<bool>): (r: seq<bool>)
    ensures |r| == |hidden|
  {
    if step > prev && step <= 3 then RevealAt(hidden, step) else hidden
  }

  /** A move shows dataset `step` when it goes forward to it, and changes no
      other flag; nothing is ever hidden again. */
  lemma AdvanceChanges(prev: nat, step: nat, hidden: seq<bool>)
    ensures forall k :: 0 <= k < |hidden| ==>
              Advance(prev, step, hidden)[k] == (hidden[k] && !(k == step && prev < step <= 3))
  {
  }

  /** The step the counter holds before the `j`-th of a run of steps. */
  function Before(steps: seq<nat>, j: int): nat
    requires 0 <= j <= |steps|
  {
    if j == 0 then 0 else steps[j - 1]
  }

  /** The flags of a chart after a run of settled steps from the start. */
  function HiddenAfter(steps: seq<nat>): (h: seq<bool>)
    ensures |h| == 4
    decreases |steps|
  {
    if steps == [] then InitialHidden
    else
      var n := |steps| - 1;
      Advance(Before(steps, n), steps[n], HiddenAfter(steps[..n]))
  }

  /** Some step of the run moved forward onto `k`. */
  predicate ReachedForward(steps: seq<nat>, k: nat)
  {
    exists j :: 0 <= j < |steps| && steps[j] == k && Before(steps, j) < k
  }

  /** A run reaches `k` forward when its prefix does or its last move does. */
  lemma ReachedForwardSnoc(steps: seq<nat>, k: nat)
    requires steps != []
    ensures var n := |steps| - 1;
            ReachedForward(steps, k) <==>
              ReachedForward(steps[..n], k) || (steps[n] == k && Before(steps, n) < k)
  {
    var n := |steps| - 1;
    var init := steps[..n];
    if ReachedForward(init, k) {
      var j :| 0 <= j < |init| && init[j] == k && Before(init, j) < k;
      assert steps[j] == k && Before(steps, j) < k;
    }
    if ReachedForward(steps, k) {
      var j :| 0 <= j < |steps| && steps[j] == k && Before(steps, j) < k;
      if j < n {
        assert init[j] == k && Before(init, j) < k;
      }
    }
  }

  /** The counter always holds the last step it was given, so dataset `k` of
      1..3 is shown after a run exactly when some step moved forward onto `k`;
      dataset 0 is always shown. */
  lemma {:induction false} ShownIffReachedForward(steps: seq<nat>)
    ensures !HiddenAfter(steps)[0]
    ensures forall k :: 1 <= k <= 3 ==> (!HiddenAfter(steps)[k] <==> ReachedForward(steps, k))
    decreases |steps|
  {
    if steps != [] {
      var n := |steps| - 1;
      var init := steps[..n];
      ShownIffReachedForward(init);
      assert HiddenAfter(steps) == Advance(Before(steps, n), steps[n], HiddenAfter(init));
      AdvanceChanges(Before(steps, n), steps[n], HiddenAfter(init));
      forall k | 1 <= k <= 3
        ensures !HiddenAfter(steps)[k] <==> ReachedForward(steps, k)
      {
        ReachedForwardSnoc(steps, k);
      }
    }
  }

  /** Jumping straight from step 0 to step 3 shows the factory's dataset and
      leaves the retailer's and the wholesaler's hidden. */
  lemma JumpLeavesGaps()
    ensures HiddenAfter([3]) == [false, true, true, false]
  {
    assert [3][..0] == [];
    assert HiddenAfter([3]) == Advance(0, 3, InitialHidden);
  }

  /** Stepping through 1, 2 and 3 shows every dataset, and stepping back does
      not hide any again. */
  lemma StepwiseShowsAll()
    ensures HiddenAfter([1, 2, 3, 0]) == [false, false, false, false]
  {
    var s := [1, 2, 3, 0];
    assert s[..3] == [1, 2, 3] && s[..3][..2] == [1, 2] && s[..3][..2][..1] == [1] && [1][..0] == [];
    assert HiddenAfter([1]) == [false, false, true, true];
    assert HiddenAfter([1, 2]) == [false, false, false, true];
    assert HiddenAfter([1, 2, 3]) == [false, false, false, false];
  }

  /** The chart state of the page (`currentBullwhipStep` and the two charts). */
  class ProgressiveChart {
    const flowPresent: bool        // the order chart's canvas exists
    const inventoryPresent: bool   // the inventory chart's canvas exists
    const flowHidden: array<bool>
    const inventoryHidden: array<bool>
    var currentStep: nat
    var note: Option<ChartNote>    // None: the panel's initial markup

    ghost predicate Valid()
      reads this
    {
      flowHidden.Length == 4 && inventoryHidden.Length == 4 && flowHidden != inventoryHidden
      && currentStep <= 4
    }

    /** `initProgressiveBullwhipChart`: both charts created with their initial flags. */
    constructor (flowPresent: bool, inventoryPresent: bool)
      ensures Valid() && fresh(flowHidden) && fresh(inventoryHidden)
      ensures this.flowPresent == flowPresent && this.inventoryPresent == inventoryPresent
      ensures flowHidden[..] == InitialHidden && inventoryHidden[..] == InitialHidden
      ensures currentStep == 0 && note == None
    {
      this.flowPresent := flowPresent;
      this.inventoryPresent := inventoryPresent;
      flowHidden := new bool[4] [false, true, true, true];
      inventoryHidden := new bool[4] [false, true, true, true];
      currentStep := 0;
      note := None;
    }

    /** `showNextDataset(step)`: without the order chart nothing is revealed,
        not even in the inventory chart. */
    method ShowNextDataset(step: nat)
      requires Valid()
      modifies flowHidden, inventoryHidden
      ensures flowHidden[..] == if flowPresent then RevealAt(old(flowHidden[..]), step) else old(flowHidden[..])
      ensures inventoryHidden[..] ==
                if flowPresent && inventoryPresent then RevealAt(old(inventoryHidden[..]), step) else old(inventoryHidden[..])
    {
      if !flowPresent {
        return;
      }
      if step <= 3 {
        flowHidden[step] := false;
      }
      if inventoryPresent && step <= 3 {
        inventoryHidden[step] := false;
      }
    }

    /** `updateBullwhipStep(step)`: the same step changes nothing; another one
        becomes the current step, shows its note, and a forward move to a step
        up to 3 reveals that step's dataset. */
    method UpdateStep(step: nat)
      requires Valid() && step <= 4
      modifies this`currentStep, this`note, flowHidden, inventoryHidden
      ensures Valid()
      ensures old(currentStep) == step ==>
                currentStep == step && note == old(note)
                && flowHidden[..] == old(flowHidden[..]) && inventoryHidden[..] == old(inventoryHidden[..])
      ensures old(currentStep) != step ==> currentStep == step && note == Some(Notes[step])
      ensures flowHidden[..] ==
                if flowPresent then Advance(old(currentStep), step, old(flowHidden[..])) else old(flowHidden[..])
      ensures inventoryHidden[..] ==
                if flowPresent && inventoryPresent then Advance(old(currentStep), step, old(inventoryHidden[..]))
                else old(inventoryHidden[..])
    {
      if currentStep == step {
        return;
      }
      var previous := currentStep;
      currentStep := step;
      if step > previous && step <= 3 {
        ShowNextDataset(step);
      }
      note := Some(Notes[step]);
    }

    /** The debounced scroll handler, for the last event of a burst: inside the
        section window the threshold step is drawn; outside nothing happens. */
    method OnScrollSettled(scrollTop: real, clientHeight: real, sectionTop: real, sectionHeight: real)
      requires Valid()
      modifies this`currentStep, this`note, flowHidden, inventoryHidden
      ensures Valid()
      ensures var inside := InChartSection(scrollTop, sectionTop, sectionHeight, clientHeight);
              var step := if inside then ChartStep(scrollTop, sectionTop, sectionHeight, clientHeight) else old(currentStep);
              && currentStep == step
              && (step != old(currentStep) ==> note == Some(Notes[step]))
              && (step == old(currentStep) ==> note == old(note))
              && flowHidden[..] ==
                   (if flowPresent then Advance(old(currentStep), step, old(flowHidden[..])) else old(flowHidden[..]))
              && inventoryHidden[..] ==
                   (if flowPresent && inventoryPresent then Advance(old(currentStep), step, old(inventoryHidden[..]))
                    else old(inventoryHidden[..]))
    {
      if InChartSection(scrollTop, sectionTop, sectionHeight, clientHeight) {
        var step := ChartStep(scrollTop, sectionTop, sectionHeight, clientHeight);
        UpdateStep(step);
      }
    }
  }
}
