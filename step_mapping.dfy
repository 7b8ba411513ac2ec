/**
 * Mapping a scroll position inside a section to a narrative step.
 *
 * Two strategies coexist in the site: the narrators divide the section evenly
 * among their steps, the bullwhip chart compares the scroll portion against four
 * fixed thresholds. The section windows differ too: half a viewport of lead-in
 * for the narrators, a third of the scroller's height for the chart.
 */
module StepMapping {
  import opened JsNumber

  /** `(scrollTop - sectionTop) / (sectionHeight - viewportHeight)`, unguarded. */
  function Progress(scrollTop: real, sectionTop: real, sectionHeight: real, viewportHeight: real): Num
  {
    Div(scrollTop - sectionTop, sectionHeight - viewportHeight)
  }

  /** The scroll position lies in the section, the window shifted up by `lead`. */
  predicate InSection(scrollTop: real, sectionTop: real, sectionHeight: real, lead: real)
  {
    scrollTop >= sectionTop - lead && scrollTop < sectionTop + sectionHeight - lead
  }

  /** The narrators' window: half a viewport of lead-in. */
  predicate InNarratorSection(scrollTop: real, sectionTop: real, sectionHeight: real, viewportHeight: real)
  {
    InSection(scrollTop, sectionTop, sectionHeight, viewportHeight / 2.0)
  }

  /** The chart's window: a third of the scroller's client height of lead-in. */
  predicate InChartSection(scrollTop: real, sectionTop: real, sectionHeight: real, clientHeight: real)
  {
    InSection(scrollTop, sectionTop, sectionHeight, clientHeight / 3.0)
  }

  // ---------------------------------------------------------------------------
  // Even subdivision

  function MinInt(a: int, b: int): int { if a < b then a else b }
  function MaxInt(a: int, b: int): int { if a < b then b else a }

  /** `min(count - 1, max(0, floor(progress * count)))` for a finite progress:
      the index of the count-th of the unit interval that holds `progress`,
      clamped to the first and the last step. */
  function EvenStep(progress: real, count: nat): (s: nat)
    requires count > 0
    ensures s < count
    ensures s == 0 || s as real <= progress * count as real
    ensures s == count - 1 || progress * count as real < (s + 1) as real
  {
    MinInt(count - 1, MaxInt(0, (progress * count as real).Floor))
  }

  /** The step as the narrators compute it, in JavaScript numbers. */
  function EvenStepAsWritten(progress: Num, count: nat): Num
    requires count > 0
  {
    Min(Finite((count - 1) as real), Max(Finite(0.0), Floor(Times(progress, count as real))))
  }

  /** The range guard at the head of `updateVisualization`: `step < 0 || step >= count`. */
  predicate RejectedByRangeGuard(step: Num, count: nat)
  {
    Less(step, Finite(0.0)) || AtLeast(step, Finite(count as real))
  }

  /** The narrators' step with the zero denominator guarded: wherever the code
      yields a number this is that number, and where the code yields NaN (scroll
      exactly at the section top of a section exactly one viewport high) it is
      the first step. Always a valid step index. */
  function ScrollStep(scrollTop: real, sectionTop: real, sectionHeight: real, viewportHeight: real, count: nat): (s: nat)
    requires count > 0
    ensures s < count
    ensures var w := EvenStepAsWritten(Progress(scrollTop, sectionTop, sectionHeight, viewportHeight), count);
            !w.NaN? ==> w == Finite(s as real)
  {
    match Progress(scrollTop, sectionTop, sectionHeight, viewportHeight)
    case Finite(p) => EvenStepAsWrittenFinite(p, count); EvenStep(p, count)
    case PosInf => count - 1
    case _ => 0
  }

  lemma EvenStepAsWrittenFinite(p: real, count: nat)
    requires count > 0
    ensures EvenStepAsWritten(Finite(p), count) == Finite(EvenStep(p, count) as real)
  {
    var f := (p * count as real).Floor;
    assert Times(Finite(p), count as real) == Finite(p * count as real);
    assert Floor(Finite(p * count as real)) == Finite(f as real);
    var m := MaxInt(0, f);
    assert Max(Finite(0.0), Finite(f as real)) == Finite(m as real);
    assert Min(Finite((count - 1) as real), Finite(m as real)) == Finite(MinInt(count - 1, m) as real);
  }

  /** Exactly at the top of a section as high as the viewport the code's step is
      NaN, the handler is inside the section window, and the range guard lets the
      NaN through (every comparison with NaN is false), so `explanations[NaN]`,
      which is `undefined`, is dereferenced. */
  lemma EqualHeightsGiveNaNStep(sectionTop: real, height: real, count: nat)
    requires height > 0.0 && count > 0
    ensures InNarratorSection(sectionTop, sectionTop, height, height)
    ensures EvenStepAsWritten(Progress(sectionTop, sectionTop, height, height), count) == NaN
    ensures !RejectedByRangeGuard(EvenStepAsWritten(Progress(sectionTop, sectionTop, height, height), count), count)
  {
  }

  lemma {:induction false} EvenStepMonotone(p: real, q: real, count: nat)
    requires count > 0 && p <= q
    ensures EvenStep(p, count) <= EvenStep(q, count)
  {
    MulMonotone(p, q, count as real);
  }

  lemma MulMonotone(p: real, q: real, k: real)
    requires p <= q && k >= 0.0
    ensures p * k <= q * k
  {
    assert q * k - p * k == (q - p) * k;
  }

  lemma DivMonotone(a: real, b: real, d: real)
    requires a <= b && d > 0.0
    ensures a / d <= b / d
  {
    MulMonotone(a, b, 1.0 / d);
  }

  /** Scrolling further down never moves a narrator back to an earlier step,
      as long as the section is at least as high as the viewport. */
  lemma {:induction false} ScrollStepMonotone(t1: real, t2: real, sectionTop: real, sectionHeight: real, viewportHeight: real, count: nat)
    requires count > 0 && t1 <= t2 && sectionHeight >= viewportHeight
    ensures ScrollStep(t1, sectionTop, sectionHeight, viewportHeight, count)
         <= ScrollStep(t2, sectionTop, sectionHeight, viewportHeight, count)
  {
    var d := sectionHeight - viewportHeight;
    if d > 0.0 {
      DivMonotone(t1 - sectionTop, t2 - sectionTop, d);
      EvenStepMonotone((t1 - sectionTop) / d, (t2 - sectionTop) / d, count);
    }
  }

  // ---------------------------------------------------------------------------
  // Thresholds

  const Thresholds: seq<real> := [0.15, 0.35, 0.55, 0.75]

  /** `n > t` in JavaScript. */
  predicate Above(n: Num, t: real)
  {
    Less(Finite(t), n)
  }

  /** The chart's step: each threshold the portion strictly exceeds overrides the
      step set before it, then the result is clamped to [0, 4]. */
  function ThresholdStep(portion: Num): (s: nat)
    ensures s <= 4
  {
    var s0 := 0;
    var s1 := if Above(portion, 0.15) then 1 else s0;
    var s2 := if Above(portion, 0.35) then 2 else s1;
    var s3 := if Above(portion, 0.55) then 3 else s2;
    var s4 := if Above(portion, 0.75) then 4 else s3;
    MaxInt(0, MinInt(4, s4))
  }

  /** How many of `ts` lie strictly below `n`. */
  function CountBelow(n: Num, ts: seq<real>): (k: nat)
    ensures k <= |ts|
  {
    if ts == [] then 0
    else (if Above(n, ts[0]) then 1 else 0) + CountBelow(n, ts[1..])
  }

  /** The sequential overrides amount to counting the thresholds below the
      portion (the thresholds increase, so the last one exceeded is the count). */
  lemma ThresholdStepCounts(portion: Num)
    ensures ThresholdStep(portion) == CountBelow(portion, Thresholds)
  {
    var ts := Thresholds;
    assert ts[1..] == [0.35, 0.55, 0.75];
    assert ts[1..][1..] == [0.55, 0.75];
    assert ts[1..][1..][1..] == [0.75];
    assert ts[1..][1..][1..][1..] == [];
    var k3 := CountBelow(portion, [0.75]);
    var k2 := CountBelow(portion, [0.55, 0.75]);
    var k1 := CountBelow(portion, [0.35, 0.55, 0.75]);
    assert CountBelow(portion, []) == 0;
    assert k3 == if Above(portion, 0.75) then 1 else 0;
    assert k2 == (if Above(portion, 0.55) then 1 else 0) + k3;
    assert k1 == (if Above(portion, 0.35) then 1 else 0) + k2;
    assert CountBelow(portion, ts) == (if Above(portion, 0.15) then 1 else 0) + k1;
  }

  /** A larger portion never gives an earlier chart step. */
  lemma ThresholdStepMonotone(p: real, q: real)
    requires p <= q
    ensures ThresholdStep(Finite(p)) <= ThresholdStep(Finite(q))
  {
  }

  /** The chart's step at a scroll position. */
  function ChartStep(scrollTop: real, sectionTop: real, sectionHeight: real, clientHeight: real): (s: nat)
    ensures s <= 4
  {
    ThresholdStep(Progress(scrollTop, sectionTop, sectionHeight, clientHeight))
  }

  /** Scrolling further down never moves the chart back, as long as the section
      is at least as high as the scroller. */
  lemma {:induction false} ChartStepMonotone(t1: real, t2: real, sectionTop: real, sectionHeight: real, clientHeight: real)
    requires t1 <= t2 && sectionHeight >= clientHeight
    ensures ChartStep(t1, sectionTop, sectionHeight, clientHeight) <= ChartStep(t2, sectionTop, sectionHeight, clientHeight)
  {
    var d := sectionHeight - clientHeight;
    if d > 0.0 {
      DivMonotone(t1 - sectionTop, t2 - sectionTop, d);
      ThresholdStepMonotone((t1 - sectionTop) / d, (t2 - sectionTop) / d);
    }
  }

  /** Section at 1000, 2000 high, viewport 800, scrolled to 1500: the portion is
      5/12 (about 0.417), two thresholds lie below it, so the step is 2. A portion
      of exactly 0.15 is not above the first threshold. */
  lemma ThresholdExamples()
    ensures Progress(1500.0, 1000.0, 2000.0, 800.0) == Finite(5.0 / 12.0)
    ensures ChartStep(1500.0, 1000.0, 2000.0, 800.0) == 2
    ensures ThresholdStep(Finite(0.15)) == 0
    ensures ThresholdStep(Finite(0.75)) == 3
  {
  }
}
