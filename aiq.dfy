/**
 * The AIQ section's two-state switch: scrolling more than halfway through the
 * section's extra height swaps its description for its bullet list, and
 * scrolling back swaps them again.
 */
module Aiq {
  import opened JsNumber

  /** `Math.max(0, Math.min(1, -top / (height - viewportHeight)))`, where `top`
      is the section's top relative to the viewport. */
  function Progress(top: real, height: real, viewportHeight: real): (p: Num)
    ensures p.NaN? <==> top == 0.0 && height == viewportHeight
    ensures !p.NaN? ==> p.Finite? && 0.0 <= p.v <= 1.0
  {
    Max(Finite(0.0), Min(Finite(1.0), Div(-top, height - viewportHeight)))
  }

  /** `scrollProgress > 0.5` */
  predicate ShowBullets(top: real, height: real, viewportHeight: real)
  {
    Less(Finite(0.5), Progress(top, height, viewportHeight))
  }

  /** For a section taller than the viewport the bullets show once its top has
      moved up by more than half of the extra height; for a section exactly as
      tall, as soon as its top is above the viewport's (at exactly the top the
      progress is NaN, and NaN is not above one half). */
  lemma ShowBulletsPastHalfway(top: real, height: real, viewportHeight: real)
    ensures height > viewportHeight ==>
              (ShowBullets(top, height, viewportHeight) <==> -top > (height - viewportHeight) / 2.0)
    ensures height == viewportHeight ==> (ShowBullets(top, height, viewportHeight) <==> top < 0.0)
  {
    var d := height - viewportHeight;
    if d > 0.0 {
      var q := -top / d;
      assert Div(-top, d) == Finite(q);
      assert q > 0.5 <==> -top > d / 2.0 by {
        assert -top == q * d;
        assert d / 2.0 == 0.5 * d;
        if q > 0.5 {
          PositiveProduct(q - 0.5, d);
          assert q * d - 0.5 * d == (q - 0.5) * d;
        } else {
          PositiveProduct(0.5 - q, d);
          assert 0.5 * d - q * d == (0.5 - q) * d;
        }
      }
      assert ShowBullets(top, height, viewportHeight) <==> q > 0.5;
    }
  }

  lemma PositiveProduct(a: real, b: real)
    requires a >= 0.0 && b > 0.0
    ensures a * b >= 0.0 && (a > 0.0 ==> a * b > 0.0)
  {
  }

  /** The switch: which content is current, and which of the two elements carry `active`. */
  class Switch {
    var showingBullets: bool     // `currentContent === 'bullets'`
    var descriptionActive: bool
    var bulletsActive: bool

    /** Exactly the current content is active. */
    predicate Consistent()
      reads this
    {
      descriptionActive == !showingBullets && bulletsActive == showingBullets
    }

    /** `initAIQContentSwitching`: starts on the description, whatever the
        markup's classes, then updates once. */
    constructor (descriptionActive: bool, bulletsActive: bool, top: real, height: real, viewportHeight: real)
      ensures showingBullets == ShowBullets(top, height, viewportHeight)
      ensures showingBullets ==> Consistent()
      ensures !showingBullets ==> this.descriptionActive == descriptionActive && this.bulletsActive == bulletsActive
    {
      showingBullets := false;
      this.descriptionActive := descriptionActive;
      this.bulletsActive := bulletsActive;
      new;
      Update(top, height, viewportHeight);
    }

    /** `updateAIQContent`, on a scroll or a resize: the current content follows
        the progress, and the `active` classes move only when it changes. */
    method Update(top: real, height: real, viewportHeight: real)
      modifies this
      ensures showingBullets == ShowBullets(top, height, viewportHeight)
      ensures showingBullets != old(showingBullets) ==> Consistent()
      ensures showingBullets == old(showingBullets) ==>
                descriptionActive == old(descriptionActive) && bulletsActive == old(bulletsActive)
      ensures old(Consistent()) ==> Consistent()
    {
      var show := ShowBullets(top, height, viewportHeight);
      if show && !showingBullets {
        showingBullets := true;
        descriptionActive := false;
        bulletsActive := true;
      } else if !show && showingBullets {
        showingBullets := false;
        bulletsActive := false;
        descriptionActive := true;
      }
    }
  }
}
