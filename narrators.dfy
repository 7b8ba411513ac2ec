/**
 * The two scroll narrators of the supply-chain section: "dynamics" (seven
 * steps) and "mechanics" (five steps, which also animates the beer, order and
 * inventory elements of its section). Each keeps the step it last drew and
 * redraws only when the scroll position maps to a different one.
 */
module Narrators {
  import opened JsNumber
  import opened StepMapping
  import opened Dom

  datatype Variant = Dynamics | Mechanics

  /** One narrative step: the panel's title and text, and the state class each
      stage node gets, in the order of the source's object literal. */
  datatype Explanation = Explanation(title: string, text: string, visualState: seq<(string, Cls)>)

  const MechanicsSection := "beer-game-mechanics-section"

  // The stage states of each step, kept apart from the panel texts.
  const IntroStates: seq<(string, Cls)> := [("retailer", Normal), ("wholesaler", Normal), ("distributor", Normal), ("factory", Normal)]
  const CheckDeliveriesStates: seq<(string, Cls)> := [("retailer", Highlight), ("wholesaler", Highlight), ("distributor", Highlight), ("factory", Highlight)]
  const CheckOrdersStates: seq<(string, Cls)> := [("customer", Highlight), ("retailer", Normal)]
  const DeliverBeerStates: seq<(string, Cls)> := [("retailer", Normal), ("wholesaler", Normal), ("distributor", Normal)]
  const OrderDecisionStates: seq<(string, Cls)> := [("retailer", Backlog), ("wholesaler", Backlog), ("distributor", Backlog), ("factory", Backlog)]
  const HiddenChallengeStates: seq<(string, Cls)> := [("customer", Excess), ("retailer", Backlog), ("wholesaler", Backlog)]
  const BullwhipEffectStates: seq<(string, Cls)> := [("factory", Backlog), ("distributor", Excess), ("wholesaler", Excess), ("retailer", Normal)]

  const Intro := Explanation(
    "The Beer Game Supply Chain",
    "In the Beer Game, four players manage the beer supply chain: Factory, Distributor, Wholesaler, and Retailer. Each week, they follow four steps.",
    IntroStates)
  const CheckDeliveries := Explanation(
    "Step 1: Check Deliveries",
    "Each player receives their incoming shipments from upstream. These are orders placed two weeks ago (except retailers who can fulfill customers immediately).",
    CheckDeliveriesStates)
  const CheckOrders := Explanation(
    "Step 2: Check Orders",
    "Players see what their downstream partner wants. Only the retailer sees actual customer demand - everyone else sees their partner's orders.",
    CheckOrdersStates)
  const DeliverBeer := Explanation(
    "Step 3: Deliver Beer",
    "Ship beer to fulfill orders. If you don't have enough inventory, you create a backlog that must be filled when stock arrives.",
    DeliverBeerStates)
  const OrderDecision := Explanation(
    "Step 4: Make Order Decision",
    "The critical decision: How much to order from your supplier? This is where the bullwhip effect begins - small demand changes create big swings.",
    OrderDecisionStates)
  const HiddenChallenge := Explanation(
    "The Hidden Challenge",
    "With limited information and delivery delays, players often overreact. A small increase in customer demand causes panic ordering up the chain.",
    HiddenChallengeStates)
  const BullwhipEffect := Explanation(
    "The Bullwhip Effect",
    "Small variations in customer demand get amplified at each stage. The factory sees wild swings, alternating between overproduction and shutdowns.",
    BullwhipEffectStates)

  /** How many steps the narrator has. */
  function StepCount(v: Variant): nat
  {
    if v == Dynamics then 7 else 5
  }

  function Explanations(v: Variant): (es: seq<Explanation>)
    ensures |es| == StepCount(v)
    ensures forall k :: 0 <= k < |es| ==> es[k].visualState == VisualState(v, k)
  {
    match v
    case Dynamics => [Intro, CheckDeliveries, CheckOrders, DeliverBeer, OrderDecision, HiddenChallenge, BullwhipEffect]
    case Mechanics => [Intro, CheckDeliveries, CheckOrders, DeliverBeer, OrderDecision]
  }

  /** The stage states of step `step`, as its explanation lists them. */
  function VisualState(v: Variant, step: int): seq<(string, Cls)>
    requires 0 <= step < StepCount(v)
  {
    [IntroStates, CheckDeliveriesStates, CheckOrdersStates, DeliverBeerStates,
     OrderDecisionStates, HiddenChallengeStates, BullwhipEffectStates][step]
  }

  // ---------------------------------------------------------------------------
  // The class-list writes of one redraw

  /** Every `.stage-node` loses all four state classes. */
  const ResetStages := Op(AnyOf(StageNode), false, StateTags, {})

  /** `getElementById(stage + "-node")` gains the entry's state. */
  function VisualOp(entry: (string, Cls)): Op
  {
    Op(WithId(entry.0 + "-node"), true, {}, {entry.1})
  }

  function VisualOps(vs: seq<(string, Cls)>): (ops: seq<Op>)
    ensures |ops| == |vs|
    ensures forall k :: 0 <= k < |vs| ==> ops[k] == VisualOp(vs[k])
  {
    seq(|vs|, k requires 0 <= k < |vs| => VisualOp(vs[k]))
  }

  function All(scope: string, kind: Kind, remove: set<Cls>, add: set<Cls>): Op
  {
    Op(Within(scope, kind), false, remove, add)
  }

  function BeerIconOps(step: int): seq<Op>
  {
    if step == 1 then [All(MechanicsSection, BeerIcon, {}, {Animate})]
    else [All(MechanicsSection, BeerIcon, {Animate}, {})]
  }

  function ArrivingBeerOps(step: int): seq<Op>
  {
    if step == 1 then [All(MechanicsSection, ArrivingBeer, {Permanent, Removing}, {Highlight})]
    else if 1 < step < 3 then [All(MechanicsSection, ArrivingBeer, {Highlight, Removing}, {Permanent})]
    else if step >= 3 then
      [All(MechanicsSection, ArrivingBeer, {Highlight}, {})]
      + [Op(WithinLacking(MechanicsSection, ArrivingBeer, Step3Remove), false, {}, {Permanent})]
    else [All(MechanicsSection, ArrivingBeer, {Highlight, Permanent, Removing}, {})]
  }

  function ArrowOps(step: int): seq<Op>
  {
    if step == 2 then [All(MechanicsSection, ArrowVisual, {}, {Reverse})]
    else [All(MechanicsSection, ArrowVisual, {Reverse}, {})]
  }

  function DirectionOps(step: int): seq<Op>
  {
    if step == 2 then
      [Op(Within(MechanicsSection, BeerDirection), true, {Highlighted}, {Dimmed})]
      + [Op(Within(MechanicsSection, OrderDirection), true, {Dimmed}, {Highlighted})]
    else
      [Op(Within(MechanicsSection, BeerDirection), true, {Dimmed}, {Highlighted})]
      + [Op(Within(MechanicsSection, OrderDirection), true, {Highlighted}, {Dimmed})]
  }

  function OrderBoxOps(step: int): seq<Op>
  {
    if step >= 2 then [All(MechanicsSection, OrderBox, {}, {OrderShow})]
    else [All(MechanicsSection, OrderBox, {OrderShow}, {})]
  }

  function StatusOps(step: int): seq<Op>
  {
    if step == 3 then [All(MechanicsSection, StatusIcon, {}, {StatusShow})]
    else [All(MechanicsSection, StatusIcon, {StatusShow}, {})]
  }

  function OrderMarkOps(step: int): seq<Op>
  {
    if step == 4 then
      [All(MechanicsSection, OrderNumber, {}, {Step4Hide})]
      + [All(MechanicsSection, OrderQuestion, {}, {ShowStep4})]
    else
      [All(MechanicsSection, OrderNumber, {Step4Hide}, {})]
      + [All(MechanicsSection, OrderQuestion, {ShowStep4}, {})]
  }

  const DistributorGrid := Within("distributor-node", InventoryGrid)

  function Step3Ops(step: int): seq<Op>
  {
    if step >= 3 then
      [All(MechanicsSection, Step3Show, {}, {ShowStep3})]
      + [Op(DistributorGrid, true, {}, {BacklogBackground})]
    else
      [All(MechanicsSection, Step3Remove, {Removing}, {})]
      + [All(MechanicsSection, Step3Show, {ShowStep3}, {})]
      + [Op(DistributorGrid, true, {BacklogBackground}, {})]
  }

  /** The mechanics narrator's extra writes, in source order. */
  function MechanicsOps(step: int): seq<Op>
  {
    BeerIconOps(step) + ArrivingBeerOps(step) + ArrowOps(step) + DirectionOps(step)
    + OrderBoxOps(step) + StatusOps(step) + OrderMarkOps(step) + Step3Ops(step)
  }

  /** The 500 ms timer armed at step 3: `.step3-remove` beers gain `removing`. */
  const DeferredRemoval := All(MechanicsSection, Step3Remove, {}, {Removing})

  /** Everything `updateVisualization(step)` writes into class lists. */
  function StepOps(v: Variant, step: int): seq<Op>
    requires 0 <= step < StepCount(v)
  {
    [ResetStages] + (if v == Mechanics then MechanicsOps(step) else [])
    + VisualOps(VisualState(v, step))
  }

  /** The mechanics narrator's start-up clean-up, before it draws step 0. */
  const MechanicsInitOps: seq<Op> := [
    All(MechanicsSection, BeerIcon, {Animate}, {}),
    All(MechanicsSection, ArrivingBeer, {Highlight, Permanent, Removing}, {}),
    All(MechanicsSection, OrderBox, {OrderShow}, {}),
    All(MechanicsSection, StatusIcon, {StatusShow}, {}),
    All(MechanicsSection, Step3Show, {ShowStep3}, {}),
    All(MechanicsSection, Step3Remove, {Removing}, {}),
    Op(DistributorGrid, true, {BacklogBackground}, {}),
    All(MechanicsSection, OrderNumber, {Step4Hide}, {}),
    All(MechanicsSection, OrderQuestion, {ShowStep4}, {})
  ]

  // ---------------------------------------------------------------------------
  // The step a scroll event selects

  /** What a narrator's scroll handler does with one event. */
  datatype Reaction = Hide | Stay | Redraw(step: nat)

  /** What the handler reads from one event: whether the position is in the
      section window, and the step the position maps to. */
  datatype Sample = Sample(inside: bool, step: nat)

  function SampleAt(v: Variant, scrollTop: real, sectionTop: real, sectionHeight: real, viewportHeight: real): (e: Sample)
    ensures e.step < StepCount(v)
  {
    Sample(InNarratorSection(scrollTop, sectionTop, sectionHeight, viewportHeight),
           ScrollStep(scrollTop, sectionTop, sectionHeight, viewportHeight, StepCount(v)))
  }

  /** Outside the window the panel is hidden; inside, only a step different
      from the one last drawn is drawn. */
  function Respond(current: nat, e: Sample): Reaction
  {
    if !e.inside then Hide
    else if e.step != current then Redraw(e.step)
    else Stay
  }

  function React(current: nat, v: Variant, scrollTop: real, sectionTop: real, sectionHeight: real, viewportHeight: real): Reaction
  {
    Respond(current, SampleAt(v, scrollTop, sectionTop, sectionHeight, viewportHeight))
  }

  /** `display` of the explanation panel element: unset, `none`, `flex`. */
  datatype Display = Unset | None | Flex

  /** The explanation panel the narrators share. */
  class Panel {
    const hasContent: bool   // #dynamics-explanation-content exists
    const hasText: bool      // #explanation-title and #explanation-text exist
    const hasFrame: bool     // #dynamics-explanation-panel exists
    var title: string
    var text: string
    var visible: bool        // the content element carries `visible`
    var display: Display

    constructor (hasContent: bool, hasText: bool, hasFrame: bool, title: string, text: string, visible: bool)
      ensures this.hasContent == hasContent && this.hasText == hasText && this.hasFrame == hasFrame
      ensures this.title == title && this.text == text && this.visible == visible && display == Unset
    {
      this.hasContent, this.hasText, this.hasFrame := hasContent, hasText, hasFrame;
      this.title, this.text, this.visible := title, text, visible;
      display := Unset;
    }
  }

  class Narrator {
    const variant: Variant
    const doc: Document
    const panel: Panel
    var currentStep: nat
    /** The 500 ms `removing` timers that drawing step 3 armed and that have not fired yet. */
    var armedTimers: nat

    ghost predicate Valid()
      reads this, doc
    {
      doc.Valid() && currentStep < StepCount(variant)
    }


    /** `initBeerGameDynamics` / `initBeerGameMechanics` with both sections present. */
    constructor (variant: Variant, doc: Document, panel: Panel)
      requires doc.Valid()
      modifies doc`classes, panel`title, panel`text, panel`visible, panel`display
      ensures Valid() && this.variant == variant && this.doc == doc && this.panel == panel
      ensures currentStep == 0 && armedTimers == 0
      ensures doc.classes == Run(doc.nodes, old(doc.classes),
                (if variant == Mechanics then MechanicsInitOps else []) + StepOps(variant, 0))
      ensures panel.hasContent && panel.hasText ==>
                panel.title == Intro.title && panel.text == Intro.text && panel.visible
      ensures !(panel.hasContent && panel.hasText) ==>
                panel.title == old(panel.title) && panel.text == old(panel.text)
                && panel.visible == (old(panel.visible) && !(variant == Mechanics && panel.hasContent))
      ensures panel.display == if variant == Mechanics && panel.hasFrame then None else old(panel.display)
    {
      this.variant := variant;
      this.doc := doc;
      this.panel := panel;
      currentStep := 0;
      armedTimers := 0;
      new;
      ghost var start := doc.classes;
      if variant == Mechanics {
        HideExplanation();
        doc.PerformAll(MechanicsInitOps);
      }
      ghost var cleaned := doc.classes;
      assert cleaned == Run(doc.nodes, start, if variant == Mechanics then MechanicsInitOps else []);
      UpdateVisualization(0);
      RunAppend(doc.nodes, start, if variant == Mechanics then MechanicsInitOps else [], StepOps(variant, 0));
    }

    /** `hideExplanation`: leaving the section only hides the panel. */
    method HideExplanation()
      modifies panel`visible, panel`display
      ensures panel.visible == (old(panel.visible) && !panel.hasContent)
      ensures panel.display == if variant == Mechanics && panel.hasFrame then None else old(panel.display)
    {
      if panel.hasContent {
        panel.visible := false;
      }
      if variant == Mechanics && panel.hasFrame {
        panel.display := None;
      }
    }

    /** `updateVisualization(step)`: nothing for a step out of range; otherwise the
        panel shows the step's text, every stage node is reset, the mechanics
        elements follow the step, and the listed stage nodes take their states. */
    method UpdateVisualization(step: int)
      requires doc.Valid()
      modifies doc`classes, panel`title, panel`text, panel`visible, this`armedTimers
      ensures doc.Valid()
      ensures !(0 <= step < StepCount(variant)) ==>
                doc.classes == old(doc.classes) && armedTimers == old(armedTimers)
                && panel.title == old(panel.title) && panel.text == old(panel.text) && panel.visible == old(panel.visible)
      ensures 0 <= step < StepCount(variant) ==>
                && doc.classes == Run(doc.nodes, old(doc.classes), StepOps(variant, step))
                && armedTimers == old(armedTimers) + (if variant == Mechanics && step == 3 then 1 else 0)
                && (panel.hasContent && panel.hasText ==>
                      panel.title == Explanations(variant)[step].title
                      && panel.text == Explanations(variant)[step].text && panel.visible)
                && (!(panel.hasContent && panel.hasText) ==>
                      panel.title == old(panel.title) && panel.text == old(panel.text) && panel.visible == old(panel.visible))
    {
      if step < 0 || step >= StepCount(variant) {
        return;
      }
      var explanation := Explanations(variant)[step];
      if panel.hasContent && panel.hasText {
        panel.title := explanation.title;
        panel.text := explanation.text;
        panel.visible := true;
      }
      ghost var c0 := doc.classes;
      doc.Perform(ResetStages);
      ghost var c1 := doc.classes;
      ghost var extra: seq<Op> := [];
      if variant == Mechanics {
        WriteMechanics(step);
        extra := MechanicsOps(step);
      }
      ghost var c2 := doc.classes;
      assert c2 == Run(doc.nodes, c1, extra);
      ApplyVisualState(explanation.visualState);
      RunAppend(doc.nodes, c0, [ResetStages], extra);
      RunAppend(doc.nodes, c0, [ResetStages] + extra, VisualOps(explanation.visualState));
    }

    /** The mechanics narrator's element groups, in source order. */
    method WriteMechanics(step: int)
      requires doc.Valid()
      modifies doc`classes, this`armedTimers
      ensures doc.Valid() && doc.classes == Run(doc.nodes, old(doc.classes), MechanicsOps(step))
      ensures armedTimers == old(armedTimers) + (if step == 3 then 1 else 0)
    {
      ghost var c0 := doc.classes;
      AnimateBeerIcons(step);
      ShowArrivingBeer(step);
      RunAppend(doc.nodes, c0, BeerIconOps(step), ArrivingBeerOps(step));
      ghost var g := BeerIconOps(step) + ArrivingBeerOps(step);
      TurnArrows(step);
      RunAppend(doc.nodes, c0, g, ArrowOps(step));
      g := g + ArrowOps(step);
      HighlightFlow(step);
      RunAppend(doc.nodes, c0, g, DirectionOps(step));
      g := g + DirectionOps(step);
      ShowOrderBoxes(step);
      RunAppend(doc.nodes, c0, g, OrderBoxOps(step));
      g := g + OrderBoxOps(step);
      ShowStatusIcons(step);
      RunAppend(doc.nodes, c0, g, StatusOps(step));
      g := g + StatusOps(step);
      ShowOrderMarks(step);
      RunAppend(doc.nodes, c0, g, OrderMarkOps(step));
      g := g + OrderMarkOps(step);
      ShowStep3Elements(step);
      RunAppend(doc.nodes, c0, g, Step3Ops(step));
      g := g + Step3Ops(step);
      assert g == MechanicsOps(step);
    }

    /** Beer icons animate only at step 1. */
    method AnimateBeerIcons(step: int)
      requires doc.Valid()
      modifies doc`classes
      ensures doc.Valid() && doc.classes == Run(doc.nodes, old(doc.classes), BeerIconOps(step))
    {
      if step == 1 {
        doc.Perform(All(MechanicsSection, BeerIcon, {}, {Animate}));
      } else {
        doc.Perform(All(MechanicsSection, BeerIcon, {Animate}, {}));
      }
    }

    /** Arriving beer: highlighted at step 1, permanent at step 2, from step 3 on
        unhighlighted and permanent unless it is a `.step3-remove` beer. */
    method ShowArrivingBeer(step: int)
      requires doc.Valid()
      modifies doc`classes
      ensures doc.Valid() && doc.classes == Run(doc.nodes, old(doc.classes), ArrivingBeerOps(step))
    {
      if step == 1 {
        doc.Perform(All(MechanicsSection, ArrivingBeer, {Permanent, Removing}, {Highlight}));
      } else if step > 1 && step < 3 {
        doc.Perform(All(MechanicsSection, ArrivingBeer, {Highlight, Removing}, {Permanent}));
      } else if step >= 3 {
        doc.PerformBoth(All(MechanicsSection, ArrivingBeer, {Highlight}, {}),
                        Op(WithinLacking(MechanicsSection, ArrivingBeer, Step3Remove), false, {}, {Permanent}));
      } else {
        doc.Perform(All(MechanicsSection, ArrivingBeer, {Highlight, Permanent, Removing}, {}));
      }
    }

    /** Arrows reverse only at step 2. */
    method TurnArrows(step: int)
      requires doc.Valid()
      modifies doc`classes
      ensures doc.Valid() && doc.classes == Run(doc.nodes, old(doc.classes), ArrowOps(step))
    {
      if step == 2 {
        doc.Perform(All(MechanicsSection, ArrowVisual, {}, {Reverse}));
      } else {
        doc.Perform(All(MechanicsSection, ArrowVisual, {Reverse}, {}));
      }
    }

    /** The flow labels: orders highlighted at step 2, beer highlighted otherwise. */
    method HighlightFlow(step: int)
      requires doc.Valid()
      modifies doc`classes
      ensures doc.Valid() && doc.classes == Run(doc.nodes, old(doc.classes), DirectionOps(step))
    {
      if step == 2 {
        doc.PerformBoth(Op(Within(MechanicsSection, BeerDirection), true, {Highlighted}, {Dimmed}),
                        Op(Within(MechanicsSection, OrderDirection), true, {Dimmed}, {Highlighted}));
      } else {
        doc.PerformBoth(Op(Within(MechanicsSection, BeerDirection), true, {Dimmed}, {Highlighted}),
                        Op(Within(MechanicsSection, OrderDirection), true, {Highlighted}, {Dimmed}));
      }
    }

    /** Order boxes show from step 2 on. */
    method ShowOrderBoxes(step: int)
      requires doc.Valid()
      modifies doc`classes
      ensures doc.Valid() && doc.classes == Run(doc.nodes, old(doc.classes), OrderBoxOps(step))
    {
      if step >= 2 {
        doc.Perform(All(MechanicsSection, OrderBox, {}, {OrderShow}));
      } else {
        doc.Perform(All(MechanicsSection, OrderBox, {OrderShow}, {}));
      }
    }

    /** Status icons show only at step 3. */
    method ShowStatusIcons(step: int)
      requires doc.Valid()
      modifies doc`classes
      ensures doc.Valid() && doc.classes == Run(doc.nodes, old(doc.classes), StatusOps(step))
    {
      if step == 3 {
        doc.Perform(All(MechanicsSection, StatusIcon, {}, {StatusShow}));
      } else {
        doc.Perform(All(MechanicsSection, StatusIcon, {StatusShow}, {}));
      }
    }

    /** Order numbers give way to question marks only at step 4. */
    method ShowOrderMarks(step: int)
      requires doc.Valid()
      modifies doc`classes
      ensures doc.Valid() && doc.classes == Run(doc.nodes, old(doc.classes), OrderMarkOps(step))
    {
      if step == 4 {
        doc.PerformBoth(All(MechanicsSection, OrderNumber, {}, {Step4Hide}),
                        All(MechanicsSection, OrderQuestion, {}, {ShowStep4}));
      } else {
        doc.PerformBoth(All(MechanicsSection, OrderNumber, {Step4Hide}, {}),
                        All(MechanicsSection, OrderQuestion, {ShowStep4}, {}));
      }
    }

    /** From step 3 on the backlog elements and the distributor's red grid show
        (and at step 3 the `removing` timer is armed); before, they are reset. */
    method ShowStep3Elements(step: int)
      requires doc.Valid()
      modifies doc`classes, this`armedTimers
      ensures doc.Valid() && doc.classes == Run(doc.nodes, old(doc.classes), Step3Ops(step))
      ensures armedTimers == old(armedTimers) + (if step == 3 then 1 else 0)
    {
      if step >= 3 {
        doc.PerformBoth(All(MechanicsSection, Step3Show, {}, {ShowStep3}),
                        Op(DistributorGrid, true, {}, {BacklogBackground}));
        if step == 3 {
          armedTimers := armedTimers + 1;
        }
      } else {
        ghost var c0 := doc.classes;
        doc.PerformBoth(All(MechanicsSection, Step3Remove, {Removing}, {}),
                        All(MechanicsSection, Step3Show, {ShowStep3}, {}));
        ghost var c1 := doc.classes;
        doc.Perform(Op(DistributorGrid, true, {BacklogBackground}, {}));
        RunAppend(doc.nodes, c0,
                  [All(MechanicsSection, Step3Remove, {Removing}, {})] + [All(MechanicsSection, Step3Show, {ShowStep3}, {})],
                  [Op(DistributorGrid, true, {BacklogBackground}, {})]);
      }
    }

    /** `Object.entries(visualState).forEach(...)`: each listed stage's node gains its state. */
    method ApplyVisualState(vs: seq<(string, Cls)>)
      requires doc.Valid()
      modifies doc`classes
      ensures doc.Valid() && doc.classes == Run(doc.nodes, old(doc.classes), VisualOps(vs))
    {
      var k := 0;
      while k < |vs|
        invariant 0 <= k <= |vs|
        invariant doc.Valid() && doc.classes == Run(doc.nodes, old(doc.classes), VisualOps(vs[..k]))
      {
        assert VisualOps(vs[..k + 1]) == VisualOps(vs[..k]) + [VisualOp(vs[k])];
        RunSnoc(doc.nodes, old(doc.classes), VisualOps(vs[..k]), VisualOp(vs[k]));
        doc.Perform(VisualOp(vs[k]));
        k := k + 1;
      }
      assert vs[..k] == vs;
    }

    /** The scroll handler. Inside the section (half a viewport of lead-in) the
        mechanics narrator shows its panel, and a step different from the last
        drawn one is drawn; outside, the panel is only hidden and `currentStep`
        is kept. */
    method OnScroll(scrollTop: real, sectionTop: real, sectionHeight: real, viewportHeight: real)
      requires Valid()
      modifies this`currentStep, this`armedTimers, doc`classes, panel`title, panel`text, panel`visible, panel`display
      ensures Valid()
      ensures var r := React(old(currentStep), variant, scrollTop, sectionTop, sectionHeight, viewportHeight);
              && currentStep == (if r.Redraw? then r.step else old(currentStep))
              && doc.classes == (if r.Redraw? then Run(doc.nodes, old(doc.classes), StepOps(variant, r.step)) else old(doc.classes))
              && armedTimers == old(armedTimers) + (if r.Redraw? && variant == Mechanics && r.step == 3 then 1 else 0)
              && panel.display == (if variant == Mechanics && panel.hasFrame then (if r == Hide then None else Flex) else old(panel.display))
              && (r == Hide ==> panel.visible == (old(panel.visible) && !panel.hasContent))
              && (r == Stay ==> panel.visible == old(panel.visible))
              && (r.Redraw? && !(panel.hasContent && panel.hasText) ==> panel.visible == old(panel.visible))
              && (r.Redraw? && panel.hasContent && panel.hasText ==>
                    panel.title == Explanations(variant)[r.step].title
                    && panel.text == Explanations(variant)[r.step].text && panel.visible)
              && (!(r.Redraw? && panel.hasContent && panel.hasText) ==>
                    panel.title == old(panel.title) && panel.text == old(panel.text))
    {
      if InNarratorSection(scrollTop, sectionTop, sectionHeight, viewportHeight) {
        if variant == Mechanics && panel.hasFrame {
          panel.display := Flex;
        }
        var newStep := ScrollStep(scrollTop, sectionTop, sectionHeight, viewportHeight, StepCount(variant));
        if newStep != currentStep {
          currentStep := newStep;
          UpdateVisualization(currentStep);
        }
      } else {
        HideExplanation();
      }
    }

    /** One of the armed 500 ms timers fires: the `.step3-remove` beers gain
        `removing`, whatever step is drawn by then. Every timer performs the
        same write, so which of them fires first does not matter. */
    method FireDeferredRemoval()
      requires Valid()
      modifies this`armedTimers, doc`classes
      ensures Valid()
      ensures armedTimers == if old(armedTimers) > 0 then old(armedTimers) - 1 else 0
      ensures doc.classes == if old(armedTimers) > 0 then Apply(doc.nodes, old(doc.classes), DeferredRemoval) else old(doc.classes)
    {
      if armedTimers > 0 {
        doc.Perform(DeferredRemoval);
        armedTimers := armedTimers - 1;
      }
    }
  }
}
