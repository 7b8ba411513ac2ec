/**
 * What a narrator's redraw leaves in the class lists, stated per element and
 * per class against the step rules of the two narrators, and what a run of
 * scroll events draws.
 */
module NarratorProperties {
  import opened StepMapping
  import opened Dom
  import opened Narrators

  /** The element is a `.kind` inside the mechanics section. */
  predicate InMechanics(n: Node, k: Kind)
  {
    MechanicsSection in n.ancestors && k in n.kinds
  }

  // ---------------------------------------------------------------------------
  // The mechanics element groups, one at a time

  lemma BeerIconWrite(nodes: seq<Node>, step: int, i: int, c: Cls)
    requires 0 <= i < |nodes|
    ensures LastWrite(nodes, BeerIconOps(step), i, c) ==
              if c == Animate && InMechanics(nodes[i], BeerIcon) then (if step == 1 then Added else Removed) else Untouched
  {
    LastWriteSingle(nodes, BeerIconOps(step)[0], i, c);
  }

  lemma ArrivingBeerWrite(nodes: seq<Node>, step: int, i: int, c: Cls)
    requires 0 <= i < |nodes|
    ensures var n := nodes[i];
            LastWrite(nodes, ArrivingBeerOps(step), i, c) ==
              if !InMechanics(n, ArrivingBeer) then Untouched
              else if c == Highlight then (if step == 1 then Added else Removed)
              else if c == Permanent then
                (if step == 2 then Added
                 else if step >= 3 then (if Step3Remove in n.kinds then Untouched else Added)
                 else Removed)
              else if c == Removing then (if step < 3 then Removed else Untouched)
              else Untouched
  {
    if step >= 3 {
      LastWritePair(nodes, All(MechanicsSection, ArrivingBeer, {Highlight}, {}),
                    Op(WithinLacking(MechanicsSection, ArrivingBeer, Step3Remove), false, {}, {Permanent}), i, c);
    } else {
      LastWriteSingle(nodes, ArrivingBeerOps(step)[0], i, c);
    }
  }

  lemma ArrowWrite(nodes: seq<Node>, step: int, i: int, c: Cls)
    requires 0 <= i < |nodes|
    ensures LastWrite(nodes, ArrowOps(step), i, c) ==
              if c == Reverse && InMechanics(nodes[i], ArrowVisual) then (if step == 2 then Added else Removed) else Untouched
  {
    LastWriteSingle(nodes, ArrowOps(step)[0], i, c);
  }

  lemma DirectionWrite(nodes: seq<Node>, step: int, i: int, c: Cls)
    requires 0 <= i < |nodes|
    ensures var beerLabel := i == FirstMatch(nodes, Within(MechanicsSection, BeerDirection));
            var orderLabel := i == FirstMatch(nodes, Within(MechanicsSection, OrderDirection));
            LastWrite(nodes, DirectionOps(step), i, c) ==
              if c == Highlighted then
                (if orderLabel then (if step == 2 then Added else Removed)
                 else if beerLabel then (if step == 2 then Removed else Added)
                 else Untouched)
              else if c == Dimmed then
                (if orderLabel then (if step == 2 then Removed else Added)
                 else if beerLabel then (if step == 2 then Added else Removed)
                 else Untouched)
              else Untouched
  {
    var beer := Within(MechanicsSection, BeerDirection);
    var order := Within(MechanicsSection, OrderDirection);
    var beerLabel := i == FirstMatch(nodes, beer);
    var orderLabel := i == FirstMatch(nodes, order);
    if step == 2 {
      LastWritePair(nodes, Op(beer, true, {Highlighted}, {Dimmed}), Op(order, true, {Dimmed}, {Highlighted}), i, c);
    } else {
      LastWritePair(nodes, Op(beer, true, {Dimmed}, {Highlighted}), Op(order, true, {Highlighted}, {Dimmed}), i, c);
    }
  }

  lemma OrderBoxWrite(nodes: seq<Node>, step: int, i: int, c: Cls)
    requires 0 <= i < |nodes|
    ensures LastWrite(nodes, OrderBoxOps(step), i, c) ==
              if c == OrderShow && InMechanics(nodes[i], OrderBox) then (if step >= 2 then Added else Removed) else Untouched
  {
    LastWriteSingle(nodes, OrderBoxOps(step)[0], i, c);
  }

  lemma StatusWrite(nodes: seq<Node>, step: int, i: int, c: Cls)
    requires 0 <= i < |nodes|
    ensures LastWrite(nodes, StatusOps(step), i, c) ==
              if c == StatusShow && InMechanics(nodes[i], StatusIcon) then (if step == 3 then Added else Removed) else Untouched
  {
    LastWriteSingle(nodes, StatusOps(step)[0], i, c);
  }

  lemma OrderMarkWrite(nodes: seq<Node>, step: int, i: int, c: Cls)
    requires 0 <= i < |nodes|
    ensures LastWrite(nodes, OrderMarkOps(step), i, c) ==
              if c == Step4Hide && InMechanics(nodes[i], OrderNumber) then (if step == 4 then Added else Removed)
              else if c == ShowStep4 && InMechanics(nodes[i], OrderQuestion) then (if step == 4 then Added else Removed)
              else Untouched
  {
    if step == 4 {
      LastWritePair(nodes, All(MechanicsSection, OrderNumber, {}, {Step4Hide}),
                    All(MechanicsSection, OrderQuestion, {}, {ShowStep4}), i, c);
    } else {
      LastWritePair(nodes, All(MechanicsSection, OrderNumber, {Step4Hide}, {}),
                    All(MechanicsSection, OrderQuestion, {ShowStep4}, {}), i, c);
    }
  }

  lemma Step3Write(nodes: seq<Node>, step: int, i: int, c: Cls)
    requires 0 <= i < |nodes|
    ensures var grid := i == FirstMatch(nodes, DistributorGrid);
            LastWrite(nodes, Step3Ops(step), i, c) ==
              if c == ShowStep3 && InMechanics(nodes[i], Step3Show) then (if step >= 3 then Added else Removed)
              else if c == BacklogBackground && grid then (if step >= 3 then Added else Removed)
              else if c == Removing && step < 3 && InMechanics(nodes[i], Step3Remove) then Removed
              else Untouched
  {
    if step >= 3 {
      LastWritePair(nodes, All(MechanicsSection, Step3Show, {}, {ShowStep3}),
                    Op(DistributorGrid, true, {}, {BacklogBackground}), i, c);
    } else {
      var unmark := All(MechanicsSection, Step3Remove, {Removing}, {});
      var unshow := All(MechanicsSection, Step3Show, {ShowStep3}, {});
      var ungrid := Op(DistributorGrid, true, {BacklogBackground}, {});
      LastWriteAppend(nodes, [unmark] + [unshow], [ungrid], i, c);
      LastWritePair(nodes, unmark, unshow, i, c);
      LastWriteSingle(nodes, ungrid, i, c);
    }
  }

  /** The mechanics writes are the groups' writes, later groups winning. */
  lemma {:induction false} MechanicsWrite(nodes: seq<Node>, step: int, i: int, c: Cls)
    requires 0 <= i < |nodes|
    ensures LastWrite(nodes, MechanicsOps(step), i, c) ==
              Then(Then(Then(Then(Then(Then(Then(
                LastWrite(nodes, BeerIconOps(step), i, c),
                LastWrite(nodes, ArrivingBeerOps(step), i, c)),
                LastWrite(nodes, ArrowOps(step), i, c)),
                LastWrite(nodes, DirectionOps(step), i, c)),
                LastWrite(nodes, OrderBoxOps(step), i, c)),
                LastWrite(nodes, StatusOps(step), i, c)),
                LastWrite(nodes, OrderMarkOps(step), i, c)),
                LastWrite(nodes, Step3Ops(step), i, c))
  {
    var g := BeerIconOps(step);
    LastWriteAppend(nodes, g, ArrivingBeerOps(step), i, c);
    g := g + ArrivingBeerOps(step);
    LastWriteAppend(nodes, g, ArrowOps(step), i, c);
    g := g + ArrowOps(step);
    LastWriteAppend(nodes, g, DirectionOps(step), i, c);
    g := g + DirectionOps(step);
    LastWriteAppend(nodes, g, OrderBoxOps(step), i, c);
    g := g + OrderBoxOps(step);
    LastWriteAppend(nodes, g, StatusOps(step), i, c);
    g := g + StatusOps(step);
    LastWriteAppend(nodes, g, OrderMarkOps(step), i, c);
    g := g + OrderMarkOps(step);
    LastWriteAppend(nodes, g, Step3Ops(step), i, c);
  }

  // ---------------------------------------------------------------------------
  // The mechanics step rules

  /** Whether element `i` carries class `c` after the mechanics narrator draws
      `step`, by the step rules of its element groups; `had` is whether it
      carried `c` before. The arriving beer's `permanent` and `removing` from
      step 3 on are the only rules that depend on the past. */
  function MechanicsClass(nodes: seq<Node>, i: int, step: int, c: Cls, had: bool): bool
    requires 0 <= i < |nodes|
  {
    var n := nodes[i];
    var beerLabel := i == FirstMatch(nodes, Within(MechanicsSection, BeerDirection));
    var orderLabel := i == FirstMatch(nodes, Within(MechanicsSection, OrderDirection));
    match c
    case Animate => if InMechanics(n, BeerIcon) then step == 1 else had
    case Highlight => if InMechanics(n, ArrivingBeer) then step == 1 else had
    case Permanent =>
      if !InMechanics(n, ArrivingBeer) then had
      else if step >= 3 then Step3Remove !in n.kinds || had
      else step == 2
    case Removing =>
      if step < 3 && (InMechanics(n, ArrivingBeer) || InMechanics(n, Step3Remove)) then false else had
    case Reverse => if InMechanics(n, ArrowVisual) then step == 2 else had
    case Highlighted => if orderLabel then step == 2 else if beerLabel then step != 2 else had
    case Dimmed => if orderLabel then step != 2 else if beerLabel then step == 2 else had
    case OrderShow => if InMechanics(n, OrderBox) then step >= 2 else had
    case StatusShow => if InMechanics(n, StatusIcon) then step == 3 else had
    case Step4Hide => if InMechanics(n, OrderNumber) then step == 4 else had
    case ShowStep4 => if InMechanics(n, OrderQuestion) then step == 4 else had
    case ShowStep3 => if InMechanics(n, Step3Show) then step >= 3 else had
    case BacklogBackground => if i == FirstMatch(nodes, DistributorGrid) then step >= 3 else had
    case Excess => had
    case Normal => had
    case Backlog => had
  }

  /** The mechanics writes alone, before the stage nodes are involved: they
      follow the step rules. */
  lemma MechanicsOpsRules(nodes: seq<Node>, step: int, i: int, c: Cls, had: bool)
    requires 0 <= i < |nodes|
    ensures Holds(LastWrite(nodes, MechanicsOps(step), i, c), had) == MechanicsClass(nodes, i, step, c, had)
  {
    match c
    case Animate => AnimateRule(nodes, step, i, had);
    case Highlight => HighlightRule(nodes, step, i, had);
    case Permanent => PermanentRule(nodes, step, i, had);
    case Removing => RemovingRule(nodes, step, i, had);
    case Reverse => ReverseRule(nodes, step, i, had);
    case Highlighted => HighlightedRule(nodes, step, i, had);
    case Dimmed => DimmedRule(nodes, step, i, had);
    case OrderShow => OrderShowRule(nodes, step, i, had);
    case StatusShow => StatusShowRule(nodes, step, i, had);
    case Step4Hide => Step4HideRule(nodes, step, i, had);
    case ShowStep4 => ShowStep4Rule(nodes, step, i, had);
    case ShowStep3 => ShowStep3Rule(nodes, step, i, had);
    case BacklogBackground => BacklogBackgroundRule(nodes, step, i, had);
    case _ => UnwrittenStateRules(nodes, step, i, c, had);
  }

  /** Written by the beer-icon group alone. */
  lemma AnimateRule(nodes: seq<Node>, step: int, i: int, had: bool)
    requires 0 <= i < |nodes|
    ensures Holds(LastWrite(nodes, MechanicsOps(step), i, Animate), had) == MechanicsClass(nodes, i, step, Animate, had)
  {
    ArrivingBeerWrite(nodes, step, i, Animate);
    ArrowWrite(nodes, step, i, Animate);
    DirectionWrite(nodes, step, i, Animate);
    OrderBoxWrite(nodes, step, i, Animate);
    StatusWrite(nodes, step, i, Animate);
    OrderMarkWrite(nodes, step, i, Animate);
    Step3Write(nodes, step, i, Animate);
    MechanicsWrite(nodes, step, i, Animate);
    assert LastWrite(nodes, MechanicsOps(step), i, Animate) == LastWrite(nodes, BeerIconOps(step), i, Animate);
    BeerIconWrite(nodes, step, i, Animate);
  }

  /** Written by the arriving-beer group alone. */
  lemma HighlightRule(nodes: seq<Node>, step: int, i: int, had: bool)
    requires 0 <= i < |nodes|
    ensures Holds(LastWrite(nodes, MechanicsOps(step), i, Highlight), had) == MechanicsClass(nodes, i, step, Highlight, had)
  {
    BeerIconWrite(nodes, step, i, Highlight);
    ArrowWrite(nodes, step, i, Highlight);
    DirectionWrite(nodes, step, i, Highlight);
    OrderBoxWrite(nodes, step, i, Highlight);
    StatusWrite(nodes, step, i, Highlight);
    OrderMarkWrite(nodes, step, i, Highlight);
    Step3Write(nodes, step, i, Highlight);
    MechanicsWrite(nodes, step, i, Highlight);
    assert LastWrite(nodes, MechanicsOps(step), i, Highlight) == LastWrite(nodes, ArrivingBeerOps(step), i, Highlight);
    ArrivingBeerWrite(nodes, step, i, Highlight);
  }

  /** Written by the arriving-beer group alone. */
  lemma PermanentRule(nodes: seq<Node>, step: int, i: int, had: bool)
    requires 0 <= i < |nodes|
    ensures Holds(LastWrite(nodes, MechanicsOps(step), i, Permanent), had) == MechanicsClass(nodes, i, step, Permanent, had)
  {
    BeerIconWrite(nodes, step, i, Permanent);
    ArrowWrite(nodes, step, i, Permanent);
    DirectionWrite(nodes, step, i, Permanent);
    OrderBoxWrite(nodes, step, i, Permanent);
    StatusWrite(nodes, step, i, Permanent);
    OrderMarkWrite(nodes, step, i, Permanent);
    Step3Write(nodes, step, i, Permanent);
    MechanicsWrite(nodes, step, i, Permanent);
    assert LastWrite(nodes, MechanicsOps(step), i, Permanent) == LastWrite(nodes, ArrivingBeerOps(step), i, Permanent);
    ArrivingBeerWrite(nodes, step, i, Permanent);
  }

  /** Written by the arriving-beer group, then the step-3 group. */
  lemma RemovingRule(nodes: seq<Node>, step: int, i: int, had: bool)
    requires 0 <= i < |nodes|
    ensures Holds(LastWrite(nodes, MechanicsOps(step), i, Removing), had) == MechanicsClass(nodes, i, step, Removing, had)
  {
    BeerIconWrite(nodes, step, i, Removing);
    ArrowWrite(nodes, step, i, Removing);
    DirectionWrite(nodes, step, i, Removing);
    OrderBoxWrite(nodes, step, i, Removing);
    StatusWrite(nodes, step, i, Removing);
    OrderMarkWrite(nodes, step, i, Removing);
    MechanicsWrite(nodes, step, i, Removing);
    assert LastWrite(nodes, MechanicsOps(step), i, Removing) ==
             Then(LastWrite(nodes, ArrivingBeerOps(step), i, Removing), LastWrite(nodes, Step3Ops(step), i, Removing));
    ArrivingBeerWrite(nodes, step, i, Removing);
    Step3Write(nodes, step, i, Removing);
  }

  /** Written by the arrow group alone. */
  lemma ReverseRule(nodes: seq<Node>, step: int, i: int, had: bool)
    requires 0 <= i < |nodes|
    ensures Holds(LastWrite(nodes, MechanicsOps(step), i, Reverse), had) == MechanicsClass(nodes, i, step, Reverse, had)
  {
    BeerIconWrite(nodes, step, i, Reverse);
    ArrivingBeerWrite(nodes, step, i, Reverse);
    DirectionWrite(nodes, step, i, Reverse);
    OrderBoxWrite(nodes, step, i, Reverse);
    StatusWrite(nodes, step, i, Reverse);
    OrderMarkWrite(nodes, step, i, Reverse);
    Step3Write(nodes, step, i, Reverse);
    MechanicsWrite(nodes, step, i, Reverse);
    assert LastWrite(nodes, MechanicsOps(step), i, Reverse) == LastWrite(nodes, ArrowOps(step), i, Reverse);
    ArrowWrite(nodes, step, i, Reverse);
  }

  /** Written by the flow-label group alone. */
  lemma HighlightedRule(nodes: seq<Node>, step: int, i: int, had: bool)
    requires 0 <= i < |nodes|
    ensures Holds(LastWrite(nodes, MechanicsOps(step), i, Highlighted), had) == MechanicsClass(nodes, i, step, Highlighted, had)
  {
    BeerIconWrite(nodes, step, i, Highlighted);
    ArrivingBeerWrite(nodes, step, i, Highlighted);
    ArrowWrite(nodes, step, i, Highlighted);
    OrderBoxWrite(nodes, step, i, Highlighted);
    StatusWrite(nodes, step, i, Highlighted);
    OrderMarkWrite(nodes, step, i, Highlighted);
    Step3Write(nodes, step, i, Highlighted);
    MechanicsWrite(nodes, step, i, Highlighted);
    assert LastWrite(nodes, MechanicsOps(step), i, Highlighted) == LastWrite(nodes, DirectionOps(step), i, Highlighted);
    DirectionWrite(nodes, step, i, Highlighted);
  }

  /** Written by the flow-label group alone. */
  lemma DimmedRule(nodes: seq<Node>, step: int, i: int, had: bool)
    requires 0 <= i < |nodes|
    ensures Holds(LastWrite(nodes, MechanicsOps(step), i, Dimmed), had) == MechanicsClass(nodes, i, step, Dimmed, had)
  {
    BeerIconWrite(nodes, step, i, Dimmed);
    ArrivingBeerWrite(nodes, step, i, Dimmed);
    ArrowWrite(nodes, step, i, Dimmed);
    OrderBoxWrite(nodes, step, i, Dimmed);
    StatusWrite(nodes, step, i, Dimmed);
    OrderMarkWrite(nodes, step, i, Dimmed);
    Step3Write(nodes, step, i, Dimmed);
    MechanicsWrite(nodes, step, i, Dimmed);
    assert LastWrite(nodes, MechanicsOps(step), i, Dimmed) == LastWrite(nodes, DirectionOps(step), i, Dimmed);
    DirectionWrite(nodes, step, i, Dimmed);
  }

  /** Written by the order-box group alone. */
  lemma OrderShowRule(nodes: seq<Node>, step: int, i: int, had: bool)
    requires 0 <= i < |nodes|
    ensures Holds(LastWrite(nodes, MechanicsOps(step), i, OrderShow), had) == MechanicsClass(nodes, i, step, OrderShow, had)
  {
    BeerIconWrite(nodes, step, i, OrderShow);
    ArrivingBeerWrite(nodes, step, i, OrderShow);
    ArrowWrite(nodes, step, i, OrderShow);
    DirectionWrite(nodes, step, i, OrderShow);
    StatusWrite(nodes, step, i, OrderShow);
    OrderMarkWrite(nodes, step, i, OrderShow);
    Step3Write(nodes, step, i, OrderShow);
    MechanicsWrite(nodes, step, i, OrderShow);
    assert LastWrite(nodes, MechanicsOps(step), i, OrderShow) == LastWrite(nodes, OrderBoxOps(step), i, OrderShow);
    OrderBoxWrite(nodes, step, i, OrderShow);
  }

  /** Written by the status-icon group alone. */
  lemma StatusShowRule(nodes: seq<Node>, step: int, i: int, had: bool)
    requires 0 <= i < |nodes|
    ensures Holds(LastWrite(nodes, MechanicsOps(step), i, StatusShow), had) == MechanicsClass(nodes, i, step, StatusShow, had)
  {
    BeerIconWrite(nodes, step, i, StatusShow);
    ArrivingBeerWrite(nodes, step, i, StatusShow);
    ArrowWrite(nodes, step, i, StatusShow);
    DirectionWrite(nodes, step, i, StatusShow);
    OrderBoxWrite(nodes, step, i, StatusShow);
    OrderMarkWrite(nodes, step, i, StatusShow);
    Step3Write(nodes, step, i, StatusShow);
    MechanicsWrite(nodes, step, i, StatusShow);
    assert LastWrite(nodes, MechanicsOps(step), i, StatusShow) == LastWrite(nodes, StatusOps(step), i, StatusShow);
    StatusWrite(nodes, step, i, StatusShow);
  }

  /** Written by the order-mark group alone. */
  lemma Step4HideRule(nodes: seq<Node>, step: int, i: int, had: bool)
    requires 0 <= i < |nodes|
    ensures Holds(LastWrite(nodes, MechanicsOps(step), i, Step4Hide), had) == MechanicsClass(nodes, i, step, Step4Hide, had)
  {
    BeerIconWrite(nodes, step, i, Step4Hide);
    ArrivingBeerWrite(nodes, step, i, Step4Hide);
    ArrowWrite(nodes, step, i, Step4Hide);
    DirectionWrite(nodes, step, i, Step4Hide);
    OrderBoxWrite(nodes, step, i, Step4Hide);
    StatusWrite(nodes, step, i, Step4Hide);
    Step3Write(nodes, step, i, Step4Hide);
    MechanicsWrite(nodes, step, i, Step4Hide);
    assert LastWrite(nodes, MechanicsOps(step), i, Step4Hide) == LastWrite(nodes, OrderMarkOps(step), i, Step4Hide);
    OrderMarkWrite(nodes, step, i, Step4Hide);
  }

  /** Written by the order-mark group alone. */
  lemma ShowStep4Rule(nodes: seq<Node>, step: int, i: int, had: bool)
    requires 0 <= i < |nodes|
    ensures Holds(LastWrite(nodes, MechanicsOps(step), i, ShowStep4), had) == MechanicsClass(nodes, i, step, ShowStep4, had)
  {
    BeerIconWrite(nodes, step, i, ShowStep4);
    ArrivingBeerWrite(nodes, step, i, ShowStep4);
    ArrowWrite(nodes, step, i, ShowStep4);
    DirectionWrite(nodes, step, i, ShowStep4);
    OrderBoxWrite(nodes, step, i, ShowStep4);
    StatusWrite(nodes, step, i, ShowStep4);
    Step3Write(nodes, step, i, ShowStep4);
    MechanicsWrite(nodes, step, i, ShowStep4);
    assert LastWrite(nodes, MechanicsOps(step), i, ShowStep4) == LastWrite(nodes, OrderMarkOps(step), i, ShowStep4);
    OrderMarkWrite(nodes, step, i, ShowStep4);
  }

  /** Written by the step-3 group alone. */
  lemma ShowStep3Rule(nodes: seq<Node>, step: int, i: int, had: bool)
    requires 0 <= i < |nodes|
    ensures Holds(LastWrite(nodes, MechanicsOps(step), i, ShowStep3), had) == MechanicsClass(nodes, i, step, ShowStep3, had)
  {
    BeerIconWrite(nodes, step, i, ShowStep3);
    ArrivingBeerWrite(nodes, step, i, ShowStep3);
    ArrowWrite(nodes, step, i, ShowStep3);
    DirectionWrite(nodes, step, i, ShowStep3);
    OrderBoxWrite(nodes, step, i, ShowStep3);
    StatusWrite(nodes, step, i, ShowStep3);
    OrderMarkWrite(nodes, step, i, ShowStep3);
    MechanicsWrite(nodes, step, i, ShowStep3);
    assert LastWrite(nodes, MechanicsOps(step), i, ShowStep3) == LastWrite(nodes, Step3Ops(step), i, ShowStep3);
    Step3Write(nodes, step, i, ShowStep3);
  }

  /** Written by the step-3 group alone. */
  lemma BacklogBackgroundRule(nodes: seq<Node>, step: int, i: int, had: bool)
    requires 0 <= i < |nodes|
    ensures Holds(LastWrite(nodes, MechanicsOps(step), i, BacklogBackground), had) == MechanicsClass(nodes, i, step, BacklogBackground, had)
  {
    BeerIconWrite(nodes, step, i, BacklogBackground);
    ArrivingBeerWrite(nodes, step, i, BacklogBackground);
    ArrowWrite(nodes, step, i, BacklogBackground);
    DirectionWrite(nodes, step, i, BacklogBackground);
    OrderBoxWrite(nodes, step, i, BacklogBackground);
    StatusWrite(nodes, step, i, BacklogBackground);
    OrderMarkWrite(nodes, step, i, BacklogBackground);
    MechanicsWrite(nodes, step, i, BacklogBackground);
    assert LastWrite(nodes, MechanicsOps(step), i, BacklogBackground) == LastWrite(nodes, Step3Ops(step), i, BacklogBackground);
    Step3Write(nodes, step, i, BacklogBackground);
    assert MechanicsClass(nodes, i, step, BacklogBackground, had) ==
             if i == FirstMatch(nodes, DistributorGrid) then step >= 3 else had;
  }

  /** No mechanics write touches the stage-node states other than `highlight`. */
  lemma UnwrittenStateRules(nodes: seq<Node>, step: int, i: int, c: Cls, had: bool)
    requires 0 <= i < |nodes| && (c == Excess || c == Normal || c == Backlog)
    ensures Holds(LastWrite(nodes, MechanicsOps(step), i, c), had) == MechanicsClass(nodes, i, step, c, had)
  {
    BeerIconWrite(nodes, step, i, c);
    ArrivingBeerWrite(nodes, step, i, c);
    ArrowWrite(nodes, step, i, c);
    DirectionWrite(nodes, step, i, c);
    OrderBoxWrite(nodes, step, i, c);
    StatusWrite(nodes, step, i, c);
    OrderMarkWrite(nodes, step, i, c);
    Step3Write(nodes, step, i, c);
    MechanicsWrite(nodes, step, i, c);
  }

  // ---------------------------------------------------------------------------
  // A whole redraw

  /** Every state a step lists is one of the four stage-node states. */
  lemma VisualStatesAreStates(v: Variant, step: int)
    requires 0 <= step < StepCount(v)
    ensures forall k :: 0 <= k < |VisualState(v, step)| ==>
              VisualState(v, step)[k].1 in StateTags
  {
  }

  /** No step lists a stage twice. */
  lemma StagesListedOnce(v: Variant, step: int)
    requires 0 <= step < StepCount(v)
    ensures var vs := VisualState(v, step);
            forall j, k :: 0 <= j < k < |vs| ==> vs[j].0 != vs[k].0
  {
  }

  /** The listed stages other than their states write nothing. */
  lemma VisualOpsWrite(nodes: seq<Node>, vs: seq<(string, Cls)>, i: int, c: Cls)
    requires 0 <= i < |nodes|
    ensures LastWrite(nodes, VisualOps(vs), i, c) ==
              if exists k :: 0 <= k < |vs| && vs[k].1 == c && i == FirstMatch(nodes, WithId(vs[k].0 + "-node"))
              then Added else Untouched
  {
    var ops := VisualOps(vs);
    LastWriteOfAdditions(nodes, ops, i, c);
    if exists k :: 0 <= k < |ops| && Targets(nodes, ops[k], i) && c in ops[k].add {
      var k :| 0 <= k < |ops| && Targets(nodes, ops[k], i) && c in ops[k].add;
      assert vs[k].1 == c && i == FirstMatch(nodes, WithId(vs[k].0 + "-node"));
    }
    if exists k :: 0 <= k < |vs| && vs[k].1 == c && i == FirstMatch(nodes, WithId(vs[k].0 + "-node")) {
      var k :| 0 <= k < |vs| && vs[k].1 == c && i == FirstMatch(nodes, WithId(vs[k].0 + "-node"));
      assert Targets(nodes, ops[k], i) && c in ops[k].add;
    }
  }

  /** The reset and the listed states leave alone every class that is not a
      state, and the states of an element that is not a stage node and has no id. */
  lemma StageWritesSpare(v: Variant, nodes: seq<Node>, step: int, i: int, c: Cls)
    requires 0 <= i < |nodes| && 0 <= step < StepCount(v)
    requires c in StateTags ==> StageNode !in nodes[i].kinds && nodes[i].id == ""
    ensures WriteOf(nodes, ResetStages, i, c) == Untouched
    ensures LastWrite(nodes, VisualOps(VisualState(v, step)), i, c) == Untouched
  {
    var vs := VisualState(v, step);
    VisualOpsWrite(nodes, vs, i, c);
    VisualStatesAreStates(v, step);
    if c in StateTags {
      forall k | 0 <= k < |vs|
        ensures i != FirstMatch(nodes, WithId(vs[k].0 + "-node"))
      {
        assert !Matches(nodes[i], WithId(vs[k].0 + "-node"));
      }
    }
  }

  /** Drawing `step` of the mechanics narrator: every class that is not a stage
      state, on any element, and `highlight` on an element that is neither a
      stage node nor has an id (the arriving beers), follows the step rules. */
  lemma MechanicsRedraw(nodes: seq<Node>, classes: seq<set<Cls>>, step: int, i: int, c: Cls)
    requires |classes| == |nodes| && 0 <= i < |nodes| && 0 <= step < StepCount(Mechanics)
    requires c in StateTags ==> StageNode !in nodes[i].kinds && nodes[i].id == ""
    ensures (c in Run(nodes, classes, StepOps(Mechanics, step))[i]) == MechanicsClass(nodes, i, step, c, c in classes[i])
  {
    var vs := VisualState(Mechanics, step);
    var mech := MechanicsOps(step);
    RunLastWrite(nodes, classes, StepOps(Mechanics, step), i, c);
    assert StepOps(Mechanics, step) == [ResetStages] + mech + VisualOps(vs);
    LastWriteAppend(nodes, [ResetStages] + mech, VisualOps(vs), i, c);
    LastWriteAppend(nodes, [ResetStages], mech, i, c);
    LastWriteSingle(nodes, ResetStages, i, c);
    StageWritesSpare(Mechanics, nodes, step, i, c);
    assert LastWrite(nodes, StepOps(Mechanics, step), i, c) == LastWrite(nodes, mech, i, c);
    MechanicsOpsRules(nodes, step, i, c, c in classes[i]);
  }

  /** A reset of the stage nodes, writes that leave class `c` of element `i`
      alone, then the listed states: a stage node carries `c` exactly when a
      listed stage's node is it and its state is `c`. */
  lemma {:induction false} RedrawStage(nodes: seq<Node>, classes: seq<set<Cls>>, extra: seq<Op>, vs: seq<(string, Cls)>, i: int, c: Cls)
    requires |classes| == |nodes| && 0 <= i < |nodes|
    requires StageNode in nodes[i].kinds && c in StateTags
    requires LastWrite(nodes, extra, i, c) == Untouched
    ensures c in Run(nodes, classes, [ResetStages] + extra + VisualOps(vs))[i] <==>
              exists k :: 0 <= k < |vs| && vs[k].1 == c && i == FirstMatch(nodes, WithId(vs[k].0 + "-node"))
  {
    RunLastWrite(nodes, classes, [ResetStages] + extra + VisualOps(vs), i, c);
    LastWriteAppend(nodes, [ResetStages] + extra, VisualOps(vs), i, c);
    LastWriteAppend(nodes, [ResetStages], extra, i, c);
    LastWriteSingle(nodes, ResetStages, i, c);
    VisualOpsWrite(nodes, vs, i, c);
  }

  /** The mechanics writes leave the states of a stage node alone, unless it is
      also an arriving beer of the mechanics section. */
  lemma MechanicsSpareStages(nodes: seq<Node>, step: int, i: int, c: Cls)
    requires 0 <= i < |nodes|
    requires c in StateTags && !InMechanics(nodes[i], ArrivingBeer)
    ensures LastWrite(nodes, MechanicsOps(step), i, c) == Untouched
  {
    assert c != Animate && c != Permanent && c != Removing && c != Reverse && c != Highlighted && c != Dimmed;
    assert c != OrderShow && c != StatusShow && c != Step4Hide && c != ShowStep4 && c != ShowStep3 && c != BacklogBackground;
    BeerIconWrite(nodes, step, i, c);
    ArrivingBeerWrite(nodes, step, i, c);
    ArrowWrite(nodes, step, i, c);
    DirectionWrite(nodes, step, i, c);
    OrderBoxWrite(nodes, step, i, c);
    StatusWrite(nodes, step, i, c);
    OrderMarkWrite(nodes, step, i, c);
    Step3Write(nodes, step, i, c);
    MechanicsWrite(nodes, step, i, c);
  }

  /** After a redraw a stage node carries a state exactly when the step lists
      that state for a stage whose node it is (the first element with the id
      `<stage>-node`); whatever it carried before is gone. */
  lemma StageNodeState(v: Variant, nodes: seq<Node>, classes: seq<set<Cls>>, step: int, i: int, c: Cls)
    requires |classes| == |nodes| && 0 <= i < |nodes| && 0 <= step < StepCount(v)
    requires StageNode in nodes[i].kinds && c in StateTags
    requires v == Mechanics ==> !InMechanics(nodes[i], ArrivingBeer)
    ensures var vs := VisualState(v, step);
            c in Run(nodes, classes, StepOps(v, step))[i] <==>
              exists k :: 0 <= k < |vs| && vs[k].1 == c && i == FirstMatch(nodes, WithId(vs[k].0 + "-node"))
  {
    var extra: seq<Op> := [];
    if v == Mechanics {
      extra := MechanicsOps(step);
      MechanicsSpareStages(nodes, step, i, c);
    }
    RedrawStage(nodes, classes, extra, VisualState(v, step), i, c);
  }

  /** The states a step lists for one stage. */
  function Listed(vs: seq<(string, Cls)>, stage: string): set<Cls>
  {
    set k | 0 <= k < |vs| && vs[k].0 == stage :: vs[k].1
  }

  lemma SuffixCancel(a: string, b: string, t: string)
    requires a + t == b + t
    ensures a == b
  {
    assert |a| == |b|;
    assert a == (a + t)[..|a|];
    assert b == (b + t)[..|b|];
  }

  /** The stage node of a stage ends the redraw with exactly the state the step
      lists for that stage, or with none of the four when the step does not
      list it. */
  lemma ListedStageState(v: Variant, nodes: seq<Node>, classes: seq<set<Cls>>, step: int, stage: string, i: int)
    requires |classes| == |nodes| && 0 <= i < |nodes| && 0 <= step < StepCount(v)
    requires StageNode in nodes[i].kinds && i == FirstMatch(nodes, WithId(stage + "-node"))
    requires v == Mechanics ==> !InMechanics(nodes[i], ArrivingBeer)
    ensures var listed := Listed(VisualState(v, step), stage);
            && StateTags * Run(nodes, classes, StepOps(v, step))[i] == listed
            && forall c, d :: c in listed && d in listed ==> c == d
  {
    var vs := VisualState(v, step);
    var after := Run(nodes, classes, StepOps(v, step))[i];
    VisualStatesAreStates(v, step);
    StagesListedOnce(v, step);
    forall c: Cls
      ensures c in StateTags * after <==> c in Listed(vs, stage)
    {
      if c in StateTags {
        StageNodeState(v, nodes, classes, step, i, c);
        forall k | 0 <= k < |vs| && i == FirstMatch(nodes, WithId(vs[k].0 + "-node"))
          ensures vs[k].0 == stage
        {
          SuffixCancel(vs[k].0, stage, "-node");
        }
      }
    }
  }

  /** The two flow labels of the mechanics section each carry exactly one of
      `highlighted` and `dimmed` after a redraw: the order label is highlighted
      exactly at step 2, the beer label at every other step. */
  lemma FlowLabelsExclusive(nodes: seq<Node>, classes: seq<set<Cls>>, step: int, i: int)
    requires |classes| == |nodes| && 0 <= i < |nodes| && 0 <= step < StepCount(Mechanics)
    requires var beerLabel := i == FirstMatch(nodes, Within(MechanicsSection, BeerDirection));
             var orderLabel := i == FirstMatch(nodes, Within(MechanicsSection, OrderDirection));
             beerLabel || orderLabel
    ensures var after := Run(nodes, classes, StepOps(Mechanics, step))[i];
            && (Highlighted in after <==> Dimmed !in after)
            && (i == FirstMatch(nodes, Within(MechanicsSection, OrderDirection)) ==> (Highlighted in after <==> step == 2))
            && (i != FirstMatch(nodes, Within(MechanicsSection, OrderDirection)) ==> (Highlighted in after <==> step != 2))
  {
    var after := Run(nodes, classes, StepOps(Mechanics, step))[i];
    MechanicsRedraw(nodes, classes, step, i, Highlighted);
    MechanicsRedraw(nodes, classes, step, i, Dimmed);
    FlowLabelRules(nodes, i, step, Highlighted in classes[i], Dimmed in classes[i]);
  }

  /** The step rules of the two flow labels, whatever they carried before. */
  lemma FlowLabelRules(nodes: seq<Node>, i: int, step: int, hadHighlighted: bool, hadDimmed: bool)
    requires 0 <= i < |nodes|
    requires i == FirstMatch(nodes, Within(MechanicsSection, BeerDirection))
             || i == FirstMatch(nodes, Within(MechanicsSection, OrderDirection))
    ensures var orderLabel := i == FirstMatch(nodes, Within(MechanicsSection, OrderDirection));
            && MechanicsClass(nodes, i, step, Highlighted, hadHighlighted) == (if orderLabel then step == 2 else step != 2)
            && MechanicsClass(nodes, i, step, Dimmed, hadDimmed) == (if orderLabel then step != 2 else step == 2)
  {
    var orderLabel := i == FirstMatch(nodes, Within(MechanicsSection, OrderDirection));
    var beerLabel := i == FirstMatch(nodes, Within(MechanicsSection, BeerDirection));
    assert MechanicsClass(nodes, i, step, Highlighted, hadHighlighted) ==
             if orderLabel then step == 2 else if beerLabel then step != 2 else hadHighlighted;
    assert MechanicsClass(nodes, i, step, Dimmed, hadDimmed) ==
             if orderLabel then step != 2 else if beerLabel then step == 2 else hadDimmed;
  }

  /** Drawing the same step again changes nothing. */
  lemma RedrawIdempotent(v: Variant, nodes: seq<Node>, classes: seq<set<Cls>>, step: int)
    requires |classes| == |nodes| && 0 <= step < StepCount(v)
    ensures Run(nodes, Run(nodes, classes, StepOps(v, step)), StepOps(v, step)) == Run(nodes, classes, StepOps(v, step))
  {
    RunIdempotent(nodes, classes, StepOps(v, step));
  }

  // ---------------------------------------------------------------------------
  // A run of scroll events over one section

  /** The steps a narrator draws, in order, for a run of events, starting
      from `current`. */
  function Drawn(current: nat, es: seq<Sample>): seq<nat>
    decreases |es|
  {
    if es == [] then []
    else match Respond(current, es[0])
      case Redraw(s) => [s] + Drawn(s, es[1..])
      case _ => Drawn(current, es[1..])
  }

  /** `currentStep` after a run of events. */
  function Settled(current: nat, es: seq<Sample>): nat
    decreases |es|
  {
    if es == [] then current
    else match Respond(current, es[0])
      case Redraw(s) => Settled(s, es[1..])
      case _ => Settled(current, es[1..])
  }

  /** A redraw never repeats the step drawn before it, every drawn step is one
      an event mapped to, and the narrator ends on the last step it drew. */
  lemma {:induction false} DrawnNeverRepeats(current: nat, es: seq<Sample>)
    ensures var d := Drawn(current, es);
            && (forall k :: 0 <= k < |d| ==> exists j :: 0 <= j < |es| && es[j].inside && es[j].step == d[k])
            && (|d| > 0 ==> d[0] != current)
            && (forall k :: 0 <= k < |d| - 1 ==> d[k] != d[k + 1])
            && Settled(current, es) == (if d == [] then current else d[|d| - 1])
    decreases |es|
  {
    if es != [] {
      var d := Drawn(current, es);
      match Respond(current, es[0])
      case Redraw(s) =>
        var tail := Drawn(s, es[1..]);
        DrawnNeverRepeats(s, es[1..]);
        assert d == [s] + tail;
        forall k | 0 <= k < |d|
          ensures exists j :: 0 <= j < |es| && es[j].inside && es[j].step == d[k]
        {
          if k == 0 {
            assert es[0].inside && es[0].step == d[0];
          } else {
            assert d[k] == tail[k - 1];
            var j :| 0 <= j < |es[1..]| && es[1..][j].inside && es[1..][j].step == tail[k - 1];
            assert es[j + 1] == es[1..][j];
          }
        }
        forall k | 0 <= k < |d| - 1
          ensures d[k] != d[k + 1]
        {
          if k > 0 {
            assert d[k] == tail[k - 1] && d[k + 1] == tail[k];
          }
        }
      case _ =>
        var tail := Drawn(current, es[1..]);
        DrawnNeverRepeats(current, es[1..]);
        assert d == tail;
        forall k | 0 <= k < |d|
          ensures exists j :: 0 <= j < |es| && es[j].inside && es[j].step == d[k]
        {
          var j :| 0 <= j < |es[1..]| && es[1..][j].inside && es[1..][j].step == tail[k];
          assert es[j + 1] == es[1..][j];
        }
    }
  }

  /** The steps the events map to never decrease, starting from `current`. */
  predicate StepsFrom(current: nat, es: seq<Sample>)
    decreases |es|
  {
    es == [] || (current <= es[0].step && StepsFrom(es[0].step, es[1..]))
  }

  /** When the events map to steps that never decrease, every drawn step is
      later than the one before it. */
  lemma {:induction false} ForwardStepsDrawForward(current: nat, es: seq<Sample>)
    requires StepsFrom(current, es)
    ensures var d := Drawn(current, es);
            && (|d| > 0 ==> current < d[0])
            && (forall k :: 0 <= k < |d| - 1 ==> d[k] < d[k + 1])
    decreases |es|
  {
    if es != [] {
      var d := Drawn(current, es);
      match Respond(current, es[0])
      case Redraw(s) =>
        var tail := Drawn(s, es[1..]);
        ForwardStepsDrawForward(s, es[1..]);
        assert d == [s] + tail;
        forall k | 0 <= k < |d| - 1
          ensures d[k] < d[k + 1]
        {
          assert d[k + 1] == tail[k];
          if k > 0 {
            assert d[k] == tail[k - 1];
          }
        }
      case _ =>
        StepsFromLower(current, es[0].step, es[1..]);
        ForwardStepsDrawForward(current, es[1..]);
        assert d == Drawn(current, es[1..]);
    }
  }

  lemma {:induction false} StepsFromLower(lower: nat, current: nat, es: seq<Sample>)
    requires lower <= current && StepsFrom(current, es)
    ensures StepsFrom(lower, es)
  {
  }

  /** The events of scroll positions over one section. */
  function Samples(v: Variant, tops: seq<real>, sectionTop: real, sectionHeight: real, viewportHeight: real): (es: seq<Sample>)
    ensures |es| == |tops|
    ensures forall k :: 0 <= k < |tops| ==> es[k] == SampleAt(v, tops[k], sectionTop, sectionHeight, viewportHeight)
  {
    seq(|tops|, k requires 0 <= k < |tops| => SampleAt(v, tops[k], sectionTop, sectionHeight, viewportHeight))
  }

  /** Scrolling only downwards through a section at least as high as the
      viewport, from the first step, draws strictly later steps each time,
      whatever events fall outside the section in between. */
  lemma ScrollDownDrawsForward(v: Variant, tops: seq<real>, sectionTop: real, sectionHeight: real, viewportHeight: real)
    requires sectionHeight >= viewportHeight
    requires forall k :: 0 <= k < |tops| - 1 ==> tops[k] <= tops[k + 1]
    ensures var d := Drawn(0, Samples(v, tops, sectionTop, sectionHeight, viewportHeight));
            forall k :: 0 <= k < |d| - 1 ==> d[k] < d[k + 1]
  {
    SamplesStepsFrom(v, 0, tops, sectionTop, sectionHeight, viewportHeight);
    ForwardStepsDrawForward(0, Samples(v, tops, sectionTop, sectionHeight, viewportHeight));
  }

  /** Positions that never move up map to steps that never decrease. */
  lemma {:induction false} SamplesStepsFrom(v: Variant, current: nat, tops: seq<real>, sectionTop: real, sectionHeight: real, viewportHeight: real)
    requires sectionHeight >= viewportHeight
    requires forall k :: 0 <= k < |tops| - 1 ==> tops[k] <= tops[k + 1]
    requires tops != [] ==> current <= ScrollStep(tops[0], sectionTop, sectionHeight, viewportHeight, StepCount(v))
    ensures StepsFrom(current, Samples(v, tops, sectionTop, sectionHeight, viewportHeight))
    decreases |tops|
  {
    if tops != [] {
      var es := Samples(v, tops, sectionTop, sectionHeight, viewportHeight);
      var rest := tops[1..];
      assert Samples(v, rest, sectionTop, sectionHeight, viewportHeight) == es[1..];
      if rest != [] {
        ScrollStepMonotone(tops[0], tops[1], sectionTop, sectionHeight, viewportHeight, StepCount(v));
        assert rest[0] == tops[1];
      }
      assert forall k :: 0 <= k < |rest| - 1 ==> rest[k] <= rest[k + 1] by {
        forall k | 0 <= k < |rest| - 1
          ensures rest[k] <= rest[k + 1]
        {
          assert rest[k] == tops[k + 1] && rest[k + 1] == tops[k + 2];
        }
      }
      SamplesStepsFrom(v, es[0].step, rest, sectionTop, sectionHeight, viewportHeight);
    }
  }

  /** Leaving the section keeps the step, so coming back at the same step
      draws nothing. */
  lemma ReenterAtSameStepDrawsNothing(current: nat, outside: Sample, inside: Sample)
    requires !outside.inside && inside.inside && inside.step == current
    ensures Drawn(current, [outside, inside]) == []
    ensures Settled(current, [outside, inside]) == current
  {
    assert Respond(current, outside) == Hide && Respond(current, inside) == Stay;
    assert [outside, inside][1..] == [inside];
    assert [inside][1..] == [];
    assert Drawn(current, [inside]) == Drawn(current, []);
    assert Settled(current, [inside]) == Settled(current, []);
  }
}
