# Beer Game site: scroll narrators, chart disclosure and content merge

A model of the decision logic in the beer-game website's script
(`assets/js/main.js`), with proofs about it. The script drives a few small
state machines from scroll events:

- Two **scroll narrators** map the scroll position inside their section to a step.
  - The "dynamics" narrator has seven steps.
  - The "mechanics" narrator has five steps.
  - Each narrator redraws only when the step changes. A redraw shows the step's
    title and text in the explanation panel, resets the four state classes of
    every `.stage-node`, and applies the step's stage states.
  - The mechanics narrator also switches about ten groups of elements of its
    section: beer icons, arriving beer, arrows, flow labels, order boxes, status
    icons, order numbers and question marks, backlog elements, and the
    distributor's inventory grid.
- The **progressive bullwhip chart** maps the scroll portion to a step 0..4
  against four fixed thresholds. A forward move to step `s <= 3` un-hides
  dataset `s` of the order chart and of the inventory chart.
- The **AIQ switch** swaps the section's description for its bullet list once
  the section has been scrolled more than halfway through.
- The **content merge** writes the already-parsed site content into the page,
  element by element. It skips absent or empty values, missing elements and
  the two highlighted titles.
- The inventory chart's **tick labels** read "`n` Backlog" for a negative value
  and "`n` Units" otherwise.

Modules:

| file | module | what it holds |
|---|---|---|
| `js_number.dfy` | `JsNumber` | JavaScript numbers: exact finite reals plus the infinities and NaN that a division by zero produces; comparisons with NaN are false |
| `step_mapping.dfy` | `StepMapping` | the section windows, the even subdivision of the narrators, the chart's thresholds |
| `dom.dfy` | `Dom` | elements in document order; class-list writes as `Op`s; `Document`, whose class lists are updated in place |
| `narrators.dfy` | `Narrators` | the explanation tables, the writes of one redraw, the `Narrator` class (scroll handler, `updateVisualization`, `hideExplanation`, the deferred `removing` timer) |
| `narrator_properties.dfy` | `NarratorProperties` | what a redraw leaves on each element, and which steps a run of scroll events draws |
| `bullwhip.dfy` | `Bullwhip` | the chart's `hidden` flags, `ProgressiveChart` (`updateBullwhipStep`, `showNextDataset`, the debounced handler) |
| `aiq.dfy` | `Aiq` | the AIQ progress and the `Switch` class |
| `content.dfy` | `Content` | the merge as a list of writes by element id, and the `Page` class |
| `ticks.dfy` | `Ticks` | the y-axis tick labels |
| `wrappers.dfy` | `Wrappers` | the `Option` type the other modules share |

The code divides `(scrollTop - sectionTop)` by `(sectionHeight - viewportHeight)`
without a guard, and this model keeps that division. `JsNumber` models division
by zero (the infinities and NaN) and comparisons with NaN; finite values are
exact reals, with no floating-point rounding. The handlers themselves
use `StepMapping.ScrollStep`. It agrees with the code on every input where the
code yields a number, and it gives the first step where the code yields NaN
(see "## Findings").

## Model

| member | source | states |
|---|---|---|
| JsNumber.Div | assets/js/main.js:262 | a nonzero divisor gives the real quotient; a zero divisor gives NaN exactly for 0/0, +Infinity exactly for a positive dividend and -Infinity exactly for a negative one |
| JsNumber.Max | assets/js/main.js:265 | `Math.max` is NaN exactly when an argument is NaN; otherwise it is one of its arguments and at least both |
| JsNumber.Min | assets/js/main.js:263-266 | `Math.min` is NaN exactly when an argument is NaN; otherwise it is one of its arguments and at most both |
| StepMapping.EvenStep | assets/js/main.js:262-266 | for a finite progress, the step is a valid index below the step count; unless clamped, it is the count-th of the unit interval that holds the progress (`s <= p*n < s+1`) |
| StepMapping.ScrollStep | assets/js/main.js:262-266 | the narrators' step is always a valid index; it equals the code's step wherever the code's step is not NaN |
| StepMapping.EvenStepAsWrittenFinite | assets/js/main.js:263-266 | for a finite progress, the code's min/max/floor expression evaluates to the clamped step |
| StepMapping.EqualHeightsGiveNaNStep | assets/js/main.js:216-218 | at the top of a section exactly one viewport high: the position is inside the window, the code's step is NaN, and the range guard does not reject it |
| StepMapping.EvenStepMonotone | assets/js/main.js:263-266 | a larger progress never gives an earlier step |
| StepMapping.ScrollStepMonotone | assets/js/main.js:529-533 | when the section is at least as high as the viewport, scrolling further down never gives an earlier step |
| StepMapping.ThresholdStep | assets/js/main.js:666-672 | the chart's step is always in 0..4, whatever the portion, NaN and the infinities included |
| StepMapping.ThresholdStepCounts | assets/js/main.js:666-672 | the chart's step is the number of thresholds 0.15, 0.35, 0.55, 0.75 that lie strictly below the portion |
| StepMapping.ThresholdStepMonotone | assets/js/main.js:666-672 | a larger portion never gives an earlier chart step |
| StepMapping.ChartStepMonotone | assets/js/main.js:662-673 | when the section is at least as high as the scroller, scrolling further down never moves the chart back |
| StepMapping.ThresholdExamples | assets/js/main.js:663-672 | a portion of 5/12 (about 0.417) gives step 2; exactly 0.15 gives 0; exactly 0.75 gives 3 |
| Dom.FirstMatch | assets/js/main.js:395-396 | `querySelector` returns -1 or an element that matches, and no earlier element matches |
| Dom.Apply | assets/js/main.js:228-230 | one class-list write restyles exactly its targets (the first match, or every match) and leaves the other elements as they were |
| Dom.RunLastWrite | assets/js/main.js:228-240 | after a run of writes, an element has a class exactly when the last write to that class added it, or when nothing wrote it and the element had it before |
| Dom.RunIdempotent | assets/js/main.js:228-240 | performing the same writes twice leaves the class lists as performing them once |
| Dom.LastWriteAppend | assets/js/main.js:338-494 | the last write over two runs is the second run's, if it wrote the class at all |
| Dom.LastWriteOfAdditions | assets/js/main.js:234-239 | writes that only add set a class exactly when one of them targets the element and adds it |
| Dom.Document.Find | assets/js/main.js:235 | the lookup scan returns the first matching element in document order, or -1 |
| Dom.Document.Perform | assets/js/main.js:228-230 | performing one write in place gives the class lists that `Apply` describes |
| Dom.Document.PerformAll | assets/js/main.js:549-582 | performing a list of writes in place gives the class lists of the run |
| Narrators.Explanations | assets/js/main.js:174-210 | the dynamics narrator has seven steps and the mechanics narrator five; each step's stage states are those of the step's table entry |
| Narrators.SampleAt | assets/js/main.js:258-266 | the step an event maps to is always a valid step of the narrator |
| Narrators.Narrator.constructor | assets/js/main.js:279 | the narrator starts at step 0 having drawn step 0; the mechanics narrator first hides its panel and clears every element group (546-585) |
| Narrators.Narrator.HideExplanation | assets/js/main.js:244-248 | leaving the section removes `visible` from the panel content; the mechanics narrator also sets the panel frame to `display: none` (498-505); nothing else changes |
| Narrators.Narrator.UpdateVisualization | assets/js/main.js:215-241 | a step out of range changes nothing; otherwise the panel shows the step's title and text, and the class lists are those after the step's writes (the reset, the mechanics groups, the stage states); only mechanics step 3 arms one more `removing` timer; when the panel lacks its title or text element, the panel is left as it was |
| Narrators.Narrator.WriteMechanics | assets/js/main.js:342-484 | the mechanics element groups are written in source order |
| Narrators.Narrator.ShowArrivingBeer | assets/js/main.js:353-382 | the four arriving-beer branches: step 1, step 2, from step 3 on, and step 0 or below |
| Narrators.Narrator.HighlightFlow | assets/js/main.js:395-418 | the flow labels swap `highlighted` and `dimmed` at step 2 |
| Narrators.Narrator.ShowStep3Elements | assets/js/main.js:454-484 | from step 3 on the backlog elements and the grid background show, and step 3 alone arms the timer; before step 3 they are reset |
| Narrators.Narrator.AnimateBeerIcons | assets/js/main.js:343-350 | beer icons gain `animate` at step 1 and lose it at every other step |
| Narrators.Narrator.TurnArrows | assets/js/main.js:385-392 | arrows gain `reverse` at step 2 and lose it at every other step |
| Narrators.Narrator.ShowOrderBoxes | assets/js/main.js:421-428 | order boxes gain `order-show` from step 2 on and lose it before |
| Narrators.Narrator.ShowStatusIcons | assets/js/main.js:431-438 | status icons gain `status-show` at step 3 only |
| Narrators.Narrator.ShowOrderMarks | assets/js/main.js:441-451 | at step 4 the order numbers are hidden and the question marks shown; at every other step the reverse |
| Narrators.Narrator.ApplyVisualState | assets/js/main.js:233-240 | each listed stage's node gains its state, in the order of the list |
| Narrators.Narrator.OnScroll | assets/js/main.js:251-276 | outside the window the panel is only hidden and `currentStep` is kept; inside, a step different from `currentStep` becomes current and is drawn, and the same step draws nothing; the panel shows the new step's title and text when it has those elements and is otherwise left as it was; the mechanics frame is shown inside the window (515-543) |
| Narrators.Narrator.FireDeferredRemoval | assets/js/main.js:469-474 | each drawing of step 3 arms its own timer; when one of the armed timers fires, every `.step3-remove` beer gains `removing`, whatever step is drawn by then, and one timer fewer is armed |
| NarratorProperties.BeerIconWrite | assets/js/main.js:343-350 | beer icons are the only elements whose `animate` is written; it is added at step 1 and removed otherwise |
| NarratorProperties.ArrivingBeerWrite | assets/js/main.js:353-382 | the writes to an arriving beer's `highlight`, `permanent` and `removing` at each step; from step 3 on `removing` is not written, and `permanent` is added only to beers without `step3-remove` |
| NarratorProperties.DirectionWrite | assets/js/main.js:395-418 | the first beer label and the first order label are the only elements whose `highlighted`/`dimmed` are written, as step 2 decides |
| NarratorProperties.Step3Write | assets/js/main.js:454-484 | the step-3 group's writes to `show-step3`, `removing` and the grid's `backlog-background` |
| NarratorProperties.ArrowWrite | assets/js/main.js:385-392 | arrows are the only elements whose `reverse` is written; it is added at step 2 and removed otherwise |
| NarratorProperties.OrderBoxWrite | assets/js/main.js:421-428 | order boxes are the only elements whose `order-show` is written; it is added from step 2 on |
| NarratorProperties.StatusWrite | assets/js/main.js:431-438 | status icons are the only elements whose `status-show` is written; it is added at step 3 only |
| NarratorProperties.OrderMarkWrite | assets/js/main.js:441-451 | order numbers and question marks are the only elements whose `step4-hide`/`show-step4` are written; they are added at step 4 only |
| NarratorProperties.MechanicsWrite | assets/js/main.js:342-484 | the last mechanics write to a class is that of the last group writing it, in source order |
| NarratorProperties.AnimateRule | assets/js/main.js:343-350 | `animate` after the mechanics groups: on a beer icon iff step 1, elsewhere as before |
| NarratorProperties.HighlightRule | assets/js/main.js:353-382 | an arriving beer is highlighted iff step 1; other elements keep `highlight` through the groups |
| NarratorProperties.PermanentRule | assets/js/main.js:353-382 | an arriving beer is `permanent` at step 2; from step 3 on it is when it lacks `step3-remove` or already was; before step 2 it is not |
| NarratorProperties.RemovingRule | assets/js/main.js:353-382 | before step 3 no arriving beer and no `.step3-remove` beer has `removing`; from step 3 on `removing` is as before |
| NarratorProperties.ReverseRule | assets/js/main.js:385-392 | `reverse` on an arrow iff step 2 |
| NarratorProperties.HighlightedRule | assets/js/main.js:395-418 | `highlighted` on the order label iff step 2, on the beer label iff not step 2 |
| NarratorProperties.DimmedRule | assets/js/main.js:395-418 | `dimmed` on the order label iff not step 2, on the beer label iff step 2 |
| NarratorProperties.OrderShowRule | assets/js/main.js:421-428 | `order-show` on an order box iff step >= 2 |
| NarratorProperties.StatusShowRule | assets/js/main.js:431-438 | `status-show` on a status icon iff step 3 |
| NarratorProperties.Step4HideRule | assets/js/main.js:441-451 | `step4-hide` on an order number iff step 4 |
| NarratorProperties.ShowStep4Rule | assets/js/main.js:441-451 | `show-step4` on a question mark iff step 4 |
| NarratorProperties.ShowStep3Rule | assets/js/main.js:454-484 | `show-step3` on a backlog element iff step >= 3 |
| NarratorProperties.BacklogBackgroundRule | assets/js/main.js:458-484 | `backlog-background` on the distributor's inventory grid iff step >= 3 |
| NarratorProperties.UnwrittenStateRules | assets/js/main.js:342-484 | no mechanics group writes `excess`, `normal` or `backlog` |
| NarratorProperties.VisualOpsWrite | assets/js/main.js:233-240 | the stage states write a class of an element exactly when a listed stage's node is that element and its state is that class, and they only add |
| NarratorProperties.StageWritesSpare | assets/js/main.js:228-240 | the reset and the stage states leave alone every class that is not a state, and the states of an element that is neither a stage node nor has an id |
| NarratorProperties.MechanicsSpareStages | assets/js/main.js:342-484 | the mechanics groups leave the states of a stage node alone unless it is also an arriving beer |
| NarratorProperties.RedrawStage | assets/js/main.js:228-240 | after the reset, writes that spare a state, then the listed states, a stage node has a state exactly when a listed stage's node is it with that state |
| NarratorProperties.FlowLabelRules | assets/js/main.js:395-418 | the step rules of both flow labels, whatever the labels had before |
| NarratorProperties.MechanicsOpsRules | assets/js/main.js:342-484 | after the mechanics groups, every element has each class exactly as the step rules say: `animate` iff step 1, `reverse` iff step 2, `order-show` iff step >= 2, `status-show` iff step 3, `step4-hide`/`show-step4` iff step 4, `show-step3`/`backlog-background` iff step >= 3; the arriving beer's `permanent` and `removing` depend on what the beer had before |
| NarratorProperties.MechanicsRedraw | assets/js/main.js:325-495 | a whole mechanics redraw leaves every class that is not a stage state, on every element, as the step rules say |
| NarratorProperties.VisualStatesAreStates | assets/js/main.js:174-210 | every state a table entry lists is one of highlight, excess, normal, backlog |
| NarratorProperties.StagesListedOnce | assets/js/main.js:174-210 | no table entry lists a stage twice |
| NarratorProperties.StageNodeState | assets/js/main.js:228-240 | after a redraw, a stage node has a state class exactly when the step lists that state for a stage whose node it is |
| NarratorProperties.ListedStageState | assets/js/main.js:228-240 | a stage's node ends a redraw with exactly the state the step lists for that stage, and with none of the four when the step does not list it |
| NarratorProperties.FlowLabelsExclusive | assets/js/main.js:395-418 | after a mechanics redraw each flow label has exactly one of `highlighted` and `dimmed`; the order label is highlighted exactly at step 2, the beer label at every other step |
| NarratorProperties.RedrawIdempotent | assets/js/main.js:215-241 | drawing the same step twice leaves the class lists as drawing it once |
| NarratorProperties.DrawnNeverRepeats | assets/js/main.js:268-271 | over any run of scroll events a narrator never draws the step it just drew; every drawn step is one an event inside the section mapped to; the narrator ends on the last step it drew |
| NarratorProperties.ForwardStepsDrawForward | assets/js/main.js:268-271 | when the events map to steps that never decrease, every drawn step is later than the one before it |
| NarratorProperties.ScrollDownDrawsForward | assets/js/main.js:258-271 | scrolling only downwards through a section at least as high as the viewport draws strictly later steps each time, whatever events fall outside the section in between |
| NarratorProperties.ReenterAtSameStepDrawsNothing | assets/js/main.js:268-275 | leaving the section keeps the step, so coming back at the same step draws nothing |
| Bullwhip.RevealAt | assets/js/main.js:804-818 | `showNextDataset(step)` clears the `hidden` flag of dataset `step` when `step <= 3` and changes no other flag |
| Bullwhip.AdvanceChanges | assets/js/main.js:631-646 | a move from `prev` to `step` un-hides dataset `step` exactly when it goes forward to a step up to 3; it never hides anything |
| Bullwhip.ShownIffReachedForward | assets/js/main.js:631-646 | after any run of settled steps, dataset 0 is shown, and dataset `k` of 1..3 is shown exactly when some move went forward onto `k` |
| Bullwhip.JumpLeavesGaps | assets/js/main.js:638-640 | a jump from step 0 straight to 3 shows the factory's dataset and leaves the retailer's and the wholesaler's hidden |
| Bullwhip.StepwiseShowsAll | assets/js/main.js:638-640 | stepping through 1, 2, 3 shows every dataset, and stepping back to 0 hides none again |
| Bullwhip.ProgressiveChart.constructor | assets/js/main.js:592-601 | both charts start with only dataset 0 shown (696-723, 838-865) and the step at 0 |
| Bullwhip.ProgressiveChart.ShowNextDataset | assets/js/main.js:804-818 | without the order chart nothing is revealed; otherwise dataset `step` of each present chart is shown |
| Bullwhip.ProgressiveChart.UpdateStep | assets/js/main.js:631-646 | the current step changes nothing; another step becomes current and shows its note; only a forward move to a step up to 3 reveals its dataset |
| Bullwhip.ProgressiveChart.OnScrollSettled | assets/js/main.js:656-674 | inside the chart's window the threshold step is applied; outside it nothing changes |
| Aiq.Progress | assets/js/main.js:1008 | the clamped progress is NaN exactly at the top of a section as high as the viewport; otherwise it lies in [0, 1] |
| Aiq.ShowBulletsPastHalfway | assets/js/main.js:1008-1011 | the bullets are due exactly when the section's top has moved up by more than half of its extra height; for a section exactly as high as the viewport, as soon as its top is above the viewport's |
| Aiq.Switch.constructor | assets/js/main.js:1000-1029 | the switch starts on the description and updates once |
| Aiq.Switch.Update | assets/js/main.js:1002-1021 | afterwards the bullets are current exactly when the progress exceeds one half; the `active` classes move only when the current content changes, and then exactly the current content is active |
| Content.Assign | assets/js/main.js:69-79 | writes by id never add or drop an element |
| Content.AssignLast | assets/js/main.js:69-79 | each element ends with the last value written to it, or keeps its own |
| Content.AssignIdempotent | assets/js/main.js:39-67 | making the same writes twice leaves the page as making them once |
| Content.AssignUnnamed | assets/js/main.js:69-79 | an element that no write names keeps its content |
| Content.BulletsHtmlAppend | assets/js/main.js:138 | the bullet markup of a list is the markup of its parts, one after the other |
| Content.BulletsHtmlSingle | assets/js/main.js:138 | a single bullet renders as one `<li>` item |
| Content.Relabel | assets/js/main.js:122-131 | relabelling keeps the number of step labels |
| Content.SectionWriteSafe | assets/js/main.js:81-120 | `updateSection` never writes a highlighted title, and writes a body only for its own section when the data gives one |
| Content.SectionsWriteSafe | assets/js/main.js:53-58 | the same holds for every section the data gives |
| Content.ProtectedNeverWritten | assets/js/main.js:69-79 | no write of the merge goes to `hero-title` or `aiq-title` |
| Content.SectionTargets | assets/js/main.js:81-120 | `updateSection` writes an element exactly when the section data gives a value for it: a truthy title (never a highlighted one), body or question, the AIQ bullets, or the call to action |
| Content.SectionsTargets | assets/js/main.js:53-58 | the sections merged write an element exactly when one of them present in the data gives a value for it |
| Content.MergeTargetsGiven | assets/js/main.js:39-67 | the merge writes an element exactly when the content gives a value for it: the hero's kicker or a field of a merged section |
| Content.FallbackKeptUnlessGiven | assets/js/main.js:69-120 | every element ends the merge with the last value written to it when the content gives one, and otherwise keeps its fallback text: titles, bodies, questions, the kicker, the bullets and the call to action alike |
| Content.NoContentKeepsPage | assets/js/main.js:39-67 | content that gives nothing leaves every element, the title, the step labels and the embed URL as the page had them |
| Content.BodyFallbackKept | assets/js/main.js:87-98 | a body that the data does not give (section missing, or body absent or empty) keeps the page's fallback text |
| Content.PopulateIdempotent | assets/js/main.js:39-67 | merging the same data twice leaves the page as merging it once |
| Content.Page.UpdateElement | assets/js/main.js:69-79 | the element is written only when it exists, the value is truthy and the id is not a highlighted title |
| Content.Page.UpdateWeekSteps | assets/js/main.js:122-131 | absent steps change nothing; otherwise label `i` takes step `i` wherever both exist, and the other labels are kept |
| Content.Page.UpdateBullets | assets/js/main.js:133-140 | absent bullets change nothing; otherwise the container, where it exists, holds the `<li>` markup |
| Content.Page.UpdateSection | assets/js/main.js:81-120 | the title, the body (markup only in `beer-game-info`), the question and the section's special field are written in order; only `week` touches the step labels |
| Content.Page.WriteBody | assets/js/main.js:87-98 | a truthy body is written to the section's body element where it exists, as markup in `beer-game-info` and as text elsewhere |
| Content.Page.WriteQuestion | assets/js/main.js:100-106 | a truthy question is written as markup to the section's question element where it exists |
| Content.Page.MergeHero | assets/js/main.js:46-50 | the hero's kicker is written when truthy; its title never is |
| Content.Page.Populate | assets/js/main.js:39-67 | the title, the hero, the five sections in order and the embed URL, each only when the data gives it |
| Content.Page.MergeSections | assets/js/main.js:53-58 | each section the data gives is merged, in the fixed order |
| Content.Page.SetEmbedUrl | assets/js/main.js:61-66 | the frame and the link, where present, point at the URL |
| Content.Relink | assets/js/main.js:62-65 | setting the embed URL never adds or drops a frame or a link; the frame and the link, where present, point at the URL, and nothing else changes |
| Ticks.Decimal | assets/js/main.js:941 | a whole number is printed as a non-empty string of decimal digits |
| Ticks.ParseDecimalOf | assets/js/main.js:941 | the printed numeral reads back as the number |
| Ticks.ReadTickLabel | assets/js/main.js:940-942 | every label reads back as its value, so no two values share a label; the suffix gives the sign |
| Ticks.TickLabelExamples | assets/js/main.js:940-942 | -35 is "35 Backlog", 0 is "0 Units", 20 is "20 Units" |

## Left out

- The content fetch and its fallback (`loadContent`, assets/js/main.js:27-37) is network I/O. `Page.Populate` takes the content already parsed.
- The reveal-on-scroll observer (assets/js/main.js:143-161) is a browser visibility callback that only adds a class.
- Chart.js is a foreign library. Building the charts, their styling and their animated updates (assets/js/main.js:679-802, 821-970) are not modelled; only the `hidden` flags are.
- The chart's explanation panel markup (assets/js/main.js:972-983) is modelled as the note it shows (`ProgressiveChart.note`), not as HTML.
- The 50 ms delay before the panel content gets `visible` (assets/js/main.js:224, 334) is treated as immediate.
- Narrators.Narrator.FireDeferredRemoval: the 500 ms `removing` timers of mechanics step 3 (assets/js/main.js:471-473) are modelled as a count of armed timers, and a timer firing is an event the caller chooses when to fire. When the timers fire relative to the scroll events is not modelled. Which of them fires first is not modelled either; every timer performs the same write.
- Bullwhip.ProgressiveChart.OnScrollSettled: the 16 ms debounce (assets/js/main.js:650-676) is modelled as "the last event of a burst wins". The handler is modelled for that last event only.
- Layout reads (`offsetTop`, `offsetHeight`, `innerHeight`, `clientHeight`, `getBoundingClientRect`) are real-valued inputs. Finite JavaScript numbers are exact reals, with no floating-point rounding. Only the division by zero keeps its IEEE-754 result.
- StepMapping.ScrollStepMonotone: requires `sectionHeight >= viewportHeight`. In a shorter section the divisor is negative, and scrolling down moves the step back.
- StepMapping.ChartStepMonotone: requires `sectionHeight >= clientHeight`, for the same reason.
- The two narrators share the `.stage-node` elements and the panel ids (assets/js/main.js:168-169, 228, 288-289, 338). How their handlers interleave is interference between handlers and is not part of this sequential model. Each `Narrator` is modelled on its own.
- The `innerHTML` writes (assets/js/main.js:93, 104, 138) are opaque string writes (`Written.Html`); HTML parsing is not modelled.
- `smoothScrollTo`, the empty `initHuggingFaceEmbed` and the `DOMContentLoaded` wiring (assets/js/main.js:2-24, 986-989, 1033-1038) are not modelled.
- The early returns of the init functions when the scroller or the section is missing (assets/js/main.js:171, 291, 597, 998) are not modelled: a `Narrator`, a `ProgressiveChart` or a `Switch` stands for an initialised handler. The panel's optional elements are modelled (`Panel.hasContent`, `hasText`, `hasFrame`), and so is the optional order chart and inventory chart (`ProgressiveChart.flowPresent`, `inventoryPresent`).
- Aiq.Switch.Update: assumes both AIQ content elements exist. Without them, the code at assets/js/main.js:1015-1020 throws a `TypeError`, which is not modelled.
- The chart's step inside its window: the division at assets/js/main.js:663 is modelled with `JsNumber.Div`, so a NaN or infinite portion gives step 0 or 4, as the code's comparisons do. The final `Math.max(0, Math.min(4, ...))` at 672 cannot change an integer 0..4.
- Ticks.TickLabel: Chart.js passes integer tick values here (the axis runs from -35 to 20); fractional values and JavaScript's exponent notation for large numbers are not modelled.
- The function name `showNextDataset` and the comment at assets/js/main.js:637 speak of the next dataset. The code reveals dataset `step` (assets/js/main.js:638-640, 808-816), so a jump skips datasets. The model follows the code (`Bullwhip.JumpLeavesGaps`).

## Findings

| source | as written | input that shows it | evidently intended | confidence | as-written member | corrected member |
|---|---|---|---|---|---|---|
| assets/js/main.js:262-271 | the narrators divide by `sectionHeight - viewportHeight` without a guard; at 0/0 the step is NaN; NaN passes `newStep !== currentStep` and the range guard at 216 (326 for the mechanics narrator); then `explanations[NaN]` is `undefined` and reading its `title` throws | a section exactly as high as the viewport, scrolled exactly to its top (`scrollTop == sectionTop`, `sectionHeight == viewportHeight`) | the first step is drawn | not executed | StepMapping.EqualHeightsGiveNaNStep | StepMapping.ScrollStep |
