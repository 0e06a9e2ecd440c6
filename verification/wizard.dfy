/**
 The calculator wizard (`initCalculatorWizard` in script.js): a 1-based
 step counter over the step panels, moved by the Next and Previous
 buttons, and the view derived from it after every move — which panel is
 active, the progress markers, the visibility of the two buttons, the
 label of Next, and the result panel. Next from the step before the last
 one first computes the quote; a calculation that throws aborts the click
 before the step moves.
 */
module Wizard {
  import opened Common
  import Pricing

  datatype Marker = Plain | Active | Completed

  datatype NextLabel = NextStep | CalculateQuote

  /** What the page shows: one flag per step panel, one marker per progress
      step, and the state of the two buttons and of the result panel. */
  datatype View = View(
    panels: seq<bool>,
    markers: seq<Marker>,
    prevShown: bool,
    nextLabel: NextLabel,
    nextShown: bool,
    resultActive: bool)

  /** The wizard: the number of step panels and progress markers found in
      the modal, the current step, the view last rendered, and the quote
      last written into the result panel. */
  datatype Wizard = Wizard(
    stepCount: nat,
    markerCount: nat,
    step: int,
    view: View,
    quote: Option<Pricing.Quote>)

  datatype Action = NextClick(form: Pricing.Form) | PrevClick

  /** The view `updateWizardUI` derives from the current step. */
  function Render(stepCount: nat, markerCount: nat, step: int): (v: View)
    ensures |v.panels| == stepCount && |v.markers| == markerCount
    ensures forall i :: 0 <= i < stepCount ==> (v.panels[i] <==> i == step - 1)
    ensures forall i :: 0 <= i < markerCount ==>
              && (v.markers[i] == Completed <==> i < step - 1)
              && (v.markers[i] == Active <==> i == step - 1)
    ensures v.prevShown <==> step != 1
    ensures v.nextLabel == CalculateQuote <==> step == stepCount - 1
    ensures v.nextShown <==> step != stepCount
    ensures !v.resultActive
  {
    View(
      seq(stepCount, i => i + 1 == step),
      seq(markerCount, i => if i < step - 1 then Completed else if i == step - 1 then Active else Plain),
      step != 1,
      if step == stepCount - 1 then CalculateQuote else NextStep,
      step != stepCount,
      false)
  }

  /** The wizard's invariant: the step lies in [1, stepCount] (just 1 when
      the modal has no steps) and the view is the one derived from it. */
  predicate Valid(w: Wizard) {
    && 1 <= w.step <= Max(1, w.stepCount)
    && w.view == Render(w.stepCount, w.markerCount, w.step)
  }

  /** The wizard as set up when the page loads. */
  function Init(stepCount: nat, markerCount: nat): (w: Wizard)
    ensures Valid(w)
    ensures w.step == 1 && w.quote.None?
    ensures !w.view.prevShown
  {
    Wizard(stepCount, markerCount, 1, Render(stepCount, markerCount, 1), None)
  }

  /** Move one step forward when not already on the last step. */
  function Advance(w: Wizard): Wizard {
    if w.step < w.stepCount
    then w.(step := w.step + 1, view := Render(w.stepCount, w.markerCount, w.step + 1))
    else w
  }

  /** A click on Next given the outcome of the calculation it would run:
      the calculation is used only on the step before the last, and a
      calculation that throws aborts the click. */
  function NextWith(w: Wizard, calculation: Result<Pricing.Quote, Pricing.CalcError>): (r: Wizard)
    ensures r.stepCount == w.stepCount && r.markerCount == w.markerCount
    ensures Valid(w) ==> Valid(r)
    ensures w.step == w.stepCount - 1 && calculation.Success? ==>
              r.step == w.stepCount && r.quote == Some(calculation.value)
    ensures w.step == w.stepCount - 1 && calculation.Failure? ==> r == w
    ensures w.step < w.stepCount - 1 ==> r.step == w.step + 1 && r.quote == w.quote
    ensures w.step >= w.stepCount ==> r == w
  {
    if w.step == w.stepCount - 1 then
      match calculation
      case Failure(_) => w
      case Success(q) => Advance(w.(quote := Some(q)))
    else
      Advance(w)
  }

  /** A click on Next, with the form as it stands at that moment, using the
      corrected quote calculation. */
  function Next(w: Wizard, form: Pricing.Form): (r: Wizard)
    ensures r.stepCount == w.stepCount && r.markerCount == w.markerCount
    ensures Valid(w) ==> Valid(r)
    ensures w.step == w.stepCount - 1 && Pricing.Calculate(form).Success? ==>
              r.step == w.stepCount && r.quote == Some(Pricing.Calculate(form).value)
    ensures w.step == w.stepCount - 1 && Pricing.Calculate(form).Failure? ==> r == w
    ensures w.step < w.stepCount - 1 ==> r.step == w.step + 1 && r.quote == w.quote
    ensures w.step >= w.stepCount ==> r == w
  {
    NextWith(w, Pricing.Calculate(form))
  }

  /** A click on Next as the code is written: the calculation also throws
      when the website type has no price. */
  function NextAsWritten(w: Wizard, form: Pricing.Form): (r: Wizard)
    ensures Valid(w) ==> Valid(r)
    ensures w.step == w.stepCount - 1 && Pricing.CalculateAsWritten(form).Failure? ==> r == w
    ensures w.step == w.stepCount - 1 && Pricing.CalculateAsWritten(form).Success? ==>
              r.step == w.stepCount && r.quote == Some(Pricing.CalculateAsWritten(form).value)
    ensures w.step != w.stepCount - 1 ==> r == Next(w, form)
  {
    NextWith(w, Pricing.CalculateAsWritten(form))
  }

  /** With a website type that has no price, the code's Next leaves the
      wizard on the step before the last, while the corrected Next reaches
      the last step with a quote. */
  lemma UnlistedTypeStallsWizard(w: Wizard, form: Pricing.Form)
    requires Valid(w) && w.step == w.stepCount - 1
    requires form.websiteType.Some? && Pricing.TypeCost(form.websiteType.value.value).None?
    ensures NextAsWritten(w, form) == w
    ensures Next(w, form).step == w.stepCount && Next(w, form).quote.Some?
  {
  }

  /** A click on Previous. */
  function Prev(w: Wizard): (r: Wizard)
    ensures r.stepCount == w.stepCount && r.markerCount == w.markerCount
    ensures Valid(w) ==> Valid(r)
    ensures w.step > 1 ==> r.step == w.step - 1 && r.quote == w.quote
    ensures w.step <= 1 ==> r == w
  {
    if w.step > 1
    then w.(step := w.step - 1, view := Render(w.stepCount, w.markerCount, w.step - 1))
    else w
  }

  function Apply(w: Wizard, a: Action): Wizard {
    match a
    case NextClick(form) => Next(w, form)
    case PrevClick => Prev(w)
  }

  /** The wizard after a sequence of clicks. */
  function Run(w: Wizard, actions: seq<Action>): Wizard
    decreases |actions|
  {
    if |actions| == 0 then w else Run(Apply(w, actions[0]), actions[1..])
  }

  lemma {:induction false} RunPreservesValid(w: Wizard, actions: seq<Action>)
    requires Valid(w)
    ensures Valid(Run(w, actions))
    ensures Run(w, actions).stepCount == w.stepCount && Run(w, actions).markerCount == w.markerCount
    decreases |actions|
  {
    if |actions| > 0 {
      RunPreservesValid(Apply(w, actions[0]), actions[1..]);
    }
  }

  /** From page load, any sequence of clicks keeps the step within
      [1, stepCount] and the view in step with it. */
  lemma StepStaysInRange(stepCount: nat, markerCount: nat, actions: seq<Action>)
    requires stepCount >= 1
    ensures var w := Run(Init(stepCount, markerCount), actions);
            && 1 <= w.step <= stepCount
            && w.view == Render(stepCount, markerCount, w.step)
  {
    RunPreservesValid(Init(stepCount, markerCount), actions);
  }

  /** Exactly one step panel is active after every update: the current one. */
  lemma ExactlyOnePanelActive(w: Wizard)
    requires Valid(w) && w.stepCount >= 1
    ensures CountTrue(w.view.panels) == 1
    ensures w.view.panels[w.step - 1]
  {
    CountTrueSingle(w.view.panels, w.step - 1);
  }

  /** The progress bar shows every step before the current one as completed
      and at most one marker as active. */
  lemma ProgressMarkers(w: Wizard)
    requires Valid(w)
    ensures var ms := w.view.markers;
            && CountTrue(seq(|ms|, i requires 0 <= i < |ms| => ms[i] == Completed))
               == (if w.step - 1 < |ms| then w.step - 1 else |ms|)
            && CountTrue(seq(|ms|, i requires 0 <= i < |ms| => ms[i] == Active))
               == (if w.step - 1 < |ms| then 1 else 0)
  {
    var ms := w.view.markers;
    CountTruePrefix(seq(|ms|, i requires 0 <= i < |ms| => ms[i] == Completed), w.step - 1);
    CountTrueSingle(seq(|ms|, i requires 0 <= i < |ms| => ms[i] == Active), w.step - 1);
  }

  /** Previous undoes Next everywhere except where Next computes a quote:
      going back from the last step and forward again recomputes it. */
  lemma PrevThenNext(w: Wizard, form: Pricing.Form)
    requires Valid(w) && w.step > 1
    ensures w.step < w.stepCount ==> Next(Prev(w), form) == w
    ensures w.step == w.stepCount && Pricing.Calculate(form).Success? ==>
              Next(Prev(w), form) == w.(quote := Some(Pricing.Calculate(form).value))
    ensures w.step == w.stepCount && Pricing.Calculate(form).Failure? ==>
              Next(Prev(w), form) == Prev(w)
  {
  }

  /** Next followed by Previous returns to the same wizard on every step
      that is neither the last nor the one that computes the quote. */
  lemma NextThenPrev(w: Wizard, form: Pricing.Form)
    requires Valid(w) && w.step < w.stepCount - 1
    ensures Prev(Next(w, form)) == w
  {
  }
}
