/**
 The quote calculation of the website calculator (`calculateAndDisplayCost`
 in script.js): a base price looked up by website type, plus the prices of
 the selected features, then an optional design-style surcharge, reported
 as an ordered list of summary lines and a total.

 The design multipliers 1, 1.15 and 1.3 are written as integer percentages
 100, 115 and 130. Every listed price is a whole number of hundreds, so the
 surcharge `total * (percent - 100) / 100` is always a whole number of
 dollars: the integer model is exact and needs no rounding.
 */
module Pricing {
  import opened Common

  /** A selected form input: its `value` attribute and the heading text of
      the selection card that holds it. */
  datatype Choice = Choice(value: string, heading: string)

  /** What `FormData` yields from the calculator form: the checked website
      type (absent when no radio is checked), the checked features in
      document order, and the checked design style. */
  datatype Form = Form(websiteType: Option<Choice>, features: seq<Choice>, designStyle: Option<Choice>)

  /** One line of the quote summary. */
  datatype Line =
    | TypeLine(typeLabel: string, cost: int)
    | FeaturesLine(featureLabels: seq<string>, cost: int)
    | DesignLine(styleLabel: string, surchargePercent: int, cost: int)

  datatype Quote = Quote(lines: seq<Line>, total: int)

  datatype CalcError =
    | NoWebsiteType      // no website type checked: the label lookup finds no input and throws
    | UndefinedTypeCost  // the type line's cost is undefined and formatting it throws

  const TypeCosts: map<string, nat> :=
    map["portfolio" := 2500, "corporate" := 4000, "e-commerce" := 7500, "custom" := 12000]

  const FeatureCosts: map<string, nat> :=
    map["blog" := 500, "seo-tools" := 400, "payment-gateways" := 700, "user-logins" := 1200]

  const DesignPercents: map<string, nat> :=
    map["minimalist" := 100, "modern" := 115, "creative" := 130]

  /** The table entry for a website type, absent for an unlisted type. */
  function TypeCost(websiteType: string): (c: Option<nat>)
    ensures c.Some? <==> websiteType in {"portfolio", "corporate", "e-commerce", "custom"}
    ensures c.Some? ==> c.value >= 2500 && c.value % 100 == 0
  {
    if websiteType in TypeCosts then Some(TypeCosts[websiteType]) else None
  }

  /** The price of one feature; an unlisted feature costs nothing. */
  function FeatureCost(feature: string): (c: nat)
    ensures c % 100 == 0
    ensures c > 0 <==> feature in {"blog", "seo-tools", "payment-gateways", "user-logins"}
  {
    if feature in FeatureCosts then FeatureCosts[feature] else 0
  }

  /** The design multiplier as a percentage; an unlisted or missing style
      multiplies by 100%. */
  function DesignPercent(style: Option<Choice>): (p: nat)
    ensures p >= 100
    ensures p > 100 <==> style.Some? && style.value.value in {"modern", "creative"}
  {
    if style.Some? && style.value.value in DesignPercents then DesignPercents[style.value.value] else 100
  }

  /** Sum of the prices of the selected features. */
  function FeaturesCost(features: seq<Choice>): (c: nat)
    ensures c % 100 == 0
  {
    if |features| == 0 then 0 else FeatureCost(features[0].value) + FeaturesCost(features[1..])
  }

  function Labels(choices: seq<Choice>): (ls: seq<string>)
    ensures |ls| == |choices|
    ensures forall j :: 0 <= j < |choices| ==> ls[j] == choices[j].heading
  {
    seq(|choices|, j requires 0 <= j < |choices| => choices[j].heading)
  }

  /** The base price that enters the total: the table entry, or 0. */
  function BaseCost(form: Form): nat {
    if form.websiteType.Some? then TypeCost(form.websiteType.value.value).GetOr(0) else 0
  }

  /** The total before the design style is applied. */
  function PreDesignTotal(form: Form): nat {
    BaseCost(form) + FeaturesCost(form.features)
  }

  /** Sum of the costs shown on the summary lines. */
  function SumCosts(lines: seq<Line>): int {
    if |lines| == 0 then 0 else lines[0].cost + SumCosts(lines[1..])
  }

  /** The layout of a summary: the project type first, then the features
      only when at least one is selected, then the design style only when
      its multiplier exceeds 1. */
  predicate LinesInOrder(form: Form, lines: seq<Line>)
    requires form.websiteType.Some?
  {
    var hasFeatures := |form.features| > 0;
    var hasDesign := DesignPercent(form.designStyle) > 100;
    && |lines| == 1 + (if hasFeatures then 1 else 0) + (if hasDesign then 1 else 0)
    && lines[0] == TypeLine(form.websiteType.value.heading, BaseCost(form))
    && (hasFeatures ==> lines[1] == FeaturesLine(Labels(form.features), FeaturesCost(form.features)))
    && (hasDesign ==>
          && lines[|lines| - 1].DesignLine?
          && lines[|lines| - 1].styleLabel == form.designStyle.value.heading
          && lines[|lines| - 1].surchargePercent == DesignPercent(form.designStyle) - 100)
  }

  /** A surcharge of `percent - 100` percent on a whole number of hundreds
      is a whole number. */
  lemma SurchargeIsExact(pre: nat, percent: nat)
    requires pre % 100 == 0 && percent >= 100
    ensures (pre + pre * (percent - 100) / 100) * 100 == pre * percent
  {
    var k := pre / 100;
    var s := percent - 100;
    assert pre == k * 100;
    assert pre * s == (k * s) * 100;
    assert pre * s / 100 == k * s;
    assert pre * percent == pre * 100 + pre * s;
  }

  /** The quote with the evident intent of the type line: an unlisted type
      is shown with cost 0, as it enters the total. The wizard uses this. */
  function Calculate(form: Form): (r: Result<Quote, CalcError>)
    ensures r.Failure? <==> form.websiteType.None?
    ensures r.Failure? ==> r.error == NoWebsiteType
    ensures r.Success? ==> r.value.total * 100 == PreDesignTotal(form) * DesignPercent(form.designStyle)
    ensures r.Success? ==> LinesInOrder(form, r.value.lines)
    ensures r.Success? ==> SumCosts(r.value.lines) == r.value.total
  {
    if form.websiteType.None? then Failure(NoWebsiteType)
    else
      var base := BaseCost(form);
      var featuresCost := FeaturesCost(form.features);
      var pre := base + featuresCost;
      var featureLines :=
        if |form.features| > 0 then [FeaturesLine(Labels(form.features), featuresCost)] else [];
      var percent := DesignPercent(form.designStyle);
      SurchargeIsExact(pre, percent);
      var designCost := pre * (percent - 100) / 100;
      var designLines :=
        if percent > 100
        then [DesignLine(form.designStyle.value.heading, percent - 100, designCost)]
        else [];
      var lines := [TypeLine(form.websiteType.value.heading, base)] + featureLines + designLines;
      var total := pre + (if percent > 100 then designCost else 0);
      assert SumCosts(lines) == base + SumCosts(featureLines + designLines) by {
        assert lines[1..] == featureLines + designLines;
      }
      assert SumCosts(featureLines + designLines)
          == (if |form.features| > 0 then featuresCost else 0) + SumCosts(designLines) by {
        if |form.features| > 0 {
          assert (featureLines + designLines)[1..] == designLines;
        } else {
          assert featureLines + designLines == designLines;
        }
      }
      Success(Quote(lines, total))
  }

  /** The quote as the code is written: the type line records the raw table
      entry, which is undefined for an unlisted type, and formatting the
      summary then throws, so no quote is shown. */
  function CalculateAsWritten(form: Form): (r: Result<Quote, CalcError>)
    ensures r.Failure? <==> form.websiteType.None? || TypeCost(form.websiteType.value.value).None?
    ensures r.Success? ==> r == Calculate(form)
  {
    if form.websiteType.None? then Failure(NoWebsiteType)
    else if TypeCost(form.websiteType.value.value).None? then Failure(UndefinedTypeCost)
    else Calculate(form)
  }

  /** The two differ exactly on forms whose website type has no table
      entry: the corrected quote shows that type at cost 0 with the same
      total the code computes. */
  lemma UnlistedTypeLosesQuote(form: Form)
    requires form.websiteType.Some? && TypeCost(form.websiteType.value.value).None?
    ensures CalculateAsWritten(form) == Failure(UndefinedTypeCost)
    ensures Calculate(form).Success?
    ensures Calculate(form).value.lines[0] == TypeLine(form.websiteType.value.heading, 0)
    ensures Calculate(form).value.total * 100 == FeaturesCost(form.features) * DesignPercent(form.designStyle)
  {
  }

  lemma {:induction false} FeaturesCostAppend(xs: seq<Choice>, ys: seq<Choice>)
    ensures FeaturesCost(xs + ys) == FeaturesCost(xs) + FeaturesCost(ys)
  {
    if |xs| > 0 {
      assert (xs + ys)[1..] == xs[1..] + ys;
      FeaturesCostAppend(xs[1..], ys);
    } else {
      assert xs + ys == ys;
    }
  }

  /** Inserting a feature anywhere in the selection adds exactly its price
      before the design multiplier. */
  lemma InsertFeatureCost(features: seq<Choice>, i: nat, f: Choice)
    requires i <= |features|
    ensures FeaturesCost(features[..i] + [f] + features[i..]) == FeaturesCost(features) + FeatureCost(f.value)
  {
    var a, b := features[..i], features[i..];
    assert features == a + b;
    FeaturesCostAppend(a + [f], b);
    FeaturesCostAppend(a, [f]);
    FeaturesCostAppend(a, b);
    assert [f][1..] == [];
  }

  /** Totals that are `p` percent of two pre-design totals differ by `p`
      percent of their difference. */
  lemma ScaledDifference(t: int, t2: int, pre: int, d: nat, p: nat)
    requires t * 100 == pre * p && t2 * 100 == (pre + d) * p
    requires d % 100 == 0
    ensures t2 - t == d * p / 100 >= 0
  {
    var k := d / 100;
    assert (pre + d) * p == pre * p + d * p;
    assert (t2 - t) * 100 == d * p;
    assert d * p == (k * p) * 100;
    assert t2 - t == k * p;
  }

  /** Adding a feature to the selection never lowers the total. */
  lemma AddingFeatureNeverLowersTotal(form: Form, i: nat, f: Choice)
    requires i <= |form.features|
    requires form.websiteType.Some?
    ensures var bigger := form.(features := form.features[..i] + [f] + form.features[i..]);
            && Calculate(bigger).Success?
            && Calculate(bigger).value.total >= Calculate(form).value.total
            && Calculate(bigger).value.total - Calculate(form).value.total
               == FeatureCost(f.value) * DesignPercent(form.designStyle) / 100
  {
    var bigger := form.(features := form.features[..i] + [f] + form.features[i..]);
    InsertFeatureCost(form.features, i, f);
    assert PreDesignTotal(bigger) == PreDesignTotal(form) + FeatureCost(f.value);
    ScaledDifference(Calculate(form).value.total, Calculate(bigger).value.total,
                     PreDesignTotal(form), FeatureCost(f.value), DesignPercent(form.designStyle));
  }

  /** Selecting a feature that has no price changes nothing in the total. */
  lemma UnlistedFeatureAddsNothing(form: Form, i: nat, f: Choice)
    requires i <= |form.features|
    requires form.websiteType.Some?
    requires f.value !in FeatureCosts
    ensures Calculate(form.(features := form.features[..i] + [f] + form.features[i..])).value.total
         == Calculate(form).value.total
  {
    AddingFeatureNeverLowersTotal(form, i, f);
  }
}
