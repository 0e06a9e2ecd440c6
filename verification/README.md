# Site scripts: calculator wizard, quote pricing, carousel and FAQ accordion

A Dafny model of the parts of the agency site's scripts that carry logic,
with the page's DOM replaced by immutable values and pure transition
functions:

- **Calculator wizard** (`initCalculatorWizard`, script.js). A 1-based step
  counter over the wizard's step panels, moved by Next and Previous. After
  every move the view is derived again: the active panel, the progress
  markers, whether Previous and Next are shown, the label on Next, and the
  result panel. Next from the step before the last one first computes the
  quote. If the calculation throws, the click is aborted before the step
  moves. Module `Wizard`, file `wizard.dfy`.
- **Selection cards** (inside `initCalculatorWizard`). Clicking a radio card
  makes it the only selected card of its group. Clicking a checkbox card
  toggles it. The start-up pass marks the cards of radios whose markup
  carries the `checked` attribute. Module `SelectionCards`, file
  `cards.dfy`. The model also includes two browser actions from the HTML
  Living Standard. Checking a radio unchecks the other radios of its group.
  A click that lands on the input itself flips a checkbox or checks a radio,
  while the script's handler returns.
- **Quote pricing** (`calculateAndDisplayCost`, script.js). A base price
  looked up by website type, plus the selected features' prices, then the
  design-style multiplier of 1, 1.15 or 1.3. The result is an ordered list
  of summary lines and a total. Module `Pricing`, file `pricing.dfy`.
  Multipliers are integer percentages (100, 115, 130). Every listed price is
  a whole number of hundreds, so the surcharge is always a whole number of
  dollars. The integer model is therefore exact and does no rounding, just
  like the code.
- **Testimonial carousel** (`setupTestimonialCarousel`, script.js). The
  stored index moves modulo the number of testimonials. JavaScript's
  truncating `%` is written out explicitly. Module `Carousel`, file
  `carousel.dfy`.
- **FAQ accordion** (`setupFaqAccordion`, services.js). A click on a
  question collapses every other item and toggles the clicked one. Module
  `Faq`, file `faq.dfy`.

`common.dfy` (module `Common`) holds `Option`, `Result` and a count of set
flags, with lemmas about that count. These back the "exactly one" and "at
most one" properties.

Inputs from the page are parameters:
- The form's selections are a `Pricing.Form`. Each selected input is a
  value plus the heading of its card.
- The number of step panels and progress markers is given.
- The click target is a `Target` (FAQ), a `Press` (carousel), or a card
  index with an "on the input" flag (selection cards).
- An answer's `scrollHeight` is a field of the FAQ item.

The scripts price only the website type, the features and the design
style; the wizard's step counter is 1-based.

## Model

| member | source | states |
|---|---|---|
| Pricing.TypeCost | script.js:279-282 | portfolio, corporate, e-commerce and custom have a price, each a whole number of hundreds of at least 2500; every other type has no entry |
| Pricing.FeatureCost | script.js:285-291 | a feature costs something exactly when it is blog, seo-tools, payment-gateways or user-logins; an unlisted feature contributes 0 |
| Pricing.DesignPercent | script.js:298-300 | the multiplier is never below 100%, and exceeds it exactly for the modern and creative styles; a missing or unlisted style gives 100% |
| Pricing.FeaturesCost | script.js:286-294 | the features' sum is a whole number of hundreds, which is why the design surcharge never needs rounding |
| Pricing.Calculate | script.js:272-306 | fails exactly when no website type is checked. Otherwise: total × 100 = (type price or 0 + feature prices) × design percent; lines are the type first, then features only if one is selected, then design only if its multiplier exceeds 1; line costs sum exactly to the total |
| Pricing.CalculateAsWritten | script.js:280-309 | the code as written: also fails when the type has no table entry, because that line's cost is undefined and formatting it throws; otherwise identical to Pricing.Calculate |
| Pricing.UnlistedTypeLosesQuote | script.js:282-283 | for every website type without a table entry the code shows no quote, while the corrected quote shows the type at cost 0 and a total of the features' prices times the design percent |
| Pricing.FeaturesCostAppend | script.js:288-294 | the features' sum splits over concatenation of the selection |
| Pricing.InsertFeatureCost | script.js:286-294 | inserting a feature anywhere adds exactly its price to the pre-design total |
| Pricing.AddingFeatureNeverLowersTotal | script.js:286-303 | adding a feature never decreases the total; it raises it by exactly the feature's price times the design percent |
| Pricing.UnlistedFeatureAddsNothing | script.js:291-294 | selecting an unlisted feature leaves the total unchanged |
| Wizard.Render | script.js:210-224 | panel i is active iff i = step−1; marker i is completed iff i < step−1 and active iff i = step−1; Previous hidden iff step = 1; Next reads "Calculate Quote" iff step = N−1 and is hidden iff step = N; the result panel is never active |
| Wizard.Init | script.js:199-270 | the wizard starts on step 1 with no quote and Previous hidden, and satisfies the invariant (step in range, view derived from it) |
| Wizard.NextWith | script.js:226-234 | given the outcome of the calculation: from step N−1 a successful calculation stores the quote and moves to step N, and one that throws changes nothing; below N−1 the step only advances; at N nothing changes; the invariant is kept |
| Wizard.NextAsWritten | script.js:226-234 | Next as the code is written, with the calculation that also throws for an unlisted type: at step N−1 it stores the quote and moves on only when that calculation succeeds; elsewhere it equals Wizard.Next |
| Wizard.UnlistedTypeStallsWizard | script.js:227-231 | at step N−1 with a website type that has no price, the code's Next leaves the wizard unchanged, while the corrected Next reaches step N with a quote |
| Wizard.Next | script.js:226-234 | from step N−1 a successful calculation stores the quote and moves to step N, and a failing one changes nothing; below N−1 the step only advances; at N nothing changes; the invariant is kept |
| Wizard.Prev | script.js:236-241 | above step 1 the step goes back by one with the quote kept; at step 1 nothing changes; the invariant is kept |
| Wizard.RunPreservesValid | script.js:208-241 | any sequence of Next and Previous clicks keeps the invariant and the counts of panels and markers |
| Wizard.StepStaysInRange | script.js:208-241 | from page load, under any clicks, the step stays in [1, N] and the view is the one derived from it |
| Wizard.ExactlyOnePanelActive | script.js:211 | in every reachable state exactly one step panel is active, the current one |
| Wizard.ProgressMarkers | script.js:213-217 | the number of completed markers is step−1 (clipped to the marker count) and exactly one marker is active while the step has a marker |
| Wizard.PrevThenNext | script.js:226-241 | Previous then Next returns to the same wizard, except from the last step, where it returns with the quote recomputed (or stays back if the calculation fails) |
| Wizard.NextThenPrev | script.js:226-241 | below step N−1, Next then Previous returns to the same wizard |
| SelectionCards.Click | script.js:243-257 | a radio ends checked with the other same-name radios unchecked, same-name checkboxes keeping their state and other names untouched, and, unless the click landed on the input, its card is the only selected one of that name; a checkbox flips and nothing else changes, and its card's class flips too unless the click landed on the input; a click on the input changes no `selected` class |
| SelectionCards.RadioClickSelectsOne | script.js:247-252 | after a radio card click exactly one card of its group is selected, the clicked one |
| SelectionCards.ClickKeepsSynced | script.js:245-256 | if no name is shared by a radio and a checkbox, every click on a card outside its input keeps each card's selected flag equal to its input's checked flag |
| SelectionCards.InputClickDesyncsCheckbox | script.js:245 | a click on a checkbox input itself flips the input while the handler returns, so that card's class no longer matches its input |
| SelectionCards.ApplyDefaults | script.js:261-263 | a card ends selected iff it was selected or holds a radio whose markup carries the `checked` attribute; inputs are untouched |
| SelectionCards.DefaultsAreSynced | script.js:261-263 | from unselected cards, unchecked checkboxes and radios whose state is their `checked` attribute, the start-up pass makes every card's selected flag equal its input's checked flag |
| SelectionCards.DoubleDefaultSelectsBoth | script.js:261-263 | when two radios of one group both carry the `checked` attribute, both cards get the class although only one stays checked |
| Carousel.JsRemainder | script.js:156-157 | JavaScript's remainder: a − r is n times the quotient truncated toward zero, r takes the dividend's sign with magnitude below n, so it is the identity on (−n, n) and subtraction of n on [n, 2n) |
| Carousel.Click | script.js:143-159 | a click outside both buttons, or with no testimonials, changes nothing; otherwise an index stays in [0, n): Previous wraps 0 to n−1, Next wraps n−1 to 0, and both together leave it in place |
| Carousel.PrevNextCancel | script.js:156-157 | Previous then Next, and Next then Previous, return the original index |
| Carousel.IndexStaysInRange | script.js:151-159 | with n > 0 testimonials, any sequence of clicks from page load keeps the index in [0, n) |
| Carousel.EmptyCarouselNeverMoves | script.js:153-154 | with no testimonials no sequence of clicks changes the stored index |
| Faq.Click | services.js:60-93 | a click outside the questions changes nothing; on question i, every other item is collapsed and closed, item i's expanded flag is negated, and every answer's height and padding agree with its expanded flag |
| Faq.AtMostOneExpanded | services.js:71-82 | after a click on a question at most one item is expanded; clicking the expanded item leaves none expanded; clicking a collapsed one leaves exactly one |
| Faq.ClickPreservesValid | services.js:60-93 | every click keeps "at most one expanded and every answer agreeing with its question" |
| Faq.ClickTwice | services.js:68-93 | two clicks on the same question restore its expanded flag and leave every other item collapsed |

## Findings

| source | as written | input that shows it | evidently intended | confidence | as-written member | corrected member |
|---|---|---|---|---|---|---|
| script.js:283 | The project-type summary line records `typeCosts[websiteType]`, which is undefined for a type missing from the table. Line 282 adds `\|\| 0` to the total, but this line does not. Line 309 then calls `toLocaleString()` on undefined, which throws. No quote is shown and the Next click aborts, so the wizard stays on step N−1. | a website-type radio whose value is not portfolio, corporate, e-commerce or custom, e.g. "blog" | the line shows the same `typeCosts[websiteType] \|\| 0` that enters the total, so the summary renders and its line costs sum to the total | medium, not executed (depends on the page's radio values) | Pricing.CalculateAsWritten, Pricing.UnlistedTypeLosesQuote, Wizard.NextAsWritten, Wizard.UnlistedTypeStallsWizard | Pricing.Calculate, Wizard.Next |

The wizard's `Wizard.Next` uses the corrected `Pricing.Calculate`. `Wizard.NextAsWritten` keeps the code's behaviour, where the wizard stays on step N−1.

## Left out

- `loadHTML` in both files: network fetch and HTML injection.
- Dark mode, mobile navigation, scroll-to-top, scroll animations and the hero animation: styling side effects with no state worth modelling.
- The contact form and the send-quote handler: third-party network calls (the quote handler is empty).
- `setupShowMore`, `openCalculator` and `closeCalculator`: plain visibility toggles.
- Building the summary HTML, joining feature names with ", ", the "+15%" text and `toLocaleString` formatting. Lines carry the card headings as opaque strings, the surcharge as a percentage and costs as integers.
- Pricing.Calculate: JavaScript's floating-point result for 1.15 and 1.3 is not modelled (`1.15 - 1` is slightly below 0.15 in binary floating point). The model gives the exact decimal result, which the page shows once `toLocaleString` rounds it.
- Pricing.Calculate: each selected input's card heading is taken as its label. The code looks features and styles up with `input[value=…]` across the whole document, which would pick another card's heading if two inputs shared a value.
- Pricing.TypeCost, Pricing.FeatureCost, Pricing.DesignPercent: a form value that names a property every JavaScript object inherits (such as "constructor") is treated as unlisted. In the code, `typeCosts[...] || 0`, `featureCosts[...] || 0` and `designMultipliers[...] || 1` would return that inherited function instead. For a feature this turns the sum into string concatenation.
- The carousel's `translateX(-index*100%)` transform: a presentation of the index. A stored index that is not a number (`parseInt` giving NaN) is not modelled; the index is an integer or absent.
- Clicks on hidden buttons are not excluded from the wizard model: their effect at the bounds is none, as in the code.
- SelectionCards.Click: every input is assumed to sit inside a selection card. If an input with the clicked radio's name is outside every card, `closest` returns null and the handler throws after the radio has been checked. A sequence of cards cannot represent that input.
- The FAQ answer's `scrollHeight` is measured by the browser and enters as a field of each item.
