/**
 The FAQ accordion of the services page (`setupFaqAccordion` in
 services.js): a click on a question closes every other item and toggles
 the clicked one, so at most one answer is open at a time.
 */
module Faq {
  import opened Common

  /** The inline style of an answer: its `max-height` in pixels and whether
      its padding has the bottom part ("0 1.5rem 1.5rem 1.5rem") or only the
      horizontal part ("0 1.5rem"). */
  datatype AnswerStyle = AnswerStyle(maxHeight: nat, bottomPadding: bool)

  /** An item: its question's `aria-expanded` flag, the natural height of
      its answer (`scrollHeight`, measured by the browser) and the answer's
      style. */
  datatype Item = Item(expanded: bool, scrollHeight: nat, style: AnswerStyle)

  /** Where a click in the FAQ container landed: inside the question button
      of the item at `index`, or outside every question. */
  datatype Target = Question(index: nat) | Elsewhere

  const ClosedStyle := AnswerStyle(0, false)

  function OpenStyle(item: Item): AnswerStyle {
    AnswerStyle(item.scrollHeight, true)
  }

  /** The answer is shown exactly when its question is expanded. */
  predicate Agrees(item: Item) {
    item.style == (if item.expanded then OpenStyle(item) else ClosedStyle)
  }

  function Expanded(items: seq<Item>): (flags: seq<bool>)
    ensures |flags| == |items|
  {
    seq(|items|, j requires 0 <= j < |items| => items[j].expanded)
  }

  function Collapse(item: Item): Item {
    item.(expanded := false, style := ClosedStyle)
  }

  function Toggle(item: Item): Item {
    if item.expanded then Collapse(item) else item.(expanded := true, style := OpenStyle(item))
  }

  /** The items after a click. */
  function Click(items: seq<Item>, target: Target): (r: seq<Item>)
    ensures |r| == |items|
    ensures target.Elsewhere? ==> r == items
    ensures target.Question? ==>
              && (forall j :: 0 <= j < |r| && j != target.index ==> !r[j].expanded && r[j].style == ClosedStyle)
              && (target.index < |r| ==> r[target.index].expanded == !items[target.index].expanded)
              && (forall j :: 0 <= j < |r| ==> Agrees(r[j]) && r[j].scrollHeight == items[j].scrollHeight)
  {
    match target
    case Elsewhere => items
    case Question(k) =>
      seq(|items|, j requires 0 <= j < |items| => if j == k then Toggle(items[j]) else Collapse(items[j]))
  }

  /** After any click on a question at most one item is expanded; clicking
      the item that was expanded leaves every item collapsed. */
  lemma AtMostOneExpanded(items: seq<Item>, k: nat)
    ensures CountTrue(Expanded(Click(items, Question(k)))) <= 1
    ensures k < |items| && items[k].expanded ==> CountTrue(Expanded(Click(items, Question(k)))) == 0
    ensures k < |items| && !items[k].expanded ==> CountTrue(Expanded(Click(items, Question(k)))) == 1
  {
    CountTrueSingle(Expanded(Click(items, Question(k))), k);
  }

  /** The accordion's invariant: at most one item expanded and every answer
      agreeing with its question. */
  predicate Valid(items: seq<Item>) {
    && CountTrue(Expanded(items)) <= 1
    && forall j :: 0 <= j < |items| ==> Agrees(items[j])
  }

  lemma ClickPreservesValid(items: seq<Item>, target: Target)
    requires Valid(items)
    ensures Valid(Click(items, target))
  {
    if target.Question? {
      AtMostOneExpanded(items, target.index);
    }
  }

  /** Two clicks on the same question: it ends expanded exactly when it was
      collapsed before, and every other item ends collapsed. */
  lemma ClickTwice(items: seq<Item>, k: nat)
    requires k < |items|
    ensures var r := Click(Click(items, Question(k)), Question(k));
            && r[k].expanded == items[k].expanded
            && forall j :: 0 <= j < |r| && j != k ==> !r[j].expanded
  {
  }
}
