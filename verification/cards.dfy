/**
 The selection cards of the calculator (script.js, inside
 `initCalculatorWizard`): each card holds one radio or checkbox input and
 carries a `selected` class. A click on a radio card checks its input and
 makes it the only selected card among the inputs of the same name; a click
 on a checkbox card flips both its input and its class. A click that lands
 on the input itself makes the handler return, and only the browser's own
 action on the input takes place.

 Checking a radio also unchecks the other radios of its group: that is the
 radio button group rule of the HTML Living Standard (the Radio Button state
 of the input element), not a line of the script, and is included so that
 `checked` is described as the page shows it. The same standard gives the
 browser's action on a click on the input: a checkbox flips, a radio
 becomes checked.
 */
module SelectionCards {
  import opened Common

  datatype InputKind = Radio | Checkbox

  /** A card: the kind and `name` of its input, whether the markup gives the
      input a `checked` attribute, the input's current checked state, and
      whether the card carries the `selected` class. */
  datatype Card = Card(kind: InputKind, name: string, checkedAttr: bool, checked: bool, selected: bool)

  /** Every card shows its input's state. */
  predicate Synced(cards: seq<Card>) {
    forall j :: 0 <= j < |cards| ==> cards[j].checked == cards[j].selected
  }

  /** No name is shared by a radio and a checkbox. */
  predicate KindsAgreeOnNames(cards: seq<Card>) {
    forall i, j :: 0 <= i < |cards| && 0 <= j < |cards| && cards[i].name == cards[j].name ==>
      cards[i].kind == cards[j].kind
  }

  /** The `selected` flags of the cards whose input is named `name`. */
  function SelectedIn(cards: seq<Card>, name: string): (s: seq<bool>)
    ensures |s| == |cards|
  {
    seq(|cards|, j requires 0 <= j < |cards| => cards[j].name == name && cards[j].selected)
  }

  /** Checking radio `k`: the other radios of its group are unchecked. */
  function CheckRadio(cards: seq<Card>, k: nat): (r: seq<Card>)
    requires k < |cards|
  {
    seq(|cards|, j requires 0 <= j < |cards| =>
      if j == k then cards[j].(checked := true)
      else if cards[j].name == cards[k].name && cards[j].kind == Radio then cards[j].(checked := false)
      else cards[j])
  }

  /** A click on card `k`; `onInput` when the click landed on the input. */
  function Click(cards: seq<Card>, k: nat, onInput: bool): (r: seq<Card>)
    requires k < |cards|
    ensures |r| == |cards|
    ensures forall j :: 0 <= j < |r| ==>
              r[j].kind == cards[j].kind && r[j].name == cards[j].name && r[j].checkedAttr == cards[j].checkedAttr
    ensures cards[k].kind == Radio ==>
              && r[k].checked
              && (forall j :: 0 <= j < |r| && j != k && cards[j].name == cards[k].name && cards[j].kind == Radio ==>
                    !r[j].checked)
              && (forall j :: 0 <= j < |r| && j != k && cards[j].name == cards[k].name && cards[j].kind == Checkbox ==>
                    r[j].checked == cards[j].checked)
              && (forall j :: 0 <= j < |r| && cards[j].name != cards[k].name ==> r[j] == cards[j])
    ensures !onInput && cards[k].kind == Radio ==>
              && r[k].selected
              && (forall j :: 0 <= j < |r| && j != k && cards[j].name == cards[k].name ==> !r[j].selected)
    ensures cards[k].kind == Checkbox ==>
              && r[k].checked == !cards[k].checked
              && (forall j :: 0 <= j < |r| && j != k ==> r[j] == cards[j])
    ensures !onInput && cards[k].kind == Checkbox ==> r[k].selected == !cards[k].selected
    ensures onInput ==> forall j :: 0 <= j < |r| ==> r[j].selected == cards[j].selected
  {
    var c := cards[k];
    match c.kind
    case Radio =>
      var checkedNow := CheckRadio(cards, k);
      if onInput then checkedNow
      else
        seq(|cards|, j requires 0 <= j < |cards| =>
          if j == k then checkedNow[j].(selected := true)
          else if cards[j].name == c.name then checkedNow[j].(selected := false)
          else checkedNow[j])
    case Checkbox =>
      if onInput then cards[k := c.(checked := !c.checked)]
      else cards[k := c.(checked := !c.checked, selected := !c.selected)]
  }

  /** After a click on a radio card, exactly one card of its group is
      selected, and it is the clicked one. */
  lemma RadioClickSelectsOne(cards: seq<Card>, k: nat)
    requires k < |cards| && cards[k].kind == Radio
    ensures var r := Click(cards, k, false);
            CountTrue(SelectedIn(r, cards[k].name)) == 1 && r[k].selected
  {
    var r := Click(cards, k, false);
    CountTrueSingle(SelectedIn(r, cards[k].name), k);
  }

  /** Card clicks keep every card showing its input's state, as long as no
      name is shared by a radio and a checkbox and the click does not land
      on the input. */
  lemma ClickKeepsSynced(cards: seq<Card>, k: nat)
    requires k < |cards|
    requires KindsAgreeOnNames(cards) && Synced(cards)
    ensures Synced(Click(cards, k, false))
  {
  }

  /** A click on a checkbox itself flips the input while the handler returns,
      so the card's `selected` class no longer shows the input's state. */
  lemma InputClickDesyncsCheckbox(cards: seq<Card>, k: nat)
    requires k < |cards| && cards[k].kind == Checkbox && Synced(cards)
    ensures !Synced(Click(cards, k, true))
  {
  }

  /** The start-up pass: the card of every radio whose markup carries the
      `checked` attribute gets the `selected` class. */
  function ApplyDefaults(cards: seq<Card>): (r: seq<Card>)
    ensures |r| == |cards|
    ensures forall j :: 0 <= j < |r| ==>
              && r[j].kind == cards[j].kind && r[j].name == cards[j].name
              && r[j].checkedAttr == cards[j].checkedAttr && r[j].checked == cards[j].checked
              && (r[j].selected <==> cards[j].selected || (cards[j].kind == Radio && cards[j].checkedAttr))
  {
    seq(|cards|, j requires 0 <= j < |cards| =>
      if cards[j].kind == Radio && cards[j].checkedAttr then cards[j].(selected := true) else cards[j])
  }

  /** Starting from unmarked cards, unchecked checkboxes and radios whose
      state is their markup's `checked` attribute, the start-up pass leaves
      every card showing its input's state. */
  lemma DefaultsAreSynced(cards: seq<Card>)
    requires forall j :: 0 <= j < |cards| ==> !cards[j].selected
    requires forall j :: 0 <= j < |cards| && cards[j].kind == Checkbox ==> !cards[j].checked
    requires forall j :: 0 <= j < |cards| && cards[j].kind == Radio ==> cards[j].checked == cards[j].checkedAttr
    ensures Synced(ApplyDefaults(cards))
  {
  }

  /** Two radios of one group that both carry the `checked` attribute both
      get the `selected` class, although the browser leaves only one of them
      checked. */
  lemma DoubleDefaultSelectsBoth(cards: seq<Card>, i: nat, j: nat)
    requires i < |cards| && j < |cards| && i != j
    requires cards[i].kind == Radio && cards[j].kind == Radio && cards[i].name == cards[j].name
    requires cards[i].checkedAttr && cards[j].checkedAttr
    requires !cards[i].checked
    ensures var r := ApplyDefaults(cards); r[i].selected && r[j].selected && !Synced(r)
  {
  }
}
