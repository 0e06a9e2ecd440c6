/**
 The testimonial carousel (`setupTestimonialCarousel` in script.js): the
 index of the shown testimonial is kept in the carousel's
 `data-current-index` attribute and moved modulo the number of
 testimonials by the previous and next buttons.
 */
module Carousel {
  import opened Common

  /** JavaScript's `%`: the remainder truncated toward zero, which takes the
      sign of the dividend (Dafny's `%` is Euclidean). */
  function JsRemainder(a: int, n: int): (r: int)
    requires n > 0
    ensures a >= 0 ==> 0 <= r < n
    ensures a < 0 ==> -n < r <= 0
    ensures -n < a < n ==> r == a
    ensures n <= a < 2 * n ==> r == a - n
    ensures a - r == n * (if a >= 0 then a / n else -((-a) / n))
  {
    if a >= 0 then
      NonNegativeRemainder(a, n);
      if a < 2 * n then SmallRemainder(a, n); a % n else a % n
    else
      NegativeRemainder(a, n);
      -((-a) % n)
  }

  lemma NonNegativeRemainder(a: int, n: int)
    requires n > 0 && a >= 0
    ensures a - a % n == n * (a / n)
  {
  }

  lemma NegativeRemainder(a: int, n: int)
    requires n > 0 && a < 0
    ensures a + (-a) % n == n * -((-a) / n)
    ensures 0 <= (-a) % n < n
  {
    var b, q := -a, (-a) / n;
    assert b == n * q + b % n;
    assert n * -q == -(n * q);
  }

  /** Euclidean remainder of a value in [0, 2n). */
  lemma SmallRemainder(a: int, n: int)
    requires n > 0 && 0 <= a < 2 * n
    ensures a % n == (if a < n then a else a - n)
  {
  }

  /** Which buttons the click landed inside. */
  datatype Press = Press(onPrev: bool, onNext: bool)

  /** The stored index after a click, given the stored index before it
      (absent until the first move) and the number of testimonials. */
  function Click(stored: Option<int>, count: nat, press: Press): (r: Option<int>)
    ensures (!press.onPrev && !press.onNext) || count == 0 ==> r == stored
    ensures (press.onPrev || press.onNext) && count > 0 ==>
              r.Some? && (stored.GetOr(0) >= 0 ==> 0 <= r.value < count)
    ensures press == Press(true, false) && count > 0 && 0 <= stored.GetOr(0) < count ==>
              var i := stored.GetOr(0); r == Some(if i == 0 then count - 1 else i - 1)
    ensures press == Press(false, true) && count > 0 && 0 <= stored.GetOr(0) < count ==>
              var i := stored.GetOr(0); r == Some(if i == count - 1 then 0 else i + 1)
    ensures press == Press(true, true) && count > 0 && 0 <= stored.GetOr(0) < count ==>
              r == Some(stored.GetOr(0))
  {
    if (!press.onPrev && !press.onNext) || count == 0 then stored
    else
      var i := stored.GetOr(0);
      var afterPrev := if press.onPrev then JsRemainder(i - 1 + count, count) else i;
      var afterNext := if press.onNext then JsRemainder(afterPrev + 1, count) else afterPrev;
      Some(afterNext)
  }

  /** Previous then next, or next then previous, shows the same testimonial
      again. */
  lemma PrevNextCancel(i: int, count: nat)
    requires 0 <= i < count
    ensures Click(Click(Some(i), count, Press(true, false)), count, Press(false, true)) == Some(i)
    ensures Click(Click(Some(i), count, Press(false, true)), count, Press(true, false)) == Some(i)
  {
  }

  /** The stored index after a sequence of clicks. */
  function Run(stored: Option<int>, count: nat, presses: seq<Press>): Option<int>
    decreases |presses|
  {
    if |presses| == 0 then stored else Run(Click(stored, count, presses[0]), count, presses[1..])
  }

  predicate InRange(stored: Option<int>, count: nat) {
    stored.Some? ==> 0 <= stored.value < count
  }

  /** From page load (no index stored), with at least one testimonial, the
      index stays within [0, count) whatever buttons are pressed. */
  lemma {:induction false} IndexStaysInRange(stored: Option<int>, count: nat, presses: seq<Press>)
    requires count > 0 && InRange(stored, count)
    ensures InRange(Run(stored, count, presses), count)
    decreases |presses|
  {
    if |presses| > 0 {
      IndexStaysInRange(Click(stored, count, presses[0]), count, presses[1..]);
    }
  }

  /** Without testimonials no click changes the stored index. */
  lemma {:induction false} EmptyCarouselNeverMoves(stored: Option<int>, presses: seq<Press>)
    ensures Run(stored, 0, presses) == stored
    decreases |presses|
  {
    if |presses| > 0 {
      EmptyCarouselNeverMoves(Click(stored, 0, presses[0]), presses[1..]);
    }
  }
}
