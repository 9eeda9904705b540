/** The carousel's `current` index and its two buttons. `total` is the number
    of slides; with no slides the remainder by zero makes the index NaN, which
    stays NaN. JavaScript's `%` truncates toward zero, which for the
    non-negative operands the buttons produce agrees with Dafny's. */
module Carousel {

  datatype Index = At(i: int) | NotANumber

  /** `a % b` in JavaScript: the remainder takes the sign of `a`. */
  function JsRem(a: int, b: int): (r: int)
    requires b != 0
    ensures a >= 0 ==> r == a % b
    ensures a < 0 ==> r == -((-a) % b)
  {
    if a >= 0 then a % b else -((-a) % b)
  }

  /** `(prev + 1) % total`. */
  function NextIndex(current: Index, total: int): (r: Index)
    ensures total > 0 && current.At? && 0 <= current.i < total ==>
      r == At(if current.i == total - 1 then 0 else current.i + 1)
    ensures total == 0 || current.NotANumber? ==> r == NotANumber
  {
    match current
    case NotANumber => NotANumber
    case At(i) => if total == 0 then NotANumber else At(JsRem(i + 1, total))
  }

  /** `(prev - 1 + total) % total`. */
  function PrevIndex(current: Index, total: int): (r: Index)
    ensures total > 0 && current.At? && 0 <= current.i < total ==>
      r == At(if current.i == 0 then total - 1 else current.i - 1)
    ensures total == 0 || current.NotANumber? ==> r == NotANumber
  {
    match current
    case NotANumber => NotANumber
    case At(i) =>
      if total == 0 then NotANumber
      else
        assert i - 1 + total >= 0 ==> JsRem(i - 1 + total, total) == (i - 1 + total) % total;
        At(JsRem(i - 1 + total, total))
  }

  /** A slide index in range. */
  predicate InRange(current: Index, total: int) {
    current.At? && 0 <= current.i < total
  }

  /** Back after forward and forward after back both restore the slide. */
  lemma NextPrevInverse(current: Index, total: int)
    requires InRange(current, total)
    ensures PrevIndex(NextIndex(current, total), total) == current
    ensures NextIndex(PrevIndex(current, total), total) == current
    ensures InRange(NextIndex(current, total), total) && InRange(PrevIndex(current, total), total)
  {
  }

  /** Pressing next `total` times comes back to the same slide. */
  lemma {:induction false} FullTurn(current: Index, total: int, k: nat)
    requires InRange(current, total) && k <= total
    ensures Steps(current, total, k) == (if current.i + k < total then At(current.i + k) else At(current.i + k - total))
    decreases k
  {
    if k > 0 {
      FullTurn(current, total, k - 1);
    }
  }

  /** `k` presses of next. */
  function Steps(current: Index, total: int, k: nat): (r: Index)
  {
    if k == 0 then current else NextIndex(Steps(current, total, k - 1), total)
  }

  class CarouselState {
    const total: int
    var current: Index

    /** `useState(0)`. */
    constructor (total: int)
      ensures this.total == total && current == At(0)
    {
      this.total := total;
      current := At(0);
    }

    method Next()
      modifies this
      ensures current == NextIndex(old(current), total)
      ensures InRange(old(current), total) ==> InRange(current, total)
    {
      current := NextIndex(current, total);
    }

    method Prev()
      modifies this
      ensures current == PrevIndex(old(current), total)
      ensures InRange(old(current), total) ==> InRange(current, total)
    {
      current := PrevIndex(current, total);
    }
  }
}
