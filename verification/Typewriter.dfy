/**
 * The hero typing effect: the element's text is cleared, then each timer
 * callback appends the next character until the whole text is shown.
 */
module Typewriter {

  class Typewriter {
    /** The text captured from the element before it was cleared. */
    const text: string
    /** The element's current `textContent`. */
    var shown: string
    /** Index of the next character to type. */
    var i: nat

    /** What is shown is always the first `i` characters of the text. */
    ghost predicate Valid()
      reads this
    {
      i <= |text| && shown == text[..i]
    }

    constructor (text: string)
      ensures Valid() && this.text == text && shown == "" && i == 0
    {
      this.text := text;
      shown := "";
      i := 0;
    }

    /** One `typeWriter` callback. */
    method Step()
      requires Valid()
      modifies this
      ensures Valid()
      ensures old(i) < |text| ==> i == old(i) + 1 && shown == old(shown) + [text[old(i)]]
      ensures old(i) >= |text| ==> i == old(i) && shown == old(shown)
    {
      if i < |text| {
        shown := shown + [text[i]];
        i := i + 1;
      }
    }

    /** The chain of `ticks` timer callbacks: the shown prefix grows by one per tick, up to the whole text. */
    method Run(ticks: nat)
      requires Valid()
      modifies this
      ensures Valid()
      ensures i == if old(i) + ticks <= |text| then old(i) + ticks else |text|
      ensures shown == text[..i]
    {
      var k := 0;
      while k < ticks
        invariant Valid()
        invariant k <= ticks
        invariant i == if old(i) + k <= |text| then old(i) + k else |text|
      {
        Step();
        k := k + 1;
      }
    }
  }
}
