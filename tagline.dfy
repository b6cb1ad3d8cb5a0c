/** The rotating tagline under the hero heading: a fixed list of three
    lines and the index of the one on show, advanced on every tick of the
    timer `changeTagline` starts. */
module Tagline {

  const Taglines: seq<string> := [
    "Building clean and functional web experiences",
    "Designing with purpose, coding with logic",
    "Turning ideas into interactive interfaces"
  ]

  /** `(currentIndex + 1) % taglines.length`: the next line, wrapping from
      the last back to the first. */
  function NextIndex(i: nat): (r: nat)
    ensures r < |Taglines|
    ensures i < |Taglines| ==> r == if i == |Taglines| - 1 then 0 else i + 1
  {
    (i + 1) % |Taglines|
  }

  /** The index after `n` ticks from the start, where it is 0. */
  function IndexAfter(n: nat): (r: nat)
    ensures r < |Taglines|
  {
    if n == 0 then 0 else NextIndex(IndexAfter(n - 1))
  }

  /** After `n` ticks the index is `n` modulo the number of lines, so the
      rotation visits every line in turn and repeats every three ticks. */
  lemma {:induction false} IndexAfterTicks(n: nat)
    ensures IndexAfter(n) == n % |Taglines|
  {
    if n > 0 {
      IndexAfterTicks(n - 1);
    }
  }

  class Rotator {
    var currentIndex: nat
    var text: string
    ghost var ticks: nat

    ghost predicate Valid()
      reads this
    {
      currentIndex == IndexAfter(ticks) && (ticks > 0 ==> text == Taglines[currentIndex])
    }

    /** `changeTagline` starts from index 0; until the first tick the
        element keeps the text the page was served with. */
    constructor (initialText: string)
      ensures Valid() && ticks == 0 && currentIndex == 0 && text == initialText
    {
      currentIndex, text := 0, initialText;
      ticks := 0;
    }

    /** One tick of the interval: advance the index and show that line. */
    method Tick()
      requires Valid()
      modifies this
      ensures Valid() && ticks == old(ticks) + 1
      ensures currentIndex == NextIndex(old(currentIndex))
      ensures currentIndex == ticks % |Taglines|
      ensures text == Taglines[currentIndex]
    {
      currentIndex := NextIndex(currentIndex);
      text := Taglines[currentIndex];
      ticks := ticks + 1;
      IndexAfterTicks(ticks);
    }
  }
}
