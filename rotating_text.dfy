/** The hero headline's rotating word (src/components/RotatingText.jsx): a
    timer advances `currentIndex` through `words`, wrapping to the start. */
module RotatingText {
  const Words: seq<string> := ["ทำเว็บไซต์", "เว็บแอพ", "ระบบหลังบ้าน", "สร้างแบรนด์ออนไลน์"]

  /** The interval callback `(prev + 1) % words.length`. */
  function Next(i: nat): (r: nat)
    ensures r < |Words|
    ensures i + 1 < |Words| ==> r == i + 1
    ensures i + 1 == |Words| ==> r == 0
  {
    (i + 1) % |Words|
  }

  /** The index after `n` ticks from `i`. */
  function After(i: nat, n: nat): nat
    decreases n
  {
    if n == 0 then i else After(Next(i), n - 1)
  }

  /** `n` ticks add `n` modulo the number of words. */
  lemma {:induction false} AfterIsSum(i: nat, n: nat)
    requires i < |Words|
    ensures After(i, n) == (i + n) % |Words|
    decreases n
  {
    if n > 0 {
      AfterIsSum(Next(i), n - 1);
      assert (Next(i) + (n - 1)) % 4 == (i + n) % 4 by {
        ShiftMod(i, n - 1);
      }
    }
  }

  lemma {:induction false} ShiftMod(i: nat, m: nat)
    ensures ((i + 1) % 4 + m) % 4 == (i + 1 + m) % 4
  {
    var q := (i + 1) / 4;
    assert i + 1 == 4 * q + (i + 1) % 4;
    assert i + 1 + m == 4 * q + ((i + 1) % 4 + m);
  }

  /** After one tick per word the rotation is back where it started. */
  lemma {:induction false} FullCycle(i: nat)
    requires i < |Words|
    ensures After(i, |Words|) == i
  {
    AfterIsSum(i, |Words|);
  }

  class Rotator {
    var currentIndex: nat

    predicate Valid()
      reads this
    {
      currentIndex < |Words|
    }

    /** The word on screen, `words[currentIndex]`, defined in every valid state. */
    function Current(): (w: string)
      requires Valid()
      reads this
      ensures w in Words
    {
      Words[currentIndex]
    }

    /** `useState(0)`. */
    constructor ()
      ensures Valid() && currentIndex == 0
    {
      currentIndex := 0;
    }

    /** One firing of the 2.5-second interval. */
    method Tick()
      requires Valid()
      modifies this
      ensures Valid()
      ensures currentIndex == Next(old(currentIndex))
      ensures currentIndex == After(old(currentIndex), 1)
    {
      currentIndex := Next(currentIndex);
    }
  }
}
