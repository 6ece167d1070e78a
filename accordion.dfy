/** The single-open accordion shared by the FAQ section
    (components/sections/faq.tsx) and the service pages
    (components/services/service-page-template.tsx): `openIndex` is the
    open item, or none. */
module Accordion {
  import opened JsText

  /** The click handler `setOpenIndex(openIndex === i ? null : i)`. */
  function Toggled(open: Option<nat>, i: nat): (r: Option<nat>)
    ensures r == Some(i) <==> open != Some(i)
    ensures r.None? <==> open == Some(i)
    ensures forall j :: j != i ==> r != Some(j)
  {
    if open == Some(i) then None else Some(i)
  }

  /** Clicking the same item twice from a closed accordion, or from that
      item open, comes back to where it started. */
  lemma {:induction false} ToggleTwice(open: Option<nat>, i: nat)
    requires open.None? || open == Some(i)
    ensures Toggled(Toggled(open, i), i) == open
  {
  }

  /** Clicking another item while one is open moves the open item. */
  lemma {:induction false} ToggleOther(i: nat, j: nat)
    requires i != j
    ensures Toggled(Some(i), j) == Some(j)
  {
  }

  class Accordion {
    /** The number of items. */
    const count: nat
    var openIndex: Option<nat>

    predicate Valid()
      reads this
    {
      openIndex.Some? ==> openIndex.value < count
    }

    /** Item `i`'s answer is visible. */
    predicate Shown(i: nat)
      reads this
    {
      openIndex == Some(i)
    }

    /** Both accordions start with the first item open. */
    constructor (count: nat)
      requires count > 0
      ensures Valid() && this.count == count
      ensures openIndex == Some(0)
    {
      this.count := count;
      openIndex := Some(0);
    }

    /** A click on the header of item `i`. */
    method Toggle(i: nat)
      requires Valid() && i < count
      modifies this
      ensures Valid()
      ensures openIndex == Toggled(old(openIndex), i)
      ensures Shown(i) <==> !old(Shown(i))
    {
      openIndex := Toggled(openIndex, i);
    }

    /** At most one answer is visible, and it belongs to an existing item. */
    lemma {:induction false} AtMostOneShown(i: nat, j: nat)
      requires Valid() && Shown(i) && Shown(j)
      ensures i == j && i < count
    {
    }
  }
}
