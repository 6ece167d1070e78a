/** The optional `limit` prop shared by the portfolio and services sections
    (components/sections/portfolio.tsx, components/sections/services.tsx):
    the cards are `limit ? items.slice(0, limit) : items`, and the
    view-all link sits under `{limit && …}`. */
module Listing {
  import opened JsText

  /** `limit?: number` is truthy: present and not 0. */
  predicate Truthy(limit: Option<int>) {
    limit.Some? && limit.value != 0
  }

  function Min(a: int, b: int): int {
    if a < b then a else b
  }

  function Max(a: int, b: int): int {
    if a < b then b else a
  }

  /** The items the section renders, in their original order. */
  function Shown<T>(items: seq<T>, limit: Option<int>): (r: seq<T>)
    ensures |r| <= |items| && r == items[..|r|]
    ensures !Truthy(limit) ==> r == items
    ensures Truthy(limit) && limit.value > 0 ==> |r| == Min(limit.value, |items|)
    ensures Truthy(limit) && limit.value < 0 ==> |r| == Max(|items| + limit.value, 0)
  {
    if Truthy(limit) then SliceTo(items, limit.value) else items
  }

  /** `items.map(item => <Card …/>)`: one card per item, in order. */
  function Cards<T, C>(items: seq<T>, render: T -> C): (r: seq<C>)
    ensures |r| == |items|
    ensures forall k :: 0 <= k < |r| ==> r[k] == render(items[k])
  {
    if items == [] then [] else [render(items[0])] + Cards(items[1..], render)
  }

  /** A larger positive limit shows the cards of a smaller one, and more. */
  lemma {:induction false} ShownGrows<T>(items: seq<T>, a: int, b: int)
    requires 0 < a <= b
    ensures Shown(items, Some(b))[..|Shown(items, Some(a))|] == Shown(items, Some(a))
    ensures |Shown(items, Some(a))| <= |Shown(items, Some(b))|
  {
    var sa := Shown(items, Some(a));
    var sb := Shown(items, Some(b));
    assert sb[..|sa|] == items[..|sb|][..|sa|];
  }

  /** A negative limit leaves out exactly the last `-limit` items. */
  lemma {:induction false} ShownDropsLast<T>(items: seq<T>, limit: int)
    requires -|items| <= limit < 0
    ensures Shown(items, Some(limit)) + items[|items| + limit..] == items
  {
    var r := Shown(items, Some(limit));
    assert |r| == |items| + limit;
    assert items == items[..|r|] + items[|r|..];
  }

  /** What `{limit && <div>…</div>}` renders: nothing for `undefined`, the
      text `0` for the number 0 (React prints a falsy number), the link
      otherwise. */
  datatype Slot = Nothing | Text(text: string) | Link(href: string)

  function ViewAll(limit: Option<int>, href: string): (r: Slot)
    ensures r.Link? <==> Truthy(limit)
    ensures r.Link? ==> r.href == href
    ensures r.Text? <==> limit == Some(0)
    ensures r.Text? ==> r.text == "0"
    ensures r.Nothing? <==> limit.None?
  {
    match limit
    case None => Nothing
    case Some(n) => if n == 0 then Text("0") else Link(href)
  }

  /** The cards are cut exactly when the view-all link is rendered. */
  lemma {:induction false} CutOnlyWithLink<T>(items: seq<T>, limit: Option<int>, href: string)
    requires |Shown(items, limit)| < |items|
    ensures ViewAll(limit, href) == Link(href)
  {
  }
}
