/** The portfolio section (components/sections/portfolio.tsx): six fixed
    projects, cut by the optional `limit`, each card showing the
    description for the current locale. */
module Portfolio {
  import opened JsText
  import opened Listing

  datatype Description = Description(th: string, en: string)

  datatype Item = Item(id: nat, title: string, description: Description, url: string, tags: seq<string>)

  const Items: seq<Item> := [
    Item(1, "Kinzar", Description("เว็บแอพฐานข้อมูลเกม", "Gaming database web app"), "https://kinzar.com", ["Next.js", "Supabase"]),
    Item(2, "Bird Blocked", Description("E-commerce ตาข่ายกันนก", "Bird netting e-commerce"), "https://birdblocked.com", ["Next.js", "E-commerce"]),
    Item(3, "Art and Gun Game", Description("E-commerce อุปกรณ์เกมมิ่ง", "Gaming gear e-commerce"), "https://artandgungame.com", ["Next.js"]),
    Item(4, "iPlus Studio", Description("ร้านขาย IT", "IT store"), "https://iplus-studio.net", ["WordPress", "WooCommerce"]),
    Item(5, "T62 Residence", Description("เว็บไซต์โรงแรม", "Hotel website"), "https://t62residence.com", ["WordPress"]),
    Item(6, "DC Bigsize", Description("ร้านเสื้อผ้าไซส์ใหญ่", "Plus-size clothing"), "https://dcbigsize.com", ["WordPress", "WooCommerce"])
  ]

  /** `description[locale as 'th' | 'en']`: the cast checks nothing, so any
      other locale reads `undefined`. */
  function DescriptionIn(d: Description, locale: string): (r: Option<string>)
    ensures r.Some? <==> locale == "th" || locale == "en"
    ensures locale == "th" ==> r == Some(d.th)
    ensures locale == "en" ==> r == Some(d.en)
  {
    if locale == "th" then Some(d.th)
    else if locale == "en" then Some(d.en)
    else None
  }

  datatype Card = Card(title: string, description: Option<string>, url: string, tags: seq<string>)

  function CardOf(item: Item, locale: string): Card {
    Card(item.title, DescriptionIn(item.description, locale), item.url, item.tags)
  }

  datatype View = View(cards: seq<Card>, viewAll: Slot)

  function Section(limit: Option<int>, locale: string): View {
    View(Cards(Shown(Items, limit), item => CardOf(item, locale)), ViewAll(limit, "/" + locale + "/portfolio"))
  }

  /** Without a limit, or with 0, every project is shown, in order. */
  lemma {:induction false} AllWhenFalsy(limit: Option<int>, locale: string)
    requires !Truthy(limit)
    ensures |Section(limit, locale).cards| == 6
    ensures forall k :: 0 <= k < 6 ==> Section(limit, locale).cards[k] == CardOf(Items[k], locale)
  {
  }

  /** A positive limit shows the first `min(limit, 6)` projects. */
  lemma {:induction false} PrefixWhenPositive(limit: int, locale: string)
    requires limit > 0
    ensures |Section(Some(limit), locale).cards| == Min(limit, 6)
    ensures forall k :: 0 <= k < |Section(Some(limit), locale).cards| ==>
      Section(Some(limit), locale).cards[k] == CardOf(Items[k], locale)
  {
    var shown := Shown(Items, Some(limit));
    forall k | 0 <= k < |shown| ensures shown[k] == Items[k] {
      assert shown[k] == Items[..|shown|][k];
    }
  }

  /** A negative limit shows all but the last `-limit` projects. */
  lemma {:induction false} AllButLastWhenNegative(limit: int, locale: string)
    requires limit < 0
    ensures |Section(Some(limit), locale).cards| == Max(6 + limit, 0)
  {
  }

  /** The view-all link, to the locale's portfolio page, is rendered exactly
      when `limit` is truthy. */
  lemma {:induction false} ViewAllWhenTruthy(limit: Option<int>, locale: string)
    ensures Section(limit, locale).viewAll.Link? <==> Truthy(limit)
    ensures Truthy(limit) ==> Section(limit, locale).viewAll.href == "/" + locale + "/portfolio"
  {
  }

  /** Each card shows its own project's description in the current locale. */
  lemma {:induction false} DescriptionFollowsLocale(limit: Option<int>, locale: string, k: nat)
    requires k < |Section(limit, locale).cards|
    ensures locale == "th" ==> Section(limit, locale).cards[k].description == Some(Items[k].description.th)
    ensures locale == "en" ==> Section(limit, locale).cards[k].description == Some(Items[k].description.en)
  {
    var shown := Shown(Items, limit);
    assert shown[k] == Items[..|shown|][k];
  }

  /** The React keys `item.id` are distinct. */
  lemma {:induction false} IdsDistinct(i: nat, j: nat)
    requires i < j < |Items|
    ensures Items[i].id != Items[j].id
  {
  }
}
