/** The services section (components/sections/services.tsx): eight fixed
    services, cut by the optional `limit`, each card linking to the
    service's page under the current locale. */
module Services {
  import opened JsText
  import opened Listing
  import Header

  datatype Service = Service(key: string, href: string)

  const All: seq<Service> := [
    Service("website", "/services/website"),
    Service("webapp", "/services/webapp"),
    Service("app", "/services/app"),
    Service("ai", "/services/ai"),
    Service("ads", "/services/ads"),
    Service("seo", "/services/seo"),
    Service("social", "/services/social"),
    Service("business", "/services/business")
  ]

  /** A card: its link and the message keys (under `services.items`) of its
      title and description. */
  datatype Card = Card(href: string, titleKey: string, descriptionKey: string)

  function CardOf(s: Service, locale: string): Card {
    Card("/" + locale + s.href, s.key + ".title", s.key + ".description")
  }

  datatype View = View(cards: seq<Card>, viewAll: Slot)

  function Section(limit: Option<int>, locale: string): View {
    View(Cards(Shown(All, limit), s => CardOf(s, locale)), ViewAll(limit, "/" + locale + "/services"))
  }

  /** Every service's page lives at `/services/<key>`, and no two services
      share a key. */
  lemma {:induction false} HrefsFollowKeys(i: nat)
    requires i < |All|
    ensures All[i].href == "/services/" + All[i].key
    ensures forall j :: 0 <= j < |All| && j != i ==> All[j].key != All[i].key
  {
    HrefFollowsKey(i, All[i]);
    forall j | 0 <= j < |All| && j != i ensures All[j].key != All[i].key {
      KeysDistinct(i, j);
    }
  }

  lemma {:induction false} HrefFollowsKey(i: nat, s: Service)
    requires i < |All| && s == All[i]
    ensures s.href == "/services/" + s.key
  {
    var p := "/services/";
    if i == 0 { assert s.href == p + "website"; }
    else if i == 1 { assert s.href == p + "webapp"; }
    else if i == 2 { assert s.href == p + "app"; }
    else if i == 3 { assert s.href == p + "ai"; }
    else if i == 4 { assert s.href == p + "ads"; }
    else if i == 5 { assert s.href == p + "seo"; }
    else if i == 6 { assert s.href == p + "social"; }
    else { assert s.href == p + "business"; }
  }

  lemma {:induction false} KeysDistinct(i: nat, j: nat)
    requires i < |All| && j < |All| && i != j
    ensures All[i].key != All[j].key
  {
  }

  /** Without a limit, or with 0, all eight services are shown, in order. */
  lemma {:induction false} AllWhenFalsy(limit: Option<int>, locale: string)
    requires !Truthy(limit)
    ensures |Section(limit, locale).cards| == 8
    ensures forall k :: 0 <= k < 8 ==> Section(limit, locale).cards[k] == CardOf(All[k], locale)
  {
  }

  /** A positive limit shows the first `min(limit, 8)` services. */
  lemma {:induction false} PrefixWhenPositive(limit: int, locale: string)
    requires limit > 0
    ensures |Section(Some(limit), locale).cards| == Min(limit, 8)
    ensures forall k :: 0 <= k < |Section(Some(limit), locale).cards| ==>
      Section(Some(limit), locale).cards[k] == CardOf(All[k], locale)
  {
    var shown := Shown(All, Some(limit));
    forall k | 0 <= k < |shown| ensures shown[k] == All[k] {
      assert shown[k] == All[..|shown|][k];
    }
  }

  /** Card `k` links to `/<locale>/services/<key>` of service `k`, a page
      under which the header's services link is active. */
  lemma {:induction false} CardLinksToService(limit: Option<int>, locale: string, k: nat)
    requires k < |Section(limit, locale).cards|
    ensures Section(limit, locale).cards[k].href == "/" + locale + "/services/" + All[k].key
    ensures Header.IsActive(locale, Section(limit, locale).cards[k].href, "/services")
  {
    var shown := Shown(All, limit);
    assert shown[k] == All[..|shown|][k];
    assert Section(limit, locale).cards[k] == CardOf(All[k], locale);
    HrefFollowsKey(k, All[k]);
    CardOfServicePage(All[k], locale);
  }

  lemma {:induction false} CardOfServicePage(s: Service, locale: string)
    requires s.href == "/services/" + s.key
    ensures CardOf(s, locale).href == "/" + locale + "/services/" + s.key
    ensures Header.IsActive(locale, CardOf(s, locale).href, "/services")
  {
    assert CardOf(s, locale).href == "/" + locale + "/services" + ("/" + s.key);
    Header.SubPathActive(locale, "/services", "/" + s.key);
  }

  /** The view-all link, to the locale's services page, is rendered exactly
      when `limit` is truthy. */
  lemma {:induction false} ViewAllWhenTruthy(limit: Option<int>, locale: string)
    ensures Section(limit, locale).viewAll.Link? <==> Truthy(limit)
    ensures Truthy(limit) ==> Section(limit, locale).viewAll.href == "/" + locale + "/services"
  {
  }
}
