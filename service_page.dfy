/** The page template shared by the service pages
    (components/services/service-page-template.tsx): icon lookup, the FAQ
    and breadcrumb records handed to the schema.org builders, numbered
    process steps, the optional pricing cards and the FAQ accordion. */
module ServicePage {
  import opened JsText
  import JsonLd
  import Accordion

  /** `icons[name] || LucideIcons.HelpCircle` over the icon namespace, which
      holds `HelpCircle` itself. */
  function GetIcon<I>(icons: map<string, I>, name: string): (r: I)
    requires "HelpCircle" in icons
    ensures name in icons ==> r == icons[name]
    ensures name !in icons ==> r == icons["HelpCircle"]
  {
    if name in icons then icons[name] else icons["HelpCircle"]
  }

  /** Every lookup yields an icon of the namespace, so each card and step
      renders one. */
  lemma {:induction false} IconAlwaysFound<I>(icons: map<string, I>, name: string)
    requires "HelpCircle" in icons
    ensures GetIcon(icons, name) in icons.Values
    ensures GetIcon(icons, name) == GetIcon(icons, "HelpCircle") <== name !in icons
  {
  }

  /** The message key prefix `faq.${i}` of FAQ entry `i`. */
  function FaqKey(i: nat): string {
    "faq." + NatToString(i)
  }

  /** `ns.map(i => ({ question: t(`faq.${i}.question`), answer: t(`faq.${i}.answer`) }))`. */
  function FaqItemsOf(t: string -> string, ns: seq<nat>): (r: seq<JsonLd.FaqItem>)
    ensures |r| == |ns|
    ensures forall k :: 0 <= k < |r| ==>
      r[k] == JsonLd.FaqItem(t(FaqKey(ns[k]) + ".question"), t(FaqKey(ns[k]) + ".answer"))
  {
    if ns == [] then []
    else [JsonLd.FaqItem(t(FaqKey(ns[0]) + ".question"), t(FaqKey(ns[0]) + ".answer"))] + FaqItemsOf(t, ns[1..])
  }

  const FaqNumbers: seq<nat> := [1, 2, 3, 4, 5]

  /** The page's entries, keyed `faq.1` to `faq.5` in order. */
  function FaqItems(t: string -> string): (r: seq<JsonLd.FaqItem>)
    ensures |r| == 5
    ensures forall k :: 0 <= k < 5 ==>
      r[k] == JsonLd.FaqItem(t(FaqKey(k + 1) + ".question"), t(FaqKey(k + 1) + ".answer"))
  {
    assert forall k :: 0 <= k < 5 ==> FaqNumbers[k] == k + 1;
    FaqItemsOf(t, FaqNumbers)
  }

  lemma {:induction false} SmallNatToString(i: nat)
    requires i < 10
    ensures NatToString(i) == [Digit(i)]
  {
  }

  /** Five entries, keyed `faq.1` to `faq.5` in order; the schema gets one
      question per entry, with the same texts. */
  lemma {:induction false} FaqSchemaEntries(t: string -> string, k: nat)
    requires k < 5
    ensures |FaqItems(t)| == 5
    ensures FaqKey(k + 1) == "faq." + [Digit(k + 1)]
    ensures FaqItems(t)[k].question == t("faq." + [Digit(k + 1)] + ".question")
    ensures FaqItems(t)[k].answer == t("faq." + [Digit(k + 1)] + ".answer")
    ensures |JsonLd.Questions(FaqItems(t))| == 5
    ensures JsonLd.Questions(FaqItems(t))[k].name == FaqItems(t)[k].question
  {
    assert FaqNumbers[k] == k + 1;
    SmallNatToString(k + 1);
  }

  /** Different entries have different keys, so the five entries are five
      different questions. */
  lemma {:induction false} FaqKeysDistinct(i: nat, j: nat)
    requires i != j
    ensures FaqKey(i) != FaqKey(j)
  {
    if FaqKey(i) == FaqKey(j) {
      assert FaqKey(i)[4..] == NatToString(i);
      assert FaqKey(j)[4..] == NatToString(j);
      NatToStringInjective(i, j);
    }
  }

  const HomeCaption: string := "หน้าแรก"
  const ServicesCaption: string := "บริการ"

  /** The trail home, services, this service. */
  function Breadcrumbs(title: string, serviceKey: string): seq<JsonLd.BreadcrumbItem> {
    [JsonLd.BreadcrumbItem(HomeCaption, "/"),
     JsonLd.BreadcrumbItem(ServicesCaption, "/services"),
     JsonLd.BreadcrumbItem(title, "/services/" + serviceKey)]
  }

  /** The props of the page's `ServiceSchema`. */
  function SchemaProps(t: string -> string, serviceKey: string): JsonLd.ServiceProps {
    JsonLd.ServiceProps(t("title"), t("description"), "/services/" + serviceKey, None)
  }

  /** The breadcrumb list has three entries numbered 1 to 3, ending at the
      service page; the service record points at that same absolute URL and
      falls back to the default image. */
  lemma {:induction false} TrailEndsAtService(t: string -> string, serviceKey: string)
    ensures var r := JsonLd.Breadcrumbs(Breadcrumbs(t("title"), serviceKey));
      |r| == 3 && r[0].position == 1 && r[1].position == 2 && r[2].position == 3
      && r[0].item == JsonLd.Origin + "/" && r[1].item == JsonLd.Origin + "/services"
      && r[2].item == JsonLd.Origin + "/services/" + serviceKey && r[2].name == t("title")
    ensures JsonLd.ServiceOf(SchemaProps(t, serviceKey)).url ==
      JsonLd.Breadcrumbs(Breadcrumbs(t("title"), serviceKey))[2].item
    ensures JsonLd.ServiceOf(SchemaProps(t, serviceKey)).image == JsonLd.DefaultImage
  {
    var r := JsonLd.Breadcrumbs(Breadcrumbs(t("title"), serviceKey));
    assert r[2].item == JsonLd.Absolute("/services/" + serviceKey);
    assert JsonLd.Absolute("/services/" + serviceKey) == JsonLd.Origin + "/services/" + serviceKey;
  }

  /** The number shown on each process step, `index + 1`. */
  function StepNumbers<S>(steps: seq<S>): (r: seq<nat>)
    ensures |r| == |steps|
    ensures forall k :: 0 <= k < |r| ==> r[k] == k + 1
  {
    seq(|steps|, k => k + 1)
  }

  /** The steps are numbered 1 to n without gaps or repeats. */
  lemma {:induction false} StepsNumberedFromOne<S>(steps: seq<S>)
    ensures forall i, j :: 0 <= i < j < |steps| ==> StepNumbers(steps)[i] < StepNumbers(steps)[j]
    ensures steps != [] ==> StepNumbers(steps)[0] == 1 && StepNumbers(steps)[|steps| - 1] == |steps|
    ensures forall n :: n in StepNumbers(steps) <==> 1 <= n <= |steps|
  {
    var r := StepNumbers(steps);
    forall n | 1 <= n <= |steps| ensures n in r {
      assert r[n - 1] == n;
    }
  }

  datatype Tier = Tier(nameKey: string, priceKey: string, featuresKeys: seq<string>, highlighted: Option<bool>)

  /** A rendered pricing card: the badge, the translated texts and the
      class of its button. */
  datatype TierCard = TierCard(badge: bool, name: string, price: string, features: seq<string>, buttonClass: string)

  function Translate(t: string -> string, keys: seq<string>): (r: seq<string>)
    ensures |r| == |keys|
    ensures forall k :: 0 <= k < |r| ==> r[k] == t(keys[k])
  {
    if keys == [] then [] else [t(keys[0])] + Translate(t, keys[1..])
  }

  /** `highlighted?: boolean` is truthy only when it is `true`. */
  function TierCardOf(t: string -> string, tier: Tier): TierCard {
    TierCard(tier.highlighted == Some(true), t(tier.nameKey), t(tier.priceKey), Translate(t, tier.featuresKeys),
             if tier.highlighted == Some(true) then "btn-primary w-full" else "btn-secondary w-full")
  }

  function TierCards(t: string -> string, tiers: seq<Tier>): (r: seq<TierCard>)
    ensures |r| == |tiers|
    ensures forall k :: 0 <= k < |r| ==> r[k] == TierCardOf(t, tiers[k])
  {
    if tiers == [] then [] else [TierCardOf(t, tiers[0])] + TierCards(t, tiers[1..])
  }

  /** `{pricingTiers && (<section>…</section>)}`: no section without the
      prop; an empty array is truthy and renders the section with no card. */
  function Pricing(t: string -> string, tiers: Option<seq<Tier>>): Option<seq<TierCard>> {
    match tiers
    case None => None
    case Some(ts) => Some(TierCards(t, ts))
  }

  /** The section is rendered exactly when the prop is given, with one card
      per tier in order; a card carries the recommended badge and the
      primary button exactly when its tier is highlighted. */
  lemma {:induction false} PricingCards(t: string -> string, tiers: Option<seq<Tier>>)
    ensures Pricing(t, tiers).Some? <==> tiers.Some?
    ensures tiers.Some? ==> |Pricing(t, tiers).value| == |tiers.value|
    ensures tiers.Some? ==> forall k :: 0 <= k < |tiers.value| ==>
      (Pricing(t, tiers).value[k].badge <==> tiers.value[k].highlighted == Some(true))
      && (Pricing(t, tiers).value[k].buttonClass == "btn-primary w-full" <==> Pricing(t, tiers).value[k].badge)
      && Pricing(t, tiers).value[k].features == Translate(t, tiers.value[k].featuresKeys)
  {
    if tiers.Some? {
      forall k | 0 <= k < |tiers.value|
        ensures Pricing(t, tiers).value[k].buttonClass == "btn-primary w-full" <==> Pricing(t, tiers).value[k].badge
      {
        var c := Pricing(t, tiers).value[k];
        assert c == TierCardOf(t, tiers.value[k]);
        assert "btn-secondary w-full"[4] != "btn-primary w-full"[4];
      }
    }
  }

  /** What FAQ entry `index` renders: the question of `faq.${index + 1}`
      always, its answer only while `openFaq === index`. */
  datatype Entry = Entry(question: string, answer: Option<string>)

  function EntryView(t: string -> string, openFaq: Option<nat>, index: nat): (r: Entry)
    ensures r.question == t(FaqKey(index + 1) + ".question")
    ensures r.answer.Some? <==> openFaq == Some(index)
    ensures r.answer.Some? ==> r.answer.value == t(FaqKey(index + 1) + ".answer")
  {
    Entry(t(FaqKey(index + 1) + ".question"),
          if openFaq == Some(index) then Some(t(FaqKey(index + 1) + ".answer")) else None)
  }

  /** Although the accordion counts from 0 and the keys from 1, entry
      `index` on the page shows the texts of the schema's entry `index`. */
  lemma {:induction false} PageMatchesSchema(t: string -> string, openFaq: Option<nat>, index: nat)
    requires index < 5
    ensures EntryView(t, openFaq, index).question == FaqItems(t)[index].question
    ensures openFaq == Some(index) ==> EntryView(t, openFaq, index).answer == Some(FaqItems(t)[index].answer)
  {
    assert FaqNumbers[index] == index + 1;
  }

  /** The page's accordion: one item per FAQ entry, the first open. */
  method NewFaqAccordion() returns (a: Accordion.Accordion)
    ensures fresh(a) && a.Valid()
    ensures a.count == |FaqNumbers| && a.openIndex == Some(0)
  {
    a := new Accordion.Accordion(|FaqNumbers|);
  }
}
