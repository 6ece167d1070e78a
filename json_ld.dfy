/** The schema.org records the site embeds as JSON-LD
    (src/components/seo/json-ld.tsx): breadcrumbs, FAQ pages, articles and
    services. The records are modelled, not their JSON text. */
module JsonLd {
  import opened JsText

  /** Every absolute URL in the records starts with the site's origin. */
  const Origin: string := "https://tum-web.com"
  const DefaultImage: string := "https://tum-web.com/og-image.jpg"
  const SiteName: string := "TUM-WEB"

  function Absolute(path: string): (r: string)
    ensures StartsWith(r, Origin) && r[|Origin|..] == path
  {
    Origin + path
  }

  /** JavaScript's `a || b` on an optional string: `b` when `a` is absent
      or empty. */
  function OrElse(a: Option<string>, b: string): (r: string)
    ensures a.Some? && a.value != "" ==> r == a.value
    ensures a.None? || a.value == "" ==> r == b
  {
    match a
    case Some(v) => if v != "" then v else b
    case None => b
  }

  // ---- BreadcrumbList ----

  datatype BreadcrumbItem = BreadcrumbItem(name: string, url: string)
  datatype ListItem = ListItem(position: nat, name: string, item: string)

  /** `items.map((item, index) => ...)` for the items from index `first` on. */
  function ListItemsFrom(items: seq<BreadcrumbItem>, first: nat): (r: seq<ListItem>)
    requires first <= |items|
    ensures |r| == |items| - first
    ensures forall k :: 0 <= k < |r| ==>
              r[k].position == first + k + 1
              && r[k].name == items[first + k].name
              && r[k].item == Absolute(items[first + k].url)
    decreases |items| - first
  {
    if first == |items| then []
    else
      var item := items[first];
      [ListItem(first + 1, item.name, Absolute(item.url))] + ListItemsFrom(items, first + 1)
  }

  /** `itemListElement` of `BreadcrumbSchema`. */
  function Breadcrumbs(items: seq<BreadcrumbItem>): (r: seq<ListItem>)
    ensures |r| == |items|
    ensures forall k :: 0 <= k < |r| ==> r[k].position == k + 1
    ensures forall k :: 0 <= k < |r| ==> r[k].name == items[k].name && r[k].item == Absolute(items[k].url)
  {
    ListItemsFrom(items, 0)
  }

  /** The breadcrumb list loses nothing: different item lists give
      different lists of elements. */
  lemma {:induction false} BreadcrumbsInjective(a: seq<BreadcrumbItem>, b: seq<BreadcrumbItem>)
    requires Breadcrumbs(a) == Breadcrumbs(b)
    ensures a == b
  {
    var r := Breadcrumbs(a);
    forall k | 0 <= k < |a| ensures a[k] == b[k] {
      assert Absolute(a[k].url)[|Origin|..] == a[k].url;
      assert Absolute(b[k].url)[|Origin|..] == b[k].url;
    }
  }

  /** Positions count 1, 2, 3, ... without gaps: each is one more than the last. */
  lemma {:induction false} BreadcrumbPositionsConsecutive(items: seq<BreadcrumbItem>, k: nat)
    requires 0 < k < |items|
    ensures Breadcrumbs(items)[k].position == Breadcrumbs(items)[k - 1].position + 1
    ensures Breadcrumbs(items)[0].position == 1
  {
  }

  // ---- FAQPage ----

  datatype FaqItem = FaqItem(question: string, answer: string)
  datatype Question = Question(name: string, acceptedAnswer: string)

  /** `mainEntity` of `FAQSchema`. */
  function Questions(items: seq<FaqItem>): (r: seq<Question>)
    ensures |r| == |items|
    ensures forall k :: 0 <= k < |r| ==> r[k].name == items[k].question && r[k].acceptedAnswer == items[k].answer
  {
    if items == [] then []
    else [Question(items[0].question, items[0].answer)] + Questions(items[1..])
  }

  /** The FAQ mapping is invertible: the items come back from the questions. */
  lemma {:induction false} QuestionsRoundTrip(items: seq<FaqItem>)
    ensures seq(|items|, k requires 0 <= k < |items| => FaqItem(Questions(items)[k].name, Questions(items)[k].acceptedAnswer)) == items
  {
  }

  /** FAQ pages of concatenated item lists concatenate. */
  lemma {:induction false} QuestionsAppend(a: seq<FaqItem>, b: seq<FaqItem>)
    ensures Questions(a + b) == Questions(a) + Questions(b)
  {
    var l := Questions(a + b);
    var r := Questions(a) + Questions(b);
    forall k | 0 <= k < |l| ensures l[k] == r[k] {
      var x := (a + b)[k];
      assert l[k] == Question(x.question, x.answer);
      if k < |a| {
        assert x == a[k] && r[k] == Questions(a)[k];
      } else {
        assert x == b[k - |a|] && r[k] == Questions(b)[k - |a|];
      }
    }
  }

  // ---- Article ----

  datatype Organization = Organization(name: string, url: string)

  datatype ArticleProps = ArticleProps(
    title: string, description: string, url: string, image: string,
    datePublished: string, dateModified: Option<string>, author: Option<string>)

  datatype Article = Article(
    headline: string, description: string, url: string, image: string,
    datePublished: string, dateModified: string,
    author: Organization, publisher: string, mainEntityOfPage: string,
    scriptId: string)

  /** `ArticleSchema`: `author` defaults only when absent, `dateModified`
      falls back whenever absent or empty. */
  function ArticleOf(p: ArticleProps): (r: Article)
    ensures r.headline == p.title && r.description == p.description && r.image == p.image
    ensures r.url == Absolute(p.url) && r.mainEntityOfPage == r.url
    ensures r.datePublished == p.datePublished
    ensures p.dateModified.Some? && p.dateModified.value != "" ==> r.dateModified == p.dateModified.value
    ensures p.dateModified.None? || p.dateModified.value == "" ==> r.dateModified == p.datePublished
    ensures p.author.None? ==> r.author.name == SiteName
    ensures p.author.Some? ==> r.author.name == p.author.value
    ensures r.author.url == Origin && r.publisher == SiteName
    ensures r.scriptId == "article-schema-" + p.url
  {
    var author := match p.author case Some(a) => a case None => SiteName;
    Article(p.title, p.description, Absolute(p.url), p.image,
            p.datePublished, OrElse(p.dateModified, p.datePublished),
            Organization(author, Origin), SiteName, Absolute(p.url),
            "article-schema-" + p.url)
  }

  /** A published article always has a modification date. */
  lemma {:induction false} ArticleModifiedNonEmpty(p: ArticleProps)
    requires p.datePublished != ""
    ensures ArticleOf(p).dateModified != ""
  {
  }

  /** An author given as the empty string stays empty: the default covers
      only a missing author, unlike the date fallback. */
  lemma {:induction false} ArticleEmptyAuthorKept(p: ArticleProps)
    requires p.author == Some("")
    ensures ArticleOf(p).author.name == ""
    ensures p.dateModified == Some("") ==> ArticleOf(p).dateModified == p.datePublished
  {
  }

  // ---- Service ----

  datatype ServiceProps = ServiceProps(name: string, description: string, url: string, image: Option<string>)

  datatype Service = Service(
    name: string, description: string, url: string, image: string,
    provider: Organization, areaServed: string, serviceType: string,
    scriptId: string)

  /** `ServiceSchema`. */
  function ServiceOf(p: ServiceProps): (r: Service)
    ensures r.name == p.name && r.description == p.description
    ensures r.url == Absolute(p.url)
    ensures p.image.Some? && p.image.value != "" ==> r.image == p.image.value
    ensures p.image.None? || p.image.value == "" ==> r.image == DefaultImage
    ensures r.provider == Organization(SiteName, Origin)
    ensures r.scriptId == "service-schema-" + p.url
  {
    Service(p.name, p.description, Absolute(p.url), OrElse(p.image, DefaultImage),
            Organization(SiteName, Origin), "Thailand", "Digital Services",
            "service-schema-" + p.url)
  }

  /** Two services on different paths get different script ids and URLs. */
  lemma {:induction false} ServiceIdsDistinct(p: ServiceProps, q: ServiceProps)
    requires p.url != q.url
    ensures ServiceOf(p).scriptId != ServiceOf(q).scriptId
    ensures ServiceOf(p).url != ServiceOf(q).url
  {
    var prefix := "service-schema-";
    assert (prefix + p.url)[|prefix|..] == p.url;
    assert (prefix + q.url)[|prefix|..] == q.url;
  }

  /** Every service record has an image. */
  lemma {:induction false} ServiceImageNonEmpty(p: ServiceProps)
    ensures ServiceOf(p).image != ""
  {
  }
}
