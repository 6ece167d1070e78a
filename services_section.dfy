/** The home-page services grid (src/components/sections/services-section.tsx):
    each card's message key is the last `/`-separated segment of its href. */
module ServicesSection {
  import opened JsText

  const Hrefs: seq<string> := [
    "/services/website", "/services/webapp", "/services/app", "/services/ai",
    "/services/ads", "/services/seo", "/services/social"
  ]

  /** `href.split('/').pop() || ''`; `pop` of a split never yields
      `undefined`, so the `|| ''` leaves the segment as it is. */
  function Key(href: string): (key: string)
    ensures '/' !in key
  {
    Last(Split(href, '/'))
  }

  /** The message keys (under `home.services`) of a card's title and description. */
  function TitleKey(href: string): string {
    "items." + Key(href) + ".title"
  }

  function DescriptionKey(href: string): string {
    "items." + Key(href) + ".description"
  }

  lemma {:induction false} JoinSnoc(parts: seq<string>, sep: char)
    requires |parts| >= 2
    ensures Join(parts, sep) == Join(parts[..|parts| - 1], sep) + [sep] + parts[|parts| - 1]
    decreases |parts|
  {
    if |parts| > 2 {
      var init := parts[..|parts| - 1];
      JoinSnoc(parts[1..], sep);
      assert parts[1..][..|parts| - 2] == init[1..];
      assert parts[1..][|parts| - 2] == parts[|parts| - 1];
    } else {
      assert parts[..1] == [parts[0]];
    }
  }

  /** The key is the segment after the last `/`, or the whole href when it
      has no `/`; it never holds a `/`. */
  lemma {:induction false} KeyIsLastSegment(href: string)
    ensures '/' !in Key(href) && EndsWith(href, Key(href))
    ensures '/' !in href ==> Key(href) == href
    ensures '/' in href ==> |Key(href)| < |href| && href[|href| - |Key(href)| - 1] == '/'
  {
    var parts := Split(href, '/');
    var r := Last(parts);
    assert r == parts[|parts| - 1];
    if '/' in href {
      JoinSnoc(parts, '/');
      var init := Join(parts[..|parts| - 1], '/');
      assert href == init + ['/'] + r;
      assert href[|href| - |r|..] == r;
      assert href[|href| - |r| - 1] == '/';
    }
  }

  /** The key is empty exactly when the href is empty or ends with `/`. */
  lemma {:induction false} KeyEmpty(href: string)
    ensures Key(href) == "" <==> href == "" || href[|href| - 1] == '/'
  {
    KeyIsLastSegment(href);
  }

  /** Under `/services/`, the key is the page's own name. */
  lemma {:induction false} KeyOfServicePath(name: string)
    requires '/' !in name
    ensures Key("/services/" + name) == name
  {
    var href := "/services/" + name;
    assert href[9] == '/';
    assert '/' in href;
    KeyIsLastSegment(href);
    var r := Key(href);
    assert r == href[|href| - |r|..];
  }

  const Names: seq<string> := ["website", "webapp", "app", "ai", "ads", "seo", "social"]

  /** The seven cards get the keys website, webapp, app, ai, ads, seo and
      social, in order. */
  lemma {:induction false} StaticKeys(k: nat, href: string)
    requires k < |Hrefs| && href == Hrefs[k]
    ensures Key(href) == Names[k]
  {
    assert href == "/services/" + Names[k];
    assert '/' !in Names[k];
    KeyOfServicePath(Names[k]);
  }

  /** No two cards share a key. */
  lemma {:induction false} StaticKeysDistinct(i: nat, j: nat)
    requires i < j < |Names|
    ensures Names[i] != Names[j]
  {
  }

  /** Distinct keys look up distinct messages. */
  lemma {:induction false} MessageKeysDistinct(a: string, b: string)
    requires Key(a) != Key(b)
    ensures TitleKey(a) != TitleKey(b) && DescriptionKey(a) != DescriptionKey(b)
  {
    AffixInjective("items.", Key(a), Key(b), ".title");
    AffixInjective("items.", Key(a), Key(b), ".description");
  }

  lemma {:induction false} AffixInjective(p: string, a: string, b: string, q: string)
    ensures p + a + q == p + b + q ==> a == b
  {
    if p + a + q == p + b + q {
      assert a == (p + a + q)[|p|..|p| + |a|];
      assert b == (p + b + q)[|p|..|p| + |b|];
    }
  }
}
