/** The site header (components/layout/header.tsx): the locale toggle,
    the active-link test and the navigation links, and the header's own
    view state. */
module Header {
  import opened JsText

  datatype NavItem = NavItem(key: string, href: string)

  /** The navigation entries, in display order; `home` has the empty href. */
  const NavItems: seq<NavItem> := [
    NavItem("home", ""),
    NavItem("services", "/services"),
    NavItem("portfolio", "/portfolio"),
    NavItem("blog", "/blog"),
    NavItem("about", "/about"),
    NavItem("contact", "/contact")
  ]

  /** The site's two locales. */
  predicate IsLocale(locale: string) {
    locale == "th" || locale == "en"
  }

  /** The locale the toggle switches to. */
  function OtherLocale(locale: string): (r: string)
    ensures IsLocale(r)
    ensures r == "en" <==> locale == "th"
  {
    if locale == "th" then "en" else "th"
  }

  /** The label on the toggle button: the other locale, in capitals. */
  function LocaleLabel(locale: string): (r: string)
    ensures r == "EN" <==> OtherLocale(locale) == "en"
    ensures r == "TH" <==> OtherLocale(locale) == "th"
  {
    if locale == "th" then "EN" else "TH"
  }

  /** Where `toggleLocale` sends the browser: the other locale's prefix,
      then the pathname with its first `"/" + locale` removed. */
  function TogglePath(locale: string, pathname: string): (r: string)
    ensures StartsWith(r, "/" + OtherLocale(locale))
    ensures |r| <= |pathname| + 3
  {
    "/" + OtherLocale(locale) + ReplaceFirst(pathname, "/" + locale, "")
  }

  /** `isActive(href)`: the home entry only on the locale root, every other
      entry on its own path and on everything below it. */
  predicate IsActive(locale: string, pathname: string, href: string)
    ensures IsActive(locale, pathname, href) ==> StartsWith(pathname, "/" + locale + href)
  {
    if href == "" then pathname == "/" + locale
    else StartsWith(pathname, "/" + locale + href)
  }

  /** The href of a navigation link: the page on which its entry is active. */
  function NavHref(locale: string, item: NavItem): (r: string)
    ensures IsActive(locale, r, item.href)
  {
    "/" + locale + item.href
  }

  /** On a path under the current locale, toggling swaps the prefix and
      keeps the rest. */
  lemma {:induction false} TogglePrefixed(locale: string, rest: string)
    ensures TogglePath(locale, "/" + locale + rest) == "/" + OtherLocale(locale) + rest
  {
    var pathname := "/" + locale + rest;
    var pat := "/" + locale;
    assert OccursAt(pathname, pat, 0);
    assert pathname[|pat|..] == rest;
    assert ReplaceFirst(pathname, pat, "") == rest;
  }

  /** Toggling twice comes back to the original pathname. */
  lemma {:induction false} ToggleTwice(locale: string, rest: string)
    requires IsLocale(locale)
    ensures TogglePath(OtherLocale(locale), TogglePath(locale, "/" + locale + rest)) == "/" + locale + rest
  {
    TogglePrefixed(locale, rest);
    TogglePrefixed(OtherLocale(locale), rest);
  }

  /** The removed `"/" + locale` is the first occurrence anywhere in the
      pathname, even inside a longer segment: on `/blog/thai` in the `th`
      locale the toggle goes to `/en/blogai`. */
  lemma {:induction false} ToggleInsideSegment(locale: string, pathname: string)
    requires locale == "th" && pathname == "/blog/thai"
    ensures TogglePath(locale, pathname) == "/en/blogai"
  {
    RemoveInsideSegment(locale, pathname);
    ToggleOf(locale, pathname, "/blogai");
    JoinedPath("/", OtherLocale(locale), "/blogai", "/en/blogai");
  }

  lemma {:induction false} JoinedPath(a: string, b: string, c: string, r: string)
    requires a == "/" && b == "en" && c == "/blogai" && r == "/en/blogai"
    ensures a + b + c == r
  {
    assert |a + b + c| == |r|;
    forall i | 0 <= i < |r| ensures (a + b + c)[i] == r[i] {
      if i < 3 {
        assert (a + b + c)[i] == (a + b)[i];
      } else {
        assert (a + b + c)[i] == c[i - 3];
      }
    }
  }

  lemma {:induction false} ToggleOf(locale: string, pathname: string, rest: string)
    requires ReplaceFirst(pathname, "/" + locale, "") == rest
    ensures TogglePath(locale, pathname) == "/" + OtherLocale(locale) + rest
  {
  }

  lemma {:induction false} RemoveInsideSegment(locale: string, s: string)
    requires locale == "th" && s == "/blog/thai"
    ensures ReplaceFirst(s, "/" + locale, "") == "/blogai"
  {
    var pat := "/" + locale;
    assert pat == "/th";
    FirstOccurrenceInside(s, pat);
    assert ReplaceFirst(s, pat, "") == s[..5] + "" + s[8..];
  }

  lemma {:induction false} FirstOccurrenceInside(s: string, pat: string)
    requires s == "/blog/thai" && pat == "/th"
    ensures OccursAt(s, pat, 5)
    ensures forall j: nat :: j < 5 ==> !OccursAt(s, pat, j)
  {
    forall j: nat | j < 5 ensures !OccursAt(s, pat, j) {
      assert s[j..j + 3][1] == s[j + 1] != 't';
    }
    assert s[5..8] == pat;
  }

  /** The home entry is active exactly on the locale root. */
  lemma {:induction false} HomeActive(locale: string, pathname: string)
    ensures IsActive(locale, pathname, NavItems[0].href) <==> pathname == NavHref(locale, NavItems[0])
  {
  }

  /** Any path below a non-home entry keeps that entry active. */
  lemma {:induction false} SubPathActive(locale: string, href: string, sub: string)
    requires href != ""
    ensures IsActive(locale, "/" + locale + href + sub, href)
  {
    assert ("/" + locale + href + sub)[..|"/" + locale + href|] == "/" + locale + href;
  }

  lemma {:induction false} PrefixOfPrefixed(p: string, a: string, b: string)
    ensures StartsWith(p + a, p + b) <==> StartsWith(a, b)
  {
    if StartsWith(a, b) {
      assert (p + a)[..|p + b|] == p + a[..|b|];
    }
    if StartsWith(p + a, p + b) {
      assert a[..|b|] == (p + a)[..|p + b|][|p|..];
    }
  }

  /** No non-home href starts with a different one. */
  lemma {:induction false} HrefsUnrelated(i: nat, j: nat)
    requires 0 < i < |NavItems| && 0 < j < |NavItems|
    ensures StartsWith(NavItems[i].href, NavItems[j].href) <==> i == j
  {
    var a := NavItems[i].href;
    var b := NavItems[j].href;
    if i != j {
      assert a[1] != b[1];
    }
  }

  /** On the page a navigation link leads to, that link is the only active one. */
  lemma {:induction false} OnlyOwnLinkActive(locale: string, i: nat, j: nat)
    requires i < |NavItems| && j < |NavItems|
    ensures IsActive(locale, NavHref(locale, NavItems[i]), NavItems[j].href) <==> i == j
  {
    var p := "/" + locale;
    if i != 0 && j != 0 {
      PrefixOfPrefixed(p, NavItems[i].href, NavItems[j].href);
      HrefsUnrelated(i, j);
    } else if i == 0 && j != 0 {
      assert |NavHref(locale, NavItems[i])| < |p + NavItems[j].href|;
    } else if i != 0 && j == 0 {
      assert |NavHref(locale, NavItems[i])| > |p|;
    }
  }

  /** The header's view state. `location` stands for `window.location.href`;
      `theme` is the value the theme provider holds. */
  class HeaderView {
    const locale: string
    const pathname: string
    var isOpen: bool
    var isScrolled: bool
    var mounted: bool
    var theme: string
    var location: string

    constructor (locale: string, pathname: string, theme: string, location: string)
      ensures this.locale == locale && this.pathname == pathname
      ensures !isOpen && !isScrolled && !mounted
      ensures this.theme == theme && this.location == location
    {
      this.locale := locale;
      this.pathname := pathname;
      isOpen := false;
      isScrolled := false;
      mounted := false;
      this.theme := theme;
      this.location := location;
    }

    /** The mount effect. */
    method Mount()
      modifies this
      ensures mounted
      ensures isOpen == old(isOpen) && isScrolled == old(isScrolled)
      ensures theme == old(theme) && location == old(location)
    {
      mounted := true;
    }

    /** The scroll listener: the bar turns opaque past 20 pixels. */
    method OnScroll(scrollY: int)
      modifies this
      ensures isScrolled <==> scrollY > 20
      ensures isOpen == old(isOpen) && mounted == old(mounted)
      ensures theme == old(theme) && location == old(location)
    {
      isScrolled := scrollY > 20;
    }

    /** `toggleLocale`: navigate to the same page in the other locale. */
    method ToggleLocale()
      modifies this
      ensures location == TogglePath(locale, pathname)
      ensures isOpen == old(isOpen) && isScrolled == old(isScrolled) && mounted == old(mounted)
      ensures theme == old(theme)
    {
      location := TogglePath(locale, pathname);
    }

    /** The theme button, rendered only once mounted, flips between dark
        and light. */
    method ToggleTheme()
      requires mounted
      modifies this
      ensures theme == if old(theme) == "dark" then "light" else "dark"
      ensures isOpen == old(isOpen) && isScrolled == old(isScrolled) && mounted == old(mounted)
      ensures location == old(location)
    {
      theme := if theme == "dark" then "light" else "dark";
    }

    /** The menu button opens and closes the mobile menu. */
    method ToggleMenu()
      modifies this
      ensures isOpen == !old(isOpen)
      ensures isScrolled == old(isScrolled) && mounted == old(mounted)
      ensures theme == old(theme) && location == old(location)
    {
      isOpen := !isOpen;
    }

    /** Following a link in the mobile menu closes it. */
    method CloseMenu()
      modifies this
      ensures !isOpen
      ensures isScrolled == old(isScrolled) && mounted == old(mounted)
      ensures theme == old(theme) && location == old(location)
    {
      isOpen := false;
    }

    /** The links rendered in the navigation, in order. */
    function Links(): (hrefs: seq<string>)
      ensures |hrefs| == |NavItems|
      ensures forall k :: 0 <= k < |hrefs| ==> hrefs[k] == NavHref(locale, NavItems[k])
      ensures hrefs[0] == "/" + locale
    {
      seq(|NavItems|, k requires 0 <= k < |NavItems| => NavHref(locale, NavItems[k]))
    }
  }
}
