/** `generateSlug` (lib/utils/index.ts): lower-case, trim, drop every
    character that is neither a word character, `\s` nor Thai, then turn
    each run of `\s` into one `-`. */
module Slug {
  import opened JsText

  /** `toLowerCase` on ASCII letters; other characters are kept as they are. */
  function Lower(c: char): (r: char)
    ensures !('A' <= r <= 'Z')
    ensures 'A' <= c <= 'Z' ==> r as int == c as int + 32
    ensures !('A' <= c <= 'Z') ==> r == c
  {
    if 'A' <= c <= 'Z' then (c as int + 32) as char else c
  }

  function LowerAll(s: string): (r: string)
    ensures |r| == |s|
    ensures forall i :: 0 <= i < |s| ==> r[i] == Lower(s[i])
    ensures forall c :: c in r ==> !('A' <= c <= 'Z')
  {
    if s == [] then [] else [Lower(s[0])] + LowerAll(s[1..])
  }

  /** `\w` without the `u` flag: `[A-Za-z0-9_]`. */
  predicate IsWordChar(c: char) {
    'a' <= c <= 'z' || 'A' <= c <= 'Z' || '0' <= c <= '9' || c == '_'
  }

  /** The class range `ก-๙`, U+0E01 to U+0E59. */
  predicate IsThai(c: char) {
    '\U{0E01}' <= c <= '\U{0E59}'
  }

  /** What `/[^\w\sก-๙]/g` leaves in place. */
  predicate Kept(c: char) {
    IsWordChar(c) || IsSpace(c) || IsThai(c)
  }

  /** `.replace(/[^\w\sก-๙]/g, '')`. */
  function Strip(s: string): (r: string)
    ensures |r| <= |s|
    ensures forall c :: c in r <==> c in s && Kept(c)
  {
    if s == [] then []
    else if Kept(s[0]) then [s[0]] + Strip(s[1..])
    else Strip(s[1..])
  }

  /** `.replace(/\s+/g, '-')`: each maximal run of `\s` becomes one `-`. */
  function Hyphenate(s: string): (r: string)
    ensures |r| <= |s|
    ensures forall c :: c in r ==> !IsSpace(c) && (c in s || c == '-')
    decreases |s|
  {
    if s == [] then []
    else if IsSpace(s[0]) then "-" + Hyphenate(s[SpaceRun(s)..])
    else [s[0]] + Hyphenate(s[1..])
  }

  /** The steps in the order the source chains them; a slug is never
      longer than the text it comes from. */
  function GenerateSlug(text: string): (slug: string)
    ensures |slug| <= |text|
  {
    Hyphenate(Strip(Trim(LowerAll(text))))
  }

  /** The characters a slug is made of. */
  predicate SlugChar(c: char) {
    'a' <= c <= 'z' || '0' <= c <= '9' || c == '_' || IsThai(c) || c == '-'
  }

  /** Trimming only removes characters. */
  lemma {:induction false} TrimChars(s: string)
    ensures forall c :: c in Trim(s) ==> c in s
  {
    var r := Trim(s);
    TrimIsInfix(s);
    InfixChars(s, r, SpaceRun(s));
  }

  lemma {:induction false} InfixChars(s: string, r: string, a: nat)
    requires a + |r| <= |s| && r == s[a..a + |r|]
    ensures forall c :: c in r ==> c in s
  {
    forall c | c in r ensures c in s {
      var k :| 0 <= k < |r| && r[k] == c;
      assert s[a + k] == c;
    }
  }

  /** Every character of a slug is a lower-case ASCII letter, a digit, `_`,
      a Thai character or `-`; in particular none is `\s` or upper case. */
  lemma {:induction false} SlugAlphabet(text: string)
    ensures forall c :: c in GenerateSlug(text) ==> SlugChar(c) && !IsSpace(c) && !('A' <= c <= 'Z')
  {
    var lowered := LowerAll(text);
    var trimmed := Trim(lowered);
    TrimChars(lowered);
    var stripped := Strip(trimmed);
    var slug := Hyphenate(stripped);
    assert GenerateSlug(text) == slug;
    forall c | c in slug ensures SlugChar(c) && !IsSpace(c) && !('A' <= c <= 'Z') {
      if c != '-' {
        assert c in stripped;
        assert c in trimmed && Kept(c);
      }
    }
  }

  /** No two `-` are adjacent in the hyphenation of a text without `-`. */
  lemma {:induction false} HyphenateNoDoubleDash(s: string)
    requires '-' !in s
    ensures var r := Hyphenate(s); forall i :: 0 <= i < |r| - 1 ==> !(r[i] == '-' && r[i + 1] == '-')
    decreases |s|
  {
    var r := Hyphenate(s);
    if s != [] {
      if IsSpace(s[0]) {
        var t := s[SpaceRun(s)..];
        assert '-' !in t by {
          forall c | c in t ensures c != '-' {
            var k :| 0 <= k < |t| && t[k] == c;
            assert c == s[SpaceRun(s) + k];
          }
        }
        HyphenateNoDoubleDash(t);
        HyphenateStart(t);
        forall i | 0 <= i < |r| - 1 ensures !(r[i] == '-' && r[i + 1] == '-') {
          if i > 0 { assert r[i] == Hyphenate(t)[i - 1] && r[i + 1] == Hyphenate(t)[i]; }
        }
      } else {
        var t := s[1..];
        assert '-' !in t by {
          forall c | c in t ensures c != '-' { assert c in s; }
        }
        HyphenateNoDoubleDash(t);
        forall i | 0 <= i < |r| - 1 ensures !(r[i] == '-' && r[i + 1] == '-') {
          if i > 0 { assert r[i] == Hyphenate(t)[i - 1] && r[i + 1] == Hyphenate(t)[i]; }
        }
      }
    }
  }

  /** Stripping works character by character, in order: a kept character
      stays where it was and any other one is dropped. */
  lemma {:induction false} StripAppend(a: string, b: string)
    ensures Strip(a + b) == Strip(a) + Strip(b)
    decreases |a|
  {
    if a != [] {
      assert (a + b)[0] == a[0] && (a + b)[1..] == a[1..] + b;
      StripAppend(a[1..], b);
    } else {
      assert a + b == b;
    }
  }

  lemma {:induction false} StripOne(c: char)
    ensures Strip([c]) == if Kept(c) then [c] else []
  {
    assert [c][1..] == [];
  }

  /** Characters that are not `\s` are copied as they are. */
  lemma {:induction false} HyphenateKeeps(u: string, r: string)
    requires forall i :: 0 <= i < |u| ==> !IsSpace(u[i])
    ensures Hyphenate(u + r) == u + Hyphenate(r)
    decreases |u|
  {
    if u != [] {
      assert (u + r)[0] == u[0] && (u + r)[1..] == u[1..] + r;
      HyphenateKeeps(u[1..], r);
    } else {
      assert u + r == r;
    }
  }

  /** A maximal run of `\s`, line breaks included, becomes a single `-`. */
  lemma {:induction false} HyphenateRun(w: string, r: string)
    requires |w| > 0 && AllSpace(w)
    requires r == [] || !IsSpace(r[0])
    ensures Hyphenate(w + r) == "-" + Hyphenate(r)
  {
    SpaceRunOf(w, r);
    assert (w + r)[0] == w[0];
    assert (w + r)[|w|..] == r;
  }

  /** A text that does not start with `\s` hyphenates to one that does not start with `-`. */
  lemma {:induction false} HyphenateStart(t: string)
    requires '-' !in t && (t == [] || !IsSpace(t[0]))
    ensures var r := Hyphenate(t); r == [] || r[0] != '-'
  {
    if t != [] {
      assert t[0] in t;
    }
  }

  lemma {:induction false} DashNotKept()
    ensures !Kept('-')
  {
  }

  /** A slug never holds `--`: `-` characters of the input are stripped, so
      each `-` comes from one maximal run of `\s`. */
  lemma {:induction false} SlugNoDoubleDash(text: string)
    ensures var r := GenerateSlug(text); forall i :: 0 <= i < |r| - 1 ==> !(r[i] == '-' && r[i + 1] == '-')
  {
    var stripped := Strip(Trim(LowerAll(text)));
    DashNotKept();
    assert '-' !in stripped;
    HyphenateNoDoubleDash(stripped);
    assert GenerateSlug(text) == Hyphenate(stripped);
  }

  /** `\s` characters are not ASCII letters, so lower-casing keeps them. */
  lemma {:induction false} LowerOfSpace(c: char)
    requires IsSpace(c)
    ensures Lower(c) == c
  {
  }

  /** Text made only of `\s` gives the empty slug. */
  lemma {:induction false} SlugOfBlank(text: string)
    requires AllSpace(text)
    ensures GenerateSlug(text) == []
  {
    var lowered := LowerAll(text);
    forall i | 0 <= i < |lowered| ensures lowered[i] == text[i] {
      LowerOfSpace(text[i]);
    }
    assert lowered == text;
    TrimOfSpaces(text);
  }

  /** Text with neither `\s` nor a kept character gives the empty slug. */
  lemma {:induction false} SlugOfPunctuation(text: string)
    requires forall i :: 0 <= i < |text| ==> !Kept(text[i])
    ensures GenerateSlug(text) == []
  {
    assert LowerAll(text) == text;
    TrimKeepsInner(text);
    if Strip(text) != [] {
      assert Strip(text)[0] in Strip(text);
      assert false;
    }
  }

  lemma {:induction false} TrimOfExample(text: string)
    requires text == " a !"
    ensures Trim(text) == "a !"
  {
    var rest := text[1..];
    assert rest == "a !";
    assert IsSpace(text[0]) && !IsSpace(rest[0]) && !IsSpace(rest[2]);
    assert SpaceRun(text) == 1;
    assert TrimStart(text) == rest;
    assert TrimEnd(rest) == rest;
  }

  /** Trimming comes before stripping: a space next to removed punctuation
      still becomes a `-` at the edge of the slug. */
  lemma {:induction false} TrailingDash(text: string)
    requires text == " a !"
    ensures GenerateSlug(text) == "a-"
  {
    assert LowerAll(text) == text by {
      assert forall i :: 0 <= i < |text| ==> Lower(text[i]) == text[i];
    }
    TrimOfExample(text);
    StripOfExample("a !");
    HyphenateOfExample("a ");
  }

  lemma {:induction false} StripOfExample(s: string)
    requires s == "a !"
    ensures Strip(s) == "a "
  {
    assert Kept(s[0]) && Kept(s[1]) && !Kept(s[2]);
    assert s[1..] == " !" && s[1..][1..] == "!";
    assert Strip("!") == [];
  }

  lemma {:induction false} HyphenateOfExample(s: string)
    requires s == "a "
    ensures Hyphenate(s) == "a-"
  {
    assert !IsSpace(s[0]);
    assert s[1..] == " ";
    HyphenateOfSpace(s[1..]);
  }

  /** Punctuation around a space leaves a lone `-`, not an empty slug. */
  lemma {:induction false} DashOnly(text: string)
    requires text == "! !"
    ensures GenerateSlug(text) == "-"
  {
    assert LowerAll(text) == text by {
      assert forall i :: 0 <= i < |text| ==> Lower(text[i]) == text[i];
    }
    assert !IsSpace(text[0]) && !IsSpace(text[2]);
    TrimKeepsInner(text);
    StripOfDashOnly(text);
    HyphenateOfSpace(" ");
  }

  lemma {:induction false} StripOfDashOnly(text: string)
    requires text == "! !"
    ensures Strip(text) == " "
  {
    assert !Kept(text[0]) && Kept(text[1]) && !Kept(text[2]);
    assert text[1..][1..] == "!";
    assert Strip("!") == [];
  }

  lemma {:induction false} HyphenateOfSpace(s: string)
    requires s == " "
    ensures Hyphenate(s) == "-"
  {
    assert SpaceRun(s) == 1;
  }
}
