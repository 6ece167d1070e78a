/** What the passes of `markdownToHtml` do to well-formed Markdown, and
    where their regular expressions behave differently from what the
    Markdown suggests. */
module MarkdownProps {
  import opened JsText
  import opened Markdown

  // ---------------------------------------------------------------
  // The scanner
  // ---------------------------------------------------------------

  /** An unanchored pattern does not care where lines start. */
  lemma {:induction false} ScanFlag(p: Pass, s: string, a: bool, b: bool)
    requires !Anchored(p)
    ensures Scan(p, s, a) == Scan(p, s, b)
  {
  }

  /** Every match of an unanchored pattern starts with its leading character. */
  lemma {:induction false} MatchStartsWithLead(p: Pass, s: string)
    requires !Anchored(p) && MatchAt(p, s).Some?
    ensures s[0] == Lead(p)
  {
    match p
    case Bold => assert SpanAt(s, "**", "**", false, "<strong>", "</strong>").Some?;
    case Italic => assert SpanAt(s, "*", "*", false, "<em>", "</em>").Some?;
    case CodeBlock => assert SpanAt(s, "```", "```", true, "<pre><code>", "</code></pre>").Some?;
    case InlineCode => assert SpanAt(s, "`", "`", false, "<code>", "</code>").Some?;
    case Link => assert LinkAt(s).Some?;
    case TableWrap =>
      assert RunAt(s, "<tr>", "</tr>", "<table><tbody>", "</tbody></table>").Some?;
      assert s[0] == s[..4][0];
    case ListWrap =>
      assert RunAt(s, "<li>", "</li>", "<ul>", "</ul>").Some?;
      assert s[0] == s[..4][0];
    case EmptyParagraph => assert EmptyParagraphAt(s).Some?;
    case BlankParagraph => assert BlankParagraphAt(s).Some?;
    case CollapseNewlines => assert NewlineRunAt(s).Some?;
  }

  /** An unanchored pass copies text that lacks its first character. */
  lemma {:induction false} ScanCopies(p: Pass, u: string, rest: string)
    requires !Anchored(p) && Lead(p) !in u
    ensures Apply(p, u + rest) == u + Apply(p, rest)
    decreases |u|
  {
    if u == [] {
      assert u + rest == rest;
    } else {
      assert Lead(p) !in u[1..] && u[0] != Lead(p) by {
        assert u[0] in u;
        assert forall c :: c in u[1..] ==> c in u;
      }
      ScanCopies(p, u[1..], rest);
      ScanCopiesStep(p, u, rest);
    }
  }

  /** One step of `ScanCopies`: its first character is copied. */
  lemma {:induction false} ScanCopiesStep(p: Pass, u: string, rest: string)
    requires !Anchored(p) && u != [] && u[0] != Lead(p)
    requires Apply(p, u[1..] + rest) == u[1..] + Apply(p, rest)
    ensures Apply(p, u + rest) == u + Apply(p, rest)
  {
    SplitHead(u, rest, Apply(p, rest));
    NoMatchWithoutLead(p, u[0], u[1..] + rest);
    ScanCons(p, u[0], u[1..] + rest, true);
    ScanFlag(p, u[1..] + rest, IsLineTerminator(u[0]), true);
  }

  lemma {:induction false} SplitHead(u: string, rest: string, x: string)
    requires u != []
    ensures u + rest == [u[0]] + (u[1..] + rest)
    ensures [u[0]] + (u[1..] + x) == u + x
  {
  }

  /** The scan over `[c] + tail` when nothing matches at `c`. */
  lemma {:induction false} ScanCons(p: Pass, c: char, tail: string, ls: bool)
    requires MatchAt(p, [c] + tail).None?
    ensures Scan(p, [c] + tail, ls) == [c] + Scan(p, tail, IsLineTerminator(c))
  {
    assert ([c] + tail)[1..] == tail;
  }

  lemma {:induction false} NoMatchWithoutLead(p: Pass, c: char, tail: string)
    requires !Anchored(p) && c != Lead(p)
    ensures MatchAt(p, [c] + tail).None?
  {
    if MatchAt(p, [c] + tail).Some? {
      MatchStartsWithLead(p, [c] + tail);
    }
  }

  /** An anchored pass copies the rest of a line it did not match at its start. */
  lemma {:induction false} ScanMidLine(p: Pass, u: string, rest: string)
    requires Anchored(p) && NoLineTerminator(u)
    ensures Scan(p, u + rest, false) == u + Scan(p, rest, false)
    decreases |u|
  {
    if u == [] {
      assert u + rest == rest;
    } else {
      assert (u + rest)[0] == u[0];
      assert (u + rest)[1..] == u[1..] + rest;
      ScanMidLine(p, u[1..], rest);
    }
  }

  /** Past a line terminator an anchored pass starts afresh. */
  lemma {:induction false} ScanTerminator(p: Pass, t: char, rest: string)
    requires Anchored(p) && IsLineTerminator(t)
    ensures Scan(p, [t] + rest, false) == [t] + Apply(p, rest)
  {
    assert ([t] + rest)[1..] == rest;
  }

  /** A pass whose match at the start of `s` is `m` replaces that prefix and carries on. */
  lemma {:induction false} ScanMatch(p: Pass, s: string, m: Match)
    requires MatchAt(p, s) == Some(m)
    ensures Apply(p, s) == m.out + Scan(p, s[m.len..], IsLineTerminator(s[m.len - 1]))
  {
  }

  /** A pass that finds no match at the start of `s` copies its first character. */
  lemma {:induction false} ScanNoMatch(p: Pass, s: string, ls: bool)
    requires s != [] && MatchAt(p, s).None?
    ensures Scan(p, s, ls) == [s[0]] + Scan(p, s[1..], IsLineTerminator(s[0]))
  {
  }

  // ---------------------------------------------------------------
  // Inline spans
  // ---------------------------------------------------------------

  /** The lazy search stops at the first closing delimiter. */
  lemma {:induction false} FindCloseAt(s: string, from: nat, to: nat, close: string, crossLines: bool)
    requires |close| > 0 && from <= to && OccursAt(s, close, to)
    requires forall k :: from <= k < to ==> s[k] != close[0]
    requires !crossLines ==> NoLineTerminator(s[from..to])
    ensures FindClose(s, from, close, crossLines) == Some(to)
    decreases (to as int) - (from as int)
  {
    if from < to {
      assert !OccursAt(s, close, from) by {
        assert s[from..from + |close|][0] == s[from];
      }
      if !crossLines {
        assert s[from..to][0] == s[from];
        assert s[from + 1..to] == s[from..to][1..];
      }
      FindCloseAt(s, from + 1, to, close, crossLines);
    }
  }

  lemma {:induction false} SpanMatches(open: string, x: string, close: string, rest: string, crossLines: bool,
                    before: string, after: string)
    requires |open| > 0 && |close| > 0
    requires close[0] !in x && (crossLines || NoLineTerminator(x))
    ensures SpanAt(open + x + close + rest, open, close, crossLines, before, after)
            == Some(Match(|open| + |x| + |close|, before + x + after))
  {
    var s := open + x + close + rest;
    var to := |open| + |x|;
    assert s[..|open|] == open;
    assert s[to..to + |close|] == close;
    assert s[|open|..to] == x;
    forall k | |open| <= k < to ensures s[k] != close[0] {
      assert s[k] == x[k - |open|];
    }
    FindCloseAt(s, |open|, to, close, crossLines);
  }

  /** `**x**` becomes `<strong>x</strong>` when `x` is one line without stars. */
  lemma {:induction false} BoldSpan(x: string, rest: string)
    requires '*' !in x && NoLineTerminator(x)
    ensures Apply(Bold, "**" + x + "**" + rest) == "<strong>" + x + "</strong>" + Apply(Bold, rest)
  {
    var s := "**" + x + "**" + rest;
    SpanMatches("**", x, "**", rest, false, "<strong>", "</strong>");
    ScanMatch(Bold, s, Match(|x| + 4, "<strong>" + x + "</strong>"));
    assert s[|x| + 4..] == rest;
    ScanFlag(Bold, rest, IsLineTerminator(s[|x| + 3]), true);
  }

  /** `*x*` becomes `<em>x</em>` when `x` is one line without stars. */
  lemma {:induction false} ItalicSpan(x: string, rest: string)
    requires '*' !in x && NoLineTerminator(x)
    ensures Apply(Italic, "*" + x + "*" + rest) == "<em>" + x + "</em>" + Apply(Italic, rest)
  {
    var s := "*" + x + "*" + rest;
    SpanMatches("*", x, "*", rest, false, "<em>", "</em>");
    ScanMatch(Italic, s, Match(|x| + 2, "<em>" + x + "</em>"));
    assert s[|x| + 2..] == rest;
    ScanFlag(Italic, rest, IsLineTerminator(s[|x| + 1]), true);
  }

  /** Bold runs before italic, so a bold span is not read as two italic markers. */
  lemma {:induction false} BoldBeforeItalic(x: string, rest: string)
    requires '*' !in x && NoLineTerminator(x)
    ensures Apply(Italic, Apply(Bold, "**" + x + "**" + rest))
            == "<strong>" + x + "</strong>" + Apply(Italic, Apply(Bold, rest))
  {
    BoldSpan(x, rest);
    ScanCopies(Italic, "<strong>" + x + "</strong>", Apply(Bold, rest));
  }

  /** A fenced block becomes `<pre><code>`; its body may span lines. */
  lemma {:induction false} CodeBlockSpan(c: string, rest: string)
    requires '`' !in c
    ensures Apply(CodeBlock, "```" + c + "```" + rest)
            == "<pre><code>" + c + "</code></pre>" + Apply(CodeBlock, rest)
  {
    var s := "```" + c + "```" + rest;
    SpanMatches("```", c, "```", rest, true, "<pre><code>", "</code></pre>");
    ScanMatch(CodeBlock, s, Match(|c| + 6, "<pre><code>" + c + "</code></pre>"));
    assert s[|c| + 6..] == rest;
    ScanFlag(CodeBlock, rest, IsLineTerminator(s[|c| + 5]), true);
  }

  /** `` `x` `` becomes `<code>x</code>` when `x` is one line without backticks. */
  lemma {:induction false} InlineCodeSpan(x: string, rest: string)
    requires '`' !in x && NoLineTerminator(x)
    ensures Apply(InlineCode, "`" + x + "`" + rest) == "<code>" + x + "</code>" + Apply(InlineCode, rest)
  {
    var s := "`" + x + "`" + rest;
    SpanMatches("`", x, "`", rest, false, "<code>", "</code>");
    ScanMatch(InlineCode, s, Match(|x| + 2, "<code>" + x + "</code>"));
    assert s[|x| + 2..] == rest;
    ScanFlag(InlineCode, rest, IsLineTerminator(s[|x| + 1]), true);
  }

  /** Fenced blocks run before inline code, so their backticks are gone when it runs. */
  lemma {:induction false} CodeBlockBeforeInlineCode(c: string, rest: string)
    requires '`' !in c
    ensures Apply(InlineCode, Apply(CodeBlock, "```" + c + "```" + rest))
            == "<pre><code>" + c + "</code></pre>" + Apply(InlineCode, Apply(CodeBlock, rest))
  {
    CodeBlockSpan(c, rest);
    ScanCopies(InlineCode, "<pre><code>" + c + "</code></pre>", Apply(CodeBlock, rest));
  }

  /** `[text](url)` becomes an anchor that opens `url` in a new tab. */
  lemma {:induction false} LinkSpan(text: string, url: string, rest: string)
    requires ']' !in text && ')' !in url
    requires NoLineTerminator(text) && NoLineTerminator(url)
    ensures Apply(Link, "[" + text + "](" + url + ")" + rest) == LinkHtml(text, url) + Apply(Link, rest)
  {
    var s := "[" + text + "](" + url + ")" + rest;
    var n := |text| + |url| + 4;
    LinkAtOf(s, "[", "](", ")", text, url, rest);
    LinkPass(s);
    ScanMatch(Link, s, Match(n, LinkHtml(text, url)));
    assert s[n..] == rest;
    ScanFlag(Link, rest, IsLineTerminator(s[n - 1]), true);
  }

  /** The link pattern at `[text](url)` spans exactly those characters. */
  lemma {:induction false} LinkAtOf(s: string, o: string, mid: string, c: string, text: string, url: string, rest: string)
    requires |o| == 1 && o[0] == '[' && |mid| == 2 && mid[0] == ']' && mid[1] == '(' && |c| == 1 && c[0] == ')'
    requires ']' !in text && ')' !in url
    requires NoLineTerminator(text) && NoLineTerminator(url)
    requires s == o + text + mid + url + c + rest
    ensures LinkAt(s) == Some(Match(|text| + |url| + 4, LinkHtml(text, url)))
  {
    var k := 1 + |text|;
    var m := k + 2 + |url|;
    LinkTextEnds(s, o, mid, text, url + c + rest);
    LinkUrlEnds(s, o + text + mid, c, url, rest);
    assert s[1..k] == text;
    LinkFound(s, k, m);
    LinkMatchOf(s, k, m, text, url);
  }

  lemma {:induction false} LinkFound(s: string, k: nat, m: nat)
    requires 1 <= k && k + 2 <= m < |s|
    requires StartsWith(s, "[") && FindClose(s, 1, "](", false) == Some(k)
    requires FindClose(s, k + 2, ")", false) == Some(m)
    ensures LinkAt(s) == Some(LinkMatch(s, k, m))
  {
  }

  lemma {:induction false} LinkPass(s: string)
    ensures MatchAt(Link, s) == LinkAt(s)
  {
    InlineMatch(Link, s);
  }

  lemma {:induction false} InlineMatch(p: Pass, s: string)
    requires !Anchored(p)
    ensures MatchAt(p, s) == InlineMatchAt(p, s)
  {
  }

  lemma {:induction false} LinkMatchOf(s: string, k: nat, m: nat, text: string, url: string)
    requires 1 <= k && k + 2 <= m < |s|
    requires s[1..k] == text && s[k + 2..m] == url
    ensures LinkMatch(s, k, m) == Match(m + 1, LinkHtml(text, url))
  {
  }

  /** The target part of a link ends at the first `)`. */
  lemma {:induction false} LinkUrlEnds(s: string, pre: string, c: string, url: string, rest: string)
    requires |c| == 1 && c[0] == ')'
    requires ')' !in url && NoLineTerminator(url)
    requires s == pre + url + c + rest && |pre| >= 2
    ensures FindClose(s, |pre|, ")", false) == Some(|pre| + |url|)
    ensures s[|pre|..|pre| + |url|] == url
  {
    var k := |pre| - 2;
    var m := k + 2 + |url|;
    assert s[m..m + 1] == ")";
    assert s[k + 2..m] == url;
    forall j | k + 2 <= j < m ensures s[j] != ")"[0] {
      assert s[j] == url[j - k - 2];
    }
    FindCloseAt(s, k + 2, m, ")", false);
  }

  /** The text part of a link ends at the first `](`. */
  lemma {:induction false} LinkTextEnds(s: string, o: string, mid: string, text: string, after: string)
    requires |o| == 1 && o[0] == '[' && |mid| == 2 && mid[0] == ']' && mid[1] == '('
    requires ']' !in text && NoLineTerminator(text)
    requires s == o + text + mid + after
    ensures StartsWith(s, "[") && FindClose(s, 1, "](", false) == Some(1 + |text|)
  {
    var k := 1 + |text|;
    assert s[..1] == "[";
    assert s[k..k + 2] == "](";
    assert s[1..k] == text;
    forall j | 1 <= j < k ensures s[j] != "]("[0] {
      assert s[j] == text[j - 1];
    }
    FindCloseAt(s, 1, k, "](", false);
  }

  // ---------------------------------------------------------------
  // Passes that rewrite one whole line
  // ---------------------------------------------------------------

  lemma {:induction false} NoTerminatorConcat(a: string, b: string)
    ensures NoLineTerminator(a + b) <==> NoLineTerminator(a) && NoLineTerminator(b)
  {
    if NoLineTerminator(a) && NoLineTerminator(b) {
      forall i | 0 <= i < |a + b| ensures !IsLineTerminator((a + b)[i]) {
        if i >= |a| { assert (a + b)[i] == b[i - |a|]; }
      }
    }
    if NoLineTerminator(a + b) {
      assert forall i :: 0 <= i < |a| ==> a[i] == (a + b)[i];
      assert forall i :: 0 <= i < |b| ==> b[i] == (a + b)[|a| + i];
    }
  }

  /** The anchored passes whose match is exactly one whole line. */
  predicate LineLocal(p: Pass) {
    p.Header3? || p.Header2? || p.Header1? || p.HorizontalRule? || p.TableRow?
  }

  /** What a line-local pass makes of one line. */
  function LineRewrite(p: Pass, line: string): string {
    if MatchAt(p, line).Some? then MatchAt(p, line).value.out else line
  }

  lemma {:induction false} HeaderAtLine(line: string, rest: string, marker: string, open: string, close: string)
    requires |marker| > 0 && NoLineTerminator(marker) && NoLineTerminator(line)
    requires rest == [] || IsLineTerminator(rest[0])
    ensures HeaderAt(line + rest, marker, open, close) == HeaderAt(line, marker, open, close)
    ensures HeaderAt(line, marker, open, close).Some? ==> HeaderAt(line, marker, open, close).value.len == |line|
  {
    var s := line + rest;
    LineLenOfLine(line, rest);
    LineLenOfLine(line, []);
    assert line + [] == line;
    if StartsWith(s, marker) {
      LineLenCovers(s, marker);
      assert s[..|marker|] == line[..|marker|];
      assert s[|marker|..|line|] == line[|marker|..|line|];
    }
    if StartsWith(line, marker) {
      assert s[..|marker|] == line[..|marker|];
    }
  }

  lemma {:induction false} RuleAtLine(line: string, rest: string)
    requires NoLineTerminator(line) && (rest == [] || IsLineTerminator(rest[0]))
    ensures RuleAt(line + rest) == RuleAt(line)
    ensures RuleAt(line).Some? ==> RuleAt(line).value.len == |line|
  {
    LineLenOfLine(line, rest);
    LineLenOfLine(line, []);
    assert line + [] == line;
    if |line| == 3 { assert (line + rest)[..3] == line[..3]; }
  }

  lemma {:induction false} TableRowAtLine(line: string, rest: string)
    requires NoLineTerminator(line) && (rest == [] || IsLineTerminator(rest[0]))
    ensures TableRowAt(line + rest) == TableRowAt(line)
    ensures TableRowAt(line).Some? ==> TableRowAt(line).value.len == |line|
  {
    var s := line + rest;
    LineLenOfLine(line, rest);
    LineLenOfLine(line, []);
    assert line + [] == line;
    if |line| >= 2 {
      assert s[0] == line[0] && s[|line| - 1] == line[|line| - 1];
      assert s[1..|line| - 1] == line[1..|line| - 1];
    }
  }

  /** A line-local pass sees the same match whatever follows the line. */
  lemma {:induction false} LocalMatch(p: Pass, line: string, rest: string)
    requires LineLocal(p) && NoLineTerminator(line)
    requires rest == [] || IsLineTerminator(rest[0])
    ensures MatchAt(p, line + rest) == MatchAt(p, line)
    ensures MatchAt(p, line).Some? ==> MatchAt(p, line).value.len == |line|
  {
    if p == Header3 {
      HeaderAtLine(line, rest, "### ", "<h3>", "</h3>");
    } else if p == Header2 {
      HeaderAtLine(line, rest, "## ", "<h2>", "</h2>");
    } else if p == Header1 {
      HeaderAtLine(line, rest, "# ", "<h1>", "</h1>");
    } else if p == HorizontalRule {
      RuleAtLine(line, rest);
    } else {
      TableRowAtLine(line, rest);
    }
  }

  /** A line-local pass rewrites a line and starts afresh after its terminator. */
  lemma {:induction false} LocalLine(p: Pass, line: string, t: char, rest: string)
    requires LineLocal(p) && NoLineTerminator(line) && IsLineTerminator(t)
    ensures Apply(p, line + [t] + rest) == LineRewrite(p, line) + [t] + Apply(p, rest)
  {
    assert line + [t] + rest == line + ([t] + rest);
    LocalMatch(p, line, [t] + rest);
    var m := MatchAt(p, line);
    if m.Some? {
      LocalLineMatched(p, line, t, rest, m.value);
    } else {
      LineUnmatched(p, line, t, rest);
    }
  }

  /** An anchored pass that does not match at the start of a line copies the line. */
  lemma {:induction false} LineUnmatched(p: Pass, line: string, t: char, rest: string)
    requires Anchored(p) && NoLineTerminator(line) && IsLineTerminator(t)
    requires MatchAt(p, line + [t] + rest).None?
    ensures Apply(p, line + [t] + rest) == line + [t] + Apply(p, rest)
  {
    var s := line + [t] + rest;
    if line == [] {
      assert s == [t] + rest;
      ScanNoMatch(p, s, true);
      assert s[1..] == rest;
    } else {
      assert s == line + ([t] + rest);
      ScanFirstLine(p, line, [t] + rest);
      ScanTerminator(p, t, rest);
      assert line + ([t] + Apply(p, rest)) == line + [t] + Apply(p, rest);
    }
  }

  /** An anchored pass that does not match at the start of a non-empty
      first line copies that line. */
  lemma {:induction false} ScanFirstLine(p: Pass, u: string, rest: string)
    requires Anchored(p) && u != [] && NoLineTerminator(u)
    requires MatchAt(p, u + rest).None?
    ensures Apply(p, u + rest) == u + Scan(p, rest, false)
  {
    var s := u + rest;
    ScanNoMatch(p, s, true);
    assert s[0] == u[0];
    assert s[1..] == u[1..] + rest;
    ScanMidLine(p, u[1..], rest);
    assert [u[0]] + (u[1..] + Scan(p, rest, false)) == u + Scan(p, rest, false);
  }

  /** An anchored pass that matches exactly one line starts afresh after its terminator. */
  lemma {:induction false} LocalLineMatched(p: Pass, line: string, t: char, rest: string, m: Match)
    requires Anchored(p) && IsLineTerminator(t)
    requires line != [] && !IsLineTerminator(line[|line| - 1])
    requires MatchAt(p, line + [t] + rest) == Some(m) && m.len == |line|
    ensures Apply(p, line + [t] + rest) == m.out + [t] + Apply(p, rest)
  {
    var s := line + [t] + rest;
    ScanMatch(p, s, m);
    assert !IsLineTerminator(s[|line| - 1]) by {
      assert s[|line| - 1] == line[|line| - 1];
    }
    assert s[|line|..] == [t] + rest;
    ScanTerminator(p, t, rest);
    Regroup(m.out, [t], Apply(p, rest));
  }

  /** On the last line, a line-local pass makes `LineRewrite` of it. */
  lemma {:induction false} LocalLastLine(p: Pass, line: string)
    requires LineLocal(p) && NoLineTerminator(line)
    ensures Apply(p, line) == LineRewrite(p, line)
  {
    assert line + [] == line;
    LocalMatch(p, line, []);
    match MatchAt(p, line)
    case Some(m) =>
      ScanMatch(p, line, m);
      assert line[|line|..] == [];
    case None =>
      if line != [] {
        ScanFirstLine(p, line, []);
      }
  }

  predicate AllLines(lines: seq<string>) {
    forall k :: 0 <= k < |lines| ==> NoLineTerminator(lines[k])
  }

  function RewriteLines(p: Pass, lines: seq<string>): (r: seq<string>)
    ensures |r| == |lines|
    ensures forall k :: 0 <= k < |r| ==> r[k] == LineRewrite(p, lines[k])
  {
    if lines == [] then [] else [LineRewrite(p, lines[0])] + RewriteLines(p, lines[1..])
  }

  /** A line-local pass works line by line: on text made of lines joined by
      line feeds, it rewrites each line on its own. */
  lemma {:induction false} LocalByLines(p: Pass, lines: seq<string>)
    requires LineLocal(p) && |lines| >= 1 && AllLines(lines)
    ensures Apply(p, Join(lines, '\n')) == Join(RewriteLines(p, lines), '\n')
    decreases |lines|
  {
    if |lines| == 1 {
      LocalLastLine(p, lines[0]);
    } else {
      LocalLine(p, lines[0], '\n', Join(lines[1..], '\n'));
      LocalByLines(p, lines[1..]);
      assert RewriteLines(p, lines)[1..] == RewriteLines(p, lines[1..]);
    }
  }

  /** The three heading passes, in the renderer's order. */
  function Headings(s: string): string {
    Apply(Header1, Apply(Header2, Apply(Header3, s)))
  }

  /** The heading a Markdown line stands for: the marker with most `#` wins. */
  function Heading(line: string): string {
    if StartsWith(line, "### ") then "<h3>" + line[4..] + "</h3>"
    else if StartsWith(line, "## ") then "<h2>" + line[3..] + "</h2>"
    else if StartsWith(line, "# ") then "<h1>" + line[2..] + "</h1>"
    else line
  }

  lemma {:induction false} TagNoTerminator(tag: string, body: string, close: string)
    requires NoLineTerminator(tag) && NoLineTerminator(body) && NoLineTerminator(close)
    ensures NoLineTerminator(tag + body + close)
  {
    NoTerminatorConcat(tag, body);
    NoTerminatorConcat(tag + body, close);
  }

  lemma {:induction false} LineRewriteKeepsTag(p: Pass, h: string)
    requires p.Header3? || p.Header2? || p.Header1?
    requires |h| > 0 && h[0] == '<'
    ensures LineRewrite(p, h) == h
  {
  }

  /** Each line goes through the three heading passes into `Heading` of it. */
  lemma {:induction false} HeadingOfLine(line: string)
    requires NoLineTerminator(line)
    ensures LineRewrite(Header1, LineRewrite(Header2, LineRewrite(Header3, line))) == Heading(line)
    ensures NoLineTerminator(LineRewrite(Header3, line))
    ensures NoLineTerminator(LineRewrite(Header2, LineRewrite(Header3, line)))
  {
    LineLenOfLine(line, []);
    assert line + [] == line;
    if StartsWith(line, "### ") {
      var h := "<h3>" + line[4..] + "</h3>";
      assert line[4..|line|] == line[4..];
      assert LineLen(line) == |line|;
      assert MatchAt(Header3, line) == Some(Match(|line|, h));
      assert NoLineTerminator(line[4..]);
      TagNoTerminator("<h3>", line[4..], "</h3>");
      assert h[0] == '<';
      LineRewriteKeepsTag(Header2, h);
      LineRewriteKeepsTag(Header1, h);
    } else if StartsWith(line, "## ") {
      var h := "<h2>" + line[3..] + "</h2>";
      assert LineRewrite(Header3, line) == line;
      assert line[3..|line|] == line[3..];
      assert MatchAt(Header2, line) == Some(Match(|line|, h));
      assert NoLineTerminator(line[3..]);
      TagNoTerminator("<h2>", line[3..], "</h2>");
      assert h[0] == '<';
      LineRewriteKeepsTag(Header1, h);
    } else {
      assert LineRewrite(Header3, line) == line;
      assert LineRewrite(Header2, line) == line;
    }
  }

  /** The heading passes turn every line into its `Heading`, line by line. */
  lemma {:induction false} HeadingsByLines(lines: seq<string>)
    requires |lines| >= 1 && AllLines(lines)
    ensures Headings(Join(lines, '\n')) == Join(HeadingLines(lines), '\n')
  {
    var l3 := RewriteLines(Header3, lines);
    LocalByLines(Header3, lines);
    forall k | 0 <= k < |l3| ensures NoLineTerminator(l3[k]) {
      HeadingOfLine(lines[k]);
    }
    var l2 := RewriteLines(Header2, l3);
    LocalByLines(Header2, l3);
    forall k | 0 <= k < |l2| ensures NoLineTerminator(l2[k]) {
      HeadingOfLine(lines[k]);
    }
    var l1 := RewriteLines(Header1, l2);
    LocalByLines(Header1, l2);
    forall k | 0 <= k < |l1| ensures l1[k] == HeadingLines(lines)[k] {
      HeadingOfLine(lines[k]);
    }
    assert l1 == HeadingLines(lines);
  }

  function HeadingLines(lines: seq<string>): (r: seq<string>)
    ensures |r| == |lines|
    ensures forall k :: 0 <= k < |r| ==> r[k] == Heading(lines[k])
  {
    if lines == [] then [] else [Heading(lines[0])] + HeadingLines(lines[1..])
  }

  /** A line is a horizontal rule exactly when it is `---` and nothing else. */
  lemma {:induction false} RuleLine(line: string)
    requires NoLineTerminator(line)
    ensures LineRewrite(HorizontalRule, line) == if line == "---" then "<hr />" else line
  {
    LineLenOfLine(line, []);
    assert line + [] == line;
  }

  // ---------------------------------------------------------------
  // Tables
  // ---------------------------------------------------------------

  /** A row's cells are its pieces between pipes, trimmed. */
  lemma {:induction false} CellsOfPieces(pieces: seq<string>)
    requires |pieces| >= 1
    requires forall k :: 0 <= k < |pieces| ==> '|' !in pieces[k]
    ensures Cells(Join(pieces, '|')) == TrimAll(pieces)
  {
    SplitJoin(pieces, '|');
  }

  /** A table line `|p1|p2|...|` is dropped when some trimmed piece is all
      dashes, and otherwise becomes a `<tr>` with one `<td>` per piece. */
  lemma {:induction false} TableRowLine(pieces: seq<string>)
    requires |pieces| >= 1 && AllLines(pieces)
    requires forall k :: 0 <= k < |pieces| ==> '|' !in pieces[k]
    ensures var r := LineRewrite(TableRow, "|" + Join(pieces, '|') + "|");
      && (r == "" <==> exists k :: 0 <= k < |pieces| && IsDashes(Trim(pieces[k])))
      && (r != "" ==> r == "<tr>" + TdCells(TrimAll(pieces)) + "</tr>")
  {
    TableLineRewrite(pieces);
    CellsOfPieces(pieces);
    RowHtmlOfCells(Join(pieces, '|'), TrimAll(pieces));
    DashesOfTrimmed(pieces);
  }

  lemma {:induction false} RowHtmlOfCells(content: string, cells: seq<string>)
    requires Cells(content) == cells
    ensures RowHtml(content) == "" <==> SomeDashes(cells)
    ensures !SomeDashes(cells) ==> RowHtml(content) == "<tr>" + TdCells(cells) + "</tr>"
  {
  }

  lemma {:induction false} DashesOfTrimmed(pieces: seq<string>)
    ensures SomeDashes(TrimAll(pieces)) <==> exists k :: 0 <= k < |pieces| && IsDashes(Trim(pieces[k]))
  {
    var cells := TrimAll(pieces);
    if exists k :: 0 <= k < |pieces| && IsDashes(Trim(pieces[k])) {
      var k :| 0 <= k < |pieces| && IsDashes(Trim(pieces[k]));
      assert IsDashes(cells[k]);
    }
  }

  /** The whole table line is matched and its content goes to the row callback. */
  lemma {:induction false} TableLineRewrite(pieces: seq<string>)
    requires |pieces| >= 1 && AllLines(pieces)
    ensures LineRewrite(TableRow, "|" + Join(pieces, '|') + "|") == RowHtml(Join(pieces, '|'))
  {
    var content := Join(pieces, '|');
    var line := "|" + content + "|";
    JoinNoTerminator(pieces, '|');
    NoTerminatorConcat("|", content);
    NoTerminatorConcat("|" + content, "|");
    LineLenOfLine(line, []);
    assert line + [] == line;
    assert line[1..|line| - 1] == content;
    assert TableRowAt(line) == Some(Match(|line|, RowHtml(content)));
    TableRowMatch(line);
  }

  lemma {:induction false} TableRowMatch(s: string)
    ensures MatchAt(TableRow, s) == TableRowAt(s)
  {
    AnchoredMatch(TableRow, s);
  }

  lemma {:induction false} AnchoredMatch(p: Pass, s: string)
    requires Anchored(p)
    ensures MatchAt(p, s) == LineMatchAt(p, s)
  {
  }

  lemma {:induction false} JoinNoTerminator(parts: seq<string>, sep: char)
    requires AllLines(parts) && !IsLineTerminator(sep)
    ensures NoLineTerminator(Join(parts, sep))
    decreases |parts|
  {
    if |parts| > 1 {
      JoinNoTerminator(parts[1..], sep);
      NoTerminatorConcat(parts[0], [sep]);
      NoTerminatorConcat(parts[0] + [sep], Join(parts[1..], sep));
    }
  }

  /** One row of a wrapped run: `open body close`, then a line break and any
      further blank space before the next row. */
  datatype Row = Row(body: string, gap: string)

  /** A row fills one line; only a row that ends the text may lack the line
      break after it. */
  predicate RowOk(r: Row, atEnd: bool) {
    NoLineTerminator(r.body) && AllSpace(r.gap)
    && (if r.gap == [] then atEnd else IsLineTerminator(r.gap[0]))
  }

  /** Every row of a block is well formed; the last one may end the text. */
  predicate RowsOk(rows: seq<Row>, rest: string) {
    forall k :: 0 <= k < |rows| ==> RowOk(rows[k], k == |rows| - 1 && rest == [])
  }

  function Block(rows: seq<Row>, open: string, close: string): string {
    if rows == [] then [] else open + rows[0].body + close + rows[0].gap + Block(rows[1..], open, close)
  }

  predicate TagPair(open: string, close: string) {
    |open| > 0 && |close| > 0 && NoLineTerminator(open) && NoLineTerminator(close) && !IsSpace(open[0])
  }

  lemma {:induction false} UnitOfRow(open: string, close: string, r: Row, tail: string)
    requires TagPair(open, close) && RowOk(r, tail == [])
    requires tail == [] || !IsSpace(tail[0])
    ensures UnitAt(open + r.body + close + r.gap + tail, open, close)
            == Some(|open| + |r.body| + |close| + |r.gap|)
  {
    var s := open + r.body + close + r.gap + tail;
    RowFacts(s, open, close, r, tail);
    UnitOfParts(s, open, close, |open| + |r.body|, |r.gap|);
  }

  lemma {:induction false} RowFacts(s: string, open: string, close: string, r: Row, tail: string)
    requires TagPair(open, close) && RowOk(r, tail == [])
    requires tail == [] || !IsSpace(tail[0])
    requires s == open + r.body + close + r.gap + tail
    ensures StartsWith(s, open)
    ensures |open| + |r.body| + |close| <= |s|
    ensures LineLen(s) == |open| + |r.body| + |close|
    ensures LastOccurrence(s, close, |open|, |open| + |r.body| + |close|) == Some(|open| + |r.body|)
    ensures SpaceAfter(s, |open| + |r.body| + |close|) == |open| + |r.body| + |close| + |r.gap|
  {
    var j := |open| + |r.body|;
    assert s == open + r.body + close + (r.gap + tail);
    RowPieces(open, r.body, close, r.gap + tail);
    LastAtEnd(s, close, |open|, j);
    SpaceRunOf(r.gap, tail);
  }

  /** One unit, given where its last close tag is and how much space follows. */
  lemma {:induction false} UnitOfParts(s: string, open: string, close: string, j: nat, g: nat)
    requires |open| > 0 && |close| > 0 && j + |close| <= |s|
    requires StartsWith(s, open) && LineLen(s) == j + |close|
    requires LastOccurrence(s, close, |open|, j + |close|) == Some(j)
    requires SpaceAfter(s, j + |close|) == j + |close| + g
    ensures UnitAt(s, open, close) == Some(j + |close| + g)
  {
  }

  /** Where the pieces of a row line sit in the text. */
  lemma {:induction false} RowPieces(open: string, body: string, close: string, after: string)
    requires NoLineTerminator(open) && NoLineTerminator(body) && NoLineTerminator(close)
    requires after == [] || IsLineTerminator(after[0])
    ensures var s := open + body + close + after;
      && LineLen(s) == |open| + |body| + |close|
      && StartsWith(s, open)
      && OccursAt(s, close, |open| + |body|)
      && s[|open| + |body| + |close|..] == after
  {
    var s := open + body + close + after;
    NoTerminatorConcat(open, body);
    NoTerminatorConcat(open + body, close);
    LineLenOfLine(open + body + close, after);
    assert s[..|open|] == open;
    assert s[|open| + |body|..|open| + |body| + |close|] == close;
  }

  /** A greedy `.*` before `pat` stops at an occurrence that ends the range. */
  lemma {:induction false} LastAtEnd(s: string, pat: string, lo: nat, j: nat)
    requires |pat| > 0 && lo <= j && j + |pat| <= |s| && OccursAt(s, pat, j)
    ensures LastOccurrence(s, pat, lo, j + |pat|) == Some(j)
  {
  }

  /** A block of rows followed by `rest`, split after its first row. */
  lemma {:induction false} BlockCons(rows: seq<Row>, open: string, close: string, rest: string)
    requires |rows| > 0 && |open| > 0
    ensures Block(rows, open, close) + rest
            == open + rows[0].body + close + rows[0].gap + (Block(rows[1..], open, close) + rest)
    ensures |Block(rows, open, close)|
            == |open| + |rows[0].body| + |close| + |rows[0].gap| + |Block(rows[1..], open, close)|
    ensures Block(rows[1..], open, close) + rest == [] || Block(rows[1..], open, close) + rest == rest
            || (Block(rows[1..], open, close) + rest)[0] == open[0]
  {
    var tail := Block(rows[1..], open, close);
    if rows[1..] != [] {
      assert (tail + rest)[0] == open[0];
    } else {
      assert tail + rest == rest;
    }
  }

  /** The rows after the first are well formed before the same `rest`. */
  lemma {:induction false} RowsOkTail(rows: seq<Row>, rest: string)
    requires |rows| > 0 && RowsOk(rows, rest)
    ensures RowsOk(rows[1..], rest)
  {
    forall k | 0 <= k < |rows[1..]|
      ensures RowOk(rows[1..][k], k == |rows[1..]| - 1 && rest == [])
    {
      assert rows[1..][k] == rows[k + 1];
    }
  }

  /** The first row may lack its line break only when nothing follows it. */
  lemma {:induction false} FirstRowOk(rows: seq<Row>, open: string, close: string, rest: string)
    requires |rows| > 0 && |open| > 0 && RowsOk(rows, rest)
    ensures RowOk(rows[0], Block(rows[1..], open, close) + rest == [])
  {
    assert RowOk(rows[0], 0 == |rows| - 1 && rest == []);
    if |rows| > 1 {
      assert |Block(rows[1..], open, close)| > 0;
    }
  }

  /** Dropping the first row of `open body close gap tail` leaves `tail`. */
  lemma {:induction false} DropRow(open: string, close: string, r: Row, tail: string)
    ensures (open + r.body + close + r.gap + tail)[|open| + |r.body| + |close| + |r.gap|..] == tail
  {
  }

  /** The `+` takes one unit and carries on after it. */
  lemma {:induction false} RunLenStep(s: string, open: string, close: string, u: nat)
    requires |open| > 0 && |close| > 0 && UnitAt(s, open, close) == Some(u)
    ensures RunLen(s, open, close) == u + RunLen(s[u..], open, close)
  {
  }

  /** The `+` stops where no unit starts. */
  lemma {:induction false} RunLenStop(s: string, open: string, close: string)
    requires |open| > 0 && |close| > 0 && !StartsWith(s, open)
    ensures RunLen(s, open, close) == 0
  {
  }

  lemma {:induction false} RunLenOfBlock(rows: seq<Row>, open: string, close: string, rest: string)
    requires TagPair(open, close)
    requires RowsOk(rows, rest)
    requires rest == [] || !IsSpace(rest[0])
    requires !StartsWith(rest, open)
    ensures RunLen(Block(rows, open, close) + rest, open, close) == |Block(rows, open, close)|
    decreases |rows|
  {
    if rows == [] {
      assert Block(rows, open, close) + rest == rest;
      RunLenStop(rest, open, close);
    } else {
      RowsOkTail(rows, rest);
      RunLenOfBlock(rows[1..], open, close, rest);
      RunLenCons(rows, open, close, rest);
    }
  }

  /** The first row is one unit; the rest of the block is the rest of the run. */
  lemma {:induction false} RunLenCons(rows: seq<Row>, open: string, close: string, rest: string)
    requires TagPair(open, close) && |rows| > 0 && RowsOk(rows, rest)
    requires rest == [] || !IsSpace(rest[0])
    requires RunLen(Block(rows[1..], open, close) + rest, open, close) == |Block(rows[1..], open, close)|
    ensures RunLen(Block(rows, open, close) + rest, open, close) == |Block(rows, open, close)|
  {
    var tail := Block(rows[1..], open, close) + rest;
    BlockCons(rows, open, close, rest);
    FirstRowOk(rows, open, close, rest);
    UnitOfRow(open, close, rows[0], tail);
    DropRow(open, close, rows[0], tail);
    RunLenStep(Block(rows, open, close) + rest, open, close,
               |open| + |rows[0].body| + |close| + |rows[0].gap|);
  }

  /** A run of rows is wrapped once, blank lines between the rows included. */
  lemma {:induction false} RunOfBlock(rows: seq<Row>, open: string, close: string, rest: string,
                                      before: string, after: string)
    requires TagPair(open, close) && |rows| >= 1
    requires RowsOk(rows, rest)
    requires rest == [] || !IsSpace(rest[0])
    requires !StartsWith(rest, open)
    ensures RunAt(Block(rows, open, close) + rest, open, close, before, after)
            == Some(Match(|Block(rows, open, close)|, before + Block(rows, open, close) + after))
  {
    var b := Block(rows, open, close);
    var tail := Block(rows[1..], open, close) + rest;
    BlockCons(rows, open, close, rest);
    FirstRowOk(rows, open, close, rest);
    UnitOfRow(open, close, rows[0], tail);
    RunLenOfBlock(rows, open, close, rest);
    assert (b + rest)[..|b|] == b;
  }

  /** The wrapping passes replace a run and carry on after it. */
  lemma {:induction false} WrapThenRest(p: Pass, b: string, rest: string, out: string)
    requires !Anchored(p) && |b| > 0 && MatchAt(p, b + rest) == Some(Match(|b|, out))
    ensures Apply(p, b + rest) == out + Apply(p, rest)
  {
    ScanMatch(p, b + rest, Match(|b|, out));
    assert (b + rest)[|b|..] == rest;
    ScanFlag(p, rest, IsLineTerminator((b + rest)[|b| - 1]), true);
  }

  lemma {:induction false} TableWrapMatch(s: string)
    ensures MatchAt(TableWrap, s) == RunAt(s, "<tr>", "</tr>", "<table><tbody>", "</tbody></table>")
  {
  }

  lemma {:induction false} ListWrapMatch(s: string)
    ensures MatchAt(ListWrap, s) == RunAt(s, "<li>", "</li>", "<ul>", "</ul>")
  {
  }

  /** Consecutive table rows become one `<table><tbody>`. */
  lemma {:induction false} TableWrapBlock(rows: seq<Row>, rest: string)
    requires |rows| >= 1 && RowsOk(rows, rest)
    requires rest == [] || !IsSpace(rest[0])
    requires !StartsWith(rest, "<tr>")
    ensures Apply(TableWrap, Block(rows, "<tr>", "</tr>") + rest)
            == "<table><tbody>" + Block(rows, "<tr>", "</tr>") + "</tbody></table>" + Apply(TableWrap, rest)
  {
    var b := Block(rows, "<tr>", "</tr>");
    assert TagPair("<tr>", "</tr>");
    RunOfBlock(rows, "<tr>", "</tr>", rest, "<table><tbody>", "</tbody></table>");
    TableWrapMatch(b + rest);
    WrapThenRest(TableWrap, b, rest, "<table><tbody>" + b + "</tbody></table>");
  }

  /** Consecutive list items become one `<ul>`. */
  lemma {:induction false} ListWrapBlock(rows: seq<Row>, rest: string)
    requires |rows| >= 1 && RowsOk(rows, rest)
    requires rest == [] || !IsSpace(rest[0])
    requires !StartsWith(rest, "<li>")
    ensures Apply(ListWrap, Block(rows, "<li>", "</li>") + rest)
            == "<ul>" + Block(rows, "<li>", "</li>") + "</ul>" + Apply(ListWrap, rest)
  {
    var b := Block(rows, "<li>", "</li>");
    assert TagPair("<li>", "</li>");
    RunOfBlock(rows, "<li>", "</li>", rest, "<ul>", "</ul>");
    ListWrapMatch(b + rest);
    WrapThenRest(ListWrap, b, rest, "<ul>" + b + "</ul>");
  }

  // ---------------------------------------------------------------
  // Lists
  // ---------------------------------------------------------------

  /** The list-item pattern at `s` once the `\s*-` prefix is known. */
  lemma {:induction false} ListItemAtMarker(s: string, a: nat)
    requires a < |s| && SpaceRun(s) == a && s[a] == '-'
    ensures ListItemAt(s) == ItemAfterMarker(s, a + 1)
  {
  }

  /** After the marker, a `\s+` of length `b` leads to the item text. */
  lemma {:induction false} ItemAfterSpaces(s: string, k: nat, b: nat)
    requires 0 < k <= |s| && 0 < b && SpaceRun(s[k..]) == b
    ensures ItemAfterMarker(s, k) == Some(ItemText(s, k + b))
  {
  }

  /** The item text is the rest of the line. */
  lemma {:induction false} ItemTextOf(pre: string, x: string, rest: string)
    requires NoLineTerminator(x) && (rest == [] || IsLineTerminator(rest[0]))
    ensures ItemText(pre + x + rest, |pre|) == Match(|pre| + |x|, "<li>" + x + "</li>")
  {
    var s := pre + x + rest;
    assert s[|pre|..] == x + rest;
    LineLenOfLine(x, rest);
    assert s[|pre|..|pre| + |x|] == x;
  }

  /** A two-character marker ending in a space, then a line whose first
      character is not `\s`. */
  lemma {:induction false} MarkerThenText(pre: string, m: string, x: string, rest: string)
    requires |m| == 2 && m[1] == ' ' && |x| > 0 && !IsSpace(x[0])
    ensures var s := pre + m + x + rest; s[|pre|] == m[0] && SpaceRun(s[|pre| + 1..]) == 1
  {
    var s := pre + m + x + rest;
    assert s[|pre|..|pre| + 2] == m;
    assert s[|pre| + 1..] == " " + (x + rest);
    assert (x + rest)[0] == x[0];
    SpaceRunOf(" ", x + rest);
  }

  lemma {:induction false} SpacesBefore(w: string, m: string, x: string, rest: string)
    requires AllSpace(w) && |m| > 0 && !IsSpace(m[0])
    ensures SpaceRun(w + m + x + rest) == |w|
  {
    assert w + m + x + rest == w + (m + x + rest);
    SpaceRunOf(w, m + x + rest);
  }

  lemma {:induction false} ListItemAtOf(w: string, x: string, rest: string)
    requires AllSpace(w) && NoLineTerminator(x) && |x| > 0 && !IsSpace(x[0])
    requires rest == [] || IsLineTerminator(rest[0])
    ensures ListItemAt(w + "- " + x + rest) == Some(Match(|w| + 2 + |x|, "<li>" + x + "</li>"))
  {
    var s := w + "- " + x + rest;
    MarkerThenText(w, "- ", x, rest);
    SpacesBefore(w, "- ", x, rest);
    ListItemAtMarker(s, |w|);
    ItemAfterSpaces(s, |w| + 1, 1);
    ItemTextOf(w + "- ", x, rest);
  }

  /** `- x` becomes `<li>x</li>`; any blank space before the dash, blank
      lines included, is swallowed by the leading `\s*`. */
  lemma {:induction false} ListItemLine(w: string, x: string, t: char, more: string)
    requires AllSpace(w) && NoLineTerminator(x) && |x| > 0 && !IsSpace(x[0]) && IsLineTerminator(t)
    ensures Apply(ListItem, w + "- " + x + [t] + more) == "<li>" + x + "</li>" + [t] + Apply(ListItem, more)
  {
    var line := w + "- " + x;
    ListItemAtOf(w, x, [t] + more);
    assert line[|line| - 1] == x[|x| - 1];
    LineMatchedBy(ListItem, line, t, more, "<li>" + x + "</li>");
  }

  lemma {:induction false} DigitRunOf(d: string, rest: string)
    requires forall i :: 0 <= i < |d| ==> '0' <= d[i] <= '9'
    requires rest == [] || !('0' <= rest[0] <= '9')
    ensures DigitRun(d + rest) == |d|
    decreases |d|
  {
    if d == [] {
      assert d + rest == rest;
    } else {
      assert (d + rest)[1..] == d[1..] + rest;
      DigitRunOf(d[1..], rest);
    }
  }

  /** The ordered-item pattern at `s` once the `\d+\.` prefix is known. */
  lemma {:induction false} OrderedItemAtMarker(s: string, d: nat)
    requires 0 < d < |s| && DigitRun(s) == d && s[d] == '.'
    ensures OrderedItemAt(s) == ItemAfterMarker(s, d + 1)
  {
  }

  lemma {:induction false} OrderedItemAtOf(d: string, x: string, rest: string)
    requires |d| > 0 && forall i :: 0 <= i < |d| ==> '0' <= d[i] <= '9'
    requires NoLineTerminator(x) && |x| > 0 && !IsSpace(x[0])
    requires rest == [] || IsLineTerminator(rest[0])
    ensures OrderedItemAt(d + ". " + x + rest) == Some(Match(|d| + 2 + |x|, "<li>" + x + "</li>"))
  {
    OrderedItemAtParts(d, ". ", x, rest);
  }

  lemma {:induction false} OrderedItemAtParts(d: string, m: string, x: string, rest: string)
    requires |d| > 0 && forall i :: 0 <= i < |d| ==> '0' <= d[i] <= '9'
    requires |m| == 2 && m[0] == '.' && m[1] == ' '
    requires NoLineTerminator(x) && |x| > 0 && !IsSpace(x[0])
    requires rest == [] || IsLineTerminator(rest[0])
    ensures OrderedItemAt(d + m + x + rest) == Some(Match(|d| + 2 + |x|, "<li>" + x + "</li>"))
  {
    var s := d + m + x + rest;
    MarkerThenText(d, m, x, rest);
    DigitsBefore(d, m, x, rest);
    OrderedItemAtMarker(s, |d|);
    ItemAfterSpaces(s, |d| + 1, 1);
    ItemTextOf(d + m, x, rest);
  }

  lemma {:induction false} DigitsBefore(d: string, m: string, x: string, rest: string)
    requires forall i :: 0 <= i < |d| ==> '0' <= d[i] <= '9'
    requires |m| > 0 && !('0' <= m[0] <= '9')
    ensures DigitRun(d + m + x + rest) == |d|
  {
    assert d + m + x + rest == d + (m + x + rest);
    DigitRunOf(d, m + x + rest);
  }

  /** `12. x` becomes `<li>x</li>`. */
  lemma {:induction false} OrderedItemLine(d: string, x: string, t: char, more: string)
    requires |d| > 0 && forall i :: 0 <= i < |d| ==> '0' <= d[i] <= '9'
    requires NoLineTerminator(x) && |x| > 0 && !IsSpace(x[0]) && IsLineTerminator(t)
    ensures Apply(OrderedItem, d + ". " + x + [t] + more) == "<li>" + x + "</li>" + [t] + Apply(OrderedItem, more)
  {
    OrderedItemLineParts(d, ". ", x, t, more);
  }

  lemma {:induction false} OrderedItemLineParts(d: string, m: string, x: string, t: char, more: string)
    requires |d| > 0 && forall i :: 0 <= i < |d| ==> '0' <= d[i] <= '9'
    requires |m| == 2 && m[0] == '.' && m[1] == ' '
    requires NoLineTerminator(x) && |x| > 0 && !IsSpace(x[0]) && IsLineTerminator(t)
    ensures Apply(OrderedItem, d + m + x + [t] + more) == "<li>" + x + "</li>" + [t] + Apply(OrderedItem, more)
  {
    var line := d + m + x;
    OrderedItemAtParts(d, m, x, [t] + more);
    assert line[|line| - 1] == x[|x| - 1];
    LineMatchedBy(OrderedItem, line, t, more, "<li>" + x + "</li>");
  }

  /** `LocalLineMatched` with the line and what follows it kept apart. */
  lemma {:induction false} LineMatchedBy(p: Pass, line: string, t: char, rest: string, out: string)
    requires Anchored(p) && IsLineTerminator(t)
    requires line != [] && !IsLineTerminator(line[|line| - 1])
    requires MatchAt(p, line + ([t] + rest)) == Some(Match(|line|, out))
    ensures Apply(p, line + [t] + rest) == out + [t] + Apply(p, rest)
  {
    assert line + [t] + rest == line + ([t] + rest);
    LocalLineMatched(p, line, t, rest, Match(|line|, out));
  }

  // ---------------------------------------------------------------
  // Paragraphs and clean-up
  // ---------------------------------------------------------------

  lemma {:induction false} ParagraphMatch(s: string)
    ensures MatchAt(Paragraph, s) == ParagraphAt(s)
  {
  }

  /** Where the parts of `line t rest` sit, `t` being a line terminator. */
  lemma {:induction false} LineThenRest(line: string, t: char, rest: string)
    requires NoLineTerminator(line) && IsLineTerminator(t)
    ensures var s := line + [t] + rest;
      && LineLen(s) == |line| && s[|line|] == t
      && s[..|line|] == line && s[..|line| + 1] == line + [t] && s[|line| + 1..] == rest
      && (rest != [] ==> s[|line| + 1] == rest[0])
      && (line != [] ==> s[|line| - 1] == line[|line| - 1])
      && (ExcludedAt(s) <==> ExcludedAt(line))
  {
    var s := line + [t] + rest;
    assert s == line + ([t] + rest);
    LineLenOfLine(line, [t] + rest);
    assert t !in ExcludedTagLetters;
  }

  /** A text line followed by another non-empty line becomes a paragraph. */
  lemma {:induction false} ParagraphLine(line: string, t: char, rest: string)
    requires NoLineTerminator(line) && |line| > 0 && line[|line| - 1] != '>' && !ExcludedAt(line)
    requires IsLineTerminator(t) && rest != [] && !IsLineTerminator(rest[0])
    ensures Apply(Paragraph, line + [t] + rest) == "<p>" + line + "</p>" + [t] + Apply(Paragraph, rest)
  {
    var s := line + [t] + rest;
    LineThenRest(line, t, rest);
    ParagraphMatch(s);
    LocalLineMatched(Paragraph, line, t, rest, Match(|line|, "<p>" + line + "</p>"));
  }

  /** A line ending in `>` followed by a non-empty line is left as it is. */
  lemma {:induction false} ParagraphKeepsTagLine(line: string, t: char, rest: string)
    requires NoLineTerminator(line) && |line| > 0 && line[|line| - 1] == '>'
    requires IsLineTerminator(t) && rest != [] && !IsLineTerminator(rest[0])
    ensures Apply(Paragraph, line + [t] + rest) == line + [t] + Apply(Paragraph, rest)
  {
    var s := line + [t] + rest;
    LineThenRest(line, t, rest);
    ParagraphMatch(s);
    LineUnmatched(Paragraph, line, t, rest);
  }

  /** A line starting with `<` and a letter of the lookahead's class is left as it is. */
  lemma {:induction false} ParagraphKeepsExcluded(line: string, t: char, rest: string)
    requires NoLineTerminator(line) && ExcludedAt(line) && IsLineTerminator(t)
    ensures Apply(Paragraph, line + [t] + rest) == line + [t] + Apply(Paragraph, rest)
  {
    var s := line + [t] + rest;
    LineThenRest(line, t, rest);
    ParagraphMatch(s);
    LineUnmatched(Paragraph, line, t, rest);
  }

  /** Before a blank line or at the end of the input, `[^>]` takes the line
      terminator: the paragraph then contains it, and a line ending in `>`
      is wrapped too. */
  lemma {:induction false} ParagraphTakesTerminator(line: string, t: char, rest: string)
    requires NoLineTerminator(line) && !ExcludedAt(line) && IsLineTerminator(t)
    requires rest == [] || IsLineTerminator(rest[0])
    ensures Apply(Paragraph, line + [t] + rest) == "<p>" + line + [t] + "</p>" + Apply(Paragraph, rest)
  {
    var s := line + [t] + rest;
    LineThenRest(line, t, rest);
    ParagraphMatch(s);
    assert "<p>" + (line + [t]) + "</p>" == "<p>" + line + [t] + "</p>";
    ScanMatch(Paragraph, s, Match(|line| + 1, "<p>" + line + [t] + "</p>"));
  }

  /** `<p></p>` disappears. */
  lemma {:induction false} EmptyParagraphRemoved(rest: string)
    ensures Apply(EmptyParagraph, "<p></p>" + rest) == Apply(EmptyParagraph, rest)
  {
    var s := "<p></p>" + rest;
    assert s[..7] == "<p></p>";
    ScanMatch(EmptyParagraph, s, Match(7, ""));
    assert s[7..] == rest;
    ScanFlag(EmptyParagraph, rest, IsLineTerminator(s[6]), true);
  }

  /** A paragraph holding only blank space, line breaks included, disappears. */
  lemma {:induction false} BlankParagraphRemoved(w: string, rest: string)
    requires AllSpace(w)
    ensures Apply(BlankParagraph, "<p>" + w + "</p>" + rest) == Apply(BlankParagraph, rest)
  {
    var s := "<p>" + w + "</p>" + rest;
    assert s[..3] == "<p>";
    assert s[3..] == w + ("</p>" + rest);
    SpaceRunOf(w, "</p>" + rest);
    assert s[3 + |w|..][..4] == "</p>";
    ScanMatch(BlankParagraph, s, Match(|w| + 7, ""));
    assert s[|w| + 7..] == rest;
    ScanFlag(BlankParagraph, rest, IsLineTerminator(s[|w| + 6]), true);
  }

  // ---------------------------------------------------------------
  // Numbered items
  // ---------------------------------------------------------------

  /** The passes that run after the numbered-item pass. */
  function CleanUp(s: string): string {
    Apply(CollapseNewlines, Apply(BlankParagraph, Apply(EmptyParagraph, Apply(Paragraph, s))))
  }

  /** The `<ul>` wrapping runs before numbered lines become `<li>`, so a
      numbered item at the start of the text ends up as a bare `<li>` line:
      nothing is put before it and its line break is kept. */
  lemma {:induction false} OrderedItemNotWrapped(d: string, x: string, t: char, more: string)
    requires |d| > 0 && forall i :: 0 <= i < |d| ==> '0' <= d[i] <= '9'
    requires NoLineTerminator(x) && |x| > 0 && !IsSpace(x[0]) && IsLineTerminator(t)
    requires '<' !in x
    ensures StartsWith(CleanUp(Apply(OrderedItem, Apply(ListWrap, d + ". " + x + [t] + more))),
                       "<li>" + x + "</li>" + [t])
  {
    var y := NumberedItemListed(d, x, t, more);
    CleanUpKeepsItem(x, t, y);
  }

  /** As written, the `\s*` of the `<ul>` pattern takes the line break after
      the last item, so `</ul>` lands at the start of the next line. A
      numbered line right after a list then no longer starts with a digit,
      and the numbered-item pass leaves it as it is. */
  lemma {:induction false} NumberedLineAfterList(a: string, d: string, x: string)
    requires NoLineTerminator(a)
    requires |d| > 0 && forall i :: 0 <= i < |d| ==> '0' <= d[i] <= '9'
    requires NoLineTerminator(x) && '<' !in x
    ensures var n := d + ". " + x;
            Apply(ListWrap, "<li>" + a + "</li>\n" + n + "\n") == "<ul><li>" + a + "</li>\n</ul>" + n + "\n"
    ensures var n := d + ". " + x;
            Apply(OrderedItem, "<ul><li>" + a + "</li>\n</ul>" + n + "\n") == "<ul><li>" + a + "</li>\n</ul>" + n + "\n"
  {
    var n := d + ". " + x;
    NumberedLineFacts(d, x);
    PlainLineCopied(ListWrap, n);
    GlueOfLine(a, n);
    GlueKept(a, n);
  }

  /** A numbered line is one line, holds no `<` and starts with a digit. */
  lemma {:induction false} NumberedLineFacts(d: string, x: string)
    requires |d| > 0 && forall i :: 0 <= i < |d| ==> '0' <= d[i] <= '9'
    requires NoLineTerminator(x) && '<' !in x
    ensures var n := d + ". " + x;
            NoLineTerminator(n) && '<' !in n && |n| > 0 && '0' <= n[0] <= '9'
  {
    var line := d + ". " + x;
    forall i | 0 <= i < |line| ensures line[i] != '<' && !IsLineTerminator(line[i]) {
      if i >= |d| + 2 {
        assert line[i] == x[i - |d| - 2];
      }
    }
  }

  /** The wrapping passes copy a line that holds no `<`, and its line
      break; a line starting with a digit is no row. */
  lemma {:induction false} PlainLineCopied(p: Pass, n: string)
    requires p == ListWrap || p == TableWrap
    requires '<' !in n && |n| > 0 && '0' <= n[0] <= '9'
    ensures Apply(p, n + "\n") == n + "\n"
    ensures !IsSpace(n[0]) && !StartsWith(n + "\n", "<li>") && !StartsWith(n + "\n", "<tr>")
  {
    PlainLineStart(n);
    LineBreakAdded(n);
    ScanCopies(p, n + "\n", []);
    assert n + "\n" + [] == n + "\n";
  }

  lemma {:induction false} PlainLineStart(n: string)
    requires |n| > 0 && '0' <= n[0] <= '9'
    ensures !IsSpace(n[0]) && !StartsWith(n + "\n", "<li>") && !StartsWith(n + "\n", "<tr>")
  {
    assert (n + "\n")[0] == n[0];
  }

  lemma {:induction false} LineBreakAdded(n: string)
    requires '<' !in n
    ensures '<' !in n + "\n"
  {
    var s := n + "\n";
    forall i | 0 <= i < |s| ensures s[i] != '<' {
      if i < |n| { assert s[i] == n[i]; }
    }
  }

  /** A list item followed by a line the `<ul>` pass copies. */
  lemma {:induction false} GlueOfLine(a: string, n: string)
    requires NoLineTerminator(a) && n != [] && !IsSpace(n[0])
    requires !StartsWith(n + "\n", "<li>") && Apply(ListWrap, n + "\n") == n + "\n"
    ensures Apply(ListWrap, "<li>" + a + "</li>\n" + n + "\n")
            == "<ul><li>" + a + "</li>\n</ul>" + n + "\n"
  {
    assert (n + "\n")[0] == n[0];
    ItemBlockWrap(a, n + "\n");
    GlueParts(a, n);
  }

  /** A single list item followed by text that is no list item is wrapped alone. */
  lemma {:induction false} ItemBlockWrap(a: string, rest: string)
    requires NoLineTerminator(a) && rest != [] && !IsSpace(rest[0]) && !StartsWith(rest, "<li>")
    ensures Apply(ListWrap, ("<li>" + a + "</li>\n") + rest)
            == "<ul>" + ("<li>" + a + "</li>\n") + "</ul>" + Apply(ListWrap, rest)
  {
    OneRowBlock("<li>", a, "</li>", rest);
    assert "<li>" + a + "</li>" + "\n" == "<li>" + a + "</li>\n";
    ListWrapBlock([Row(a, "\n")], rest);
  }

  lemma {:induction false} GlueParts(a: string, n: string)
    ensures "<li>" + a + "</li>\n" + n + "\n" == ("<li>" + a + "</li>\n") + (n + "\n")
    ensures "<ul><li>" + a + "</li>\n</ul>" + n + "\n" == "<ul>" + ("<li>" + a + "</li>\n") + "</ul>" + (n + "\n")
  {
  }

  /** A single row followed by more text is a block of one row. */
  lemma {:induction false} OneRowBlock(open: string, a: string, close: string, rest: string)
    requires NoLineTerminator(a) && rest != []
    ensures Block([Row(a, "\n")], open, close) == open + a + close + "\n"
    ensures RowsOk([Row(a, "\n")], rest)
  {
    var rows := [Row(a, "\n")];
    assert rows[1..] == [];
    assert IsSpace('\n');
    assert RowOk(rows[0], false);
  }

  /** The numbered-item pass copies a list glued to the next line. */
  lemma {:induction false} GlueKept(a: string, n: string)
    requires NoLineTerminator(a) && NoLineTerminator(n)
    ensures Apply(OrderedItem, "<ul><li>" + a + "</li>\n</ul>" + n + "\n")
            == "<ul><li>" + a + "</li>\n</ul>" + n + "\n"
  {
    var first := "<ul><li>" + a + "</li>";
    var second := "</ul>" + n;
    TagLineOf("<ul><li>", a, "</li>");
    TagLineOf("</ul>", n, "");
    assert second + "" == second;
    LinesJoined(first, second, "<ul><li>" + a + "</li>\n</ul>" + n + "\n") by {
      assert "<ul><li>" + a + "</li>\n</ul>" + n + "\n" == first + "\n" + second + "\n";
    }
    TagLinesKept(OrderedItem, first, second);
  }

  /** A tag, a line and a closing tag make one line that starts with `<`. */
  lemma {:induction false} TagLineOf(open: string, a: string, close: string)
    requires |open| > 0 && open[0] == '<' && NoLineTerminator(open) && NoLineTerminator(close)
    requires NoLineTerminator(a)
    ensures NoLineTerminator(open + a + close) && (open + a + close)[0] == '<'
  {
    NoTerminatorConcat(open, a);
    NoTerminatorConcat(open + a, close);
  }

  lemma {:induction false} LinesJoined(first: string, second: string, g: string)
    requires g == first + "\n" + second + "\n"
    ensures g == first + "\n" + second + "\n"
  {
  }

  /** The list-item and numbered-item passes copy two lines that start with `<`. */
  lemma {:induction false} TagLinesKept(p: Pass, first: string, second: string)
    requires p == OrderedItem || p == ListItem
    requires |first| > 0 && first[0] == '<' && NoLineTerminator(first)
    requires |second| > 0 && second[0] == '<' && NoLineTerminator(second)
    ensures Apply(p, first + "\n" + second + "\n") == first + "\n" + second + "\n"
  {
    TaggedLineUnmatched(p, first, second + "\n");
    TaggedLineUnmatched(p, second, []);
    LineUnmatched(p, first, '\n', second + "\n");
    LineUnmatched(p, second, '\n', []);
    assert first + "\n" + second + "\n" == first + ['\n'] + (second + "\n");
    assert second + "\n" == second + ['\n'] + [];
  }

  /** The same happens after a table: the `\s*` of the `<table>` pattern
      takes the line break after the last row, so a numbered line right
      after a table is glued to `</tbody></table>`, and the list passes that
      follow leave it as it is. */
  lemma {:induction false} NumberedLineAfterTable(a: string, d: string, x: string)
    requires NoLineTerminator(a) && '<' !in a
    requires |d| > 0 && forall i :: 0 <= i < |d| ==> '0' <= d[i] <= '9'
    requires NoLineTerminator(x) && '<' !in x
    ensures var n := d + ". " + x;
            Apply(TableWrap, "<tr>" + a + "</tr>\n" + n + "\n")
            == "<table><tbody><tr>" + a + "</tr>\n</tbody></table>" + n + "\n"
    ensures var n := d + ". " + x;
            var g := "<table><tbody><tr>" + a + "</tr>\n</tbody></table>" + n + "\n";
            Apply(OrderedItem, Apply(ListWrap, Apply(ListItem, g))) == g
  {
    var n := d + ". " + x;
    NumberedLineFacts(d, x);
    PlainLineCopied(TableWrap, n);
    TableGlueOfLine(a, n);
    TableGlueKept(a, n);
  }

  lemma {:induction false} TableGlueOfLine(a: string, n: string)
    requires NoLineTerminator(a) && n != [] && !IsSpace(n[0])
    requires !StartsWith(n + "\n", "<tr>") && Apply(TableWrap, n + "\n") == n + "\n"
    ensures Apply(TableWrap, "<tr>" + a + "</tr>\n" + n + "\n")
            == "<table><tbody><tr>" + a + "</tr>\n</tbody></table>" + n + "\n"
  {
    assert (n + "\n")[0] == n[0];
    RowBlockWrap(a, n + "\n");
    TableGlueParts(a, n);
  }

  lemma {:induction false} TableGlueParts(a: string, n: string)
    ensures "<tr>" + a + "</tr>\n" + n + "\n" == ("<tr>" + a + "</tr>\n") + (n + "\n")
    ensures "<table><tbody><tr>" + a + "</tr>\n</tbody></table>" + n + "\n"
            == "<table><tbody>" + ("<tr>" + a + "</tr>\n") + "</tbody></table>" + (n + "\n")
  {
  }

  /** A single table row followed by text that is no row is wrapped alone. */
  lemma {:induction false} RowBlockWrap(a: string, rest: string)
    requires NoLineTerminator(a) && rest != [] && !IsSpace(rest[0]) && !StartsWith(rest, "<tr>")
    ensures Apply(TableWrap, ("<tr>" + a + "</tr>\n") + rest)
            == "<table><tbody>" + ("<tr>" + a + "</tr>\n") + "</tbody></table>" + Apply(TableWrap, rest)
  {
    OneRowBlock("<tr>", a, "</tr>", rest);
    assert "<tr>" + a + "</tr>" + "\n" == "<tr>" + a + "</tr>\n";
    TableWrapBlock([Row(a, "\n")], rest);
  }

  /** The list passes copy a glued table that holds no other tag. */
  lemma {:induction false} TableGlueKept(a: string, n: string)
    requires NoLineTerminator(a) && '<' !in a
    requires NoLineTerminator(n) && '<' !in n
    ensures var g := "<table><tbody><tr>" + a + "</tr>\n</tbody></table>" + n + "\n";
            Apply(ListItem, g) == g && Apply(ListWrap, g) == g && Apply(OrderedItem, g) == g
  {
    var first := "<table><tbody><tr>" + a + "</tr>";
    var second := "</tbody></table>" + n;
    TagLineOf("<table><tbody><tr>", a, "</tr>");
    TagLineOf("</tbody></table>", n, "");
    assert second + "" == second;
    LinesJoined(first, second, "<table><tbody><tr>" + a + "</tr>\n</tbody></table>" + n + "\n") by {
      TableLinesJoined(a, n);
    }
    TagLinesKept(ListItem, first, second);
    TagLinesKept(OrderedItem, first, second);
    TableTagsCopied(a, n);
  }

  lemma {:induction false} TableLinesJoined(a: string, n: string)
    ensures "<table><tbody><tr>" + a + "</tr>\n</tbody></table>" + n + "\n"
            == ("<table><tbody><tr>" + a + "</tr>") + "\n" + ("</tbody></table>" + n) + "\n"
  {
  }

  /** The `<ul>` pass copies a glued table: none of its tags is `<li>`. */
  lemma {:induction false} TableTagsCopied(a: string, n: string)
    requires '<' !in a && '<' !in n
    ensures var g := "<table><tbody><tr>" + a + "</tr>\n</tbody></table>" + n + "\n";
            Apply(ListWrap, g) == g
  {
    var w6 := "</table>" + n + "\n";
    var w3 := "<tr>" + a;
    TagTails(a, n);
    TagCopied(ListWrap, w6, []);
    assert w6 + [] == w6;
    TagCopied(ListWrap, "</tbody>", w6);
    TagCopied(ListWrap, "</tr>\n", "</tbody>" + w6);
    TagCopied(ListWrap, w3, "</tr>\n" + ("</tbody>" + w6));
    TagCopied(ListWrap, "<tbody>", w3 + ("</tr>\n" + ("</tbody>" + w6)));
    TagCopied(ListWrap, "<table>", "<tbody>" + (w3 + ("</tr>\n" + ("</tbody>" + w6))));
    TableTagParts(a, n);
  }

  lemma {:induction false} TagTails(a: string, n: string)
    requires '<' !in a && '<' !in n
    ensures '<' !in ("<tr>" + a)[1..] && '<' !in ("</table>" + n + "\n")[1..]
  {
    assert ("<tr>" + a)[1..] == "tr>" + a;
    assert ("</table>" + n + "\n")[1..] == "/table>" + n + "\n";
  }

  lemma {:induction false} TableTagParts(a: string, n: string)
    ensures "<table><tbody><tr>" + a + "</tr>\n</tbody></table>" + n + "\n"
            == "<table>" + ("<tbody>" + (("<tr>" + a) + ("</tr>\n" + ("</tbody>" + ("</table>" + n + "\n")))))
  {
  }

  /** A line that starts with `<` is no list item and no numbered item. */
  lemma {:induction false} TaggedLineUnmatched(p: Pass, line: string, rest: string)
    requires p == OrderedItem || p == ListItem
    requires |line| > 0 && line[0] == '<'
    ensures MatchAt(p, line + ['\n'] + rest).None?
  {
    var s := line + ['\n'] + rest;
    assert s[0] == '<';
    if p == ListItem {
      assert SpaceRun(s) == 0;
    }
  }

  /** The list passes turn a numbered line into `<li>x</li>`. */
  lemma {:induction false} NumberedItemListed(d: string, x: string, t: char, more: string) returns (y: string)
    requires |d| > 0 && forall i :: 0 <= i < |d| ==> '0' <= d[i] <= '9'
    requires NoLineTerminator(x) && |x| > 0 && !IsSpace(x[0]) && IsLineTerminator(t)
    requires '<' !in x
    ensures Apply(OrderedItem, Apply(ListWrap, d + ". " + x + [t] + more)) == "<li>" + x + "</li>" + [t] + y
  {
    var listed := Apply(ListWrap, more);
    NumberedLineKept(d, x, t, more);
    OrderedItemLine(d, x, t, listed);
    y := Apply(OrderedItem, listed);
  }

  /** The `<ul>` pass copies a numbered line and its line break. */
  lemma {:induction false} NumberedLineKept(d: string, x: string, t: char, more: string)
    requires forall i :: 0 <= i < |d| ==> '0' <= d[i] <= '9'
    requires '<' !in x && IsLineTerminator(t)
    ensures Apply(ListWrap, d + ". " + x + [t] + more) == d + ". " + x + [t] + Apply(ListWrap, more)
  {
    NumberedLineCopied(ListWrap, d, x, [t] + more);
    LineKept(d + ". " + x, t, more);
  }

  lemma {:induction false} LineKept(line: string, t: char, more: string)
    requires IsLineTerminator(t)
    requires Apply(ListWrap, line + ([t] + more)) == line + Apply(ListWrap, [t] + more)
    ensures Apply(ListWrap, line + [t] + more) == line + [t] + Apply(ListWrap, more)
  {
    ScanCopies(ListWrap, [t], more);
    assert line + [t] + more == line + ([t] + more);
  }

  /** The clean-up passes leave a leading `<li>x</li>` line in place. */
  lemma {:induction false} CleanUpKeepsItem(x: string, t: char, y: string)
    requires NoLineTerminator(x) && IsLineTerminator(t) && '<' !in x
    ensures StartsWith(CleanUp("<li>" + x + "</li>" + [t] + y), "<li>" + x + "</li>" + [t])
  {
    var u := "<li>" + x + "</li>";
    ItemLineFacts(x);
    ParagraphKeepsExcluded(u, t, y);
    var z := Apply(Paragraph, y);
    var b := ParagraphsKeepItem(x, t, z);
    CollapseKeepsLine(u, t, b);
  }

  /** Collapsing line feeds keeps a line without them, and its terminator. */
  lemma {:induction false} CollapseKeepsLine(u: string, t: char, b: string)
    requires '\n' !in u
    ensures StartsWith(Apply(CollapseNewlines, u + ([t] + b)), u + [t])
  {
    ScanCopies(CollapseNewlines, u, [t] + b);
    CollapseFirst([t] + b, true);
    var out := Apply(CollapseNewlines, [t] + b);
    assert (u + out)[..|u| + 1] == u + [t] by {
      assert (u + out)[|u|] == out[0];
    }
  }

  /** The two `<p>` clean-up passes copy a leading `<li>x</li>` line. */
  lemma {:induction false} ParagraphsKeepItem(x: string, t: char, z: string) returns (b: string)
    requires IsLineTerminator(t) && '<' !in x
    ensures Apply(BlankParagraph, Apply(EmptyParagraph, "<li>" + x + "</li>" + [t] + z))
            == "<li>" + x + "</li>" + ([t] + b)
  {
    var u := "<li>" + x + "</li>";
    assert u + [t] + z == u + ([t] + z);
    ItemLineCopied(EmptyParagraph, x, [t] + z);
    ScanCopies(EmptyParagraph, [t], z);
    var e := Apply(EmptyParagraph, z);
    ItemLineCopied(BlankParagraph, x, [t] + e);
    ScanCopies(BlankParagraph, [t], e);
    b := Apply(BlankParagraph, e);
  }

  /** The `<ul>` and `<table>` passes copy a numbered line that holds no `<`. */
  lemma {:induction false} NumberedLineCopied(p: Pass, d: string, x: string, rest: string)
    requires p == ListWrap || p == TableWrap
    requires forall i :: 0 <= i < |d| ==> '0' <= d[i] <= '9'
    requires '<' !in x
    ensures Apply(p, d + ". " + x + rest) == d + ". " + x + Apply(p, rest)
  {
    var line := d + ". " + x;
    assert '<' !in line by {
      forall i | 0 <= i < |line| ensures line[i] != '<' {
        if i >= |d| + 2 {
          assert line[i] == x[i - |d| - 2];
        }
      }
    }
    ScanCopies(p, line, rest);
  }

  lemma {:induction false} ItemLineFacts(x: string)
    requires NoLineTerminator(x)
    ensures NoLineTerminator("<li>" + x + "</li>") && ExcludedAt("<li>" + x + "</li>")
    ensures '\n' !in "<li>" + x + "</li>"
  {
    NoTerminatorConcat("<li>", x);
    NoTerminatorConcat("<li>" + x, "</li>");
    assert 'l' in ExcludedTagLetters;
  }

  /** The paragraph clean-up passes copy `<li>x</li>` when `x` holds no `<`. */
  lemma {:induction false} ItemLineCopied(p: Pass, x: string, rest: string)
    requires p == EmptyParagraph || p == BlankParagraph
    requires '<' !in x
    ensures Apply(p, "<li>" + x + "</li>" + rest) == "<li>" + x + "</li>" + Apply(p, rest)
  {
    TagCopied(p, "</li>", rest);
    ItemTail(x);
    TagCopied(p, "<li>" + x, "</li>" + rest);
    Regroup("<li>" + x, "</li>", rest);
    Regroup("<li>" + x, "</li>", Apply(p, rest));
  }

  lemma {:induction false} ItemTail(x: string)
    requires '<' !in x
    ensures '<' !in ("<li>" + x)[1..]
  {
    assert ("<li>" + x)[1..] == "li>" + x;
  }

  lemma {:induction false} Regroup(a: string, b: string, c: string)
    ensures a + b + c == a + (b + c)
  {
  }

  /** `<` not followed by `p` or `l` starts no match of the pass. */
  lemma {:induction false} TagUnmatched(p: Pass, w: string, rest: string)
    requires p == EmptyParagraph || p == BlankParagraph || p == ListWrap
    requires |w| >= 2 && w[0] == '<'
    requires if p == ListWrap then w[1] != 'l' else w[1] != 'p'
    ensures MatchAt(p, w + rest).None?
  {
    var s := w + rest;
    assert s[1] == w[1];
    if p == ListWrap {
      assert !StartsWith(s, "<li>") by {
        if |s| >= 4 { assert s[..4][1] == s[1]; }
      }
      ListWrapMatch(s);
    } else {
      assert !StartsWith(s, "<p></p>") by {
        if |s| >= 7 { assert s[..7][1] == s[1]; }
      }
      assert !StartsWith(s, "<p>") by {
        if |s| >= 3 { assert s[..3][1] == s[1]; }
      }
    }
  }

  /** `<` not followed by `p` starts no `<p>` match, and `<` not followed
      by `l` starts no `<li>` run. */
  lemma {:induction false} TagCopied(p: Pass, w: string, rest: string)
    requires p == EmptyParagraph || p == BlankParagraph || p == ListWrap
    requires |w| >= 2 && w[0] == '<' && '<' !in w[1..]
    requires if p == ListWrap then w[1] != 'l' else w[1] != 'p'
    ensures Apply(p, w + rest) == w + Apply(p, rest)
  {
    TagUnmatched(p, w, rest);
    assert Lead(p) == '<';
    HeadTail(w, rest);
    HeadTail(w, Apply(p, rest));
    UnmatchedTagCopied(p, w[0], w[1..], rest);
  }

  lemma {:induction false} HeadTail(w: string, x: string)
    requires |w| >= 1
    ensures w + x == [w[0]] + (w[1..] + x)
  {
  }

  /** A character that starts no match, followed by text without the
      pass's lead character, is copied. */
  lemma {:induction false} UnmatchedTagCopied(p: Pass, c: char, t: string, rest: string)
    requires !Anchored(p) && Lead(p) !in t
    requires MatchAt(p, [c] + (t + rest)).None?
    ensures Apply(p, [c] + (t + rest)) == [c] + (t + Apply(p, rest))
  {
    var s := [c] + (t + rest);
    ScanNoMatch(p, s, true);
    assert s[1..] == t + rest;
    ScanFlag(p, t + rest, IsLineTerminator(c), true);
    ScanCopies(p, t, rest);
  }

}
