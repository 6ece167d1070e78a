/** `markdownToHtml` of the blog article page: a fixed, ordered list of
    global regular-expression replacements over one string.

    Each `replace` is one `Pass`. `MatchAt(p, s)` says what the pass's
    pattern matches when the regex engine tries it at the first character
    of `s` (the backtracking of each pattern is worked out by hand in the
    comments), and `Scan` is the global replace itself: it tries the
    pattern at every position from left to right, emits the replacement
    and resumes after a match, or copies one character and moves on.
    Patterns that start with a multiline `^` are only tried at the start
    of the input or right after a line terminator. */
module Markdown {
  import opened JsText

  datatype Pass =
    | Header3 | Header2 | Header1
    | Bold | Italic
    | CodeBlock | InlineCode
    | Link
    | HorizontalRule
    | TableRow | TableWrap
    | ListItem | ListWrap
    | OrderedItem
    | Paragraph | EmptyParagraph | BlankParagraph
    | CollapseNewlines

  /** What a pattern matched at the start of the remaining text: the number
      of characters it covers and the text that replaces them. */
  datatype Match = Match(len: nat, out: string)

  /** The passes whose pattern starts with a multiline `^`. */
  predicate Anchored(p: Pass) {
    p.Header3? || p.Header2? || p.Header1? || p.HorizontalRule? || p.TableRow?
    || p.ListItem? || p.OrderedItem? || p.Paragraph?
  }

  /** The character every match of an unanchored pattern starts with. */
  function Lead(p: Pass): char
    requires !Anchored(p)
  {
    match p
    case Bold => '*'
    case Italic => '*'
    case CodeBlock => '`'
    case InlineCode => '`'
    case Link => '['
    case CollapseNewlines => '\n'
    case _ => '<'
  }

  /** What the pattern of pass `p` matches when tried at the start of `s`. */
  function MatchAt(p: Pass, s: string): (r: Option<Match>)
    ensures r.Some? ==> 0 < r.value.len <= |s|
  {
    if Anchored(p) then LineMatchAt(p, s) else InlineMatchAt(p, s)
  }

  /** The patterns that start with a multiline `^`. */
  function LineMatchAt(p: Pass, s: string): (r: Option<Match>)
    ensures r.Some? ==> 0 < r.value.len <= |s|
  {
    match p
    // /^### (.*$)/gm, /^## (.*$)/gm, /^# (.*$)/gm
    case Header3 => HeaderAt(s, "### ", "<h3>", "</h3>")
    case Header2 => HeaderAt(s, "## ", "<h2>", "</h2>")
    case Header1 => HeaderAt(s, "# ", "<h1>", "</h1>")
    // /^---$/gm
    case HorizontalRule => RuleAt(s)
    // /^\|(.*)\|$/gm with the row callback
    case TableRow => TableRowAt(s)
    // /^\s*-\s+(.*$)/gm
    case ListItem => ListItemAt(s)
    // /^\d+\.\s+(.*$)/gm
    case OrderedItem => OrderedItemAt(s)
    // /^(?!<[h|u|o|l|t|p|c|a|s])(.*[^>])$/gm
    case Paragraph => ParagraphAt(s)
    case _ => None
  }

  /** The patterns that may match anywhere. */
  function InlineMatchAt(p: Pass, s: string): (r: Option<Match>)
    ensures r.Some? ==> 0 < r.value.len <= |s|
  {
    match p
    // /\*\*(.*?)\*\*/g and /\*(.*?)\*/g
    case Bold => SpanAt(s, "**", "**", false, "<strong>", "</strong>")
    case Italic => SpanAt(s, "*", "*", false, "<em>", "</em>")
    // /```([\s\S]*?)```/g and /`(.*?)`/g
    case CodeBlock => SpanAt(s, "```", "```", true, "<pre><code>", "</code></pre>")
    case InlineCode => SpanAt(s, "`", "`", false, "<code>", "</code>")
    // /\[(.*?)\]\((.*?)\)/g
    case Link => LinkAt(s)
    // /(<tr>.*<\/tr>\s*)+/g
    case TableWrap => RunAt(s, "<tr>", "</tr>", "<table><tbody>", "</tbody></table>")
    // /(<li>.*<\/li>\s*)+/g
    case ListWrap => RunAt(s, "<li>", "</li>", "<ul>", "</ul>")
    // /<p><\/p>/g
    case EmptyParagraph => EmptyParagraphAt(s)
    // /<p>\s*<\/p>/g
    case BlankParagraph => BlankParagraphAt(s)
    // /\n{2,}/g
    case CollapseNewlines => NewlineRunAt(s)
    case _ => None
  }

  /** A line-terminator-free prefix of `s` lies inside its first line. */
  lemma {:induction false} LineLenCovers(s: string, prefix: string)
    requires StartsWith(s, prefix) && NoLineTerminator(prefix)
    ensures |prefix| <= LineLen(s)
  {
    if prefix != [] {
      assert s[0] == prefix[0];
      assert StartsWith(s[1..], prefix[1..]) by { assert s[1..][..|prefix| - 1] == s[..|prefix|][1..]; }
      LineLenCovers(s[1..], prefix[1..]);
    }
  }

  /** `marker` followed by `(.*$)`: the rest of the line is the heading text. */
  function HeaderAt(s: string, marker: string, open: string, close: string): (r: Option<Match>)
    requires |marker| > 0 && NoLineTerminator(marker)
    ensures r.Some? <==> StartsWith(s, marker)
    ensures r.Some? ==> 0 < r.value.len == LineLen(s) <= |s|
  {
    if StartsWith(s, marker) then
      LineLenCovers(s, marker);
      Some(Match(LineLen(s), open + s[|marker|..LineLen(s)] + close))
    else None
  }

  /** The lazy search of `(.*?)` (or `([\s\S]*?)` when `crossLines`) for the
      closing delimiter: the first position at or after `from` where `close`
      occurs, unless a line terminator comes first and `.` may not cross it. */
  function FindClose(s: string, from: nat, close: string, crossLines: bool): (r: Option<nat>)
    requires |close| > 0 && from <= |s|
    ensures r.Some? ==> from <= r.value && OccursAt(s, close, r.value)
    ensures r.Some? ==> forall k :: from <= k < r.value ==> !OccursAt(s, close, k)
    ensures r.Some? && !crossLines ==> NoLineTerminator(s[from..r.value])
    decreases |s| - from
  {
    if from + |close| > |s| then None
    else if OccursAt(s, close, from) then Some(from)
    else if !crossLines && IsLineTerminator(s[from]) then None
    else FindClose(s, from + 1, close, crossLines)
  }

  /** The span from `from` up to `k`, wrapped in `before` and `after`, where
      a closing delimiter of `closeLen` characters starts at `k`. */
  function Enclose(s: string, from: nat, k: nat, closeLen: nat, before: string, after: string): (m: Match)
    requires from <= k && k + closeLen <= |s|
    ensures m.len == k + closeLen
  {
    Match(k + closeLen, before + s[from..k] + after)
  }

  /** `open(.*?)close` replaced by `before$1after`. */
  function SpanAt(s: string, open: string, close: string, crossLines: bool, before: string, after: string): (r: Option<Match>)
    requires |open| > 0 && |close| > 0
    ensures r.Some? ==> 0 < r.value.len <= |s| && s[0] == open[0]
    ensures r.Some? ==> StartsWith(s, open) && |open| + |close| <= r.value.len
  {
    if StartsWith(s, open) && FindClose(s, |open|, close, crossLines).Some? then
      Some(Enclose(s, |open|, FindClose(s, |open|, close, crossLines).value, |close|, before, after))
    else None
  }

  /** `\[(.*?)\]\((.*?)\)`. The text part stops at the first `](` of the
      line; if no `)` follows it on the line, a later `](` cannot be
      followed by one either, so backtracking never finds another match. */
  function LinkAt(s: string): (r: Option<Match>)
    ensures r.Some? ==> 0 < r.value.len <= |s| && s[0] == '['
    ensures r.Some? ==> 4 <= r.value.len && s[r.value.len - 1] == ')'
  {
    if StartsWith(s, "[") && FindClose(s, 1, "](", false).Some? then
      LinkAfterText(s, FindClose(s, 1, "](", false).value)
    else None
  }

  /** The `(.*?)\)` part of a link whose text ends at `k`. */
  function LinkAfterText(s: string, k: nat): (r: Option<Match>)
    requires 1 <= k && k + 2 <= |s|
    ensures r.Some? ==> k + 2 < r.value.len <= |s|
  {
    if FindClose(s, k + 2, ")", false).Some? then
      Some(LinkMatch(s, k, FindClose(s, k + 2, ")", false).value))
    else None
  }

  /** The anchor for a link whose text is `s[1..k]` and whose target is `s[k + 2..m]`. */
  function LinkMatch(s: string, k: nat, m: nat): (r: Match)
    requires 1 <= k && k + 2 <= m < |s|
    ensures r.len == m + 1
  {
    Match(m + 1, LinkHtml(s[1..k], s[k + 2..m]))
  }

  /** The replacement `<a href="$2" target="_blank" rel="noopener noreferrer">$1</a>`. */
  function LinkHtml(text: string, url: string): string {
    "<a href=\"" + url + "\" target=\"_blank\" rel=\"noopener noreferrer\">" + text + "</a>"
  }

  /** `^---$`: a line of exactly three dashes. */
  function RuleAt(s: string): (r: Option<Match>)
    ensures r.Some? ==> 0 < r.value.len <= |s|
    ensures r.Some? ==> r.value.len == LineLen(s) && r.value.out == "<hr />"
  {
    if StartsWith(s, "---") && LineLen(s) == 3 then Some(Match(3, "<hr />")) else None
  }

  /** `^\|(.*)\|$`: the whole line, at least two characters, between pipes. */
  function TableRowAt(s: string): (r: Option<Match>)
    ensures r.Some? ==> 0 < r.value.len <= |s|
    ensures r.Some? ==> r.value.len == LineLen(s) && s[0] == '|' && s[r.value.len - 1] == '|'
  {
    if LineLen(s) >= 2 && s[0] == '|' && s[LineLen(s) - 1] == '|' then
      Some(Match(LineLen(s), RowHtml(s[1..LineLen(s) - 1])))
    else None
  }

  /** `content.split('|').map(cell => cell.trim())`. */
  function Cells(content: string): seq<string>
  {
    TrimAll(Split(content, '|'))
  }

  function TrimAll(parts: seq<string>): (r: seq<string>)
    ensures |r| == |parts|
    ensures forall k :: 0 <= k < |r| ==> r[k] == Trim(parts[k])
  {
    seq(|parts|, k requires 0 <= k < |parts| => Trim(parts[k]))
  }

  /** `cell.match(/^-+$/)`: one or more dashes and nothing else. */
  predicate IsDashes(cell: string) {
    |cell| > 0 && forall i :: 0 <= i < |cell| ==> cell[i] == '-'
  }

  /** `cells.some(...)`, scanning the cells in order. */
  function SomeDashes(cells: seq<string>): (b: bool)
    ensures b <==> exists k :: 0 <= k < |cells| && IsDashes(cells[k])
  {
    if cells == [] then false
    else if IsDashes(cells[0]) then true
    else
      assert forall k :: 1 <= k < |cells| ==> cells[k] == cells[1..][k - 1];
      SomeDashes(cells[1..])
  }

  /** `cells.map(cell => `<td>${cell}</td>`).join('')`. */
  function TdCells(cells: seq<string>): string
  {
    if cells == [] then [] else "<td>" + cells[0] + "</td>" + TdCells(cells[1..])
  }

  /** The table-row callback: a row with a dash-only cell becomes the empty
      string, any other row a `<tr>` of `<td>` cells. */
  function RowHtml(content: string): string
  {
    var cells := Cells(content);
    if SomeDashes(cells) then "" else "<tr>" + TdCells(cells) + "</tr>"
  }

  /** The largest `j` with `lo <= j` and `j + |pat| <= hi` where `pat` occurs:
      where a greedy `.*` followed by `pat` stops. */
  function LastOccurrence(s: string, pat: string, lo: nat, hi: nat): (r: Option<nat>)
    requires hi <= |s| && |pat| > 0
    ensures r.Some? ==> lo <= r.value && r.value + |pat| <= hi && OccursAt(s, pat, r.value)
    ensures r.Some? ==> forall j :: r.value < j && j + |pat| <= hi ==> !OccursAt(s, pat, j)
    ensures r.None? ==> forall j :: lo <= j && j + |pat| <= hi ==> !OccursAt(s, pat, j)
    decreases hi
  {
    if hi < lo + |pat| then None
    else if OccursAt(s, pat, hi - |pat|) then Some(hi - |pat|)
    else LastOccurrence(s, pat, lo, hi - 1)
  }

  /** One iteration of `(<tr>.*<\/tr>\s*)`: the open tag, the line up to its
      last close tag, then every `\s` character after it (line breaks too). */
  function UnitAt(s: string, open: string, close: string): (r: Option<nat>)
    requires |open| > 0 && |close| > 0
    ensures r.Some? ==> |open| + |close| <= r.value <= |s| && StartsWith(s, open)
  {
    if StartsWith(s, open) && LastOccurrence(s, close, |open|, LineLen(s)).Some? then
      Some(SpaceAfter(s, LastOccurrence(s, close, |open|, LineLen(s)).value + |close|))
    else None
  }

  /** Position `e` moved past the `\s` characters that follow it. */
  function SpaceAfter(s: string, e: nat): (n: nat)
    requires e <= |s|
    ensures e <= n <= |s|
  {
    e + SpaceRun(s[e..])
  }

  /** The `+` repetition: as many consecutive units as there are. A further
      iteration must start with the open tag, which is not `\s`, so giving
      back whitespace never lets another iteration match. */
  function RunLen(s: string, open: string, close: string): (n: nat)
    requires |open| > 0 && |close| > 0
    ensures n <= |s|
    decreases |s|
  {
    if UnitAt(s, open, close).Some? then
      UnitAt(s, open, close).value + RunLen(s[UnitAt(s, open, close).value..], open, close)
    else 0
  }

  function RunAt(s: string, open: string, close: string, before: string, after: string): (r: Option<Match>)
    requires |open| > 0 && |close| > 0
    ensures r.Some? ==> 0 < r.value.len <= |s| && StartsWith(s, open)
    ensures r.Some? ==> r.value.out == before + s[..r.value.len] + after
  {
    if UnitAt(s, open, close).Some? then
      Some(Match(RunLen(s, open, close), before + s[..RunLen(s, open, close)] + after))
    else None
  }

  /** `^\s*-\s+(.*$)`: both `\s` runs are greedy and may cross line breaks, so
      blank lines before the dash, and a line break right after it, are
      swallowed; the item text is the rest of the line reached. */
  function ListItemAt(s: string): (r: Option<Match>)
    ensures r.Some? ==> 0 < r.value.len <= |s|
    ensures r.Some? ==> StartsWith(r.value.out, "<li>")
  {
    if SpaceRun(s) < |s| && s[SpaceRun(s)] == '-' then ItemAfterMarker(s, SpaceRun(s) + 1) else None
  }

  /** `\s+(.*$)` from position `k`, just after a list marker. */
  function ItemAfterMarker(s: string, k: nat): (r: Option<Match>)
    requires 0 < k <= |s|
    ensures r.Some? ==> k < r.value.len <= |s|
    ensures r.Some? ==> StartsWith(r.value.out, "<li>")
  {
    if SpaceRun(s[k..]) > 0 then Some(ItemText(s, k + SpaceRun(s[k..]))) else None
  }

  /** `(.*$)` from position `c`: the rest of the line, as a list item. */
  function ItemText(s: string, c: nat): (m: Match)
    requires c <= |s|
    ensures c <= m.len <= |s|
    ensures StartsWith(m.out, "<li>")
  {
    Match(c + LineLen(s[c..]), "<li>" + s[c..c + LineLen(s[c..])] + "</li>")
  }

  /** Length of the longest prefix of ASCII digits (`\d+`). */
  function DigitRun(s: string): (n: nat)
    ensures n <= |s|
    ensures forall i :: 0 <= i < n ==> '0' <= s[i] <= '9'
    ensures n < |s| ==> !('0' <= s[n] <= '9')
  {
    if s == [] || !('0' <= s[0] <= '9') then 0 else 1 + DigitRun(s[1..])
  }

  /** `^\d+\.\s+(.*$)`. */
  function OrderedItemAt(s: string): (r: Option<Match>)
    ensures r.Some? ==> 0 < r.value.len <= |s|
    ensures r.Some? ==> '0' <= s[0] <= '9' && StartsWith(r.value.out, "<li>")
  {
    if 0 < DigitRun(s) < |s| && s[DigitRun(s)] == '.' then ItemAfterMarker(s, DigitRun(s) + 1) else None
  }

  /** The characters of the negative lookahead's class `[h|u|o|l|t|p|c|a|s]`. */
  const ExcludedTagLetters: string := "h|u|o|l|t|p|c|a|s"

  /** The negative lookahead `(?!<[h|u|o|l|t|p|c|a|s])`: what it refuses. */
  predicate ExcludedAt(s: string) {
    |s| >= 2 && s[0] == '<' && s[1] in ExcludedTagLetters
  }

  /** `^(?!<[h|u|o|l|t|p|c|a|s])(.*[^>])$`. The greedy `.*` first takes the
      whole line; `[^>]` then tries the line terminator itself, which is
      accepted when `$` holds after it (another terminator or the end of
      the input follows). Otherwise `[^>]` is the line's last character. */
  function ParagraphAt(s: string): (r: Option<Match>)
    ensures r.Some? ==> 0 < r.value.len <= |s|
    ensures r.Some? ==> !ExcludedAt(s) && StartsWith(r.value.out, "<p>")
  {
    if ExcludedAt(s) then None else ParagraphOfLine(s, LineLen(s))
  }

  /** The paragraph match on a line of `n` characters. */
  function ParagraphOfLine(s: string, n: nat): (r: Option<Match>)
    requires n <= |s| && (n < |s| ==> IsLineTerminator(s[n]))
    ensures r.Some? ==> 0 < r.value.len <= |s|
    ensures r.Some? ==> StartsWith(r.value.out, "<p>")
  {
    if n < |s| && (n + 1 == |s| || IsLineTerminator(s[n + 1])) then
      Some(Match(n + 1, "<p>" + s[..n + 1] + "</p>"))
    else if n > 0 && s[n - 1] != '>' then
      Some(Match(n, "<p>" + s[..n] + "</p>"))
    else None
  }

  /** `<p><\/p>`. */
  function EmptyParagraphAt(s: string): (r: Option<Match>)
    ensures r.Some? ==> 0 < r.value.len <= |s| && s[0] == '<'
    ensures r.Some? ==> StartsWith(s, "<p>") && r.value.out == ""
  {
    if StartsWith(s, "<p></p>") then Some(Match(7, "")) else None
  }

  /** `<p>\s*<\/p>`. */
  function BlankParagraphAt(s: string): (r: Option<Match>)
    ensures r.Some? ==> 0 < r.value.len <= |s| && s[0] == '<'
    ensures r.Some? ==> 7 <= r.value.len && StartsWith(s, "<p>") && AllSpace(s[3..r.value.len - 4])
    ensures r.Some? ==> r.value.out == ""
  {
    if StartsWith(s, "<p>") && StartsWith(s[SpaceAfter(s, 3)..], "</p>") then
      assert s[3..SpaceAfter(s, 3)] == s[3..][..SpaceRun(s[3..])];
      Some(Match(SpaceAfter(s, 3) + 4, ""))
    else None
  }

  /** Length of the longest prefix of `\n` characters. */
  function NewlineRun(s: string): (n: nat)
    ensures n <= |s|
    ensures forall i :: 0 <= i < n ==> s[i] == '\n'
    ensures n < |s| ==> s[n] != '\n'
  {
    if s == [] || s[0] != '\n' then 0 else 1 + NewlineRun(s[1..])
  }

  /** `\n{2,}` (greedy): a run of two or more line feeds becomes one. */
  function NewlineRunAt(s: string): (r: Option<Match>)
    ensures r.Some? ==> 2 <= r.value.len <= |s| && r.value.out == "\n"
    ensures r.Some? ==> forall i :: 0 <= i < r.value.len ==> s[i] == '\n'
    ensures r.Some? ==> r.value.len < |s| ==> s[r.value.len] != '\n'
    ensures r.None? ==> |s| < 2 || s[0] != '\n' || s[1] != '\n'
  {
    if |s| >= 2 && s[0] == '\n' && s[1] == '\n' then Some(Match(NewlineRun(s), "\n")) else None
  }

  /** `String.prototype.replace` with the pass's global regex, resumed at
      the first character of `s`; `lineStart` says whether that position
      is the start of the input or follows a line terminator. No pattern
      here matches the empty string, so nothing happens at the very end. */
  function Scan(p: Pass, s: string, lineStart: bool): string
    decreases |s|
  {
    if s == [] then []
    else if Tried(p, lineStart) && MatchAt(p, s).Some? then
      MatchAt(p, s).value.out
      + Scan(p, s[MatchAt(p, s).value.len..], IsLineTerminator(s[MatchAt(p, s).value.len - 1]))
    else [s[0]] + Scan(p, s[1..], IsLineTerminator(s[0]))
  }

  /** Whether the pattern is tried at a position: anchored patterns only
      where a line starts. */
  predicate Tried(p: Pass, lineStart: bool) {
    !Anchored(p) || lineStart
  }

  /** One `html = html.replace(...)` step. */
  function Apply(p: Pass, s: string): string {
    Scan(p, s, true)
  }

  /** The renderer as a function: every pass, in the order `markdownToHtml`
      applies them. */
  function Render(markdown: string): (html: string)
    ensures NoBlankLine(html)
  {
    var headed := Apply(Header1, Apply(Header2, Apply(Header3, markdown)));
    var styled := Apply(InlineCode, Apply(CodeBlock, Apply(Italic, Apply(Bold, headed))));
    var linked := Apply(HorizontalRule, Apply(Link, styled));
    var listed := Apply(OrderedItem, Apply(ListWrap, Apply(ListItem, Apply(TableWrap, Apply(TableRow, linked)))));
    var cleaned := Apply(BlankParagraph, Apply(EmptyParagraph, Apply(Paragraph, listed)));
    CollapseLeavesNoBlankLine(cleaned);
    Apply(CollapseNewlines, cleaned)
  }

  predicate NoBlankLine(s: string) {
    forall i :: 0 <= i < |s| - 1 ==> !(s[i] == '\n' && s[i + 1] == '\n')
  }

  /** `markdownToHtml` as written: one local string reassigned by each
      replacement in turn. */
  method MarkdownToHtml(markdown: string) returns (html: string)
    ensures html == Render(markdown)
    ensures NoBlankLine(html)
  {
    html := markdown;
    // Headers
    html := Apply(Header3, html);
    html := Apply(Header2, html);
    html := Apply(Header1, html);
    // Bold, italic
    html := Apply(Bold, html);
    html := Apply(Italic, html);
    // Code blocks, inline code
    html := Apply(CodeBlock, html);
    html := Apply(InlineCode, html);
    // Links
    html := Apply(Link, html);
    // Horizontal rule
    html := Apply(HorizontalRule, html);
    // Tables
    html := Apply(TableRow, html);
    html := Apply(TableWrap, html);
    // Unordered lists
    html := Apply(ListItem, html);
    html := Apply(ListWrap, html);
    // Ordered lists
    html := Apply(OrderedItem, html);
    // Paragraphs
    html := Apply(Paragraph, html);
    html := Apply(EmptyParagraph, html);
    html := Apply(BlankParagraph, html);
    // Clean up
    html := Apply(CollapseNewlines, html);
  }

  /** The output of the `\n{2,}` pass starts with the same character as its input. */
  lemma {:induction false} CollapseFirst(s: string, ls: bool)
    requires s != []
    ensures var r := Scan(CollapseNewlines, s, ls); r != [] && r[0] == s[0]
  {
  }

  /** After the clean-up pass no two line feeds are adjacent. */
  lemma {:induction false} CollapseNoBlank(s: string, ls: bool)
    ensures NoBlankLine(Scan(CollapseNewlines, s, ls))
    decreases |s|
  {
    if s != [] {
      var m := MatchAt(CollapseNewlines, s);
      if m.Some? {
        var t := s[m.value.len..];
        CollapseNoBlank(t, IsLineTerminator(s[m.value.len - 1]));
        if t != [] { CollapseFirst(t, IsLineTerminator(s[m.value.len - 1])); }
        NoBlankAfterLineFeed(Scan(CollapseNewlines, t, IsLineTerminator(s[m.value.len - 1])));
      } else {
        var t := s[1..];
        CollapseNoBlank(t, IsLineTerminator(s[0]));
        if t != [] { CollapseFirst(t, IsLineTerminator(s[0])); }
        NoBlankCons(s[0], Scan(CollapseNewlines, t, IsLineTerminator(s[0])));
      }
    }
  }

  lemma {:induction false} NoBlankAfterLineFeed(t: string)
    requires NoBlankLine(t) && (t == [] || t[0] != '\n')
    ensures NoBlankLine("\n" + t)
  {
    NoBlankCons('\n', t);
  }

  lemma {:induction false} NoBlankCons(c: char, t: string)
    requires NoBlankLine(t) && (c != '\n' || t == [] || t[0] != '\n')
    ensures NoBlankLine([c] + t)
  {
    var u := [c] + t;
    forall i | 0 <= i < |u| - 1 ensures !(u[i] == '\n' && u[i + 1] == '\n') {
      if i > 0 { assert u[i] == t[i - 1] && u[i + 1] == t[i]; }
    }
  }

  lemma {:induction false} CollapseLeavesNoBlankLine(s: string)
    ensures NoBlankLine(Apply(CollapseNewlines, s))
  {
    CollapseNoBlank(s, true);
  }
}
