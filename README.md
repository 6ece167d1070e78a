# tum-web logic, modelled in Dafny

A model of the logic behind the bilingual (Thai and English) TUM-WEB
marketing site, with proofs about it. Most of the site is markup. What is
modelled is the part that computes something:

- The blog's Markdown-to-HTML renderer, `markdownToHtml`. It is a fixed
  sequence of global regular-expression replacements. Each replacement is a
  `Markdown.Pass`. The regex's match at a position is written out by hand,
  backtracking included, as `Markdown.MatchAt`. The global `replace` is
  `Markdown.Scan`. `MarkdownProps` proves what each pass does to
  well-formed Markdown.
- `generateSlug`: lower-case, trim, strip, hyphenate (`Slug`).
- The header: the locale toggle, the active-link test, the navigation
  links and the header's view state (`Header`).
- The schema.org records the pages embed as JSON-LD (`JsonLd`).
- The contact endpoint: schema validation, the Telegram notification text
  and the response status (`Contact`).
- Small UI state:
  - the chat widget (`Chat`);
  - the single-open accordion of the FAQ section and the service pages
    (`Accordion`, `Faq`, `ServicePage`);
  - the rotating hero word (`RotatingText`);
  - the blog category filter (`BlogGrid`);
  - the `limit` prop of the portfolio and services sections (`Listing`,
    `Portfolio`, `Services`);
  - the key taken from each home-page service link (`ServicesSection`).

`JsText` holds the ECMAScript string semantics the code relies on:
- line terminators and `\s`;
- `trim`;
- `split` and `join` on one character;
- `slice(0, end)`;
- the first-occurrence `replace`;
- `Number.prototype.toString` on naturals.

Form follows the source:
- Code that is a pure expression is a function, with lemmas about it.
- React state updated by handlers is a class whose methods change its
  fields. This covers the chat widget, the accordion, the rotator, the
  blog grid and the header.
- `markdownToHtml`, which reassigns one local `html` through every pass, is
  a method. It is proved equal to `Markdown.Render`, the composition of
  the passes.

Where the regular expressions and operators behave differently from what
the Markdown syntax or the names suggest, the model follows the code:

- **Table separator rows.** A row is dropped when SOME trimmed cell is all
  dashes (`cells.some`), not only when every cell is.
- **Paragraph lines ending in `>`.** `[^>]` also matches a line
  terminator, so before a blank line or at the end of the text a line
  ending in `>` is still wrapped, with the line break inside the `<p>`
  (`MarkdownProps.ParagraphTakesTerminator`).
- **Punctuation-only slugs.** Such a slug is not always empty: `"! !"`
  gives `"-"` because trimming happens before stripping
  (`Slug.DashOnly`).
- **`limit` of 0.** `{limit && …}` renders the text `0`
  (`Listing.ViewAll`).
- **Numbered lines after a list or a table.** The `\s*` at the end of the
  `<ul>` and `<table>` patterns takes the line break after the last item,
  so the closing tag lands at the start of the next line. A numbered line
  right after a list or a table then no longer starts with a digit, so it
  never becomes `<li>` (`MarkdownProps.NumberedLineAfterList`,
  `MarkdownProps.NumberedLineAfterTable`).
- **Article author.** The author defaults only when it is absent. An
  empty author stays empty, while an empty `dateModified` falls back to
  `datePublished` (`JsonLd.ArticleEmptyAuthorKept`).

## Model

| member | source | states |
|---|---|---|
| Markdown.MarkdownToHtml | components/blog/blog-article.tsx:168-219 | The result is `Render` of the input, the passes in the source's order, and it contains no two adjacent line feeds |
| Markdown.Render | components/blog/blog-article.tsx:168-219 | The composition of every pass never leaves two adjacent line feeds |
| Markdown.MatchAt | components/blog/blog-article.tsx:172-216 | No pattern matches the empty string and a match stays inside the text, so each global replace moves forward |
| Markdown.HeaderAt | components/blog/blog-article.tsx:172-174 | A heading pattern matches exactly where the line starts with its marker, and then takes the whole line |
| Markdown.SpanAt | components/blog/blog-article.tsx:177-184 | A span match starts with the opening delimiter and covers both delimiters |
| Markdown.LinkAt | components/blog/blog-article.tsx:187 | A link match starts at `[`, ends at `)` and covers at least `[](` and `)` |
| Markdown.RuleAt | components/blog/blog-article.tsx:190 | A rule match is the whole line, replaced by `<hr />` |
| Markdown.TableRowAt | components/blog/blog-article.tsx:193 | A table-row match is the whole line, which starts and ends with the pipe character |
| Markdown.RunAt | components/blog/blog-article.tsx:201-205 | A run match starts with the open tag, and the run is kept as it is between the wrapping tags |
| Markdown.ListItemAt | components/blog/blog-article.tsx:204 | A `-` item becomes text starting with `<li>` |
| Markdown.OrderedItemAt | components/blog/blog-article.tsx:208 | A numbered item starts with a digit and becomes text starting with `<li>` |
| Markdown.ParagraphAt | components/blog/blog-article.tsx:211 | A line the lookahead excludes is never wrapped, and a wrapped line starts with `<p>` |
| Markdown.EmptyParagraphAt | components/blog/blog-article.tsx:212 | A match starts with `<p>` and is replaced by nothing |
| Markdown.BlankParagraphAt | components/blog/blog-article.tsx:213 | A match is `<p>`, only `\s` characters, then `</p>`, and is replaced by nothing |
| Markdown.NewlineRunAt | components/blog/blog-article.tsx:216 | A match is the whole run of two or more line feeds at that point, replaced by one |
| Markdown.CollapseLeavesNoBlankLine | components/blog/blog-article.tsx:216 | After the `\n{2,}` clean-up pass no `\n\n` remains anywhere in the text |
| Markdown.FindClose | components/blog/blog-article.tsx:177-187 | A lazy `(.*?)` stops at the first occurrence of the closing delimiter, and without the `[\s\S]` class it never crosses a line terminator |
| Markdown.LastOccurrence | components/blog/blog-article.tsx:201 | A greedy `.*` before `</tr>` or `</li>` ends at the last closing tag within the line |
| Markdown.TrimAll | components/blog/blog-article.tsx:194 | The cells are the pieces, each trimmed, in order |
| Markdown.SomeDashes | components/blog/blog-article.tsx:195 | The separator test holds exactly when some cell is one or more dashes |
| Markdown.DigitRun | components/blog/blog-article.tsx:208 | `\d+` takes the longest run of digits at the start |
| MarkdownProps.ScanFlag | components/blog/blog-article.tsx:177-187 | An unanchored global replace does not depend on where lines start |
| MarkdownProps.MatchStartsWithLead | components/blog/blog-article.tsx:177-187 | Every match of an unanchored pattern starts with its opening character |
| MarkdownProps.ScanCopies | components/blog/blog-article.tsx:177-187 | An unanchored pass copies unchanged any text without its opening character |
| MarkdownProps.ScanMatch | components/blog/blog-article.tsx:172-216 | `Scan`, the global replace: where the pattern matches, the match is replaced and the scan resumes after it |
| MarkdownProps.ScanNoMatch | components/blog/blog-article.tsx:172-216 | `Scan`, the global replace: where nothing matches, one character is copied and the scan moves on |
| MarkdownProps.BoldSpan | components/blog/blog-article.tsx:177 | `**x**` becomes `<strong>x</strong>` when `x` is one line without `*`, and the pass carries on after it |
| MarkdownProps.ItalicSpan | components/blog/blog-article.tsx:180 | `*x*` becomes `<em>x</em>` when `x` is one line without `*` |
| MarkdownProps.BoldBeforeItalic | components/blog/blog-article.tsx:177-180 | Bold runs first, so `**x**` ends up as `<strong>x</strong>` and not as two italic markers |
| MarkdownProps.CodeBlockSpan | components/blog/blog-article.tsx:183 | A fenced block becomes `<pre><code>c</code></pre>`, and its body may span lines |
| MarkdownProps.InlineCodeSpan | components/blog/blog-article.tsx:184 | `` `x` `` becomes `<code>x</code>` when `x` is one line without backticks |
| MarkdownProps.CodeBlockBeforeInlineCode | components/blog/blog-article.tsx:183-184 | The fence's backticks are gone before the inline-code pass runs, so a fenced block is left as the first pass made it |
| MarkdownProps.LinkSpan | components/blog/blog-article.tsx:187 | `[text](url)` becomes `<a href="url" target="_blank" rel="noopener noreferrer">text</a>`, and the pass carries on after it |
| MarkdownProps.LinkAtOf | components/blog/blog-article.tsx:187 | The link pattern at `[text](url)` covers exactly those characters and captures text and URL |
| MarkdownProps.LocalMatch | components/blog/blog-article.tsx:172-193 | A heading, rule or table-row pattern sees the same match whatever follows the line, and a match covers the whole line |
| MarkdownProps.LocalLine | components/blog/blog-article.tsx:172-193 | Such a pass rewrites one line and starts afresh after its terminator |
| MarkdownProps.LineUnmatched | components/blog/blog-article.tsx:172-211 | An anchored pass that does not match at the start of a line copies that line unchanged |
| MarkdownProps.LocalByLines | components/blog/blog-article.tsx:172-193 | On lines joined by `\n`, a line-local pass rewrites each line on its own |
| MarkdownProps.HeadingOfLine | components/blog/blog-article.tsx:172-174 | The three heading passes turn a line into `Heading` of it: `### ` gives `<h3>`, `## ` gives `<h2>`, `# ` gives `<h1>`, and a produced tag is never re-matched |
| MarkdownProps.HeadingsByLines | components/blog/blog-article.tsx:172-174 | The heading passes act line by line on a whole text |
| MarkdownProps.RuleLine | components/blog/blog-article.tsx:190 | A line becomes `<hr />` exactly when it is `---` and nothing else |
| MarkdownProps.CellsOfPieces | components/blog/blog-article.tsx:194 | `Cells`: splitting a row's content on the pipe character and trimming gives back the trimmed pieces |
| MarkdownProps.RowHtmlOfCells | components/blog/blog-article.tsx:195-199 | `RowHtml`, the row callback, returns the empty string exactly when some cell is dashes, and otherwise one `<td>` per cell inside `<tr>` |
| MarkdownProps.TableLineRewrite | components/blog/blog-article.tsx:193 | The whole pipe-delimited line is matched and its inner content goes to the callback |
| MarkdownProps.TableRowLine | components/blog/blog-article.tsx:193-200 | A table line is dropped when some trimmed piece is all dashes, and otherwise becomes a `<tr>` of `<td>` cells with no `<th>` |
| MarkdownProps.DashesOfTrimmed | components/blog/blog-article.tsx:195 | The separator test on the trimmed cells means that some piece trims to dashes |
| MarkdownProps.UnitOfRow | components/blog/blog-article.tsx:201 | One `(<tr>.*</tr>\s*)` unit covers a row, its line break and any blank space after it |
| MarkdownProps.RunLenOfBlock | components/blog/blog-article.tsx:201 | The `+` covers exactly a block of consecutive rows and stops before what follows |
| MarkdownProps.RunOfBlock | components/blog/blog-article.tsx:201-205 | A run of rows is matched once and wrapped once |
| MarkdownProps.TableWrapBlock | components/blog/blog-article.tsx:201 | Consecutive `<tr>` rows, blank lines between them included, become one `<table><tbody>…</tbody></table>`, also when the last row ends the text with no line break |
| MarkdownProps.ListWrapBlock | components/blog/blog-article.tsx:205 | Consecutive `<li>` items become one `<ul>…</ul>`, also when the last item ends the text with no line break |
| MarkdownProps.ListItemAtOf | components/blog/blog-article.tsx:204 | At leading blank space, `- ` and text, the list pattern covers up to the end of the line and captures the text |
| MarkdownProps.ListItemLine | components/blog/blog-article.tsx:204 | `- x` becomes `<li>x</li>`, and any blank space before the dash, earlier blank lines included, is swallowed |
| MarkdownProps.OrderedItemAtOf | components/blog/blog-article.tsx:208 | At digits, `. ` and text, the ordered pattern covers up to the end of the line and captures the text |
| MarkdownProps.OrderedItemLine | components/blog/blog-article.tsx:208 | `12. x` becomes `<li>x</li>` |
| MarkdownProps.OrderedItemNotWrapped | components/blog/blog-article.tsx:201-216 | The `<ul>` pass runs before numbered lines become `<li>`, so a numbered item at the start of the text ends up as a bare `<li>x</li>` line with nothing put before it |
| MarkdownProps.NumberedLineAfterList | components/blog/blog-article.tsx:205-208 | After a list, the `\s*` of the `<ul>` pattern takes the last item's line break, so `</ul>` is glued to the front of the next line; a numbered line there no longer starts with a digit and is left as it is |
| MarkdownProps.NumberedLineAfterTable | components/blog/blog-article.tsx:201-208 | After a table the same happens with `</tbody></table>`, and the list-item, `<ul>` and numbered-item passes all leave the glued line as it is |
| MarkdownProps.ParagraphLine | components/blog/blog-article.tsx:211 | A text line followed by a non-empty line becomes `<p>line</p>` |
| MarkdownProps.ParagraphKeepsTagLine | components/blog/blog-article.tsx:211 | A line ending in `>` followed by a non-empty line is not wrapped |
| MarkdownProps.ParagraphKeepsExcluded | components/blog/blog-article.tsx:211 | A line starting with `<` and a character of the lookahead's class is not wrapped |
| MarkdownProps.ParagraphTakesTerminator | components/blog/blog-article.tsx:211 | Before a blank line, `[^>]` takes the line terminator into the paragraph, so even a line ending in `>` is wrapped |
| MarkdownProps.EmptyParagraphRemoved | components/blog/blog-article.tsx:212 | `<p></p>` disappears |
| MarkdownProps.BlankParagraphRemoved | components/blog/blog-article.tsx:213 | A paragraph holding only blank space, line breaks included, disappears |
| JsText.Trim | src/components/chat/chat-widget.tsx:28 | `trim` never lengthens, and the result neither starts nor ends with `\s` |
| JsText.TrimIsInfix | src/components/chat/chat-widget.tsx:28 | The trimmed string is the infix after the leading `\s` run, and all that is cut off on either side is `\s` |
| JsText.TrimAround | src/app/api/contact/route.ts:27-44 | Trimming padding, a core that starts and ends with non-`\s` characters, and a tail keeps the core and a prefix of the tail |
| JsText.Split | src/components/sections/services-section.tsx:124 | The pieces contain no separator and join back to the input |
| JsText.SplitJoin | components/blog/blog-article.tsx:194 | Splitting undoes joining pieces that contain no separator |
| JsText.JoinContains | src/app/api/contact/route.ts:27-42 | Every piece occurs in the joined text |
| JsText.ReplaceFirst | components/layout/header.tsx:38 | With a string pattern only the first occurrence is replaced, and the text is unchanged without one |
| JsText.SliceTo | components/sections/portfolio.tsx:20 | `slice(0, end)` is a prefix whose length is `end` clamped to the length, or the length less `-end` for a negative `end` |
| JsText.NatToString | src/components/chat/chat-widget.tsx:26 | The decimal form of a natural is a non-empty run of digits |
| JsText.Digit | src/components/chat/chat-widget.tsx:26 | The digit character for d denotes d |
| JsText.NatToStringValue | src/components/chat/chat-widget.tsx:26 | The digits written denote the number itself, with no leading zero |
| JsText.NatToStringInjective | src/components/chat/chat-widget.tsx:26 | Different numbers are written differently |
| Slug.Lower | lib/utils/index.ts:17 | `toLowerCase` maps `A`-`Z` to `a`-`z` and keeps every other character |
| Slug.LowerAll | lib/utils/index.ts:17 | Lower-casing keeps the length and leaves no ASCII capital |
| Slug.Strip | lib/utils/index.ts:17 | What remains are exactly the input's word, `\s` and Thai (U+0E01-U+0E59) characters |
| Slug.StripAppend | lib/utils/index.ts:17 | Stripping works piece by piece and keeps the order: the strip of `a + b` is the strip of `a` then the strip of `b` |
| Slug.StripOne | lib/utils/index.ts:17 | One character is kept when it is a word, `\s` or Thai character, and dropped otherwise |
| Slug.Hyphenate | lib/utils/index.ts:17 | Hyphenation never lengthens, and removes every `\s` character, adding only `-` |
| Slug.HyphenateKeeps | lib/utils/index.ts:17 | Characters that are not `\s` are copied as they are, in order |
| Slug.HyphenateRun | lib/utils/index.ts:17 | A maximal run of `\s` characters, line breaks included, becomes exactly one `-` |
| Slug.SlugAlphabet | lib/utils/index.ts:16-18 | Every slug character is a lower-case ASCII letter, a digit, `_`, a Thai character or `-`, never `\s` nor a capital |
| Slug.HyphenateNoDoubleDash | lib/utils/index.ts:17 | Hyphenating text that holds no `-` never produces `--` |
| Slug.SlugNoDoubleDash | lib/utils/index.ts:16-18 | A slug never contains `--`, because input dashes are stripped before hyphenation |
| Slug.GenerateSlug | lib/utils/index.ts:16-18 | Lower-case, trim, strip, hyphenate, in that order; a slug is never longer than its text |
| Slug.SlugOfBlank | lib/utils/index.ts:16-18 | Blank text gives the empty slug |
| Slug.SlugOfPunctuation | lib/utils/index.ts:16-18 | Text of removed characters only, with no `\s`, gives the empty slug |
| Slug.TrailingDash | lib/utils/index.ts:16-18 | `" a !"` gives `"a-"`: a space next to removed punctuation still becomes an edge `-` |
| Slug.DashOnly | lib/utils/index.ts:16-18 | `"! !"` gives `"-"`, not the empty slug |
| Header.OtherLocale | components/layout/header.tsx:37 | The new locale is `en` exactly when the current one is `th`, and it is always a site locale |
| Header.LocaleLabel | components/layout/header.tsx:83 | The toggle's label names the locale the toggle goes to |
| Header.TogglePath | components/layout/header.tsx:36-40 | The toggle always leads under the other locale's prefix, and the path grows by at most that prefix |
| Header.IsActive | components/layout/header.tsx:42-45 | An entry is active only on a path that starts with its link |
| Header.NavHref | components/layout/header.tsx:65-68 | A navigation link leads to a page on which its own entry is active |
| Header.TogglePrefixed | components/layout/header.tsx:36-39 | On `/locale + rest`, the toggle goes to `/other + rest` |
| Header.ToggleTwice | components/layout/header.tsx:36-39 | Toggling twice returns to the original path |
| Header.ToggleInsideSegment | components/layout/header.tsx:38 | The removed `/th` may sit inside a segment: `/blog/thai` goes to `/en/blogai` |
| Header.HomeActive | components/layout/header.tsx:43 | The home entry is active exactly on the locale root |
| Header.SubPathActive | components/layout/header.tsx:44 | Every path below a non-home entry keeps it active |
| Header.HrefsUnrelated | components/layout/header.tsx:11-18 | No non-home entry's href starts with another's |
| Header.OnlyOwnLinkActive | components/layout/header.tsx:42-45 | On the page a navigation link leads to, exactly that link is active |
| Header.HeaderView.constructor | components/layout/header.tsx:25-27 | The menu starts closed, the bar transparent and the view unmounted |
| Header.HeaderView.Mount | components/layout/header.tsx:30 | Mounting sets `mounted` and nothing else |
| Header.HeaderView.OnScroll | components/layout/header.tsx:31 | The bar is marked scrolled exactly past 20 pixels, and nothing else changes |
| Header.HeaderView.ToggleLocale | components/layout/header.tsx:36-40 | The browser location becomes the toggle path, and the rest of the view is kept |
| Header.HeaderView.ToggleTheme | components/layout/header.tsx:85-88 | Once mounted, the button flips the theme between `dark` and `light` |
| Header.HeaderView.ToggleMenu | components/layout/header.tsx:93 | The mobile menu opens or closes, and nothing else changes |
| Header.HeaderView.CloseMenu | components/layout/header.tsx:106 | Following a mobile link closes the menu |
| Header.HeaderView.Links | components/layout/header.tsx:65-68 | One link per navigation entry, in order, each `/locale + href`; home links to `/locale` |
| JsonLd.OrElse | src/components/seo/json-ld.tsx:137 | JavaScript's `or` on an optional string gives `a` when it is present and non-empty, and `b` otherwise |
| JsonLd.Absolute | src/components/seo/json-ld.tsx:136 | An absolute URL is the site origin followed by the path, which can be read back |
| JsonLd.Breadcrumbs | src/components/seo/json-ld.tsx:263-268 | One element per item, in order, at position k+1, with the item's name and its absolute URL |
| JsonLd.BreadcrumbsInjective | src/components/seo/json-ld.tsx:263-268 | Different item lists give different breadcrumb lists, so nothing is lost |
| JsonLd.BreadcrumbPositionsConsecutive | src/components/seo/json-ld.tsx:265 | Positions start at 1 and go up by one |
| JsonLd.Questions | src/components/seo/json-ld.tsx:230-237 | One question per item, in order, with the item's question and answer |
| JsonLd.QuestionsRoundTrip | src/components/seo/json-ld.tsx:230-237 | The items can be read back from the questions |
| JsonLd.QuestionsAppend | src/components/seo/json-ld.tsx:230 | The mapping distributes over concatenation |
| JsonLd.ArticleOf | src/components/seo/json-ld.tsx:170-205 | Fields are copied, `url` and `mainEntityOfPage` are both absolute, `dateModified` falls back when absent or empty, and the author defaults only when absent |
| JsonLd.ArticleModifiedNonEmpty | src/components/seo/json-ld.tsx:187 | A published article always has a modification date |
| JsonLd.ArticleEmptyAuthorKept | src/components/seo/json-ld.tsx:177-187 | An empty author stays empty while an empty `dateModified` falls back |
| JsonLd.ServiceOf | src/components/seo/json-ld.tsx:130-152 | The URL is absolute, the image falls back to the og-image when absent or empty, and the provider and script id are as in the source |
| JsonLd.ServiceIdsDistinct | src/components/seo/json-ld.tsx:136-152 | Services on different paths get different script ids and URLs |
| JsonLd.ServiceImageNonEmpty | src/components/seo/json-ld.tsx:137 | Every service record has an image |
| Contact.Required | src/app/api/contact/route.ts:5-11 | `z.string().min(n)` accepts exactly a string of at least n characters and keeps it |
| Contact.Optional | src/app/api/contact/route.ts:7-15 | An optional string accepts an absent key or a string, and nothing else |
| Contact.Email | src/app/api/contact/route.ts:6 | The email is accepted when absent, empty, or an address, and any other string is refused |
| Contact.IssuesIn | src/app/api/contact/route.ts:4-16 | The issues are exactly the keys whose values are refused |
| Contact.AllOkFields | src/app/api/contact/route.ts:4-16 | A body the schema accepts passes every field rule |
| Contact.Validate | src/app/api/contact/route.ts:4-16 | A form is accepted exactly when every field passes, with name ≥ 2 and message ≥ 10 characters and a valid or empty email; a refusal names exactly the failing keys |
| Contact.AcceptedKeepsValues | src/app/api/contact/route.ts:4-16 | An accepted form holds the submitted name and message, and each of the nine optional fields is exactly the string submitted under its key, absent exactly when the key is absent |
| Contact.LinesOfSubmitted | src/app/api/contact/route.ts:27-41 | For an accepted body, the name, message and each optional line of the notification show what was submitted under their keys; an optional line appears exactly when a non-empty string was sent |
| Contact.BadEmailRejected | src/app/api/contact/route.ts:6 | A non-empty string that is not an address is refused, and the issue names `email` |
| Contact.ShortTextRejected | src/app/api/contact/route.ts:5-11 | A short name or message is refused, and the issue names the field |
| Contact.OptionalLine | src/app/api/contact/route.ts:31-40 | An optional line is present exactly when its value is non-empty, and is then caption plus value |
| Contact.OrDash | src/app/api/contact/route.ts:41 | The `-` default is never empty and keeps a non-empty value |
| Contact.UtmLine | src/app/api/contact/route.ts:41 | The UTM line appears exactly with a non-empty source; a missing medium or campaign shows as `-` |
| Contact.Lines | src/app/api/contact/route.ts:27-42 | The template has its heading first, the name line third and the message as its own line |
| Contact.NotificationShape | src/app/api/contact/route.ts:27-44 | `Notification`: after `trim`, the text is the template lines, the clock line and a prefix of the time |
| Contact.NotificationStartsWithLines | src/app/api/contact/route.ts:27-44 | The notification starts with the template's lines |
| Contact.NotificationMentions | src/app/api/contact/route.ts:30-38 | The notification always names the sender and quotes the message |
| Contact.Outcome | src/app/api/contact/route.ts:61-91 | The status is 200 exactly for a valid form, 500 exactly for an unreadable body and 400 otherwise, with errors; `success` holds exactly at 200 |
| Contact.SendTelegramNotification | src/app/api/contact/route.ts:18-59 | A request is sent exactly when both credentials are set and non-empty (`Configured`), to the bot's URL with the notification text |
| Contact.Post | src/app/api/contact/route.ts:61-91 | The response depends only on the body; a notification goes out exactly for a valid form with credentials set |
| Chat.AlternatingCounts | src/components/chat/chat-widget.tsx:31-43 | An alternating conversation has as many questions as answers, plus one while a reply is outstanding |
| Chat.AppendQuestion | src/components/chat/chat-widget.tsx:23-31 | Appending a trimmed, non-empty question to an answered conversation keeps it alternating |
| Chat.AppendAnswer | src/components/chat/chat-widget.tsx:36-43 | Appending an answer to a waiting conversation keeps it alternating |
| Chat.ChatWidget.constructor | src/components/chat/chat-widget.tsx:15-19 | The widget starts closed, with no messages, an empty input and not loading |
| Chat.ChatWidget.Open | src/components/chat/chat-widget.tsx:51 | The button opens the window and leaves the conversation as it is |
| Chat.ChatWidget.Close | src/components/chat/chat-widget.tsx:63-82 | The close button, shown only in the open window, closes it and leaves the conversation as it is |
| Chat.ChatWidget.Type | src/components/chat/chat-widget.tsx:155-158 | Typing, possible only in the open window while no reply is awaited, sets the input and nothing else |
| Chat.ChatWidget.Submit | src/components/chat/chat-widget.tsx:21-34 | In the open window, under exactly the send button's `disabled` condition (`SendDisabled`) nothing changes; otherwise one user message holding the trimmed input is appended, the input is cleared and loading starts |
| Chat.ChatWidget.Reply | src/components/chat/chat-widget.tsx:36-44 | The reply appends one assistant message with the canned text and stops loading |
| Chat.ChatWidget.Balanced | src/components/chat/chat-widget.tsx:23-43 | Questions equal answers, plus one while loading |
| Accordion.Toggled | components/sections/faq.tsx:26 | Clicking the open item closes everything; clicking any other item opens exactly it |
| Accordion.ToggleTwice | components/sections/faq.tsx:26 | Two clicks on one item from closed, or from that item open, restore the state |
| Accordion.ToggleOther | components/sections/faq.tsx:26 | A click on another item moves the open item there |
| Accordion.Accordion.constructor | components/sections/faq.tsx:13 | The accordion starts with the first item open |
| Accordion.Accordion.Toggle | components/services/service-page-template.tsx:325 | A click toggles the clicked item's visibility and keeps at most one item open |
| Accordion.Accordion.AtMostOneShown | components/sections/faq.tsx:31 | At most one answer is visible, and it belongs to an existing item |
| Faq.EntryView | components/sections/faq.tsx:24-35 | Entry i shows its own question always, and its answer exactly while it is open |
| Faq.MessageKeysDistinct | components/sections/faq.tsx:27-33 | The eight message keys are pairwise distinct |
| Faq.NewSection | components/sections/faq.tsx:8-13 | The section's accordion has four items, the first open |
| Faq.OneAnswerVisible | components/sections/faq.tsx:31 | No two entries show an answer at once |
| ServicePage.GetIcon | components/services/service-page-template.tsx:11-14 | A known icon name gives that icon, and any other name gives `HelpCircle` |
| ServicePage.IconAlwaysFound | components/services/service-page-template.tsx:11-14 | The lookup always yields an icon of the namespace |
| ServicePage.FaqItemsOf | components/services/service-page-template.tsx:61-64 | One item per number, in order, with the texts of `faq.<i>.question` and `faq.<i>.answer` |
| ServicePage.FaqItems | components/services/service-page-template.tsx:61-64 | Five entries, entry k holding the texts of `faq.<k+1>.question` and `faq.<k+1>.answer` |
| ServicePage.FaqSchemaEntries | components/services/service-page-template.tsx:61-81 | Five entries keyed `faq.1` to `faq.5` in order, passed as five schema questions with the same texts |
| ServicePage.FaqKeysDistinct | components/services/service-page-template.tsx:61-64 | Different entry numbers give different keys |
| ServicePage.TrailEndsAtService | components/services/service-page-template.tsx:67-82 | `Breadcrumbs`: three breadcrumbs at positions 1-3 for `/`, `/services` and the service page; the service record has the same URL and the default image |
| ServicePage.StepNumbers | components/services/service-page-template.tsx:227 | Step k shows k+1 |
| ServicePage.StepsNumberedFromOne | components/services/service-page-template.tsx:215-227 | Step numbers run from 1 to n, increasing, with none missing |
| ServicePage.Translate | components/services/service-page-template.tsx:282-285 | One translated feature per key, in order |
| ServicePage.TierCards | components/services/service-page-template.tsx:259 | One card per tier, in order |
| ServicePage.PricingCards | components/services/service-page-template.tsx:248-293 | `Pricing` and `TierCardOf`: the pricing section is rendered exactly when tiers are given; a card has the badge and the primary button exactly when `highlighted` is true |
| ServicePage.EntryView | components/services/service-page-template.tsx:315-342 | FAQ entry `index` always shows the text of `faq.<index+1>.question`, and the text of `faq.<index+1>.answer` exactly while it is open |
| ServicePage.PageMatchesSchema | components/services/service-page-template.tsx:315-342 | Entry `index` shows the schema's entry `index`, although the accordion counts from 0 and the keys from 1 |
| ServicePage.NewFaqAccordion | components/services/service-page-template.tsx:58 | The page's accordion has five items, the first open |
| RotatingText.Next | src/components/RotatingText.jsx:18 | The next index is in range and wraps from the last word to 0 |
| RotatingText.AfterIsSum | src/components/RotatingText.jsx:18 | n ticks add n modulo the number of words |
| RotatingText.FullCycle | src/components/RotatingText.jsx:18 | After one tick per word the index is back where it started |
| RotatingText.Rotator.constructor | src/components/RotatingText.jsx:14 | The index starts at 0 |
| RotatingText.Rotator.Tick | src/components/RotatingText.jsx:17-19 | A tick advances the index by `Next` and keeps it in range |
| RotatingText.Rotator.Current | src/components/RotatingText.jsx:41 | The word shown is always one of the words |
| BlogGrid.InCategory | components/blog/blog-grid.tsx:18 | Exactly the posts of the category are kept |
| BlogGrid.InCategoryAppend | components/blog/blog-grid.tsx:18 | Filtering keeps the original order |
| BlogGrid.Filtered | components/blog/blog-grid.tsx:16-18 | With `all` every post is shown, and otherwise exactly the posts of the selection |
| BlogGrid.NoResultsWhen | components/blog/blog-grid.tsx:64-68 | The no-results message shows exactly when no post matches the selection |
| BlogGrid.Grid.constructor | components/blog/blog-grid.tsx:13-15 | The selection starts at `all` |
| BlogGrid.Grid.SelectAll | components/blog/blog-grid.tsx:26 | The `all` button selects every post |
| BlogGrid.Grid.Select | components/blog/blog-grid.tsx:37 | A category button selects and highlights its category and shows exactly its posts |
| Listing.Shown | components/sections/portfolio.tsx:20 | A falsy limit shows every item; a positive one the first min(limit, n); a negative one all but the last -limit; always a prefix |
| Listing.ShownGrows | components/sections/portfolio.tsx:20 | A larger positive limit shows the items of a smaller one, and more |
| Listing.ShownDropsLast | components/sections/portfolio.tsx:20 | A negative limit leaves out exactly the last -limit items |
| Listing.Cards | components/sections/portfolio.tsx:31 | One card per item, in order, each rendered from its own item |
| Listing.ViewAll | components/sections/portfolio.tsx:56-60 | The link is rendered exactly for a truthy limit; 0 renders the text `0` and no limit renders nothing |
| Listing.CutOnlyWithLink | components/sections/services.tsx:23-51 | Whenever items are cut off, the view-all link is rendered |
| Portfolio.DescriptionIn | components/sections/portfolio.tsx:44 | The description is the `th` or `en` entry for those locales, and undefined for any other |
| Portfolio.AllWhenFalsy | components/sections/portfolio.tsx:20-31 | `Section`: without a limit, or with 0, all six projects are shown in order |
| Portfolio.PrefixWhenPositive | components/sections/portfolio.tsx:20 | A positive limit shows the first min(limit, 6) projects |
| Portfolio.AllButLastWhenNegative | components/sections/portfolio.tsx:20 | A negative limit shows all but the last -limit projects |
| Portfolio.ViewAllWhenTruthy | components/sections/portfolio.tsx:56-60 | The link to the locale's portfolio page is rendered exactly for a truthy limit |
| Portfolio.DescriptionFollowsLocale | components/sections/portfolio.tsx:44 | `CardOf`: each card shows its own project's description in the current locale |
| Portfolio.IdsDistinct | components/sections/portfolio.tsx:8-15 | The React keys are distinct |
| Services.HrefsFollowKeys | components/sections/services.tsx:8-17 | Every service's href is `/services/<key>`, and no two services share a key |
| Services.KeysDistinct | components/sections/services.tsx:8-17 | No two services share a key |
| Services.AllWhenFalsy | components/sections/services.tsx:23-34 | `Section`: without a limit, or with 0, all eight services are shown in order |
| Services.PrefixWhenPositive | components/sections/services.tsx:23 | A positive limit shows the first min(limit, 8) services |
| Services.CardLinksToService | components/sections/services.tsx:36 | Card k links to `/<locale>/services/<key>`, a page on which the header's services link is active |
| Services.CardOfServicePage | components/sections/services.tsx:36 | `CardOf`: a service under `/services/` gets a card linking into the locale's services pages |
| Services.ViewAllWhenTruthy | components/sections/services.tsx:47-51 | The link to the locale's services page is rendered exactly for a truthy limit |
| ServicesSection.KeyIsLastSegment | src/components/sections/services-section.tsx:124 | The key is the segment after the last `/`, or the whole href without one, and never holds a `/` |
| ServicesSection.Key | src/components/sections/services-section.tsx:124 | The key taken from an href never holds a `/` |
| ServicesSection.KeyEmpty | src/components/sections/services-section.tsx:124 | The key is empty exactly when the href is empty or ends with `/` |
| ServicesSection.KeyOfServicePath | src/components/sections/services-section.tsx:124 | Under `/services/`, the key is the page's name |
| ServicesSection.StaticKeys | src/components/sections/services-section.tsx:17-60 | The seven cards get the keys website, webapp, app, ai, ads, seo and social, in order |
| ServicesSection.StaticKeysDistinct | src/components/sections/services-section.tsx:17-60 | No two cards share a key |
| ServicesSection.MessageKeysDistinct | src/components/sections/services-section.tsx:146-149 | Different keys look up different `items.<key>.title` and `items.<key>.description` messages |

## Left out

- Intl date formatting (`toLocaleString`, `toLocaleDateString`) and the clock: the time in the notification and the message ids are parameters.
- Timers: the chat reply's `setTimeout` and the rotator's `setInterval` become the `Reply` and `Tick` methods. The model assumes each scheduled reply runs once.
- The scroll listener's registration and removal: only its handler, `OnScroll`, is modelled.
- `fetch`, `process.env` and `request.json()`: the environment and the parsed body are parameters, and a failed send is not modelled because it is caught and changes nothing.
- JSON text: the schema.org records are modelled, not `JSON.stringify` output. Constant fields such as `@context` and the publisher's logo are left out.
- Zod's error messages and its email regex: the regex is the parameter `isEmail`, and an issue is just the failing key.
- Translations: `t` is a parameter, and the message catalogues are not part of this model.
- `blogPosts` and `getAllCategories` in lib/blog-data are not part of this model: they are the grid's constructor arguments.
- Presentational JSX, animation, class names other than the pricing button, and the theme provider.
- Slug.Lower: `toLowerCase` is modelled on ASCII only; other cased scripts keep their case.
- `Date.now()` is a natural parameter: its range is not bounded.
- Lengths are counted in Unicode scalar values, not UTF-16 code units, so `min(2)` and `min(10)` count an astral character once.
- Listing.Shown: `limit` is an integer; a fractional or NaN `limit` is not modelled.
- Markdown input is modelled on the patterns' own terms; no CommonMark behaviour is claimed.
