/** The parts of ECMAScript string semantics that the site's code relies on:
    line terminators and `\s` as regular expressions see them, `trim`,
    `split` on a one-character separator, `Array.prototype.slice(0, end)`
    and the first-occurrence `replace` with a literal search string. */
module JsText {

  datatype Option<T> = None | Some(value: T)

  /** ECMAScript LineTerminator: the characters `.` refuses and next to
      which a multiline `^` or `$` matches. */
  predicate IsLineTerminator(c: char) {
    c == '\n' || c == '\r' || c == '\U{2028}' || c == '\U{2029}'
  }

  /** ECMAScript `\s`, which is also the set `String.prototype.trim` strips
      (WhiteSpace and LineTerminator). */
  const SpaceChars: set<char> := {
    '\n', '\r', '\U{2028}', '\U{2029}',
    '\t', '\U{B}', '\U{C}', ' ', '\U{A0}', '\U{1680}',
    '\U{2000}', '\U{2001}', '\U{2002}', '\U{2003}', '\U{2004}', '\U{2005}',
    '\U{2006}', '\U{2007}', '\U{2008}', '\U{2009}', '\U{200A}',
    '\U{202F}', '\U{205F}', '\U{3000}', '\U{FEFF}'
  }

  predicate IsSpace(c: char) {
    c in SpaceChars
  }

  predicate NoLineTerminator(s: string) {
    forall i :: 0 <= i < |s| ==> !IsLineTerminator(s[i])
  }

  predicate AllSpace(s: string) {
    forall i :: 0 <= i < |s| ==> IsSpace(s[i])
  }

  predicate StartsWith(s: string, prefix: string) {
    |prefix| <= |s| && s[..|prefix|] == prefix
  }

  predicate EndsWith(s: string, suffix: string) {
    |suffix| <= |s| && s[|s| - |suffix|..] == suffix
  }

  /** Length of the longest prefix of `s` made of `\s` characters. */
  function SpaceRun(s: string): (n: nat)
    ensures n <= |s|
    ensures AllSpace(s[..n])
    ensures n < |s| ==> !IsSpace(s[n])
  {
    if s == [] || !IsSpace(s[0]) then 0 else 1 + SpaceRun(s[1..])
  }

  /** Length of the current line: the characters before the first line
      terminator, or all of `s` when it has none. */
  function LineLen(s: string): (n: nat)
    ensures n <= |s|
    ensures NoLineTerminator(s[..n])
    ensures n < |s| ==> IsLineTerminator(s[n])
  {
    if s == [] || IsLineTerminator(s[0]) then 0 else 1 + LineLen(s[1..])
  }

  lemma {:induction false} LineLenOfLine(line: string, rest: string)
    requires NoLineTerminator(line)
    requires rest == [] || IsLineTerminator(rest[0])
    ensures LineLen(line + rest) == |line|
  {
    if line != [] {
      assert (line + rest)[1..] == line[1..] + rest;
      LineLenOfLine(line[1..], rest);
    }
  }

  lemma {:induction false} SpaceRunOf(w: string, rest: string)
    requires AllSpace(w)
    requires rest == [] || !IsSpace(rest[0])
    ensures SpaceRun(w + rest) == |w|
  {
    if w != [] {
      assert (w + rest)[1..] == w[1..] + rest;
      SpaceRunOf(w[1..], rest);
    }
  }

  /** `s` without its leading `\s` characters. */
  function TrimStart(s: string): (r: string)
    ensures |r| <= |s| && r == s[|s| - |r|..]
    ensures AllSpace(s[..|s| - |r|])
    ensures r == [] || !IsSpace(r[0])
  {
    s[SpaceRun(s)..]
  }

  /** `s` without its trailing `\s` characters. */
  function TrimEnd(s: string): (r: string)
    ensures |r| <= |s| && r == s[..|r|]
    ensures AllSpace(s[|r|..])
    ensures r == [] || !IsSpace(r[|r| - 1])
  {
    if s == [] || !IsSpace(s[|s| - 1]) then s
    else
      var r := TrimEnd(s[..|s| - 1]);
      assert s[|r|..] == s[..|s| - 1][|r|..] + [s[|s| - 1]];
      r
  }

  /** `String.prototype.trim`: `s` without its leading and trailing `\s`
      characters (`TrimIsInfix` says which infix it is). */
  function Trim(s: string): (r: string)
    ensures |r| <= |s|
    ensures r == [] || (!IsSpace(r[0]) && !IsSpace(r[|r| - 1]))
  {
    TrimEnd(TrimStart(s))
  }

  /** The trimmed string is the infix after the leading `\s` run, and
      everything cut off on either side is `\s`. */
  lemma {:induction false} TrimIsInfix(s: string)
    ensures var r := Trim(s); var a := SpaceRun(s);
      a + |r| <= |s| && r == s[a..a + |r|] && AllSpace(s[..a]) && AllSpace(s[a + |r|..])
  {
    var t := TrimStart(s);
    var r := TrimEnd(t);
    SliceOfSuffix(s, SpaceRun(s), |r|);
  }

  lemma {:induction false} SliceOfSuffix(s: string, a: nat, k: nat)
    requires a + k <= |s|
    ensures s[a..][..k] == s[a..a + k]
    ensures s[a..][k..] == s[a + k..]
  {
  }

  lemma {:induction false} TrimOfSpaces(s: string)
    requires AllSpace(s)
    ensures Trim(s) == []
  {
    assert SpaceRun(s) == |s|;
  }

  lemma {:induction false} TrimKeepsInner(s: string)
    requires s == [] || (!IsSpace(s[0]) && !IsSpace(s[|s| - 1]))
    ensures Trim(s) == s
  {
    if s != [] {
      assert SpaceRun(s) == 0;
      assert TrimStart(s) == s;
    }
  }

  /** Joins `parts` with `sep` between consecutive parts (`Array.prototype.join`). */
  function Join(parts: seq<string>, sep: char): string
  {
    if parts == [] then []
    else if |parts| == 1 then parts[0]
    else parts[0] + [sep] + Join(parts[1..], sep)
  }

  /** `t` occurs somewhere in `s`. */
  predicate Contains(s: string, t: string) {
    exists i :: 0 <= i <= |s| && StartsWith(s[i..], t)
  }

  lemma {:induction false} ContainsAt(s: string, t: string, i: nat)
    requires i + |t| <= |s| && s[i..i + |t|] == t
    ensures Contains(s, t)
  {
    assert s[i..][..|t|] == t;
  }

  /** Every part occurs in the joined string. */
  lemma {:induction false} JoinContains(parts: seq<string>, sep: char, k: nat)
    requires k < |parts|
    ensures Contains(Join(parts, sep), parts[k])
    decreases |parts|
  {
    var s := Join(parts, sep);
    var t := parts[k];
    if |parts| == 1 || k == 0 {
      assert s[0..|t|] == t;
      ContainsAt(s, t, 0);
    } else {
      var tail := Join(parts[1..], sep);
      assert parts[1..][k - 1] == t;
      JoinContains(parts[1..], sep, k - 1);
      assert s == parts[0] + [sep] + tail;
      ContainsAfter(s, parts[0] + [sep], tail, t);
    }
  }

  lemma {:induction false} ContainsAfter(s: string, head: string, tail: string, t: string)
    requires s == head + tail && Contains(tail, t)
    ensures Contains(s, t)
  {
    var i :| 0 <= i <= |tail| && StartsWith(tail[i..], t);
    var off := |head|;
    assert tail[i..i + |t|] == tail[i..][..|t|] == t;
    assert s[off + i..off + i + |t|] == tail[i..i + |t|];
    ContainsAt(s, t, off + i);
  }

  /** Whatever follows a core that ends in a non-`\s` character, `trimEnd`
      only cuts into what follows. */
  lemma {:induction false} TrimEndAfterCore(core: string, rest: string)
    requires |core| > 0 && !IsSpace(core[|core| - 1])
    ensures exists n :: 0 <= n <= |rest| && TrimEnd(core + rest) == core + rest[..n]
    decreases |rest|
  {
    var s := core + rest;
    if rest == [] {
      assert s == core + rest[..0];
    } else if !IsSpace(rest[|rest| - 1]) {
      assert s[|s| - 1] == rest[|rest| - 1];
      assert s == core + rest[..|rest|];
    } else {
      var shorter := rest[..|rest| - 1];
      TrimEndAfterCore(core, shorter);
      var n :| 0 <= n <= |shorter| && TrimEnd(core + shorter) == core + shorter[..n];
      TrimEndDropsSpace(core, rest, n);
    }
  }

  lemma {:induction false} TrimEndDropsSpace(core: string, rest: string, n: nat)
    requires rest != [] && IsSpace(rest[|rest| - 1]) && n < |rest|
    requires TrimEnd(core + rest[..|rest| - 1]) == core + rest[..|rest| - 1][..n]
    ensures TrimEnd(core + rest) == core + rest[..n]
  {
    var s := core + rest;
    assert s[|s| - 1] == rest[|rest| - 1];
    assert s[..|s| - 1] == core + rest[..|rest| - 1];
    assert rest[..|rest| - 1][..n] == rest[..n];
  }

  /** Trimming `\s` padding, a core that starts and ends with non-`\s`
      characters and a tail keeps the core and a prefix of the tail. */
  lemma {:induction false} TrimAround(pad: string, core: string, rest: string)
    requires AllSpace(pad)
    requires |core| > 0 && !IsSpace(core[0]) && !IsSpace(core[|core| - 1])
    ensures exists n :: 0 <= n <= |rest| && Trim(pad + core + rest) == core + rest[..n]
  {
    var s := pad + core + rest;
    assert s == pad + (core + rest);
    SpaceRunOf(pad, core + rest);
    assert TrimStart(s) == core + rest;
    TrimEndAfterCore(core, rest);
  }

  /** `String.prototype.split` with a one-character separator: the maximal
      pieces between separators, so that joining them back gives `s`. */
  function Split(s: string, sep: char): (parts: seq<string>)
    ensures |parts| >= 1
    ensures forall k :: 0 <= k < |parts| ==> sep !in parts[k]
    ensures Join(parts, sep) == s
    decreases |s|
  {
    if sep !in s then [s]
    else
      var i := IndexOfChar(s, sep);
      var rest := Split(s[i + 1..], sep);
      assert s == s[..i] + [sep] + s[i + 1..];
      [s[..i]] + rest
  }

  /** Splitting undoes joining when no part contains the separator. */
  lemma {:induction false} SplitJoin(parts: seq<string>, sep: char)
    requires |parts| >= 1
    requires forall k :: 0 <= k < |parts| ==> sep !in parts[k]
    ensures Split(Join(parts, sep), sep) == parts
    decreases |parts|
  {
    if |parts| > 1 {
      var s := Join(parts, sep);
      var tail := Join(parts[1..], sep);
      assert s == parts[0] + [sep] + tail;
      IndexOfCharAfter(parts[0], sep, tail);
      var i := |parts[0]|;
      assert s[..i] == parts[0];
      assert s[i + 1..] == tail;
      SplitJoin(parts[1..], sep);
    }
  }

  lemma {:induction false} IndexOfCharAfter(a: string, c: char, b: string)
    requires c !in a
    ensures c in a + [c] + b && IndexOfChar(a + [c] + b, c) == |a|
  {
    assert (a + [c] + b)[|a|] == c;
    if a != [] {
      assert (a + [c] + b)[1..] == a[1..] + [c] + b;
      IndexOfCharAfter(a[1..], c, b);
    }
  }

  /** Index of the first `c` in `s`, which must occur. */
  function IndexOfChar(s: string, c: char): (i: nat)
    requires c in s
    ensures i < |s| && s[i] == c && c !in s[..i]
  {
    if s[0] == c then 0 else 1 + IndexOfChar(s[1..], c)
  }

  /** The last element of a non-empty sequence (`Array.prototype.pop`'s result). */
  function Last<T>(xs: seq<T>): T
    requires |xs| > 0
  {
    xs[|xs| - 1]
  }

  predicate OccursAt(s: string, pat: string, k: nat) {
    k + |pat| <= |s| && s[k..k + |pat|] == pat
  }

  /** Index of the first occurrence of the non-empty `pat` in `s` at or after `from`. */
  function IndexOf(s: string, pat: string, from: nat): (r: Option<nat>)
    requires |pat| > 0
    ensures r.Some? ==> from <= r.value && OccursAt(s, pat, r.value)
    ensures r.Some? ==> forall k :: from <= k < r.value ==> !OccursAt(s, pat, k)
    ensures r.None? ==> forall k :: from <= k ==> !OccursAt(s, pat, k)
    decreases |s| - from
  {
    if from + |pat| > |s| then None
    else if OccursAt(s, pat, from) then Some(from)
    else IndexOf(s, pat, from + 1)
  }

  /** `s.replace(pat, rep)` with a string `pat`: only the first occurrence is replaced. */
  function ReplaceFirst(s: string, pat: string, rep: string): (r: string)
    requires |pat| > 0
    ensures (forall k: nat :: !OccursAt(s, pat, k)) ==> r == s
    ensures forall k: nat :: OccursAt(s, pat, k) && (forall j: nat :: j < k ==> !OccursAt(s, pat, j))
                        ==> r == s[..k] + rep + s[k + |pat|..]
  {
    match IndexOf(s, pat, 0)
    case None => s
    case Some(i) => s[..i] + rep + s[i + |pat|..]
  }

  /** `xs.slice(0, end)` for an integer `end`: a negative `end` counts back
      from the length, and both ends are clamped to the sequence. */
  function SliceTo<T>(xs: seq<T>, end: int): (r: seq<T>)
    ensures |r| <= |xs| && r == xs[..|r|]
    ensures end >= 0 ==> |r| == if end < |xs| then end else |xs|
    ensures end < 0 ==> |r| == if |xs| + end > 0 then |xs| + end else 0
  {
    var e := if end < 0 then (if |xs| + end > 0 then |xs| + end else 0)
             else (if end < |xs| then end else |xs|);
    xs[..e]
  }

  /** The decimal digits of a natural number, as `Number.prototype.toString` writes them. */
  function NatToString(n: nat): (r: string)
    ensures |r| >= 1
    ensures forall i :: 0 <= i < |r| ==> '0' <= r[i] <= '9'
  {
    if n < 10 then [Digit(n)] else NatToString(n / 10) + [Digit(n % 10)]
  }

  function Digit(d: nat): (c: char)
    requires d < 10
    ensures '0' <= c <= '9'
    ensures c as int - '0' as int == d
  {
    ['0', '1', '2', '3', '4', '5', '6', '7', '8', '9'][d]
  }

  /** The number a string of decimal digits denotes. */
  function DecimalValue(s: string): nat
    requires forall i :: 0 <= i < |s| ==> '0' <= s[i] <= '9'
  {
    if s == [] then 0 else 10 * DecimalValue(s[..|s| - 1]) + (s[|s| - 1] as int - '0' as int)
  }

  /** `toString` writes the number itself, with no leading zero. */
  lemma {:induction false} NatToStringValue(n: nat)
    ensures DecimalValue(NatToString(n)) == n
    ensures NatToString(n)[0] == '0' ==> n == 0
  {
    if n >= 10 {
      NatToStringValue(n / 10);
      var r := NatToString(n);
      assert r[..|r| - 1] == NatToString(n / 10);
      assert r[0] == NatToString(n / 10)[0];
    }
  }

  /** Different numbers are written differently. */
  lemma {:induction false} NatToStringInjective(a: nat, b: nat)
    requires NatToString(a) == NatToString(b)
    ensures a == b
  {
    NatToStringValue(a);
    NatToStringValue(b);
  }
}
