/** String helpers with the semantics of the JavaScript and Python built-ins
    that the source calls: `includes`/`in`, `indexOf`, `replace` (JavaScript:
    first occurrence; Python: every occurrence), `trim`/`strip`, `split`,
    `join`, `toLowerCase`/`lower` and decimal rendering of integers. */
module Strings {
  import opened Wrappers

  // ---------------------------------------------------------------- search

  /** `p` occurs in `s` starting at index `i`. */
  predicate ContainsAt(s: string, p: string, i: nat) {
    i + |p| <= |s| && s[i..i + |p|] == p
  }

  /** First index `>= i` at which `p` occurs in `s`. */
  function IndexFrom(s: string, p: string, i: nat): (r: Option<nat>)
    ensures r.Some? ==> i <= r.value && ContainsAt(s, p, r.value)
    ensures r.Some? ==> forall j: nat :: i <= j < r.value ==> !ContainsAt(s, p, j)
    ensures r.None? ==> forall j: nat :: i <= j ==> !ContainsAt(s, p, j)
    decreases |s| - i
  {
    if i + |p| > |s| then None
    else if s[i..i + |p|] == p then Some(i)
    else IndexFrom(s, p, i + 1)
  }

  /** `s.indexOf(p)` / `s.find(p)`: the first occurrence of `p`, if any. */
  function IndexOf(s: string, p: string): (r: Option<nat>)
    ensures r.Some? ==> ContainsAt(s, p, r.value)
    ensures r.Some? ==> forall j: nat :: j < r.value ==> !ContainsAt(s, p, j)
    ensures r.None? <==> forall j: nat :: !ContainsAt(s, p, j)
  {
    IndexFrom(s, p, 0)
  }

  /** `s.includes(p)` / `p in s`. */
  predicate Contains(s: string, p: string) {
    IndexOf(s, p).Some?
  }

  /** `s.startsWith(p)`. */
  predicate StartsWith(s: string, p: string) {
    |p| <= |s| && s[..|p|] == p
  }

  // --------------------------------------------------------------- replace

  /** JavaScript `s.replace(p, r)` with a string pattern: only the first
      occurrence is replaced. */
  function ReplaceFirst(s: string, p: string, r: string): (t: string)
    ensures !Contains(s, p) ==> t == s
    ensures Contains(s, p) ==>
      var i := IndexOf(s, p).value; t == s[..i] + r + s[i + |p|..]
  {
    match IndexOf(s, p)
    case None => s
    case Some(i) => s[..i] + r + s[i + |p|..]
  }

  /** Python `s.replace(p, r)`: every non-overlapping occurrence, scanning
      left to right (an empty pattern matches between all characters). */
  function ReplaceAll(s: string, p: string, r: string): string
    decreases |s|
  {
    if p == [] then (if s == [] then r else r + [s[0]] + ReplaceAll(s[1..], p, r))
    else if |s| < |p| then s
    else if s[..|p|] == p then r + ReplaceAll(s[|p|..], p, r)
    else [s[0]] + ReplaceAll(s[1..], p, r)
  }

  /** Replacing a pattern that does not occur leaves the string unchanged. */
  lemma {:induction false} ReplaceAllAbsent(s: string, p: string, r: string)
    requires p != [] && !Contains(s, p)
    ensures ReplaceAll(s, p, r) == s
    decreases |s|
  {
    if |s| >= |p| {
      assert !ContainsAt(s, p, 0);
      assert s[..|p|] == s[0..0 + |p|];
      forall j: nat ensures !ContainsAt(s[1..], p, j) {
        assert !ContainsAt(s, p, j + 1);
        if j + |p| <= |s[1..]| {
          assert s[1..][j..j + |p|] == s[j + 1..j + 1 + |p|];
        }
      }
      ReplaceAllAbsent(s[1..], p, r);
      assert [s[0]] + s[1..] == s;
    }
  }

  /** A front part holding no copy of the pattern's first character is
      copied as it is. */
  lemma {:induction false} ReplaceAllSkip(front: string, s: string, p: string, r: string)
    requires p != [] && p[0] !in front
    ensures ReplaceAll(front + s, p, r) == front + ReplaceAll(s, p, r)
    decreases |front|
  {
    if front != [] {
      var t := front + s;
      assert t[0] == front[0] && t[1..] == front[1..] + s;
      if |t| < |p| {
        assert ReplaceAll(s, p, r) == s;
      } else {
        assert t[..|p|][0] != p[0];
        assert ReplaceAll(t, p, r) == [t[0]] + ReplaceAll(t[1..], p, r);
        ReplaceAllSkip(front[1..], s, p, r);
        assert [front[0]] + front[1..] == front;
      }
    } else {
      assert front + s == s;
    }
  }

  /** Where the pattern does not start, the first character is kept. */
  lemma ReplaceAllMiss(s: string, p: string, r: string)
    requires p != [] && |p| <= |s| && s[..|p|] != p
    ensures ReplaceAll(s, p, r) == [s[0]] + ReplaceAll(s[1..], p, r)
  {
  }

  /** A leading copy of the pattern is replaced. */
  lemma ReplaceAllHead(p: string, s: string, r: string)
    requires p != []
    ensures ReplaceAll(p + s, p, r) == r + ReplaceAll(s, p, r)
  {
    assert (p + s)[..|p|] == p && (p + s)[|p|..] == s;
  }

  /** Replacing a pattern by itself leaves the string unchanged. */
  lemma {:induction false} ReplaceAllSame(s: string, p: string)
    ensures ReplaceAll(s, p, p) == s
    decreases |s|
  {
    if p == [] {
      if s != [] {
        ReplaceAllSame(s[1..], p);
        assert [s[0]] + s[1..] == s;
      }
    } else if |s| >= |p| {
      if s[..|p|] == p {
        ReplaceAllSame(s[|p|..], p);
        assert s[..|p|] + s[|p|..] == s;
      } else {
        ReplaceAllSame(s[1..], p);
        assert [s[0]] + s[1..] == s;
      }
    }
  }

  /** Python's `replace` brings in no character that is in neither the
      string nor the replacement. */
  lemma {:induction false} ReplaceAllChars(s: string, p: string, r: string, x: char)
    requires x !in s && x !in r
    ensures x !in ReplaceAll(s, p, r)
    decreases |s|
  {
    if p == [] {
      if s != [] {
        ReplaceAllChars(s[1..], p, r, x);
      }
    } else if |s| >= |p| {
      if s[..|p|] == p {
        ReplaceAllChars(s[|p|..], p, r, x);
      } else {
        ReplaceAllChars(s[1..], p, r, x);
      }
    }
  }

  /** Replacing a one-character pattern by "" removes that character. */
  lemma {:induction false} ReplaceAllRemovesChar(s: string, c: char)
    ensures c !in ReplaceAll(s, [c], "")
    decreases |s|
  {
    if s != [] {
      ReplaceAllRemovesChar(s[1..], c);
    }
  }

  // ------------------------------------------------------------ whitespace

  /** Characters Python's `str.split()`/`str.strip()` treat as whitespace
      (`str.isspace`). */
  predicate IsPyWhitespace(c: char) {
    c == ' ' || ('\t' <= c <= '\r') || ('\U{1C}' <= c <= '\U{1F}') || c == '\U{85}'
    || c == '\U{A0}' || c == '\U{1680}' || ('\U{2000}' <= c <= '\U{200A}')
    || c == '\U{2028}' || c == '\U{2029}' || c == '\U{202F}' || c == '\U{205F}'
    || c == '\U{3000}'
  }

  /** Characters JavaScript's `String.prototype.trim` removes
      (WhiteSpace and LineTerminator of ECMAScript). */
  predicate IsJsWhitespace(c: char) {
    c == ' ' || ('\t' <= c <= '\r') || c == '\U{A0}' || c == '\U{1680}'
    || ('\U{2000}' <= c <= '\U{200A}') || c == '\U{2028}' || c == '\U{2029}'
    || c == '\U{202F}' || c == '\U{205F}' || c == '\U{3000}' || c == '\U{FEFF}'
  }

  /** Drops leading characters satisfying `ws`. */
  function TrimStart(s: string, ws: char -> bool): (r: string)
    ensures |r| <= |s| && r == s[|s| - |r|..]
    ensures r == [] || !ws(r[0])
    ensures forall i :: 0 <= i < |s| - |r| ==> ws(s[i])
  {
    if s != [] && ws(s[0]) then TrimStart(s[1..], ws) else s
  }

  /** Drops trailing characters satisfying `ws`. */
  function TrimEnd(s: string, ws: char -> bool): (r: string)
    ensures |r| <= |s| && r == s[..|r|]
    ensures r == [] || !ws(r[|r| - 1])
    ensures forall i :: |r| <= i < |s| ==> ws(s[i])
  {
    if s != [] && ws(s[|s| - 1]) then TrimEnd(s[..|s| - 1], ws) else s
  }

  /** `r` is `s` with `i` whitespace characters removed in front and only
      whitespace removed at the back. */
  predicate StripAt(s: string, r: string, i: nat, ws: char -> bool) {
    ContainsAt(s, r, i)
    && (forall k :: 0 <= k < i ==> ws(s[k]))
    && (forall k :: i + |r| <= k < |s| ==> ws(s[k]))
  }

  /** Both ends trimmed: JavaScript `trim()` with `IsJsWhitespace`, Python
      `strip()` with `IsPyWhitespace`. */
  function Strip(s: string, ws: char -> bool): (r: string)
    ensures r == [] || (!ws(r[0]) && !ws(r[|r| - 1]))
    ensures exists i: nat :: StripAt(s, r, i, ws)
  {
    var a := TrimStart(s, ws);
    var b := TrimEnd(a, ws);
    assert b != [] ==> b[0] == a[0];
    StripAtParts(s, a, b, ws);
    b
  }

  /** A whitespace-only front cut followed by a whitespace-only back cut. */
  lemma StripAtParts(s: string, a: string, b: string, ws: char -> bool)
    requires |a| <= |s| && a == s[|s| - |a|..] && forall k :: 0 <= k < |s| - |a| ==> ws(s[k])
    requires |b| <= |a| && b == a[..|b|] && forall k :: |b| <= k < |a| ==> ws(a[k])
    ensures StripAt(s, b, |s| - |a|, ws)
  {
    var i := |s| - |a|;
    assert s[i..][..|b|] == s[i..i + |b|];
    forall k | i + |b| <= k < |s|
      ensures ws(s[k])
    {
      assert s[k] == a[k - i];
    }
  }

  /** A string with no whitespace at either end is its own strip. */
  lemma StripNoEnds(s: string, ws: char -> bool)
    requires s == [] || (!ws(s[0]) && !ws(s[|s| - 1]))
    ensures Strip(s, ws) == s
  {
  }

  function PyStrip(s: string): string { Strip(s, IsPyWhitespace) }

  function JsTrim(s: string): string { Strip(s, IsJsWhitespace) }

  // -------------------------------------------------------- split and join

  /** Index of the first `c` in `s`. */
  function FirstIndexOfChar(s: string, c: char): (i: nat)
    requires c in s
    ensures i < |s| && s[i] == c && c !in s[..i]
  {
    if s[0] == c then 0 else 1 + FirstIndexOfChar(s[1..], c)
  }

  /** `s.split(c)` with a one-character separator: never empty, and no
      part contains the separator. */
  function SplitOn(s: string, c: char): (parts: seq<string>)
    ensures |parts| >= 1
    ensures forall k :: 0 <= k < |parts| ==> c !in parts[k]
    decreases |s|
  {
    if c !in s then [s]
    else
      var i := FirstIndexOfChar(s, c);
      [s[..i]] + SplitOn(s[i + 1..], c)
  }

  /** `sep.join(parts)`. */
  function Join(parts: seq<string>, sep: string): string {
    if |parts| == 0 then ""
    else if |parts| == 1 then parts[0]
    else parts[0] + sep + Join(parts[1..], sep)
  }

  /** `s.split(c)[0]`: the text before the first `c` (all of `s` if none). */
  function BeforeFirst(s: string, c: char): (r: string)
    ensures c !in r
    ensures StartsWith(s, r)
    ensures c in s ==> |r| < |s| && s[|r|] == c
    ensures c !in s ==> r == s
  {
    if c in s then s[..FirstIndexOfChar(s, c)] else s
  }

  /** The length of the prefix of `s` that ends with its last `c`; 0 when
      `s` holds no `c`. */
  function LastCut(s: string, c: char): (k: nat)
    ensures k <= |s|
    ensures forall j :: k <= j < |s| ==> s[j] != c
    ensures k > 0 ==> s[k - 1] == c
  {
    if s == [] then 0
    else if s[|s| - 1] == c then |s|
    else LastCut(s[..|s| - 1], c)
  }

  /** `s.split(c)[-1]`: the text after the last `c` (all of `s` if none). */
  function AfterLast(s: string, c: char): (r: string)
    ensures c !in r
    ensures |r| <= |s| && r == s[|s| - |r|..]
    ensures c in s ==> |r| < |s| && s[|s| - |r| - 1] == c
    ensures c !in s ==> r == s
  {
    var k := LastCut(s, c);
    assert forall j :: 0 <= j < |s| - k ==> s[k..][j] == s[k + j];
    assert k == 0 ==> s[k..] == s;
    s[k..]
  }

  // ----------------------------------------------------- Python's split()

  /** Longest prefix of `s` without whitespace. */
  function LeadingWord(s: string): (w: string)
    ensures |w| <= |s| && w == s[..|w|]
    ensures forall k :: 0 <= k < |w| ==> !IsPyWhitespace(w[k])
    ensures |w| < |s| ==> IsPyWhitespace(s[|w|])
  {
    if s == [] || IsPyWhitespace(s[0]) then [] else [s[0]] + LeadingWord(s[1..])
  }

  /** A whitespace-free word. */
  predicate IsWord(w: string) {
    w != [] && forall k :: 0 <= k < |w| ==> !IsPyWhitespace(w[k])
  }

  /** Python `s.split()` without arguments: the maximal runs of
      non-whitespace characters. */
  function Words(s: string): (ws: seq<string>)
    ensures forall k :: 0 <= k < |ws| ==> IsWord(ws[k])
    decreases |s|
  {
    if s == [] then []
    else if IsPyWhitespace(s[0]) then Words(s[1..])
    else
      var w := LeadingWord(s);
      [w] + Words(s[|w|..])
  }

  /** The leading word of a word followed by a space (or nothing) is that word. */
  lemma {:induction false} LeadingWordOf(w: string, rest: string)
    requires IsWord(w) || w == []
    requires rest == [] || IsPyWhitespace(rest[0])
    ensures LeadingWord(w + rest) == w
    decreases |w|
  {
    if w == [] {
      assert w + rest == rest;
    } else {
      assert (w + rest)[0] == w[0];
      assert (w + rest)[1..] == w[1..] + rest;
      LeadingWordOf(w[1..], rest);
      assert [w[0]] + w[1..] == w;
    }
  }

  /** Splitting words joined by single spaces gives the words back. */
  lemma {:induction false} WordsOfJoin(ws: seq<string>)
    requires forall k :: 0 <= k < |ws| ==> IsWord(ws[k])
    ensures Words(Join(ws, " ")) == ws
  {
    if |ws| == 1 {
      LeadingWordOf(ws[0], []);
      assert ws[0] + [] == ws[0];
      assert ws[0][|ws[0]|..] == [];
    } else if |ws| > 1 {
      var tail := Join(ws[1..], " ");
      var s := ws[0] + " " + tail;
      assert Join(ws, " ") == s;
      LeadingWordOf(ws[0], " " + tail);
      assert ws[0] + (" " + tail) == s;
      assert s[|ws[0]|..] == " " + tail;
      assert (" " + tail)[1..] == tail;
      WordsOfJoin(ws[1..]);
      assert [ws[0]] + ws[1..] == ws;
    }
  }

  // ------------------------------------------------------------ lower case

  /** Lower-cases the ASCII letters A-Z; every other character is kept. */
  function LowerChar(c: char): char {
    if 'A' <= c <= 'Z' then (c as int + 32) as char else c
  }

  /** `toLowerCase()` / `lower()` on the ASCII letters. */
  function Lower(s: string): (r: string)
    ensures |r| == |s|
    ensures forall i :: 0 <= i < |s| ==> r[i] == LowerChar(s[i])
  {
    if s == [] then [] else [LowerChar(s[0])] + Lower(s[1..])
  }

  // ------------------------------------------------------ decimal numerals

  function DigitChar(d: nat): (c: char)
    requires d < 10
    ensures '0' <= c <= '9'
  {
    ('0' as int + d) as char
  }

  /** Decimal rendering of a natural number: JavaScript `${n}`, Python `str(n)`. */
  function NatToString(n: nat): (r: string)
    ensures |r| >= 1
    ensures (|r| == 1) == (n < 10)
    ensures forall i :: 0 <= i < |r| ==> '0' <= r[i] <= '9'
  {
    if n < 10 then [DigitChar(n)] else NatToString(n / 10) + [DigitChar(n % 10)]
  }

  /** Different numbers have different renderings. */
  lemma {:induction false} NatToStringInjective(a: nat, b: nat)
    requires NatToString(a) == NatToString(b)
    ensures a == b
  {
    if a >= 10 && b >= 10 {
      var ra, rb := NatToString(a), NatToString(b);
      assert ra[|ra| - 1] == DigitChar(a % 10) && rb[|rb| - 1] == DigitChar(b % 10);
      assert ra[..|ra| - 1] == NatToString(a / 10);
      assert rb[..|rb| - 1] == NatToString(b / 10);
      NatToStringInjective(a / 10, b / 10);
    } else if a < 10 && b < 10 {
      assert NatToString(a)[0] == DigitChar(a);
    }
  }
}
