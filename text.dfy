/** The string operations the responder is built from: Python's `str.lower`,
    `str.strip`, `in`, `str.split`, `str.replace`, `"\n".join`, and the `\b`
    word boundary and `.` of the `re` module, on the inputs the responder sees. */
module Text {
  import opened Wrappers

  // ---------------------------------------------------------------- case

  /** The capital letters `Lower` changes: ASCII only, which leaves out the
      capitals of other scripts that Python lowers (Devanagari has no case). */
  predicate IsUpper(c: char) {
    'A' <= c <= 'Z'
  }

  function LowerChar(c: char): char {
    if IsUpper(c) then (c as int + 32) as char else c
  }

  predicate IsLowered(s: string) {
    forall i | 0 <= i < |s| :: !IsUpper(s[i])
  }

  /** `s.lower()`: every capital becomes its small letter, nothing else moves. */
  function Lower(s: string): (r: string)
    ensures |r| == |s| && IsLowered(r)
  {
    seq(|s|, i requires 0 <= i < |s| => LowerChar(s[i]))
  }

  /** Lower-casing turns each capital into its small letter and leaves every
      other character where it was. */
  lemma LowerMovesOnlyCapitals(s: string)
    ensures forall i | 0 <= i < |s| && !IsUpper(s[i]) :: Lower(s)[i] == s[i]
    ensures forall i | 0 <= i < |s| && IsUpper(s[i]) :: Lower(s)[i] as int == s[i] as int + 32
  {
  }

  // ---------------------------------------------------------------- whitespace

  /** Python's `str.isspace`, all 29 code points. */
  predicate IsSpace(c: char) {
    || '\t' <= c <= '\r'
    || '\U{1C}' <= c <= ' '
    || c == '\U{85}' || c == '\U{A0}' || c == '\U{1680}'
    || '\U{2000}' <= c <= '\U{200A}'
    || c == '\U{2028}' || c == '\U{2029}' || c == '\U{202F}' || c == '\U{205F}' || c == '\U{3000}'
  }

  /** `s.lstrip()`. */
  function TrimStart(s: string): string {
    if |s| > 0 && IsSpace(s[0]) then TrimStart(s[1..]) else s
  }

  /** `s.rstrip()`. */
  function TrimEnd(s: string): string {
    if |s| > 0 && IsSpace(s[|s| - 1]) then TrimEnd(s[..|s| - 1]) else s
  }

  /** `TrimStart` cuts a run of whitespace from the front and stops at the
      first other character. */
  lemma {:induction false} TrimStartMeaning(s: string)
    ensures var r := TrimStart(s);
      && |r| <= |s| && r == s[|s| - |r|..]
      && (forall i | 0 <= i < |s| - |r| :: IsSpace(s[i]))
      && (r == [] || !IsSpace(r[0]))
  {
    if |s| > 0 && IsSpace(s[0]) {
      TrimStartMeaning(s[1..]);
    }
  }

  /** `TrimEnd` cuts a run of whitespace from the back and stops at the last
      other character. */
  lemma {:induction false} TrimEndMeaning(s: string)
    ensures var r := TrimEnd(s);
      && |r| <= |s| && r == s[..|r|]
      && (forall i | |r| <= i < |s| :: IsSpace(s[i]))
      && (r == [] || !IsSpace(r[|r| - 1]))
  {
    if |s| > 0 && IsSpace(s[|s| - 1]) {
      TrimEndMeaning(s[..|s| - 1]);
    }
  }

  /** `r` is `s` with a run of whitespace of length `k` cut from its front and
      all whitespace after `r` cut from its back, and `r` itself neither starts
      nor ends with whitespace. */
  ghost predicate StripsTo(s: string, k: int, r: string) {
    && 0 <= k && k + |r| <= |s| && r == s[k..k + |r|]
    && (forall i | 0 <= i < k :: IsSpace(s[i]))
    && (forall i | k + |r| <= i < |s| :: IsSpace(s[i]))
    && (r == [] || (!IsSpace(r[0]) && !IsSpace(r[|r| - 1])))
  }

  /** `s.strip()`. */
  function Strip(s: string): string {
    TrimEnd(TrimStart(s))
  }

  /** `Strip` cuts exactly the whitespace at both ends. */
  lemma StripMeaning(s: string)
    ensures StripsTo(s, |s| - |TrimStart(s)|, Strip(s))
  {
    TrimStartMeaning(s);
    TrimEndMeaning(TrimStart(s));
  }

  /** Text that is all whitespace strips to nothing. */
  lemma {:induction false} BlankStripsToEmpty(s: string)
    requires forall i | 0 <= i < |s| :: IsSpace(s[i])
    ensures Strip(s) == []
    decreases |s|
  {
    if s != [] {
      assert IsSpace(s[0]);
      BlankStripsToEmpty(s[1..]);
    }
  }

  /** Stripping keeps text lower-case. */
  lemma StripKeepsLowered(s: string)
    requires IsLowered(s)
    ensures IsLowered(Strip(s))
  {
    var k := |s| - |TrimStart(s)|;
    var r := Strip(s);
    StripMeaning(s);
    assert forall i | 0 <= i < |r| :: r[i] == s[k + i];
  }

  /** Stripping twice is stripping once. */
  lemma StripIdempotent(s: string)
    ensures Strip(Strip(s)) == Strip(s)
  {
    StripMeaning(s);
    var r := Strip(s);
    assert TrimStart(r) == r;
    assert TrimEnd(r) == r;
  }

  /** `s.lower().strip()`, the normal form every rule reads. */
  function Normalize(s: string): (r: string)
    ensures IsLowered(r)
  {
    StripKeepsLowered(Lower(s));
    Strip(Lower(s))
  }

  /** Text already in normal form is left as it is. */
  lemma NormalizeKeepsNormal(s: string)
    requires IsLowered(s) && (s == [] || (!IsSpace(s[0]) && !IsSpace(s[|s| - 1])))
    ensures Normalize(s) == s
  {
    assert Lower(s) == s;
    assert TrimStart(s) == s;
  }

  // ---------------------------------------------------------------- substrings

  predicate OccursAt(s: string, p: string, i: int) {
    0 <= i && i + |p| <= |s| && s[i..i + |p|] == p
  }

  /** The first occurrence of `p` in `s` at or after `k`, scanning left to right. */
  function FindFrom(s: string, p: string, k: nat): (r: Option<nat>)
    ensures r.Some? ==> k <= r.value && r.value + |p| <= |s|
    decreases |s| - k
  {
    if k + |p| > |s| then None
    else if s[k..k + |p|] == p then Some(k)
    else FindFrom(s, p, k + 1)
  }

  /** The scan finds the first occurrence at or after `k`, and finds nothing
      only when there is none. */
  lemma {:induction false} FindFromIsFirst(s: string, p: string, k: nat)
    ensures var r := FindFrom(s, p, k);
      && (r.Some? ==> k <= r.value && OccursAt(s, p, r.value))
      && (r.Some? ==> forall j | k <= j < r.value :: !OccursAt(s, p, j))
      && (r.None? ==> forall j | k <= j :: !OccursAt(s, p, j))
    decreases |s| - k
  {
    if k + |p| <= |s| && s[k..k + |p|] != p {
      FindFromIsFirst(s, p, k + 1);
    }
  }

  /** The leftmost occurrence of `p` in `s`, the scan behind `p in s`,
      `s.replace(p, q)` and `s.split(p, 1)`; `None` when there is none. */
  function IndexOf(s: string, p: string): Option<nat> {
    FindFrom(s, p, 0)
  }

  lemma IndexOfIsFirst(s: string, p: string)
    ensures IndexOf(s, p).Some? ==> OccursAt(s, p, IndexOf(s, p).value)
    ensures IndexOf(s, p).Some? ==> forall j | 0 <= j < IndexOf(s, p).value :: !OccursAt(s, p, j)
    ensures IndexOf(s, p).None? ==> forall j :: !OccursAt(s, p, j)
  {
    FindFromIsFirst(s, p, 0);
  }

  /** Python's `p in s`. */
  predicate Contains(s: string, p: string) {
    IndexOf(s, p).Some?
  }

  /** `p in s` holds exactly when `p` occurs somewhere in `s`. */
  lemma ContainsMeaning(s: string, p: string)
    ensures Contains(s, p) <==> exists i :: OccursAt(s, p, i)
  {
    IndexOfIsFirst(s, p);
  }

  /** The text after the first occurrence of `p`, or all of `s` when `p` does
      not occur: `s.split(p, 1)[-1]`. */
  function AfterFirst(s: string, p: string): string {
    match IndexOf(s, p)
    case None => s
    case Some(i) => s[i + |p|..]
  }

  // ---------------------------------------------------------------- replace

  /** `s.replace(p, q)` for a non-empty `p`: find the leftmost occurrence, put
      `q` in its place, and go on after it, so occurrences do not overlap. */
  function Replace(s: string, p: string, q: string): string
    requires |p| > 0
    decreases |s|
  {
    match IndexOf(s, p)
    case None => s
    case Some(i) => s[..i] + q + Replace(s[i + |p|..], p, q)
  }

  // ---------------------------------------------------------------- lines

  /** Where the first line of `s` ends: the first `'\n'`, or the end of `s`. */
  function LineEnd(s: string): (e: nat)
    ensures e <= |s|
    ensures forall i | 0 <= i < e :: s[i] != '\n'
    ensures e < |s| ==> s[e] == '\n'
  {
    if |s| == 0 || s[0] == '\n' then 0 else 1 + LineEnd(s[1..])
  }

  /** What the regular expression `(.*)` captures at the front of `s`: `.` does
      not match a newline, so the capture stops at the first one. */
  function FirstLine(s: string): (r: string)
    ensures '\n' !in r
    ensures r <= s
    ensures |r| < |s| ==> s[|r|] == '\n'
  {
    s[..LineEnd(s)]
  }

  /** A single line is its own first line. */
  lemma FirstLineOfLine(s: string)
    requires '\n' !in s
    ensures FirstLine(s) == s
  {
  }

  /** `"\n".join(lines)`. */
  function JoinLines(lines: seq<string>): string {
    if |lines| == 0 then ""
    else if |lines| == 1 then lines[0]
    else lines[0] + "\n" + JoinLines(lines[1..])
  }

  /** Joining one more line adds a newline and that line at the end. */
  lemma {:induction false} JoinLinesSnoc(lines: seq<string>, last: string)
    requires lines != []
    ensures JoinLines(lines + [last]) == JoinLines(lines) + "\n" + last
    decreases |lines|
  {
    if |lines| == 1 {
      assert (lines + [last])[1..] == [last];
    } else {
      assert (lines + [last])[1..] == lines[1..] + [last];
      JoinLinesSnoc(lines[1..], last);
    }
  }

  /** `s.split("\n")`. */
  function SplitLines(s: string): (lines: seq<string>)
    ensures |lines| >= 1
    decreases |s|
  {
    var e := LineEnd(s);
    if e == |s| then [s] else [s[..e]] + SplitLines(s[e + 1..])
  }

  lemma LineEndOfJoin(l: string, rest: string)
    requires '\n' !in l
    ensures LineEnd(l + "\n" + rest) == |l|
  {
    var s := l + "\n" + rest;
    assert s[|l|] == '\n';
    assert forall i | 0 <= i < |l| :: s[i] == l[i];
  }

  /** Splitting a join of newline-free lines gives the lines back. */
  lemma {:induction false} SplitJoin(lines: seq<string>)
    requires |lines| >= 1
    requires forall k | 0 <= k < |lines| :: '\n' !in lines[k]
    ensures SplitLines(JoinLines(lines)) == lines
  {
    if |lines| == 1 {
      var s := lines[0];
      assert forall i | 0 <= i < |s| :: s[i] in s;
    } else {
      var s := JoinLines(lines);
      var rest := JoinLines(lines[1..]);
      assert s == lines[0] + "\n" + rest;
      LineEndOfJoin(lines[0], rest);
      assert s[..|lines[0]|] == lines[0];
      assert s[|lines[0]| + 1..] == rest;
      SplitJoin(lines[1..]);
    }
  }

  /** Joining the lines of a split gives the text back. */
  lemma {:induction false} JoinSplit(s: string)
    ensures JoinLines(SplitLines(s)) == s
    decreases |s|
  {
    var e := LineEnd(s);
    if e < |s| {
      JoinSplit(s[e + 1..]);
      var tail := SplitLines(s[e + 1..]);
      var lines := SplitLines(s);
      assert lines == [s[..e]] + tail;
      assert lines[1..] == tail;
      assert JoinLines(lines) == s[..e] + "\n" + JoinLines(tail);
      assert s == s[..e] + "\n" + s[e + 1..];
    }
  }

  // ---------------------------------------------------------------- word boundaries

  /** Python's `\w` on the scripts the responder's patterns use: ASCII letters,
      digits and `_`, and the Devanagari letters and digits (not its vowel
      signs, virama or other combining marks, which Python does not count). */
  predicate IsWordChar(c: char) {
    || 'a' <= c <= 'z' || 'A' <= c <= 'Z' || '0' <= c <= '9' || c == '_'
    || '\U{0904}' <= c <= '\U{0939}' || c == '\U{093D}' || c == '\U{0950}'
    || '\U{0958}' <= c <= '\U{0961}' || '\U{0966}' <= c <= '\U{096F}'
    || '\U{0971}' <= c <= '\U{097F}'
  }

  predicate WordCharBefore(s: string, i: int) {
    0 < i <= |s| && IsWordChar(s[i - 1])
  }

  predicate WordCharAt(s: string, i: int) {
    0 <= i < |s| && IsWordChar(s[i])
  }

  /** `\b` at position `i`: a word character on exactly one side. */
  predicate IsBoundary(s: string, i: int) {
    0 <= i <= |s| && WordCharBefore(s, i) != WordCharAt(s, i)
  }

  /** `\b` + `w` + `\b` matches `s` at position `i`. */
  predicate WordAt(s: string, w: string, i: int) {
    OccursAt(s, w, i) && IsBoundary(s, i) && IsBoundary(s, i + |w|)
  }

  /** One of `words` matches at position `i`, trying them in order. */
  function WordsAt(s: string, words: seq<string>, i: int): bool
    decreases |words|
  {
    |words| > 0 && (WordAt(s, words[0], i) || WordsAt(s, words[1..], i))
  }

  /** The regular-expression search from position `i` on. */
  function ScanWords(s: string, words: seq<string>, i: nat): bool
    decreases |s| + 1 - i
  {
    if i > |s| then false else WordsAt(s, words, i) || ScanWords(s, words, i + 1)
  }

  /** `re.search(r'\b(w0|w1|...)\b', s) is not None`. */
  predicate SearchWords(s: string, words: seq<string>) {
    ScanWords(s, words, 0)
  }

  /** Some word of `words`, with a word boundary on both sides, occurs in `s`. */
  ghost predicate HasWord(s: string, words: seq<string>) {
    exists i, k | 0 <= i <= |s| && 0 <= k < |words| :: WordAt(s, words[k], i)
  }

  lemma {:induction false} WordsAtMeaning(s: string, words: seq<string>, i: int)
    ensures WordsAt(s, words, i) <==> exists k | 0 <= k < |words| :: WordAt(s, words[k], i)
    decreases |words|
  {
    if |words| > 0 {
      WordsAtMeaning(s, words[1..], i);
      if exists k | 0 <= k < |words| :: WordAt(s, words[k], i) {
        var k :| 0 <= k < |words| && WordAt(s, words[k], i);
        if k > 0 {
          assert words[1..][k - 1] == words[k];
        }
      }
    }
  }

  lemma {:induction false} ScanWordsMeaning(s: string, words: seq<string>, i: nat)
    ensures ScanWords(s, words, i) <==>
      exists j, k | i <= j <= |s| && 0 <= k < |words| :: WordAt(s, words[k], j)
    decreases |s| + 1 - i
  {
    if i <= |s| {
      WordsAtMeaning(s, words, i);
      ScanWordsMeaning(s, words, i + 1);
    }
  }

  /** The search succeeds exactly when some word matches between boundaries. */
  lemma SearchWordsMeaning(s: string, words: seq<string>)
    ensures SearchWords(s, words) <==> HasWord(s, words)
  {
    ScanWordsMeaning(s, words, 0);
  }
}
