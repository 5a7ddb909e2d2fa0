/** The few Python `str` operations the exporters rely on, with Python's
    semantics: `strip()` (Unicode whitespace), `lower()` (Latin-1 letters),
    `in` on strings, `split(sep)`, `sep.join(parts)`, `splitlines()` and
    `rfind`. */
module PyStr {

  /** The characters for which Python's `str.isspace()` holds. */
  predicate IsSpace(c: char) {
    c == ' ' || ('\t' <= c <= '\r') || ('\U{1c}' <= c <= '\U{1f}') ||
    c == '\U{85}' || c == '\U{a0}' || c == '\U{1680}' ||
    ('\U{2000}' <= c <= '\U{200a}') || c == '\U{2028}' || c == '\U{2029}' ||
    c == '\U{202f}' || c == '\U{205f}' || c == '\U{3000}'
  }

  predicate AllSpace(s: string) {
    forall k :: 0 <= k < |s| ==> IsSpace(s[k])
  }

  /** Where the whitespace run of `s` that starts at `i` ends. */
  function LeadFrom(s: string, i: int): (n: int)
    requires 0 <= i <= |s|
    ensures i <= n <= |s|
    ensures n == |s| || !IsSpace(s[n])
    decreases |s| - i
  {
    if i < |s| && IsSpace(s[i]) then LeadFrom(s, i + 1) else i
  }

  lemma {:induction false} LeadFromSpaces(s: string, i: int)
    requires 0 <= i <= |s|
    ensures forall k :: i <= k < LeadFrom(s, i) ==> IsSpace(s[k])
    decreases |s| - i
  {
    if i < |s| && IsSpace(s[i]) {
      LeadFromSpaces(s, i + 1);
    }
  }

  /** Where the whitespace run of `s` that ends before `j` begins. */
  function TrailTo(s: string, j: int): (n: int)
    requires 0 <= j <= |s|
    ensures 0 <= n <= j
    ensures n == 0 || !IsSpace(s[n - 1])
  {
    if j > 0 && IsSpace(s[j - 1]) then TrailTo(s, j - 1) else j
  }

  lemma {:induction false} TrailToSpaces(s: string, j: int)
    requires 0 <= j <= |s|
    ensures forall k :: TrailTo(s, j) <= k < j ==> IsSpace(s[k])
  {
    if j > 0 && IsSpace(s[j - 1]) {
      TrailToSpaces(s, j - 1);
    }
  }

  /** The length of the leading whitespace of `s`. */
  function LeadLen(s: string): int {
    LeadFrom(s, 0)
  }

  /** Where the trailing whitespace of `s` begins. */
  function TrailStart(s: string): int {
    TrailTo(s, |s|)
  }

  lemma LeadSpaces(s: string)
    ensures forall k :: 0 <= k < LeadLen(s) ==> IsSpace(s[k])
  {
    LeadFromSpaces(s, 0);
  }

  lemma TrailSpaces(s: string)
    ensures forall k :: TrailStart(s) <= k < |s| ==> IsSpace(s[k])
  {
    TrailToSpaces(s, |s|);
  }

  /** Python's `s[i:j]` for 0 <= i <= j <= len(s), one character at a
      time (SliceIndex). */
  function Slice(s: string, i: int, j: int): (r: string)
    requires 0 <= i <= j <= |s|
    ensures |r| == j - i
    decreases j - i
  {
    if i == j then [] else [s[i]] + Slice(s, i + 1, j)
  }

  lemma {:induction false} SliceIndex(s: string, i: int, j: int)
    requires 0 <= i <= j <= |s|
    ensures Slice(s, i, j) == s[i..j]
    decreases j - i
  {
    if i < j {
      SliceIndex(s, i + 1, j);
      assert s[i..j] == [s[i]] + s[i + 1..j];
    }
  }

  /** Python's `s.strip()`: the slice of `s` between its leading and its
      trailing whitespace (StripSlice, StripEnds). */
  function Strip(s: string): string {
    var i, j := LeadLen(s), TrailStart(s);
    if i == |s| then []
    else
      TrailSpaces(s);
      assert i < j;
      Slice(s, i, j)
  }

  /** The stripped text is a slice of `s` with only whitespace around it. */
  lemma StripSlice(s: string)
    ensures exists i, j ::
      (0 <= i <= j <= |s| && Strip(s) == s[i..j] &&
       (forall k :: 0 <= k < i ==> IsSpace(s[k])) &&
       (forall k :: j <= k < |s| ==> IsSpace(s[k])))
  {
    var i, j := LeadLen(s), TrailStart(s);
    LeadSpaces(s);
    TrailSpaces(s);
    if i == |s| {
      assert Strip(s) == [] == s[i..i];
    } else {
      SliceIndex(s, i, j);
    }
  }

  /** Text that neither starts nor ends with whitespace. */
  predicate Trimmed(t: string) {
    t == [] || (!IsSpace(t[0]) && !IsSpace(t[|t| - 1]))
  }

  /** The stripped text neither starts nor ends with whitespace. */
  lemma StripEnds(s: string)
    ensures Trimmed(Strip(s))
  {
    var i, j := LeadLen(s), TrailStart(s);
    TrailSpaces(s);
    if i < |s| {
      SliceIndex(s, i, j);
      assert Strip(s)[0] == s[i] && Strip(s)[j - i - 1] == s[j - 1];
    }
  }

  /** Stripping trimmed text changes nothing. */
  lemma TrimmedFixed(t: string)
    requires Trimmed(t)
    ensures Strip(t) == t
  {
    if t != [] {
      assert LeadLen(t) == 0;
      assert TrailStart(t) == |t|;
      SliceIndex(t, 0, |t|);
      assert t[0..|t|] == t;
    }
  }

  /** A string strips to "" exactly when it is all whitespace. */
  lemma StripEmptyIff(s: string)
    ensures Strip(s) == [] <==> AllSpace(s)
  {
    var i := LeadLen(s);
    LeadSpaces(s);
    TrailSpaces(s);
    if i < |s| {
      assert !IsSpace(s[i]);
    }
  }

  /** Stripping twice changes nothing. */
  lemma StripIdempotent(s: string)
    ensures Strip(Strip(s)) == Strip(s)
  {
    StripEnds(s);
    TrimmedFixed(Strip(s));
  }

  /** Python's `str.lower()` of one character: A-Z and the Latin-1
      capitals (U+00C0..U+00DE except U+00D7), the capital sharp s
      U+1E9E, the Kelvin sign U+212A, the Angstrom sign U+212B, and the
      dotted capital I U+0130, which becomes "i" followed by a combining
      dot above. Other characters are returned unchanged. */
  function LowerChar(c: char): string {
    if 'A' <= c <= 'Z' then [(c as int + 32) as char]
    else if '\U{c0}' <= c <= '\U{de}' && c != '\U{d7}' then [(c as int + 32) as char]
    else if c == '\U{1e9e}' then ['\U{df}']
    else if c == '\U{212a}' then ['k']
    else if c == '\U{212b}' then ['\U{e5}']
    else if c == '\U{130}' then ['i', '\U{307}']
    else [c]
  }

  function Lower(s: string): string {
    if s == [] then [] else LowerChar(s[0]) + Lower(s[1..])
  }

  /** Lower-casing works character by character. */
  lemma {:induction false} LowerAppend(a: string, b: string)
    ensures Lower(a + b) == Lower(a) + Lower(b)
  {
    if a == [] {
      assert a + b == b;
    } else {
      assert (a + b)[1..] == a[1..] + b;
      LowerAppend(a[1..], b);
    }
  }

  /** Capitals A-Z become the small letters 32 code points above. */
  lemma {:induction false} LowerAsciiCapitals(s: string)
    requires forall k :: 0 <= k < |s| ==> 'A' <= s[k] <= 'Z'
    ensures |Lower(s)| == |s|
    ensures forall k :: 0 <= k < |s| ==> Lower(s)[k] == (s[k] as int + 32) as char
  {
    if s != [] {
      LowerAsciiCapitals(s[1..]);
    }
  }

  /** "SCHWEIẞTECHNIK" (given in three pieces) is already stripped and
      lower-cases to "schweißtechnik", with the capital sharp s becoming
      the small one. */
  lemma SharpSubjectLower(a: string, b: string, c: string)
    requires a == "SCHWEI" && b == "\U{1e9e}" && c == "TECHNIK"
    ensures Lower(Strip(a + b + c)) == Lower(a) + Lower(b) + Lower(c)
    ensures Lower(a) == "schwei" && Lower(b) == "\U{df}" && Lower(c) == "technik"
  {
    TrimmedFixed(a + b + c);
    LowerAppend(a + b, c);
    LowerAppend(a, b);
    SharpPiecesLower(a, b, c);
  }

  lemma SharpPiecesLower(a: string, b: string, c: string)
    requires a == "SCHWEI" && b == "\U{1e9e}" && c == "TECHNIK"
    ensures Lower(a) == "schwei" && Lower(b) == "\U{df}" && Lower(c) == "technik"
  {
    LowerAsciiCapitals(a);
    LowerAsciiCapitals(c);
  }

  /** Python's `needle in hay` for strings. */
  predicate Contains(hay: string, needle: string)
  {
    |needle| <= |hay| && (hay[..|needle|] == needle || Contains(hay[1..], needle))
  }

  /** A string is contained in any text that has it in the middle. */
  lemma {:induction false} ContainsMiddle(a: string, b: string, c: string)
    ensures Contains(a + b + c, b)
  {
    if a == [] {
      assert (a + b + c)[..|b|] == b;
    } else {
      assert (a + b + c)[1..] == a[1..] + b + c;
      ContainsMiddle(a[1..], b, c);
    }
  }

  /** A string contained in another has all its characters there. */
  lemma {:induction false} ContainsChars(hay: string, needle: string, k: nat)
    requires Contains(hay, needle) && k < |needle|
    ensures needle[k] in hay
  {
    if hay[..|needle|] == needle {
      assert hay[k] == needle[k];
    } else {
      ContainsChars(hay[1..], needle, k);
    }
  }

  /** A needle with a character the haystack lacks is not in it. */
  lemma Lacks(hay: string, needle: string, c: char)
    requires c in needle && c !in hay
    ensures !Contains(hay, needle)
  {
    if Contains(hay, needle) {
      var k :| 0 <= k < |needle| && needle[k] == c;
      ContainsChars(hay, needle, k);
    }
  }

  /** Index of the first occurrence of `c` in `s`, or |s|. */
  function IndexOf(s: string, c: char): (i: nat)
    ensures i <= |s|
    ensures i < |s| ==> s[i] == c
    ensures forall k :: 0 <= k < i ==> s[k] != c
  {
    if s == [] then 0
    else if s[0] == c then 0
    else 1 + IndexOf(s[1..], c)
  }

  /** Python's `s.split(sep)` for a one-character separator. */
  function Split(s: string, sep: char): (parts: seq<string>)
    ensures |parts| >= 1
    ensures forall p :: p in parts ==> sep !in p
    decreases |s|
  {
    var i := IndexOf(s, sep);
    if i == |s| then
      assert forall k :: 0 <= k < |s| ==> s[k] != sep;
      [s]
    else
      assert forall k :: 0 <= k < i ==> s[..i][k] != sep;
      [s[..i]] + Split(s[i + 1..], sep)
  }

  /** Python's `sep.join(parts)` for a one-character separator. */
  function Join(parts: seq<string>, sep: char): string {
    if parts == [] then ""
    else if |parts| == 1 then parts[0]
    else parts[0] + [sep] + Join(parts[1..], sep)
  }

  /** Splitting and joining again with the same separator restores the
      string. */
  lemma {:induction false} JoinSplit(s: string, sep: char)
    ensures Join(Split(s, sep), sep) == s
    decreases |s|
  {
    var i := IndexOf(s, sep);
    if i < |s| {
      JoinSplit(s[i + 1..], sep);
      assert s == s[..i] + [sep] + s[i + 1..];
    }
  }

  /** The line boundaries of Python's `str.splitlines()`. */
  predicate IsLineBreak(c: char) {
    c == '\n' || c == '\r' || c == '\U{b}' || c == '\U{c}' ||
    c == '\U{1c}' || c == '\U{1d}' || c == '\U{1e}' || c == '\U{85}' ||
    c == '\U{2028}' || c == '\U{2029}'
  }

  /** Index of the first line boundary of `s`, or |s|. */
  function LineEnd(s: string): (i: nat)
    ensures i <= |s|
    ensures i < |s| ==> IsLineBreak(s[i])
    ensures forall k :: 0 <= k < i ==> !IsLineBreak(s[k])
  {
    if s == [] then 0
    else if IsLineBreak(s[0]) then 0
    else 1 + LineEnd(s[1..])
  }

  /** Python's `s.splitlines()`: "\r\n" counts as one boundary, and a
      final boundary does not start an extra empty line. */
  function SplitLines(s: string): (lines: seq<string>)
    ensures forall k, j :: 0 <= k < |lines| && 0 <= j < |lines[k]| ==> !IsLineBreak(lines[k][j])
    ensures s == [] <==> lines == []
    decreases |s|
  {
    if s == [] then []
    else
      var i := LineEnd(s);
      if i == |s| then [s]
      else
        var width := BreakWidth(s, i);
        [s[..i]] + SplitLines(s[i + width..])
  }

  /** Where a line boundary is, and where the text after it starts. */
  function BreakWidth(s: string, i: nat): nat
    requires i < |s|
  {
    if s[i] == '\r' && i + 1 < |s| && s[i + 1] == '\n' then 2 else 1
  }

  /** The first line of a text with a line boundary, then the lines of
      what follows the boundary. */
  lemma SplitLinesStep(s: string)
    requires LineEnd(s) < |s|
    ensures SplitLines(s) == [s[..LineEnd(s)]] + SplitLines(s[LineEnd(s) + BreakWidth(s, LineEnd(s))..])
  {
  }

  /** Python's `s.rfind(c, 0, end)`: the last index of `c` before `end`,
      or -1. */
  function LastIndex(s: string, c: char, end: int): (r: int)
    requires 0 <= end <= |s|
    ensures -1 <= r < end
    ensures r >= 0 ==> s[r] == c
  {
    if end == 0 then -1
    else if s[end - 1] == c then end - 1
    else LastIndex(s, c, end - 1)
  }

  /** No `c` comes after LastIndex before `end`. */
  lemma {:induction false} LastIndexIsLast(s: string, c: char, end: int)
    requires 0 <= end <= |s|
    ensures forall k :: LastIndex(s, c, end) < k < end ==> s[k] != c
  {
    if end > 0 && s[end - 1] != c {
      LastIndexIsLast(s, c, end - 1);
    }
  }

  /** Python's `s.replace(c, t)` for a one-character pattern. */
  function Replace(s: string, c: char, t: string): (r: string)
    ensures c !in t ==> c !in r
    ensures c !in s ==> r == s
  {
    if s == [] then []
    else (if s[0] == c then t else [s[0]]) + Replace(s[1..], c, t)
  }
}
