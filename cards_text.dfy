/** The text on the cards of kern/exports/trainer_cards.py: the icon
    chosen for a word, the example sentence, its wrapping into lines, and
    the QR payload with its short fallback label. */
module CardsText {
  import opened Wrappers
  import opened PyValue
  import opened TrainerVocab
  import PyStr
  import opened SeqUtil

  // ---------------------------------------------------------------
  // Icon and example sentence
  // ---------------------------------------------------------------

  const MEDICAL: seq<string> := ["pflege", "medizin", "arzt", "kranken", "hospital"]
  const FOOD: seq<string> := ["gastro", "küche", "restaurant", "service", "hotel"]
  const CRAFT: seq<string> := ["bau", "handwerk", "werk", "metall", "schweiß", "schrein"]
  const ICONS: set<string> := {"medical_cross", "fork_knife", "tools", "hammer", "briefcase"}

  /** `any(k in s for k in keywords)`. */
  predicate AnyIn(s: string, keywords: seq<string>) {
    exists k :: 0 <= k < |keywords| && PyStr.Contains(s, keywords[k])
  }

  /** The legacy slug, when it is truthy and does not strip to nothing. */
  function LegacySlug(legacy: Value): Option<string> {
    if Truthy(legacy) && PyStr.Strip(Text(legacy)) != [] then Some(PyStr.Strip(Text(legacy))) else None
  }

  /** `_choose_icon_slug(subject, word, legacy_icon_slug)`: the legacy slug
      if usable; otherwise the first keyword group found in the lower-cased
      subject (medicine, food, craft), then "hammer" in word or subject,
      then "briefcase". */
  function ChooseIconSlug(subject: string, word: string, legacy: Value): string {
    if LegacySlug(legacy).Some? then LegacySlug(legacy).value
    else
      var s, w := PyStr.Lower(PyStr.Strip(subject)), PyStr.Lower(PyStr.Strip(word));
      if AnyIn(s, MEDICAL) then "medical_cross"
      else if AnyIn(s, FOOD) then "fork_knife"
      else if AnyIn(s, CRAFT) then "tools"
      else if PyStr.Contains(w, "hammer") || PyStr.Contains(s, "hammer") then "hammer"
      else "briefcase"
  }

  /** The slug is never empty: a usable legacy slug wins; otherwise it is
      one of the five icons, each chosen exactly when the earlier keyword
      groups are absent from the subject and its own is present. */
  lemma IconSlugChoice(subject: string, word: string, legacy: Value)
    ensures var slug := ChooseIconSlug(subject, word, legacy);
      slug != [] &&
      (LegacySlug(legacy).Some? ==> slug == LegacySlug(legacy).value) &&
      (LegacySlug(legacy).None? ==> slug in ICONS)
    ensures var slug := ChooseIconSlug(subject, word, legacy);
      var s, w := PyStr.Lower(PyStr.Strip(subject)), PyStr.Lower(PyStr.Strip(word));
      LegacySlug(legacy).None? ==>
        (slug == "medical_cross" <==> AnyIn(s, MEDICAL)) &&
        (slug == "fork_knife" <==> !AnyIn(s, MEDICAL) && AnyIn(s, FOOD)) &&
        (slug == "tools" <==> !AnyIn(s, MEDICAL) && !AnyIn(s, FOOD) && AnyIn(s, CRAFT)) &&
        (slug == "briefcase" <==>
           !AnyIn(s, MEDICAL) && !AnyIn(s, FOOD) && !AnyIn(s, CRAFT) &&
           !PyStr.Contains(w, "hammer") && !PyStr.Contains(s, "hammer"))
  {
  }

  /** A subject written with the capital sharp s, "SCHWEIẞTECHNIK"
      (given in three pieces), holds the craft keyword "schweiß" once
      lower-cased and no medical or food keyword, so it gets the tools
      icon. */
  lemma SharpSubjectIsCraft(a: string, b: string, c: string)
    requires a == "SCHWEI" && b == "\U{1e9e}" && c == "TECHNIK"
    ensures ChooseIconSlug(a + b + c, "", PyNone) == "tools"
  {
    PyStr.SharpSubjectLower(a, b, c);
    var x, y, z := PyStr.Lower(a), PyStr.Lower(b), PyStr.Lower(c);
    var s := x + y + z;
    PyStr.ContainsMiddle([], x + y, z);
    assert [] + (x + y) + z == s;
    assert CRAFT[4] == x + y;
    SharpSubjectLetters(x, y, z);
    LacksMedical(s);
    LacksFood(s);
  }

  /** None of the letters p, m, a, r, o, g and ü. */
  predicate NoKeywordLetter(c: char) {
    c !in {'p', 'm', 'a', 'r', 'o', 'g', '\U{fc}'}
  }

  lemma SharpSubjectLetters(x: string, y: string, z: string)
    requires x == "schwei" && y == "\U{df}" && z == "technik"
    ensures forall k :: 0 <= k < |x + y + z| ==> NoKeywordLetter((x + y + z)[k])
  {
    forall k | 0 <= k < |x + y + z|
      ensures NoKeywordLetter((x + y + z)[k])
    {
      if k < |x| {
        assert (x + y + z)[k] == x[k];
      } else if k < |x + y| {
        assert (x + y + z)[k] == y[k - |x|];
      } else {
        assert (x + y + z)[k] == z[k - |x + y|];
      }
    }
  }

  /** Text without the letters p, m, a, r and o holds no medical
      keyword: each of them has one of those letters. */
  lemma LacksMedical(s: string)
    requires forall k :: 0 <= k < |s| ==> NoKeywordLetter(s[k])
    ensures !AnyIn(s, MEDICAL)
  {
    PyStr.Lacks(s, MEDICAL[0], 'p');
    PyStr.Lacks(s, MEDICAL[1], 'm');
    PyStr.Lacks(s, MEDICAL[2], 'a');
    PyStr.Lacks(s, MEDICAL[3], 'r');
    PyStr.Lacks(s, MEDICAL[4], 'o');
  }

  /** Text without the letters g, ü, r and o holds no food keyword. */
  lemma LacksFood(s: string)
    requires forall k :: 0 <= k < |s| ==> NoKeywordLetter(s[k])
    ensures !AnyIn(s, FOOD)
  {
    PyStr.Lacks(s, FOOD[0], 'g');
    PyStr.Lacks(s, FOOD[1], '\U{fc}');
    PyStr.Lacks(s, FOOD[2], 'r');
    PyStr.Lacks(s, FOOD[3], 'r');
    PyStr.Lacks(s, FOOD[4], 'o');
  }

  /** `str(s).strip()` of a list element. */
  function StrippedText(v: Value): string {
    PyStr.Strip(Text(v))
  }

  /** The first `f(x)` that is not empty, in the order of `xs`. */
  function FirstNonEmpty<T>(xs: seq<T>, f: T -> string): (r: Option<string>)
    ensures r.Some? ==> r.value != []
  {
    if xs == [] then None
    else if f(xs[0]) != [] then Some(f(xs[0]))
    else FirstNonEmpty(xs[1..], f)
  }

  /** Nothing is found exactly when every `f(x)` is empty. */
  lemma {:induction false} FirstNonEmptyNone<T>(xs: seq<T>, f: T -> string)
    ensures FirstNonEmpty(xs, f).None? <==> forall k :: 0 <= k < |xs| ==> f(xs[k]) == []
  {
    if xs != [] && f(xs[0]) == [] {
      FirstNonEmptyNone(xs[1..], f);
      assert forall k :: 0 < k < |xs| ==> xs[k] == xs[1..][k - 1];
    }
  }

  /** What is found is the first `f(x)` that is not empty. */
  lemma {:induction false} FirstNonEmptyFirst<T>(xs: seq<T>, f: T -> string) returns (k: nat)
    requires FirstNonEmpty(xs, f).Some?
    ensures k < |xs| && FirstNonEmpty(xs, f).value == f(xs[k])
    ensures forall j :: 0 <= j < k ==> f(xs[j]) == []
  {
    if f(xs[0]) == [] {
      var k' := FirstNonEmptyFirst(xs[1..], f);
      k := k' + 1;
      assert forall j :: 0 < j < k ==> xs[j] == xs[1..][j - 1];
    } else {
      k := 0;
    }
  }

  /** The loop `for s in xs: if str(s).strip(): return str(s).strip()`:
      the first element that does not strip to nothing, stripped. */
  function FirstNonBlank(xs: seq<Value>): (r: Option<string>)
    ensures r.Some? ==> r.value != []
  {
    FirstNonEmpty(xs, StrippedText)
  }

  /** Nothing is found exactly when every element strips to nothing;
      otherwise the result is the first element that does not. */
  lemma FirstNonBlankIs(xs: seq<Value>)
    ensures FirstNonBlank(xs).None? <==> forall k :: 0 <= k < |xs| ==> StrippedText(xs[k]) == []
    ensures FirstNonBlank(xs).Some? ==>
      exists k :: 0 <= k < |xs| && FirstNonBlank(xs).value == StrippedText(xs[k]) &&
        forall j :: 0 <= j < k ==> StrippedText(xs[j]) == []
  {
    FirstNonEmptyNone(xs, StrippedText);
    if FirstNonBlank(xs).Some? {
      var k := FirstNonEmptyFirst(xs, StrippedText);
    }
  }

  /** The examples a dict carries under "examples", when that is a list. */
  function Examples(d: Value): seq<Value> {
    if !d.Dict? then []
    else
      var ex := Get(d, "examples", PyNone);
      if ex.List? then ex.items else []
  }

  /** The offline fallback sentence. */
  function FallbackSentence(w: string): string {
    "Ich übe das Wort: " + w + "."
  }

  /** `_pick_example_for_word(word_item, legacy)`: the first non-blank
      example of the item, else of the legacy item, else the fallback
      sentence built from the item's word (which needs the item to be a
      dict: anything else raises `AttributeError` there). */
  function PickExample(item: Value, legacy: Value): (r: Result<string, string>)
    ensures FirstNonBlank(Examples(item)).Some? ==> r == Ok(FirstNonBlank(Examples(item)).value)
    ensures FirstNonBlank(Examples(item)).None? && FirstNonBlank(Examples(legacy)).Some? ==>
      r == Ok(FirstNonBlank(Examples(legacy)).value)
    ensures FirstNonBlank(Examples(item)).None? && FirstNonBlank(Examples(legacy)).None? && item.Dict? ==>
      r == Ok(FallbackSentence(Field(item, "word")))
    ensures r.Ok? ==> r.value != []
    ensures r.Err? <==> !item.Dict? && FirstNonBlank(Examples(legacy)).None?
  {
    var own := FirstNonBlank(Examples(item));
    var inherited := FirstNonBlank(Examples(legacy));
    if own.Some? then Ok(own.value)
    else if inherited.Some? then Ok(inherited.value)
    else if item.Dict? then Ok(FallbackSentence(Field(item, "word")))
    else Err("AttributeError")
  }

  /** A coerced entry as the dict the exporter hands on. */
  function EntryValue(e: Entry): Value {
    Dict([("word", Str(e.word)), ("translation", Str(e.translation))])
  }

  /** Coerced entries carry no "examples", so the sentence on a card is a
      legacy example or the fallback, and never an error. */
  lemma EntryHasNoExamples(e: Entry, legacy: Value)
    ensures Examples(EntryValue(e)) == []
    ensures PickExample(EntryValue(e), legacy).Ok?
  {
    var d := EntryValue(e);
    assert d.entries[0].0 != "examples" && d.entries[1].0 != "examples";
    assert d.entries[1..][1..] == [];
    assert Lookup(d.entries, "examples") == Lookup(d.entries[1..][1..], "examples");
  }

  // ---------------------------------------------------------------
  // Sentence wrapping and the QR label
  // ---------------------------------------------------------------

  const MAX_CHARS: int := 42
  const MAX_LINES: int := 3

  /** Where a long line is cut: `s.rfind(" ", 0, 42)`, the last blank among
      its first 42 characters, or 42 when there is none or it comes
      first. */
  function Cut(s: string): (cut: int)
    requires |s| > MAX_CHARS
    ensures 1 <= cut <= MAX_CHARS
  {
    var c := PyStr.LastIndex(s, ' ', MAX_CHARS);
    if c <= 0 then MAX_CHARS else c
  }

  /** How the wrap loop splits a long text: the stripped head before the
      cut becomes a line and the stripped rest is wrapped on. A text that
      fits is not split. */
  function CutSplit(s: string): (string, string) {
    if |s| <= MAX_CHARS then (s, [])
    else
      var cut := Cut(s);
      (PyStr.Strip(s[..cut]), PyStr.Strip(PyStr.Slice(s, cut, |s|)))
  }

  /** A line the wrap loop writes: not empty, at most 42 characters long
      and free of outer whitespace. */
  predicate GoodLine(line: string) {
    0 < |line| <= MAX_CHARS && PyStr.Trimmed(line)
  }

  /** Lines that are all good, and no more than `room` of them. */
  predicate GoodLines(w: seq<string>, room: int) {
    |w| <= room && forall k :: 0 <= k < |w| ==> GoodLine(w[k])
  }

  /** A split rule that turns trimmed long text into a good line and a
      trimmed rest. */
  ghost predicate SplitsWell(split: string -> (string, string)) {
    forall t :: PyStr.Trimmed(t) && |t| > MAX_CHARS ==>
      GoodLine(split(t).0) && PyStr.Trimmed(split(t).1)
  }

  /** The lines the wrap loop still adds to n written ones when `s` is
      left, for a given split rule. */
  function WrapFrom(s: string, n: int, split: string -> (string, string)): seq<string>
    requires 0 <= n <= MAX_LINES
    decreases MAX_LINES - n
  {
    if |s| > MAX_CHARS && n < MAX_LINES then
      [split(s).0] + WrapFrom(split(s).1, n + 1, split)
    else if s != [] && n < MAX_LINES then [s]
    else []
  }

  /** The wrapped lines of a sentence. */
  function Wrapped(sentence: string): seq<string> {
    WrapFrom(PyStr.Strip(sentence), 0, CutSplit)
  }

  /** One turn of the wrap loop: a long text left before the third line
      gives the head of its split, then the wrapped rest. */
  lemma WrapStep(s: string, n: int, split: string -> (string, string))
    requires 0 <= n < MAX_LINES && |s| > MAX_CHARS
    ensures WrapFrom(s, n, split) == [split(s).0] + WrapFrom(split(s).1, n + 1, split)
  {
  }

  /** Where the wrap loop stops: what is left is kept as one last line if
      it is not empty and there is room for it. */
  lemma WrapLast(s: string, n: int, split: string -> (string, string))
    requires 0 <= n <= MAX_LINES
    requires |s| <= MAX_CHARS || n == MAX_LINES
    ensures WrapFrom(s, n, split) == if s != [] && n < MAX_LINES then [s] else []
  {
  }

  lemma AppendAssoc<T>(a: seq<T>, b: seq<T>, c: seq<T>)
    ensures a + (b + c) == (a + b) + c
  {
  }

  /** The loop body's cut and split are those of CutSplit. */
  lemma CutSplitOfLoop(s: string)
    requires |s| > MAX_CHARS
    ensures var c := PyStr.LastIndex(s, ' ', MAX_CHARS);
      var cut := if c <= 0 then MAX_CHARS else c;
      CutSplit(s) == (PyStr.Strip(s[..cut]), PyStr.Strip(PyStr.Slice(s, cut, |s|)))
  {
  }

  /** The wrap loop of the back page. */
  method WrapSentence(sentence: string) returns (wrapped: seq<string>)
    ensures wrapped == Wrapped(sentence)
  {
    var s := PyStr.Strip(sentence);
    wrapped := [];
    while |s| > MAX_CHARS && |wrapped| < MAX_LINES
      invariant |wrapped| <= MAX_LINES
      invariant wrapped + WrapFrom(s, |wrapped|, CutSplit) == Wrapped(sentence)
      decreases MAX_LINES - |wrapped|
    {
      var cut := PyStr.LastIndex(s, ' ', MAX_CHARS);
      if cut <= 0 {
        cut := MAX_CHARS;
      }
      CutSplitOfLoop(s);
      WrapStep(s, |wrapped|, CutSplit);
      var line, rest := PyStr.Strip(s[..cut]), PyStr.Strip(PyStr.Slice(s, cut, |s|));
      AppendAssoc(wrapped, [line], WrapFrom(rest, |wrapped| + 1, CutSplit));
      wrapped, s := wrapped + [line], rest;
    }
    WrapLast(s, |wrapped|, CutSplit);
    if s != [] && |wrapped| < MAX_LINES {
      wrapped := wrapped + [s];
    }
  }

  /** At most three lines, each non-empty, at most 42 characters long and
      free of outer whitespace; a stripped sentence of at most 42
      characters is kept whole. */
  lemma WrappedBounds(sentence: string)
    ensures GoodLines(Wrapped(sentence), MAX_LINES)
    ensures var s := PyStr.Strip(sentence);
      |s| <= MAX_CHARS ==> Wrapped(sentence) == if s == [] then [] else [s]
  {
    var s := PyStr.Strip(sentence);
    CutSplitsWell();
    PyStr.StripEnds(sentence);
    WrapFromBounds(s, 0, CutSplit);
    if |s| <= MAX_CHARS {
      WrapLast(s, 0, CutSplit);
    }
  }

  lemma {:induction false} WrapFromBounds(s: string, n: int, split: string -> (string, string))
    requires 0 <= n <= MAX_LINES && SplitsWell(split)
    requires PyStr.Trimmed(s)
    ensures GoodLines(WrapFrom(s, n, split), MAX_LINES - n)
    decreases MAX_LINES - n
  {
    if |s| > MAX_CHARS && n < MAX_LINES {
      WrapFromBounds(split(s).1, n + 1, split);
      WrapStep(s, n, split);
      var w, tail := WrapFrom(s, n, split), WrapFrom(split(s).1, n + 1, split);
      forall k | 0 <= k < |w|
        ensures GoodLine(w[k])
      {
        if k > 0 {
          assert w[k] == tail[k - 1];
        }
      }
    } else {
      WrapLast(s, n, split);
    }
  }

  /** The split of the wrap loop is a good one. */
  lemma CutSplitsWell()
    ensures SplitsWell(CutSplit)
  {
    forall t | PyStr.Trimmed(t) && |t| > MAX_CHARS
      ensures GoodLine(CutSplit(t).0) && PyStr.Trimmed(CutSplit(t).1)
    {
      var cut := Cut(t);
      LineFromCut(t, cut);
      PyStr.StripEnds(PyStr.Slice(t, cut, |t|));
    }
  }

  /** The head of trimmed text before a cut is a good line. */
  lemma LineFromCut(s: string, cut: int)
    requires PyStr.Trimmed(s)
    requires 1 <= cut <= MAX_CHARS && cut <= |s|
    ensures GoodLine(PyStr.Strip(s[..cut]))
  {
    var head := s[..cut];
    PyStr.StripSlice(head);
    PyStr.StripEnds(head);
    assert head[0] == s[0];
    assert !PyStr.AllSpace(head);
    PyStr.StripEmptyIff(head);
  }

  /** Text made of the letters a to z only. */
  predicate Letters(s: string) {
    forall k :: 0 <= k < |s| ==> 'a' <= s[k] <= 'z'
  }

  lemma LettersSlice(s: string, i: int, j: int)
    requires Letters(s) && 0 <= i <= j <= |s|
    ensures Letters(s[i..j])
  {
    forall k | 0 <= k < j - i
      ensures 'a' <= s[i..j][k] <= 'z'
    {
      assert s[i..j][k] == s[i + k];
    }
  }

  /** Text past the third line is dropped: a sentence of 130 letters keeps
      only its first 126, in lines of 42. */
  lemma WrapDropsTail(s: string)
    requires |s| == 130 && Letters(s)
    ensures Wrapped(s) == [s[..42], s[42..84], s[84..126]]
  {
    LettersSlice(s, 42, 130);
    LettersSlice(s, 84, 130);
    SliceOfSuffix(s, 42, 42);
    SliceOfSuffix(s, 84, 42);
    NoBlankStrip(s);
    NoBlankSplit(s);
    NoBlankSplit(s[42..]);
    NoBlankSplit(s[84..]);
    ThreeFullLines(s, CutSplit);
  }

  lemma ThreeFullLines(s: string, split: string -> (string, string))
    requires |s| == 130
    requires split(s) == (s[..42], s[42..])
    requires split(s[42..]) == (s[42..84], s[84..])
    requires split(s[84..]) == (s[84..126], s[126..])
    ensures WrapFrom(s, 0, split) == [s[..42], s[42..84], s[84..126]]
  {
    WrapStep(s, 0, split);
    WrapStep(s[42..], 1, split);
    WrapStep(s[84..], 2, split);
    WrapLast(s[126..], 3, split);
  }

  /** A long text of letters only is split after 42 of them. */
  lemma NoBlankSplit(s: string)
    requires |s| > MAX_CHARS && Letters(s)
    ensures CutSplit(s) == (s[..MAX_CHARS], s[MAX_CHARS..])
  {
    assert Cut(s) == MAX_CHARS;
    var head, rest := s[..MAX_CHARS], s[MAX_CHARS..];
    PyStr.SliceIndex(s, MAX_CHARS, |s|);
    LettersSlice(s, 0, MAX_CHARS);
    LettersSlice(s, MAX_CHARS, |s|);
    assert s[0..MAX_CHARS] == head && s[MAX_CHARS..|s|] == rest;
    NoBlankStrip(head);
    NoBlankStrip(rest);
  }

  /** A text of letters only strips to itself. */
  lemma NoBlankStrip(s: string)
    requires Letters(s)
    ensures PyStr.Strip(s) == s
  {
    if s != [] {
      assert !PyStr.IsSpace(s[0]) && !PyStr.IsSpace(s[|s| - 1]);
    }
    PyStr.TrimmedFixed(s);
  }

  const LABEL_MAX: int := 40

  /** The text under the QR placeholder: line breaks shown as " • ",
      stripped, and cut to 37 characters plus "..." when longer than 40. */
  function ShortLabel(payload: string): string {
    var full := PyStr.Strip(PyStr.Replace(payload, '\n', " • "));
    if |full| > LABEL_MAX then full[..37] + "..." else full
  }

  /** The label is the stripped payload with its line breaks shown as
      bullets, cut to 37 characters and an ellipsis when longer than 40:
      it fits the zone and holds no line break. */
  lemma ShortLabelFits(payload: string)
    ensures var short := ShortLabel(payload);
      |short| <= LABEL_MAX && '\n' !in short
    ensures var short, full := ShortLabel(payload), PyStr.Strip(PyStr.Replace(payload, '\n', " • "));
      (|full| <= LABEL_MAX ==> short == full) &&
      (|full| > LABEL_MAX ==> short == full[..37] + "...")
  {
    var replaced := PyStr.Replace(payload, '\n', " • ");
    var full := PyStr.Strip(replaced);
    PyStr.StripSlice(replaced);
    assert forall k :: 0 <= k < |full| ==> full[k] in replaced;
  }

  /** What the QR zone of a back card shows: the code of the payload, or
      the placeholder with its short label. */
  datatype QrZone = QrCode(payload: string) | QrPlaceholder(text: string)

  /** `f"{word}\n{sentence}".strip()`. */
  function Payload(word: string, sentence: string): string {
    PyStr.Strip(word + "\n" + sentence)
  }

}
