/** The "trainer_v2" payload shared by the trainer exporters
    (kern/exports/trainer_kdp.py and kern/exports/trainer_cards.py): the
    vocabulary entries read from `vocab` or, failing that, from the legacy
    `items`, and the image bytes read from `assets.images`. Both exporters
    coerce the payload the same way; the loops that do it live in their
    own modules and are proved equal to the functions here. */
module TrainerVocab {
  import opened Wrappers
  import opened SeqUtil
  import opened PyValue
  import PyStr

  /** A vocabulary entry: `{"word": ..., "translation": ...}`. */
  datatype Entry = Entry(word: string, translation: string)

  /** `str(it.get(key, "")).strip()`. */
  function Field(it: Value, key: string): string
    requires it.Dict?
  {
    PyStr.Strip(Text(Get(it, key, Str(""))))
  }

  /** A field read from a dict item is free of outer whitespace. */
  lemma FieldStripped(it: Value, key: string)
    requires it.Dict?
    ensures PyStr.Strip(Field(it, key)) == Field(it, key)
  {
    PyStr.StripIdempotent(Text(Get(it, key, Str(""))));
  }

  /** The entry made from a dict item of `vocab`. */
  function V2Entry(it: Value): Entry
    requires it.Dict?
  {
    Entry(Field(it, "word"), Field(it, "translation"))
  }

  /** What the first `vocab` loop appends for one item: an entry for a
      dict, nothing for anything else. */
  function DictEntry(it: Value): Option<Entry> {
    if it.Dict? then Some(V2Entry(it)) else None
  }

  /** An entry survives the final filter when its word or its translation
      is not empty. */
  predicate Kept(e: Entry) {
    e.word != [] || e.translation != []
  }

  /** `[v for v in out if v["word"] or v["translation"]]`, one entry at a
      time. */
  function KeptEntry(e: Entry): Option<Entry> {
    if Kept(e) then Some(e) else None
  }

  /** The legacy term of a dict item. */
  function Term(it: Value): string
    requires it.Dict?
  {
    Field(it, "term")
  }

  /** What the legacy loop of trainer_kdp.py appends for one item: an entry
      with an empty translation for a dict with a non-empty term. */
  function LegacyEntry(it: Value): Option<Entry> {
    if it.Dict? && Term(it) != [] then Some(Entry(Term(it), "")) else None
  }

  /** What the legacy loop of trainer_cards.py appends for one item, before
      its final filter: an entry for every dict. */
  function TermEntry(it: Value): Option<Entry> {
    if it.Dict? then Some(Entry(Term(it), "")) else None
  }

  /** The entries of a non-empty `vocab` list. */
  function V2Entries(items: seq<Value>): seq<Entry> {
    FilterMap(FilterMap(items, DictEntry), KeptEntry)
  }

  /** `_coerce_vocab(data)`: a non-empty `vocab` list decides alone;
      otherwise a non-empty legacy `items` list; otherwise nothing. */
  function CoercedVocab(data: Value): seq<Entry>
    requires data.Dict?
  {
    var vocab := Get(data, "vocab", PyNone);
    if vocab.List? && vocab.items != [] then V2Entries(vocab.items)
    else
      var items := Get(data, "items", PyNone);
      if items.List? && items.items != [] then FilterMap(items.items, LegacyEntry) else []
  }

  /** An entry comes out of a `vocab` list exactly when some dict item
      produced it and its word or translation is not empty. */
  lemma V2Members(items: seq<Value>, e: Entry)
    ensures e in V2Entries(items) <==>
      Kept(e) && exists k :: 0 <= k < |items| && items[k].Dict? && V2Entry(items[k]) == e
  {
    var all := FilterMap(items, DictEntry);
    FilterMapMembers(all, KeptEntry, e);
    FilterMapMembers(items, DictEntry, e);
    if e in V2Entries(items) {
      var j :| 0 <= j < |all| && KeptEntry(all[j]) == Some(e);
      assert e in all;
      var k :| 0 <= k < |items| && DictEntry(items[k]) == Some(e);
    }
    if Kept(e) && exists k :: 0 <= k < |items| && items[k].Dict? && V2Entry(items[k]) == e {
      var k :| 0 <= k < |items| && items[k].Dict? && V2Entry(items[k]) == e;
      assert DictEntry(items[k]) == Some(e);
      var j :| 0 <= j < |all| && all[j] == e;
      assert KeptEntry(all[j]) == Some(e);
    }
  }

  /** An entry comes out of a legacy `items` list exactly when some dict
      item has it as its non-empty term, with an empty translation. */
  lemma LegacyMembers(items: seq<Value>, e: Entry)
    ensures e in FilterMap(items, LegacyEntry) <==>
      e.word != [] && e.translation == [] &&
      exists k :: 0 <= k < |items| && items[k].Dict? && Term(items[k]) == e.word
  {
    FilterMapMembers(items, LegacyEntry, e);
    if e.word != [] && e.translation == [] &&
       exists k :: 0 <= k < |items| && items[k].Dict? && Term(items[k]) == e.word {
      var k :| 0 <= k < |items| && items[k].Dict? && Term(items[k]) == e.word;
      assert LegacyEntry(items[k]) == Some(e);
    }
  }

  /** Keeping the non-empty entries afterwards gives the same list as
      skipping blank terms while reading. */
  lemma {:induction false} TermEntriesKept(items: seq<Value>)
    ensures FilterMap(FilterMap(items, TermEntry), KeptEntry) == FilterMap(items, LegacyEntry)
  {
    if items != [] {
      var n := |items| - 1;
      var init, last := items[..n], items[n];
      TermEntriesKept(init);
      assert items == init + [last];
      FilterMapSnoc(init, last, TermEntry);
      FilterMapSnoc(init, last, LegacyEntry);
      var tail := if TermEntry(last).Some? then [TermEntry(last).value] else [];
      FilterMapAppend(FilterMap(init, TermEntry), tail, KeptEntry);
      if tail != [] {
        FilterMapSnoc([], tail[0], KeptEntry);
        assert [] + [tail[0]] == tail;
      }
    }
  }

  /** Every coerced entry has a non-empty word or translation, and both
      are free of outer whitespace. */
  lemma CoercedVocabClean(data: Value)
    requires data.Dict?
    ensures forall e :: e in CoercedVocab(data) ==>
      Kept(e) && PyStr.Strip(e.word) == e.word && PyStr.Strip(e.translation) == e.translation
  {
    var vocab := Get(data, "vocab", PyNone);
    var items := Get(data, "items", PyNone);
    forall e | e in CoercedVocab(data)
      ensures Kept(e) && PyStr.Strip(e.word) == e.word && PyStr.Strip(e.translation) == e.translation
    {
      if vocab.List? && vocab.items != [] {
        V2Members(vocab.items, e);
        var k :| 0 <= k < |vocab.items| && vocab.items[k].Dict? && V2Entry(vocab.items[k]) == e;
        FieldStripped(vocab.items[k], "word");
        FieldStripped(vocab.items[k], "translation");
      } else {
        LegacyMembers(items.items, e);
        var k :| 0 <= k < |items.items| && items.items[k].Dict? && Term(items.items[k]) == e.word;
        FieldStripped(items.items[k], "term");
        PyStr.StripEmptyIff([]);
      }
    }
  }

  /** What the image loop appends for one item: the bytes of a non-empty
      bytes value. */
  function ImageOf(v: Value): Option<seq<bv8>> {
    if v.Bytes? && v.bytes != [] then Some(v.bytes) else None
  }

  /** `_coerce_images(data)`: the non-empty bytes of `assets.images`, or
      nothing when `assets` is not a dict or `images` not a list. */
  function CoercedImages(data: Value): seq<seq<bv8>>
    requires data.Dict?
  {
    var assets := Get(data, "assets", PyNone);
    if !assets.Dict? then []
    else
      var images := Get(assets, "images", PyNone);
      if !images.List? then [] else FilterMap(images.items, ImageOf)
  }

  /** A byte string is among the images read from a list exactly when it
      is a non-empty bytes item of the list. */
  lemma ImageMembers(items: seq<Value>, b: seq<bv8>)
    ensures b in FilterMap(items, ImageOf) <==> b != [] && Bytes(b) in items
  {
    FilterMapMembers(items, ImageOf, b);
    if b != [] && Bytes(b) in items {
      var k :| 0 <= k < |items| && items[k] == Bytes(b);
      assert ImageOf(items[k]) == Some(b);
    }
  }

  /** The header line: the subtitle if there is one, else `Fach: subject`
      if there is a subject, else the exporter's own default. */
  function Meta(subtitle: string, subject: string, fallback: string): string {
    if subtitle != [] then subtitle
    else if subject != [] then "Fach: " + subject
    else fallback
  }

  /** `str(data.get("subject") or "").strip()`. */
  function Subject(data: Value): string
    requires data.Dict?
  {
    PyStr.Strip(Text(Or(Get(data, "subject", PyNone), Str(""))))
  }
}
