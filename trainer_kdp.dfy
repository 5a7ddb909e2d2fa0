/** kern/exports/trainer_kdp.py: the square KDP trainer book. One page per
    vocabulary entry (the word, its translation, and an image taken round
    robin from the uploads), then writing pages up to `min_pages`. Pages
    are descriptions of what is drawn, not canvas operations. */
module TrainerKdp {
  import opened Wrappers
  import opened SeqUtil
  import opened PyValue
  import opened TrainerVocab

  /** What stands in for an empty word. */
  const BLANK_WORD: string := "__________"

  const NOT_A_DICT: string := "export_trainer_kdp: data must be a dict"

  /** A page of the book: a word page (word or blank line, translation
      drawn when not empty, optional image), or a padding page with only
      writing lines. */
  datatype KdpPage =
    | WordPage(shown: string, translation: string, image: Option<seq<bv8>>)
    | WritingPage

  /** The book: the header text of every page and the pages in order. */
  datatype KdpBook = KdpBook(title: string, meta: string, pages: seq<KdpPage>)

  /** `_coerce_vocab(data)`: the `vocab` loop and its filter, or the legacy
      loop. */
  method CoerceVocab(data: Value) returns (out: seq<Entry>)
    requires data.Dict?
    ensures out == CoercedVocab(data)
  {
    var vocab := Get(data, "vocab", PyNone);
    if vocab.List? && vocab.items != [] {
      var all := ReadDictEntries(vocab.items);
      out := KeepNonEmpty(all);
      return;
    }
    var items := Get(data, "items", PyNone);
    if items.List? && items.items != [] {
      out := ReadLegacyEntries(items.items);
      return;
    }
    return [];
  }

  /** The `vocab` loop: an entry for every dict item. */
  method ReadDictEntries(items: seq<Value>) returns (all: seq<Entry>)
    ensures all == FilterMap(items, DictEntry)
  {
    all := [];
    for i := 0 to |items|
      invariant all == FilterMap(items[..i], DictEntry)
    {
      var it := items[i];
      FilterMapSnoc(items[..i], it, DictEntry);
      assert items[..i + 1] == items[..i] + [it];
      if it.Dict? {
        all := all + [V2Entry(it)];
      }
    }
    assert items[..|items|] == items;
  }

  /** The legacy loop: an entry for every dict item with a non-empty
      stripped term. */
  method ReadLegacyEntries(items: seq<Value>) returns (out: seq<Entry>)
    ensures out == FilterMap(items, LegacyEntry)
  {
    out := [];
    for i := 0 to |items|
      invariant out == FilterMap(items[..i], LegacyEntry)
    {
      var it := items[i];
      FilterMapSnoc(items[..i], it, LegacyEntry);
      assert items[..i + 1] == items[..i] + [it];
      if it.Dict? {
        var w := Field(it, "term");
        if w != [] {
          out := out + [Entry(w, "")];
        }
      }
    }
    assert items[..|items|] == items;
  }

  /** The closing list comprehension `[v for v in out if v["word"] or
      v["translation"]]`. */
  method KeepNonEmpty(es: seq<Entry>) returns (kept: seq<Entry>)
    ensures kept == FilterMap(es, KeptEntry)
  {
    kept := [];
    for i := 0 to |es|
      invariant kept == FilterMap(es[..i], KeptEntry)
    {
      FilterMapSnoc(es[..i], es[i], KeptEntry);
      assert es[..i + 1] == es[..i] + [es[i]];
      if Kept(es[i]) {
        kept := kept + [es[i]];
      }
    }
    assert es[..|es|] == es;
  }

  /** `_coerce_images(data)`. */
  method CoerceImages(data: Value) returns (out: seq<seq<bv8>>)
    requires data.Dict?
    ensures out == CoercedImages(data)
  {
    var assets := Get(data, "assets", PyNone);
    if !assets.Dict? {
      return [];
    }
    var imgs := Get(assets, "images", PyNone);
    if !imgs.List? {
      return [];
    }
    out := [];
    for i := 0 to |imgs.items|
      invariant out == FilterMap(imgs.items[..i], ImageOf)
    {
      var b := imgs.items[i];
      FilterMapSnoc(imgs.items[..i], b, ImageOf);
      assert imgs.items[..i + 1] == imgs.items[..i] + [b];
      if b.Bytes? && |b.bytes| > 0 {
        out := out + [b.bytes];
      }
    }
    assert imgs.items[..|imgs.items|] == imgs.items;
  }

  /** The entries the book is made of: the coerced vocabulary, or one blank
      entry when there is none. */
  function BookVocab(data: Value): (vocab: seq<Entry>)
    requires data.Dict?
    ensures |vocab| >= 1
  {
    var v := CoercedVocab(data);
    if v == [] then [Entry("", "")] else v
  }

  /** The image of the k-th word page: `images[k % len(images)]`, none
      without images. */
  function ImageFor(images: seq<seq<bv8>>, k: nat): Option<seq<bv8>> {
    if images == [] then None else Some(images[k % |images|])
  }

  /** The word page for entry e. */
  function PageFor(e: Entry, image: Option<seq<bv8>>): KdpPage {
    WordPage(if e.word != [] then e.word else BLANK_WORD, e.translation, image)
  }

  /** The page sequence: a word page per entry, then writing pages while
      fewer than `min_pages` pages exist. */
  function KdpPages(vocab: seq<Entry>, images: seq<seq<bv8>>, minPages: int): seq<KdpPage> {
    seq(|vocab|, k requires 0 <= k < |vocab| => PageFor(vocab[k], ImageFor(images, k))) +
    seq(if minPages > |vocab| then minPages - |vocab| else 0, _ => WritingPage)
  }

  /** What `export_trainer_kdp` produces: a `ValueError` for a non-dict
      payload, else the book. */
  function KdpBookOf(data: Value, title: string, subtitle: string, minPages: int): Result<KdpBook, string> {
    if !data.Dict? then Err(NOT_A_DICT)
    else
      var vocab := BookVocab(data);
      Ok(KdpBook(title, Meta(subtitle, Subject(data), "Trainer"),
                      KdpPages(vocab, CoercedImages(data), minPages)))
  }

  /** `export_trainer_kdp(data, title=..., subtitle=..., min_pages=...)`. */
  method ExportTrainerKdp(data: Value, title: string, subtitle: string, minPages: int)
    returns (r: Result<KdpBook, string>)
    ensures r == KdpBookOf(data, title, subtitle, minPages)
  {
    if !data.Dict? {
      return Err(NOT_A_DICT);
    }
    var subject := Subject(data);
    var vocab := CoerceVocab(data);
    var images := CoerceImages(data);
    if vocab == [] {
      vocab := [Entry("", "")];
    }
    var words := WordPages(vocab, images);
    var pages := PadWithWritingPages(words, minPages);
    KdpPagesPadded(vocab, images, minPages);
    r := Ok(KdpBook(title, Meta(subtitle, subject, "Trainer"), pages));
  }

  /** The word loop: one page per entry, the image counter advancing only
      when there are images. */
  method WordPages(vocab: seq<Entry>, images: seq<seq<bv8>>) returns (pages: seq<KdpPage>)
    ensures pages == KdpPages(vocab, images, 0)
  {
    pages := [];
    var imgI := 0;
    for k := 0 to |vocab|
      invariant |pages| == k
      invariant forall j :: 0 <= j < k ==> pages[j] == PageFor(vocab[j], ImageFor(images, j))
      invariant imgI == if images == [] then 0 else k
    {
      var e := vocab[k];
      var image: Option<seq<bv8>> := None;
      if images != [] {
        image := Some(images[imgI % |images|]);
        imgI := imgI + 1;
      }
      pages := pages + [PageFor(e, image)];
    }
  }

  /** The padding loop: writing pages while fewer than `min_pages` exist. */
  method PadWithWritingPages(pages: seq<KdpPage>, minPages: int) returns (padded: seq<KdpPage>)
    ensures padded == pages + seq(if minPages > |pages| then minPages - |pages| else 0, _ => WritingPage)
  {
    padded := pages;
    while |padded| < minPages
      invariant |pages| <= |padded|
      invariant |padded| <= (if minPages > |pages| then minPages else |pages|)
      invariant padded == pages + seq(|padded| - |pages|, _ => WritingPage)
      decreases minPages - |padded|
    {
      padded := padded + [WritingPage];
    }
  }

  /** The padded book is the word pages followed by the writing pages. */
  lemma KdpPagesPadded(vocab: seq<Entry>, images: seq<seq<bv8>>, minPages: int)
    ensures var words := KdpPages(vocab, images, 0);
      |words| == |vocab| &&
      KdpPages(vocab, images, minPages) ==
        words + seq(if minPages > |words| then minPages - |words| else 0, _ => WritingPage)
  {
    var words := KdpPages(vocab, images, 0);
    assert words == seq(|vocab|, k requires 0 <= k < |vocab| => PageFor(vocab[k], ImageFor(images, k))) + [];
  }

  /** The book has `max(len(vocab), min_pages)` pages, and at least one. */
  lemma KdpPageCount(data: Value, title: string, subtitle: string, minPages: int)
    requires data.Dict?
    ensures var pages := KdpBookOf(data, title, subtitle, minPages).value.pages;
      var n := |BookVocab(data)|;
      |pages| == (if minPages > n then minPages else n) && |pages| >= 1
  {
  }

  /** Page k < len(vocab) shows entry k's word (the blank line for an
      empty word) and translation, with image `k % len(images)`
      (none without images); every later page is a writing page. Existing
      word pages are never dropped. */
  lemma KdpPageLayout(data: Value, title: string, subtitle: string, minPages: int, k: nat)
    requires data.Dict?
    requires k < |KdpBookOf(data, title, subtitle, minPages).value.pages|
    ensures var vocab, images := BookVocab(data), CoercedImages(data);
      var page := KdpBookOf(data, title, subtitle, minPages).value.pages[k];
      (k < |vocab| ==> page.WordPage? && page.translation == vocab[k].translation &&
                       (vocab[k].word != [] ==> page.shown == vocab[k].word) &&
                       (vocab[k].word == [] ==> page.shown == BLANK_WORD) &&
                       (images == [] <==> page.image == None) &&
                       (images != [] ==> page.image == Some(images[k % |images|]))) &&
      (k >= |vocab| ==> page == WritingPage)
  {
  }

  /** Only a dict payload makes a book, and its header falls back to
      "Trainer" when there is neither subtitle nor subject. */
  lemma KdpRejectsNonDict(data: Value, title: string, subtitle: string, minPages: int)
    ensures KdpBookOf(data, title, subtitle, minPages).Err? <==> !data.Dict?
    ensures data.Dict? && subtitle == [] && Subject(data) == [] ==>
      KdpBookOf(data, title, subtitle, minPages).value.meta == "Trainer"
  {
  }
}
