/** kern/exports/trainer_cards.py: QR flash cards on A4. The vocabulary is
    cut into batches of `cols * rows` cards; each batch gives a front page
    (icon and word per card) and a back page (example sentence wrapped
    into at most three lines, and a QR code of word and sentence, or a
    short text label when no QR library is present). Pages are
    descriptions of what is drawn, not canvas operations. */
module TrainerCards {
  import opened Wrappers
  import opened SeqUtil
  import opened Arith
  import opened PyValue
  import opened TrainerVocab
  import PyStr
  import TrainerKdp
  import opened CardsGrid
  import opened CardsText

  const NOT_A_DICT: string := "export_trainer_cards: data must be a dict"

  /** The error a zero column or row count raises when the card size is
      computed. */
  const ZERO_DIVISION: string := "float division by zero"

  // ---------------------------------------------------------------
  // Reading the payload
  // ---------------------------------------------------------------

  /** `_coerce_vocab(data)`. Its legacy loop keeps every dict item and
      drops blank words afterwards (`if v["word"]`, which for an empty
      translation is the same test as the `vocab` path's). */
  method CoerceVocab(data: Value) returns (out: seq<Entry>)
    requires data.Dict?
    ensures out == CoercedVocab(data)
  {
    var vocab := Get(data, "vocab", PyNone);
    if vocab.List? && vocab.items != [] {
      var all := TrainerKdp.ReadDictEntries(vocab.items);
      out := TrainerKdp.KeepNonEmpty(all);
      return;
    }
    var items := Get(data, "items", PyNone);
    if items.List? && items.items != [] {
      var all := ReadTermEntries(items.items);
      out := TrainerKdp.KeepNonEmpty(all);
      TermEntriesKept(items.items);
      return;
    }
    return [];
  }

  /** The legacy loop: an entry with an empty translation for every dict
      item, blank terms included. */
  method ReadTermEntries(items: seq<Value>) returns (all: seq<Entry>)
    ensures all == FilterMap(items, TermEntry)
  {
    all := [];
    for i := 0 to |items|
      invariant all == FilterMap(items[..i], TermEntry)
    {
      var it := items[i];
      FilterMapSnoc(items[..i], it, TermEntry);
      assert items[..i + 1] == items[..i] + [it];
      if it.Dict? {
        all := all + [Entry(Term(it), "")];
      }
    }
    assert items[..|items|] == items;
  }

  /** The key a legacy item is stored under: its stripped term, or the
      empty string (never stored) for a non-dict item. */
  function ItemKey(it: Value): string {
    if it.Dict? then Term(it) else []
  }

  /** Each item stored under its non-empty key, a later item replacing an
      earlier one. */
  function LastByKey<T>(items: seq<T>, key: T -> string): map<string, T> {
    if items == [] then map[]
    else
      var m := LastByKey(items[..|items| - 1], key);
      var last := items[|items| - 1];
      if key(last) != [] then m[key(last) := last] else m
  }

  /** The lookup built from a legacy `items` list: every dict item with a
      non-empty stripped term, stored under that term. */
  function LookupOf(items: seq<Value>): map<string, Value> {
    LastByKey(items, ItemKey)
  }

  /** `_build_legacy_lookup(data)`: empty unless `items` is a list. */
  function LegacyLookup(data: Value): map<string, Value>
    requires data.Dict?
  {
    var items := Get(data, "items", PyNone);
    if items.List? then LookupOf(items.items) else map[]
  }

  /** The loop of `_build_legacy_lookup`. */
  method BuildLegacyLookup(data: Value) returns (lookup: map<string, Value>)
    requires data.Dict?
    ensures lookup == LegacyLookup(data)
  {
    lookup := map[];
    var items := Get(data, "items", PyNone);
    if !items.List? {
      return;
    }
    var xs := items.items;
    for i := 0 to |xs|
      invariant lookup == LastByKey(xs[..i], ItemKey)
    {
      assert xs[..i + 1][..i] == xs[..i];
      var it := xs[i];
      if it.Dict? {
        var term := Field(it, "term");
        if term != [] {
          lookup := lookup[term := it];
        }
      }
    }
    assert xs[..|xs|] == xs;
  }

  /** A key is in the map exactly when some item has it, and it maps to
      the LAST such item. */
  lemma {:induction false} LastByKeyWins<T>(items: seq<T>, key: T -> string, t: string)
    ensures t in LastByKey(items, key) <==>
      t != [] && exists k :: 0 <= k < |items| && key(items[k]) == t
    ensures t in LastByKey(items, key) ==>
      exists k :: 0 <= k < |items| && LastByKey(items, key)[t] == items[k] && key(items[k]) == t &&
        forall j :: k < j < |items| ==> key(items[j]) != t
  {
    if items != [] {
      var n := |items| - 1;
      var init, last := items[..n], items[n];
      LastByKeyWins(init, key, t);
      assert forall k :: 0 <= k < n ==> init[k] == items[k];
      if key(last) == t && t != [] {
        assert LastByKey(items, key)[t] == items[n];
      } else if t in LastByKey(items, key) {
        var k :| 0 <= k < n && LastByKey(init, key)[t] == init[k] && key(init[k]) == t &&
          forall j :: k < j < n ==> key(init[j]) != t;
        assert LastByKey(items, key)[t] == items[k];
      }
    }
  }

  /** A term is in the lookup exactly when some dict item has it as its
      non-empty term, and it maps to the LAST such item. */
  lemma LookupLastWins(items: seq<Value>, t: string)
    ensures t in LookupOf(items) <==>
      t != [] && exists k :: 0 <= k < |items| && items[k].Dict? && Term(items[k]) == t
    ensures t in LookupOf(items) ==>
      exists k :: 0 <= k < |items| && LookupOf(items)[t] == items[k] &&
        items[k].Dict? && Term(items[k]) == t &&
        forall j :: k < j < |items| ==> !(items[j].Dict? && Term(items[j]) == t)
  {
    LastByKeyWins(items, ItemKey, t);
  }

  // ---------------------------------------------------------------
  // Pages
  // ---------------------------------------------------------------

  /** A card on a front page. */
  datatype FrontCard = FrontCard(x: real, y: real, shown: string, icon: string)

  /** A card on a back page: the word, the wrapped sentence and the QR
      zone. */
  datatype BackCard = BackCard(x: real, y: real, shown: string, lines: seq<string>, qr: QrZone)

  /** A page: its header (title, meta line) and its cards. */
  datatype CardsPage =
    | FrontPage(title: string, meta: string, fronts: seq<FrontCard>)
    | BackPage(title: string, meta: string, backs: seq<BackCard>)

  /** What every card of the export shares. */
  datatype CardsCtx = CardsCtx(title: string, meta: string, subject: string,
                               lookup: map<string, Value>, grid: Grid, qrAvailable: bool)

  /** The legacy item of a word: `legacy_lookup.get(word, {}) if word
      else {}`. */
  function LegacyFor(lookup: map<string, Value>, word: string): Value {
    if word != [] && word in lookup then lookup[word] else Dict([])
  }

  /** `legacy.get("icon_slug") if isinstance(legacy, dict) else None`. */
  function IconSlugOf(legacy: Value): Value {
    if legacy.Dict? then Get(legacy, "icon_slug", PyNone) else PyNone
  }

  /** The word as drawn: a blank line stands in for an empty word. */
  function Shown(word: string): string {
    if word != [] then word else TrainerKdp.BLANK_WORD
  }

  /** The front of slot k for entry e. */
  function FrontCardOf(ctx: CardsCtx, k: int, e: Entry): FrontCard {
    var (x, y) := CardXY(ctx.grid, k);
    var legacy := LegacyFor(ctx.lookup, e.word);
    FrontCard(x, y, Shown(e.word), ChooseIconSlug(ctx.subject, e.word, IconSlugOf(legacy)))
  }

  /** The example sentence of a card: a coerced entry has no examples of
      its own, so the legacy item's first non-blank example, else the
      fallback sentence for the stripped word. */
  function SentenceFor(e: Entry, legacy: Value): string {
    var inherited := FirstNonBlank(Examples(legacy));
    if inherited.Some? then inherited.value else FallbackSentence(PyStr.Strip(e.word))
  }

  /** The sentence of a card is what `_pick_example_for_word` picks for
      the coerced entry, and it is never empty. */
  lemma SentenceIsPicked(e: Entry, legacy: Value)
    ensures PickExample(EntryValue(e), legacy) == Ok(SentenceFor(e, legacy))
    ensures SentenceFor(e, legacy) != []
  {
    EntryHasNoExamples(e, legacy);
    var d := EntryValue(e);
    assert Get(d, "word", Str("")) == Str(e.word);
  }

  /** The QR zone for a payload. */
  function QrFor(payload: string, qrAvailable: bool): QrZone {
    if qrAvailable then QrCode(payload) else QrPlaceholder(ShortLabel(payload))
  }

  /** The back of slot k for entry e. */
  function BackCardOf(ctx: CardsCtx, k: int, e: Entry): BackCard {
    var (x, y) := CardXY(ctx.grid, k);
    var sentence := SentenceFor(e, LegacyFor(ctx.lookup, e.word));
    BackCard(x, y, Shown(e.word), Wrapped(sentence), QrFor(Payload(e.word, sentence), ctx.qrAvailable))
  }

  /** The cards of a batch, slot by slot: `card(k, batch[k])` for each k. */
  function SlotsOf<E, C>(batch: seq<E>, card: (int, E) -> C): seq<C> {
    if batch == [] then []
    else
      var n := |batch| - 1;
      SlotsOf(batch[..n], card) + [card(n, batch[n])]
  }

  /** Card k of a page shows entry k of its batch in slot k. */
  lemma {:induction false} SlotsAt<E, C>(batch: seq<E>, card: (int, E) -> C)
    ensures |SlotsOf(batch, card)| == |batch|
    ensures forall k :: 0 <= k < |batch| ==> SlotsOf(batch, card)[k] == card(k, batch[k])
  {
    if batch != [] {
      var n := |batch| - 1;
      SlotsAt(batch[..n], card);
      assert forall k :: 0 <= k < n ==> batch[..n][k] == batch[k];
    }
  }

  /** The fronts of a batch. */
  function FrontsOf(ctx: CardsCtx, batch: seq<Entry>): seq<FrontCard> {
    SlotsOf(batch, (k, e) => FrontCardOf(ctx, k, e))
  }

  /** The backs of a batch. */
  function BacksOf(ctx: CardsCtx, batch: seq<Entry>): seq<BackCard> {
    SlotsOf(batch, (k, e) => BackCardOf(ctx, k, e))
  }

  function FrontPageOf(ctx: CardsCtx, batch: seq<Entry>): CardsPage {
    FrontPage(ctx.title, ctx.meta, FrontsOf(ctx, batch))
  }

  function BackPageOf(ctx: CardsCtx, batch: seq<Entry>): CardsPage {
    BackPage(ctx.title, ctx.meta, BacksOf(ctx, batch))
  }

  /** Two pages per batch: `front(b)` and then `back(b)`. */
  function PagePairs<B, P>(batches: seq<B>, front: B -> P, back: B -> P): seq<P> {
    if batches == [] then []
    else
      var n := |batches| - 1;
      PagePairs(batches[..n], front, back) + [front(batches[n]), back(batches[n])]
  }

  /** Page 2b is the front and page 2b + 1 the back of batch b. */
  lemma {:induction false} PagePairsAt<B, P>(batches: seq<B>, front: B -> P, back: B -> P)
    ensures var pages := PagePairs(batches, front, back);
      |pages| == 2 * |batches| &&
      forall b :: 0 <= b < |batches| ==> pages[2 * b] == front(batches[b]) && pages[2 * b + 1] == back(batches[b])
  {
    if batches != [] {
      var n := |batches| - 1;
      PagePairsAt(batches[..n], front, back);
      assert forall b :: 0 <= b < n ==> batches[..n][b] == batches[b];
    }
  }

  /** The front page of each batch. */
  function FrontMaker(ctx: CardsCtx): seq<Entry> -> CardsPage {
    b => FrontPageOf(ctx, b)
  }

  /** The back page of each batch. */
  function BackMaker(ctx: CardsCtx): seq<Entry> -> CardsPage {
    b => BackPageOf(ctx, b)
  }

  /** A front page and a back page per batch. */
  function DeckPages(ctx: CardsCtx, batches: seq<seq<Entry>>): seq<CardsPage> {
    PagePairs(batches, FrontMaker(ctx), BackMaker(ctx))
  }

  /** Always true: a trigger only. It marks a batch whose pages a proof
      looks into, so that `DrawsPages` is instantiated for that batch
      alone. */
  ghost predicate Looked(batch: seq<Entry>) {
    true
  }

  /** `front` and `back` draw the pages of the batches a proof looks into
      as the export does; the pages of other batches stay unopened. */
  ghost predicate DrawsPages(ctx: CardsCtx, front: seq<Entry> -> CardsPage, back: seq<Entry> -> CardsPage) {
    forall b {:trigger Looked(b)} :: Looked(b) ==> front(b) == FrontPageOf(ctx, b) && back(b) == BackPageOf(ctx, b)
  }

  /** Page 2b of a deck is the front and page 2b + 1 the back of batch b. */
  lemma DeckPagesAt(ctx: CardsCtx, batches: seq<seq<Entry>>)
    ensures var pages := DeckPages(ctx, batches);
      |pages| == 2 * |batches| &&
      forall b :: 0 <= b < |batches| ==>
        pages[2 * b] == FrontPageOf(ctx, batches[b]) && pages[2 * b + 1] == BackPageOf(ctx, batches[b])
  {
    PagePairsAt(batches, FrontMaker(ctx), BackMaker(ctx));
  }

  /** One more batch adds its front and back page. */
  lemma PagePairsSnoc<B, P>(batches: seq<B>, batch: B, front: B -> P, back: B -> P)
    ensures PagePairs(batches + [batch], front, back) == PagePairs(batches, front, back) + [front(batch), back(batch)]
  {
    assert (batches + [batch])[..|batches|] == batches;
  }

  /** Card k of a front page shows entry k of its batch. */
  lemma FrontAt(ctx: CardsCtx, batch: seq<Entry>, k: nat)
    requires k < |batch|
    ensures |FrontsOf(ctx, batch)| == |batch| && FrontsOf(ctx, batch)[k] == FrontCardOf(ctx, k, batch[k])
  {
    SlotsAt(batch, (k, e) => FrontCardOf(ctx, k, e));
  }

  /** Card k of a back page shows entry k of its batch. */
  lemma BackAt(ctx: CardsCtx, batch: seq<Entry>, k: nat)
    requires k < |batch|
    ensures |BacksOf(ctx, batch)| == |batch| && BacksOf(ctx, batch)[k] == BackCardOf(ctx, k, batch[k])
  {
    SlotsAt(batch, (k, e) => BackCardOf(ctx, k, e));
  }

  /** The grid and header shared by the cards of an export. */
  function CardsCtxOf(data: Value, title: string, subtitle: string, pol: CardsPolicy,
                      pageW: real, pageH: real, qrAvailable: bool): CardsCtx
    requires data.Dict? && pol.cols != 0 && pol.rows != 0
  {
    CardsCtx(title, Meta(subtitle, Subject(data), "Lernkarten"), Subject(data), LegacyLookup(data),
             GridOf(pol, pageW, pageH), qrAvailable)
  }

  /** What `export_trainer_cards` produces: a `ValueError` for a non-dict
      payload, a `ZeroDivisionError` for a zero column or row count, else
      the pages of every batch. A negative `cols * rows` makes its batch
      loop run forever (`CardsLoopDiverges`), so that case is excluded. */
  function CardsDeckOf(data: Value, title: string, subtitle: string, pol: CardsPolicy,
                       pageW: real, pageH: real, qrAvailable: bool): Result<seq<CardsPage>, string>
    requires pol.cols * pol.rows >= 0
  {
    if !data.Dict? then Err(NOT_A_DICT)
    else if pol.cols == 0 || pol.rows == 0 then Err(ZERO_DIVISION)
    else
      var ctx := CardsCtxOf(data, title, subtitle, pol, pageW, pageH, qrAvailable);
      Ok(DeckPages(ctx, Batches(TrainerKdp.BookVocab(data), pol.cols * pol.rows)))
  }

  /** The value of `start` after `turns` turns of the batch loop, which
      adds `per_page` on every turn. */
  function LoopStart(per: int, turns: nat): int {
    if turns == 0 then 0 else LoopStart(per, turns - 1) + per
  }

  /** With a negative `cols * rows` the batch loop never ends: `start`
      never rises above 0, and there is always at least one entry. */
  lemma {:induction false} CardsLoopDiverges(data: Value, pol: CardsPolicy, turns: nat)
    requires data.Dict? && pol.cols * pol.rows < 0
    ensures LoopStart(pol.cols * pol.rows, turns) <= 0 < |TrainerKdp.BookVocab(data)|
  {
    if turns > 0 {
      CardsLoopDiverges(data, pol, turns - 1);
    }
  }

  /** `vocab[start:]`, empty once start passes the end. */
  function Rest<T>(xs: seq<T>, start: nat): seq<T> {
    if start == 0 || xs == [] then xs else Rest(xs[1..], start - 1)
  }

  /** `vocab[start:start + per]`: at most `per` entries from `start` on. */
  function Chunk<T>(xs: seq<T>, start: nat, per: nat): seq<T> {
    var r := Rest(xs, start);
    if per <= |r| then r[..per] else r
  }

  /** The rest is the suffix from `start`, or nothing past the end. */
  lemma {:induction false} RestIsSuffix<T>(xs: seq<T>, start: nat)
    ensures Rest(xs, start) == if start <= |xs| then xs[start..] else []
  {
    if start > 0 && xs != [] {
      RestIsSuffix(xs[1..], start - 1);
      if start <= |xs| {
        SliceOfSuffix(xs, 1, start - 1);
      }
    }
  }

  /** `export_trainer_cards(data, title=..., subtitle=..., policy=...)` on
      a page of the given size, with or without a QR library. */
  method ExportTrainerCards(data: Value, title: string, subtitle: string, pol: CardsPolicy,
                            pageW: real, pageH: real, qrAvailable: bool)
    returns (r: Result<seq<CardsPage>, string>)
    requires pol.cols * pol.rows >= 0
    ensures r == CardsDeckOf(data, title, subtitle, pol, pageW, pageH, qrAvailable)
  {
    if !data.Dict? {
      return Err(NOT_A_DICT);
    }
    var subject, vocab, lookup := DeckInputs(data);
    if pol.cols == 0 || pol.rows == 0 {
      return Err(ZERO_DIVISION);
    }
    var per := pol.cols * pol.rows;
    var ctx := CardsCtx(title, Meta(subtitle, subject, "Lernkarten"), subject, lookup,
                        GridOf(pol, pageW, pageH), qrAvailable);
    DrawsOwnPages(ctx);
    var pages := DeckLoop(ctx, vocab, per, FrontMaker(ctx), BackMaker(ctx));
    ExportDeckIs(data, title, subtitle, pol, pageW, pageH, qrAvailable, ctx, vocab, pages);
    r := Ok(pages);
  }

  /** What the export reads before its batch loop: the subject, the
      vocabulary (one blank entry when there is none) and the legacy
      lookup. */
  method DeckInputs(data: Value) returns (subject: string, vocab: seq<Entry>, lookup: map<string, Value>)
    requires data.Dict?
    ensures subject == Subject(data)
    ensures vocab == TrainerKdp.BookVocab(data)
    ensures lookup == LegacyLookup(data)
  {
    subject := Subject(data);
    vocab := CoerceVocab(data);
    lookup := BuildLegacyLookup(data);
    if vocab == [] {
      vocab := [Entry("", "")];
    }
  }

  /** The pages of the batch loop are the export's deck. */
  lemma ExportDeckIs(data: Value, title: string, subtitle: string, pol: CardsPolicy,
                     pageW: real, pageH: real, qrAvailable: bool,
                     ctx: CardsCtx, vocab: seq<Entry>, pages: seq<CardsPage>)
    requires data.Dict? && pol.cols != 0 && pol.rows != 0 && pol.cols * pol.rows > 0
    requires ctx == CardsCtxOf(data, title, subtitle, pol, pageW, pageH, qrAvailable)
    requires vocab == TrainerKdp.BookVocab(data)
    requires pages == PagePairs(Batches(vocab, pol.cols * pol.rows), FrontMaker(ctx), BackMaker(ctx))
    ensures CardsDeckOf(data, title, subtitle, pol, pageW, pageH, qrAvailable) == Ok(pages)
  {
  }

  /** The export's own page makers draw every batch. */
  lemma DrawsOwnPages(ctx: CardsCtx)
    ensures DrawsPages(ctx, FrontMaker(ctx), BackMaker(ctx))
  {
  }

  /** The batch loop of `export_trainer_cards`: a front page and a back
      page for each slice `vocab[start:start + per]`. */
  method DeckLoop(ctx: CardsCtx, vocab: seq<Entry>, per: nat,
                  ghost front: seq<Entry> -> CardsPage, ghost back: seq<Entry> -> CardsPage)
    returns (pages: seq<CardsPage>)
    requires per > 0 && DrawsPages(ctx, front, back)
    ensures pages == PagePairs(Batches(vocab, per), front, back)
  {
    pages := [];
    var start := 0;
    ghost var done: seq<seq<Entry>> := [];
    while start < |vocab|
      invariant done + Batches(Rest(vocab, start), per) == Batches(vocab, per)
      invariant pages == PagePairs(done, front, back)
      decreases |vocab| - start
    {
      var batch := Chunk(vocab, start, per);
      BatchStep(vocab, start, per);
      pages := AddBatchPages(ctx, pages, done, batch, front, back);
      done := done + [batch];
      start := start + per;
    }
    RestIsSuffix(vocab, start);
    assert Batches(Rest(vocab, start), per) == [];
    assert done + [] == done;
  }

  /** The body of the batch loop: the front page and the back page of one
      batch. */
  method AddBatchPages(ctx: CardsCtx, pages: seq<CardsPage>, ghost done: seq<seq<Entry>>, batch: seq<Entry>,
                       ghost front: seq<Entry> -> CardsPage, ghost back: seq<Entry> -> CardsPage)
    returns (pages': seq<CardsPage>)
    requires DrawsPages(ctx, front, back)
    requires pages == PagePairs(done, front, back)
    ensures pages' == PagePairs(done + [batch], front, back)
  {
    var fronts := FrontCards(ctx, batch);
    var backs := BackCards(ctx, batch);
    pages' := pages + [FrontPage(ctx.title, ctx.meta, fronts), BackPage(ctx.title, ctx.meta, backs)];
    assert Looked(batch);
    PagePairsSnoc(done, batch, front, back);
  }

  /** One turn of the batch loop takes the next batch off the rest. */
  lemma BatchStep<T>(xs: seq<T>, start: nat, per: nat)
    requires per > 0 && start < |xs|
    ensures Batches(Rest(xs, start), per) == [Chunk(xs, start, per)] + Batches(Rest(xs, start + per), per)
  {
    RestIsSuffix(xs, start);
    RestIsSuffix(xs, start + per);
    var rest := xs[start..];
    var m := if per <= |rest| then per else |rest|;
    SliceOfSuffix(xs, start, m);
    if start + per > |xs| {
      assert rest[m..] == [];
    }
  }

  /** The front loop of a batch. */
  method FrontCards(ctx: CardsCtx, batch: seq<Entry>) returns (fronts: seq<FrontCard>)
    ensures fronts == FrontsOf(ctx, batch)
  {
    fronts := [];
    for k := 0 to |batch|
      invariant fronts == FrontsOf(ctx, batch[..k])
    {
      assert batch[..k + 1][..k] == batch[..k];
      var (x, y) := CardXY(ctx.grid, k);
      var word := batch[k].word;
      var legacy := LegacyFor(ctx.lookup, word);
      var slug := ChooseIconSlug(ctx.subject, word, IconSlugOf(legacy));
      fronts := fronts + [FrontCard(x, y, Shown(word), slug)];
    }
    assert batch[..|batch|] == batch;
  }

  /** The back loop of a batch. */
  method BackCards(ctx: CardsCtx, batch: seq<Entry>) returns (backs: seq<BackCard>)
    ensures backs == BacksOf(ctx, batch)
  {
    backs := [];
    for k := 0 to |batch|
      invariant backs == BacksOf(ctx, batch[..k])
    {
      assert batch[..k + 1][..k] == batch[..k];
      var card := BackCardAt(ctx, k, batch[k]);
      backs := backs + [card];
    }
    assert batch[..|batch|] == batch;
  }

  /** One turn of the back loop: the sentence, its wrapped lines and the
      QR zone of slot k. */
  method BackCardAt(ctx: CardsCtx, k: int, e: Entry) returns (card: BackCard)
    ensures card == BackCardOf(ctx, k, e)
  {
    var (x, y) := CardXY(ctx.grid, k);
    var sentence := SentenceFor(e, LegacyFor(ctx.lookup, e.word));
    var payload := Payload(e.word, sentence);
    var lines := WrapSentence(sentence);
    card := BackCard(x, y, Shown(e.word), lines, QrFor(payload, ctx.qrAvailable));
  }

  /** Entry i of a vocabulary is in batch `i / per` (`BatchSlot`), whose
      front page is page `2 * (i / per)` and whose back page is the one
      after it; there are two pages per batch. With the export's page
      makers (`DrawsOwnPages`), `FrontAt` and `BackAt` then say which
      cards those pages show at that slot. */
  lemma PairsSlotAt<E, P>(xs: seq<E>, per: nat, i: nat, front: seq<E> -> P, back: seq<E> -> P)
    requires per > 0 && i < |xs|
    ensures var bs := Batches(xs, per);
      var pages := PagePairs(bs, front, back);
      |pages| == 2 * |bs| && i / per < |bs| && 2 * (i / per) + 1 < |pages| &&
      pages[2 * (i / per)] == front(bs[i / per]) && pages[2 * (i / per) + 1] == back(bs[i / per])
  {
    var bs, b := Batches(xs, per), i / per;
    BatchSlot(xs, per, i);
    PagesOfBatch(bs, b, front, back);
    var pages := PagePairs(bs, front, back);
    assert pages[2 * b] == front(bs[b]) && pages[2 * b + 1] == back(bs[b]);
  }

  /** The two pages of batch b. */
  lemma PagesOfBatch<B, P>(batches: seq<B>, b: nat, front: B -> P, back: B -> P)
    requires b < |batches|
    ensures var pages := PagePairs(batches, front, back);
      |pages| == 2 * |batches| && 2 * b + 1 < |pages| &&
      pages[2 * b] == front(batches[b]) && pages[2 * b + 1] == back(batches[b])
  {
    PagePairsAt(batches, front, back);
  }
}
