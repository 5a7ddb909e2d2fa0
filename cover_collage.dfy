/** The cover of the photo quest book (cover_collage.py): the spine width
    and the cover geometry of `build_cover_collage`, the collage template
    with its deterministic choice of uploads (`_pick_indices`) and its
    thumbnail cache (`_thumb_cached`). Canvas drawing and image decoding
    are not modelled: a thumbnail is a descriptor of the upload it was
    fitted from and of its size, a tile paste is a descriptor of where it
    goes. */
module CoverCollage {
  import SeqUtil
  import Arith

  type Bytes = seq<bv8>

  // ---------------------------------------------------------------
  // `_pick_indices`
  // ---------------------------------------------------------------

  /** The stride of the index walk. */
  const STRIDE: nat := 9973

  /** The candidate of turn i: `(seed + i * 9973) % n_total`, Python's
      non-negative remainder. */
  function Candidate(n: nat, seed: int, i: nat): (idx: nat)
    requires n > 0
    ensures idx < n
  {
    (seed + i * STRIDE) % n
  }

  /** `out` before the loop: `[0]` when the hero comes first. */
  function Start(heroFirst: bool): seq<nat> {
    if heroFirst then [0] else []
  }

  /** `out` after i turns of the loop body, whatever the guard says: the
      candidate of each turn is appended unless already present. */
  function PickRun(n: nat, seed: int, heroFirst: bool, i: nat): seq<nat>
    requires n > 0
  {
    if i == 0 then Start(heroFirst)
    else
      var s := PickRun(n, seed, heroFirst, i - 1);
      var idx := Candidate(n, seed, i - 1);
      if idx in s then s else s + [idx]
  }

  /** Every run holds distinct indices below n, starts with the hero when
      asked, has seen every earlier candidate, and grows by at most one
      index per turn. */
  lemma {:induction false} PickRunValid(n: nat, seed: int, heroFirst: bool, i: nat)
    requires n > 0
    ensures var s := PickRun(n, seed, heroFirst, i);
      SeqUtil.Distinct(s) &&
      (forall k :: 0 <= k < |s| ==> s[k] < n) &&
      (forall j :: 0 <= j < i ==> Candidate(n, seed, j) in s) &&
      (heroFirst ==> |s| >= 1 && s[0] == 0) &&
      |s| <= |Start(heroFirst)| + i
  {
    if i > 0 {
      PickRunValid(n, seed, heroFirst, i - 1);
    }
  }

  /** With n coprime to the stride, the first n candidates are pairwise
      distinct. */
  lemma CandidatesDistinct(n: nat, seed: int, j: nat, k: nat)
    requires n > 0 && Arith.Gcd(n, STRIDE) == 1
    requires j < n && k < n
    requires Candidate(n, seed, j) == Candidate(n, seed, k)
    ensures j == k
  {
    var r := Candidate(n, seed, j);
    var q1, q2 := (seed + j * STRIDE) / n, (seed + k * STRIDE) / n;
    assert seed + j * STRIDE == q1 * n + r;
    assert seed + k * STRIDE == q2 * n + r;
    assert (j - k) * STRIDE == (q1 - q2) * n + 0;
    Arith.ModUnique((j - k) * STRIDE, n, q1 - q2, 0);
    Arith.CoprimeCancel(n, STRIDE, j - k);
    Arith.SmallMultipleIsZero(j - k, n);
  }

  /** After n turns every index below n has come up, so the run holds at
      least n indices. */
  lemma PickRunCovers(n: nat, seed: int, heroFirst: bool, i: nat)
    requires n > 0 && Arith.Gcd(n, STRIDE) == 1
    ensures i >= n ==> |PickRun(n, seed, heroFirst, i)| >= n
  {
    if i < n {
      return;
    }
    var s := PickRun(n, seed, heroFirst, i);
    PickRunValid(n, seed, heroFirst, i);
    var cands := seq(n, j requires 0 <= j < n => Candidate(n, seed, j));
    forall a, b | 0 <= a < b < n ensures cands[a] != cands[b] {
      if cands[a] == cands[b] {
        CandidatesDistinct(n, seed, a, b);
      }
    }
    assert SeqUtil.Elems(cands) <= SeqUtil.Elems(s);
    SeqUtil.DistinctIffCard(cands);
    SeqUtil.SubsetCard(SeqUtil.Elems(cands), SeqUtil.Elems(s));
    SeqUtil.DistinctIffCard(s);
  }

  /** When more indices are needed than there are uploads, no run ever has
      enough: the `while` loop of `_pick_indices` does not terminate. */
  lemma PickDiverges(n: nat, need: int, seed: int, heroFirst: bool, i: nat)
    requires 0 < n < need
    ensures |PickRun(n, seed, heroFirst, i)| < need
  {
    PickRunValid(n, seed, heroFirst, i);
    SeqUtil.DistinctBelowBound(PickRun(n, seed, heroFirst, i), n);
  }

  /** `_pick_indices(n_total, need, seed, hero_first)`. The loop ends only
      when `need <= n_total` and the walk visits every index, which holds
      when `n_total` is coprime to 9973; the precondition says so, and
      `PickDiverges` shows the other side. */
  method PickIndices(nTotal: int, need: int, seed: int, heroFirst: bool) returns (r: seq<nat>)
    requires nTotal <= 0 || (need <= nTotal && Arith.Gcd(nTotal, STRIDE) == 1)
    ensures nTotal <= 0 ==> r == []
    ensures nTotal > 0 ==> |r| == (if need < 0 then 0 else need)
    ensures forall k :: 0 <= k < |r| ==> r[k] < nTotal
    ensures SeqUtil.Distinct(r)
    ensures nTotal > 0 && heroFirst && need > 0 ==> r[0] == 0
    ensures nTotal > 0 ==> exists i :: r == SeqUtil.PyPrefix(PickRun(nTotal, seed, heroFirst, i), need)
  {
    if nTotal <= 0 {
      return [];
    }
    var out: seq<nat> := [];
    if heroFirst {
      out := out + [0];
    }
    var i := 0;
    while |out| < need
      invariant out == PickRun(nTotal, seed, heroFirst, i)
      invariant need >= 1 ==> |out| <= need
      invariant need < 1 ==> i == 0
      invariant i <= nTotal
      decreases nTotal - i
    {
      PickRunCovers(nTotal, seed, heroFirst, i);
      var idx := (seed + i * STRIDE) % nTotal;
      if idx !in out {
        out := out + [idx];
      }
      i := i + 1;
    }
    PickResult(nTotal, need, seed, heroFirst, i);
    r := SeqUtil.PyPrefix(out, need);
  }

  /** What the loop leaves behind once the guard fails: `out[:need]` has
      exactly `need` distinct indices below n (none when need <= 0), with
      the hero first when asked. */
  lemma PickResult(n: nat, need: int, seed: int, heroFirst: bool, i: nat)
    requires n > 0
    requires |PickRun(n, seed, heroFirst, i)| >= need
    requires need >= 1 ==> |PickRun(n, seed, heroFirst, i)| <= need
    requires need < 1 ==> i == 0
    ensures var r := SeqUtil.PyPrefix(PickRun(n, seed, heroFirst, i), need);
      |r| == (if need < 0 then 0 else need) &&
      (forall k :: 0 <= k < |r| ==> r[k] < n) &&
      SeqUtil.Distinct(r) &&
      (heroFirst && need > 0 ==> r[0] == 0)
  {
    PickRunValid(n, seed, heroFirst, i);
  }

  // ---------------------------------------------------------------
  // `_thumb_cached`
  // ---------------------------------------------------------------

  /** The cache key `(sha256(bytes).hexdigest(), w, h)`. */
  datatype Key = Key(hash: string, w: int, h: int)

  /** The thumbnail `ImageOps.fit(open(bytes), (w, h))`: which upload it
      was fitted from, and its size. */
  datatype Thumb = Thumb(source: Bytes, w: int, h: int)

  const CACHE_CAP: nat := 96

  /** The dictionary after inserting a new key: Python dictionaries keep
      insertion order, and once the size passes 96 the first-inserted key
      is popped (first in, first out; a hit does not refresh a key). */
  function Inserted(order: seq<Key>, store: map<Key, Thumb>, key: Key, im: Thumb): (seq<Key>, map<Key, Thumb>) {
    var o := order + [key];
    var s := store[key := im];
    if |o| > CACHE_CAP then (o[1..], s - {o[0]}) else (o, s)
  }

  /** An insertion keeps the keys distinct and within the cap, keeps the
      order and the map in step, keeps the new key, and when the cache was
      full evicts exactly the oldest key. */
  lemma InsertedFifo(order: seq<Key>, store: map<Key, Thumb>, key: Key, im: Thumb)
    requires SeqUtil.Distinct(order) && |order| <= CACHE_CAP
    requires forall k :: k in store <==> k in order
    requires key !in order
    ensures var (o, s) := Inserted(order, store, key, im);
      SeqUtil.Distinct(o) && |o| <= CACHE_CAP &&
      (forall k :: k in s <==> k in o) &&
      key in s && s[key] == im && o[|o| - 1] == key &&
      (|order| < CACHE_CAP ==> o == order + [key] && s.Keys == store.Keys + {key}) &&
      (|order| == CACHE_CAP ==>
         o == order[1..] + [key] && order[0] !in s &&
         (forall k :: k in order[1..] ==> k in s && s[k] == store[k]))
  {
    var (o, s) := Inserted(order, store, key, im);
    if |order| == CACHE_CAP {
      assert o == order[1..] + [key];
      assert forall k :: k in order[1..] ==> k != order[0];
    }
  }

  /** The cache of one `_render_template` call. */
  class ThumbCache {
    var order: seq<Key>
    var store: map<Key, Thumb>
    const hexOf: Bytes -> string

    /** Keys are distinct, listed in insertion order, at most 96 of them,
        and each stored thumbnail has the size of its key and was fitted
        from bytes with the key's hash. */
    ghost predicate Valid()
      reads this
    {
      SeqUtil.Distinct(order) && |order| <= CACHE_CAP &&
      (forall k :: k in store <==> k in order) &&
      (forall k :: k in store ==> store[k].w == k.w && store[k].h == k.h && hexOf(store[k].source) == k.hash)
    }

    constructor (hexOf: Bytes -> string)
      ensures Valid() && this.hexOf == hexOf
      ensures order == [] && store == map[]
    {
      this.hexOf := hexOf;
      order := [];
      store := map[];
    }

    /** `_thumb_cached(cache, img_bytes, w, h)`: a hit returns the stored
        thumbnail and changes nothing; a miss fits a new one and inserts
        it. */
    method Get(img: Bytes, w: int, h: int) returns (im: Thumb)
      requires Valid()
      modifies this
      ensures Valid()
      ensures im.w == w && im.h == h && hexOf(im.source) == hexOf(img)
      ensures var key := Key(hexOf(img), w, h);
        if key in old(store) then im == old(store)[key] && order == old(order) && store == old(store)
        else im == Thumb(img, w, h) && (order, store) == Inserted(old(order), old(store), key, im)
    {
      var key := Key(hexOf(img), w, h);
      if key in store {
        return store[key];
      }
      im := Thumb(img, w, h);
      InsertedFifo(order, store, key, im);
      order, store := Inserted(order, store, key, im).0, Inserted(order, store, key, im).1;
    }
  }

  // ---------------------------------------------------------------
  // `_render_template`
  // ---------------------------------------------------------------

  /** The side of the square collage canvas, in pixels. */
  const CANVAS: int := 2400

  /** One tile of a template: the slot of the picked upload it shows, its
      top-left corner and its size. */
  datatype Tile = Tile(slot: nat, x: int, y: int, w: int, h: int)

  /** A thumbnail pasted at a position. */
  datatype Paste = Paste(thumb: Thumb, x: int, y: int)

  /** The tiles of a template in the order they are pasted. GRID_3: 3x3
      tiles of 720 px with 18 px gaps, row by row. HERO_STRIP: a hero of
      2400 x int(2400 * 0.72) over a strip of 5 tiles of
      int((2400 - 4 * 14) / 5) px with 14 px gaps. Anything else (HERO_4):
      a hero of int(2400 * 0.72) x 2400 beside a column of 4 tiles of
      int((2400 - 3 * 14) / 4) px with 14 px gaps. */
  function Tiles(template: string): seq<Tile> {
    if template == "GRID_3" then
      seq(9, k requires 0 <= k < 9 => Tile(k, (k % 3) * (720 + 18), (k / 3) * (720 + 18), 720, 720))
    else if template == "HERO_STRIP" then
      var heroH := CANVAS * 72 / 100;
      var tile := (CANVAS - 4 * 14) / 5;
      [Tile(0, 0, 0, CANVAS, heroH)] +
      seq(5, j requires 0 <= j < 5 => Tile(1 + j, j * (tile + 14), heroH, tile, CANVAS - heroH))
    else
      var heroW := CANVAS * 72 / 100;
      var tileH := (CANVAS - 3 * 14) / 4;
      [Tile(0, 0, 0, heroW, CANVAS)] +
      seq(4, j requires 0 <= j < 4 => Tile(1 + j, heroW, j * (tileH + 14), CANVAS - heroW, tileH))
  }

  /** How many uploads a template picks: 9, 6 or 5. */
  function TemplateNeed(template: string): (need: nat)
    ensures need == |Tiles(template)|
  {
    if template == "GRID_3" then 9 else if template == "HERO_STRIP" then 6 else 5
  }

  /** The tiles are numbered by their position, lie inside the canvas,
      and do not overlap. */
  ghost predicate WellPlaced(ts: seq<Tile>) {
    (forall k :: 0 <= k < |ts| ==> ts[k].slot == k) &&
    (forall k :: 0 <= k < |ts| ==>
       0 <= ts[k].x && ts[k].x + ts[k].w <= CANVAS && 0 <= ts[k].y && ts[k].y + ts[k].h <= CANVAS &&
       ts[k].w > 0 && ts[k].h > 0) &&
    (forall a, b :: 0 <= a < b < |ts| ==>
       ts[a].x + ts[a].w <= ts[b].x || ts[b].x + ts[b].w <= ts[a].x ||
       ts[a].y + ts[a].h <= ts[b].y || ts[b].y + ts[b].h <= ts[a].y)
  }

  /** Every template's tiles are well placed. */
  lemma TilesLayout(template: string)
    ensures WellPlaced(Tiles(template))
  {
    if template == "GRID_3" {
      GridLayout();
    } else if template == "HERO_STRIP" {
      HeroStripLayout();
    } else {
      HeroColumnLayout();
    }
  }

  lemma GridLayout()
    ensures WellPlaced(Tiles("GRID_3"))
  {
    var ts := Tiles("GRID_3");
    forall k | 0 <= k < 9
      ensures ts[k] == Tile(k, (k % 3) * 738, (k / 3) * 738, 720, 720)
      ensures 0 <= k % 3 < 3 && 0 <= k / 3 < 3
    {
    }
    forall a, b | 0 <= a < b < 9
      ensures ts[a].x + ts[a].w <= ts[b].x || ts[b].x + ts[b].w <= ts[a].x ||
              ts[a].y + ts[a].h <= ts[b].y || ts[b].y + ts[b].h <= ts[a].y
    {
      GridCellsApart(a, b);
    }
  }

  /** Two different cells of the 3x3 grid differ in their column or in
      their row. */
  lemma GridCellsApart(a: nat, b: nat)
    requires a < b < 9
    ensures a % 3 != b % 3 || a / 3 != b / 3
  {
    assert a == 3 * (a / 3) + a % 3;
    assert b == 3 * (b / 3) + b % 3;
  }

  lemma HeroStripLayout()
    ensures WellPlaced(Tiles("HERO_STRIP"))
  {
    var ts := Tiles("HERO_STRIP");
    assert ts[0] == Tile(0, 0, 0, 2400, 1728);
    forall j | 0 <= j < 5
      ensures ts[1 + j] == Tile(1 + j, j * 482, 1728, 468, 672)
    {
    }
    forall a, b | 0 <= a < b < 6
      ensures ts[a].y + ts[a].h <= ts[b].y || ts[a].x + ts[a].w <= ts[b].x
    {
      if a == 0 {
        assert ts[a].y + ts[a].h <= ts[b].y;
      } else {
        assert ts[a].x + ts[a].w <= ts[b].x;
      }
    }
  }

  lemma HeroColumnLayout()
    ensures WellPlaced(Tiles("HERO_4"))
  {
    var ts := Tiles("HERO_4");
    assert ts[0] == Tile(0, 0, 0, 1728, 2400);
    forall j | 0 <= j < 4
      ensures ts[1 + j] == Tile(1 + j, 1728, j * 603, 672, 589)
    {
    }
    forall a, b | 0 <= a < b < 5
      ensures ts[a].x + ts[a].w <= ts[b].x || ts[a].y + ts[a].h <= ts[b].y
    {
      if a == 0 {
        assert ts[a].x + ts[a].w <= ts[b].x;
      } else {
        assert ts[a].y + ts[a].h <= ts[b].y;
      }
    }
  }

  /** `_render_template`: no uploads gives a blank canvas; otherwise the
      template's uploads are picked by `_pick_indices` with the given seed
      (a prefix of the pick walk) and each tile's thumbnail is fetched
      through a fresh cache and pasted at the tile's corner. */
  method RenderTemplate(uploads: seq<Bytes>, seed: nat, template: string, heroFirst: bool, hexOf: Bytes -> string)
    returns (idxs: seq<nat>, pastes: seq<Paste>)
    requires |uploads| == 0 || (TemplateNeed(template) <= |uploads| && Arith.Gcd(|uploads|, STRIDE) == 1)
    ensures |uploads| == 0 ==> idxs == [] && pastes == []
    ensures |uploads| > 0 ==> |idxs| == |pastes| == TemplateNeed(template)
    ensures |uploads| > 0 ==>
      exists i :: idxs == SeqUtil.PyPrefix(PickRun(|uploads|, seed, heroFirst, i), TemplateNeed(template))
    ensures SeqUtil.Distinct(idxs) && forall k :: 0 <= k < |idxs| ==> idxs[k] < |uploads|
    ensures |uploads| > 0 && heroFirst ==> idxs[0] == 0
    ensures forall k :: 0 <= k < |pastes| ==>
      var t := Tiles(template)[k];
      pastes[k].x == t.x && pastes[k].y == t.y &&
      pastes[k].thumb.w == t.w && pastes[k].thumb.h == t.h &&
      hexOf(pastes[k].thumb.source) == hexOf(uploads[idxs[t.slot]])
  {
    if |uploads| == 0 {
      return [], [];
    }
    var tiles := Tiles(template);
    TilesLayout(template);
    idxs := PickIndices(|uploads|, TemplateNeed(template), seed, heroFirst);
    var cache := new ThumbCache(hexOf);
    pastes := [];
    for k := 0 to |tiles|
      invariant cache.Valid() && cache.hexOf == hexOf
      invariant |pastes| == k
      invariant forall m :: 0 <= m < k ==>
        var t := tiles[m];
        pastes[m].x == t.x && pastes[m].y == t.y &&
        pastes[m].thumb.w == t.w && pastes[m].thumb.h == t.h &&
        hexOf(pastes[m].thumb.source) == hexOf(uploads[idxs[t.slot]])
    {
      var t := tiles[k];
      var im := cache.Get(uploads[idxs[t.slot]], t.w, t.h);
      pastes := pastes + [Paste(im, t.x, t.y)];
    }
  }

  // ---------------------------------------------------------------
  // Spine and cover geometry of `build_cover_collage`
  // ---------------------------------------------------------------

  /** PostScript points per inch. */
  const INCH: real := 72.0

  /** The spine factor (inches per page) used for a paper missing from the
      table. */
  const DEFAULT_FACTOR: real := 0.002252

  /** `paper_factors.get(paper, 0.002252)`. */
  function PaperFactor(factors: map<string, real>, paper: string): (f: real)
    ensures paper in factors ==> f == factors[paper]
    ensures paper !in factors ==> f == DEFAULT_FACTOR
  {
    if paper in factors then factors[paper] else DEFAULT_FACTOR
  }

  /** Python's `round(x)`: the nearest integer, ties to the even one. */
  function RoundHalfEven(x: real): (r: int)
    ensures -0.5 <= r as real - x <= 0.5
    ensures (r as real - x == 0.5 || x - r as real == 0.5) ==> r % 2 == 0
  {
    var f := x.Floor;
    var d := x - f as real;
    if d < 0.5 then f
    else if d > 0.5 then f + 1
    else if f % 2 == 0 then f else f + 1
  }

  /** Rounding never reverses the order of two numbers. */
  lemma RoundMonotone(x: real, y: real)
    requires x <= y
    ensures RoundHalfEven(x) <= RoundHalfEven(y)
  {
    var fx, fy := x.Floor, y.Floor;
    assert fx <= fy;
    if fx == fy {
      assert x - fx as real <= y - fy as real;
    }
  }

  /** The spine width in thousandths of an inch: `pages * factor` inches,
      at least 0.001 in, rounded to the nearest 0.001 in. */
  function SpineUnits(pages: int, factor: real): (t: int)
    ensures t >= 1
  {
    var unit := 0.001 * INCH;
    var sw := pages as real * factor * INCH;
    var clamped := if unit > sw then unit else sw;
    assert clamped / unit >= 1.0;
    RoundHalfEven(clamped / unit)
  }

  /** The spine width in points. */
  function SpineWidth(pages: int, factor: real): (sw: real)
    ensures sw >= 0.001 * INCH
  {
    SpineUnits(pages, factor) as real * (0.001 * INCH)
  }

  /** `max(inches, 0.001)` expressed in thousandths of an inch. */
  function Thousandths(inches: real): (t: real)
    ensures t >= 1.0
  {
    (if inches > 0.001 then inches else 0.001) * 1000.0
  }

  /** In exact arithmetic the spine width in thousandths is
      `round(1000 * max(pages * factor, 0.001))`. */
  lemma SpineUnitsInInches(pages: int, factor: real)
    ensures SpineUnits(pages, factor) == RoundHalfEven(Thousandths(pages as real * factor))
  {
    var inches := pages as real * factor;
    var unit := 0.001 * INCH;
    var sw := pages as real * factor * INCH;
    assert sw == inches * 72.0;
    var clamped := if unit > sw then unit else sw;
    assert clamped == (if inches > 0.001 then inches else 0.001) * 72.0;
  }

  /** The rounded spine is within half a thousandth of an inch of
      `max(pages * factor, 0.001)` inches. */
  lemma SpineUnitsClose(pages: int, factor: real)
    ensures -0.5 <= SpineUnits(pages, factor) as real - Thousandths(pages as real * factor) <= 0.5
  {
    SpineUnitsInInches(pages, factor);
  }

  /** More pages never make a thinner spine. */
  lemma SpineMonotone(p1: int, p2: int, factor: real)
    requires p1 <= p2 && factor >= 0.0
    ensures SpineUnits(p1, factor) <= SpineUnits(p2, factor)
  {
    ScaleMonotone(p1 as real, p2 as real, factor);
    ThousandthsMonotone(p1 as real * factor, p2 as real * factor);
    RoundMonotone(Thousandths(p1 as real * factor), Thousandths(p2 as real * factor));
    SpineUnitsInInches(p1, factor);
    SpineUnitsInInches(p2, factor);
  }

  lemma ThousandthsMonotone(x: real, y: real)
    requires x <= y
    ensures Thousandths(x) <= Thousandths(y)
  {
  }

  lemma ScaleMonotone(a: real, b: real, f: real)
    requires a <= b && f >= 0.0
    ensures a * f <= b * f
  {
    assert b * f - a * f == (b - a) * f;
  }

  /** A rectangle: lower-left corner, width and height, in points. */
  datatype Rect = Rect(x: real, y: real, w: real, h: real)

  /** The cover canvas and its regions: the back cover, the spine and the
      front cover, side by side inside the bleed; and whether the spine
      text is drawn. */
  datatype CoverLayout = CoverLayout(width: real, height: real, back: Rect, spine: Rect, front: Rect, spineText: bool)

  /** The geometry of `build_cover_collage`. */
  function Cover(pages: int, paper: string, trimIn: real, bleedIn: real,
                 factors: map<string, real>, spineTextMinPages: int): CoverLayout
  {
    var trim := trimIn * INCH;
    var bleed := bleedIn * INCH;
    var sw := SpineWidth(pages, PaperFactor(factors, paper));
    CoverLayout(2.0 * trim + sw + 2.0 * bleed, trim + 2.0 * bleed,
                Rect(bleed, bleed, trim, trim),
                Rect(bleed + trim, bleed, sw, trim),
                Rect(bleed + trim + sw, bleed, trim, trim),
                pages >= spineTextMinPages)
  }

  /** Back, spine and front are contiguous, share the bleed margin on every
      side, and fill the canvas exactly; the spine text is drawn exactly
      when the book has at least `spine_text_min_pages` pages. */
  lemma CoverRegions(pages: int, paper: string, trimIn: real, bleedIn: real,
                     factors: map<string, real>, spineTextMinPages: int)
    ensures var c := Cover(pages, paper, trimIn, bleedIn, factors, spineTextMinPages);
      var bleed := bleedIn * INCH;
      c.back.x == bleed &&
      c.back.x + c.back.w == c.spine.x &&
      c.spine.x + c.spine.w == c.front.x &&
      c.front.x + c.front.w + bleed == c.width &&
      c.back.y == c.spine.y == c.front.y == bleed &&
      c.back.h == c.spine.h == c.front.h == trimIn * INCH &&
      c.back.y + c.back.h + bleed == c.height &&
      c.spine.w == SpineUnits(pages, PaperFactor(factors, paper)) as real * 0.072 &&
      (c.spineText <==> pages >= spineTextMinPages)
  {
  }

  /** A thicker book never has a narrower cover. */
  lemma CoverWidthMonotone(p1: int, p2: int, paper: string, trimIn: real, bleedIn: real,
                           factors: map<string, real>, spineTextMinPages: int)
    requires p1 <= p2 && PaperFactor(factors, paper) >= 0.0
    ensures Cover(p1, paper, trimIn, bleedIn, factors, spineTextMinPages).width <=
            Cover(p2, paper, trimIn, bleedIn, factors, spineTextMinPages).width
  {
    SpineMonotone(p1, p2, PaperFactor(factors, paper));
  }

  /** The collage box and the title band on the front cover: inset by the
      0.42 in safe pad, the band of 1.55 in on top of the collage. */
  function FrontBoxes(c: CoverLayout): (boxes: (Rect, Rect)) {
    var pad := 0.42 * INCH;
    var band := 1.55 * INCH;
    var fx, fy, trim := c.front.x, c.front.y, c.front.w;
    (Rect(fx + pad, fy + pad, trim - 2.0 * pad, trim - 2.0 * pad - band),
     Rect(fx + pad, fy + trim - pad - band, trim - 2.0 * pad, band))
  }

  /** The collage ends where the title band starts, and both stay inside
      the front cover when the trim leaves room for them. */
  lemma FrontBoxesInside(pages: int, paper: string, trimIn: real, bleedIn: real,
                         factors: map<string, real>, spineTextMinPages: int)
    requires trimIn * INCH >= 2.0 * 0.42 * INCH + 1.55 * INCH
    ensures var c := Cover(pages, paper, trimIn, bleedIn, factors, spineTextMinPages);
      var (coll, band) := FrontBoxes(c);
      coll.y + coll.h == band.y && coll.x == band.x && coll.w == band.w &&
      c.front.x <= coll.x && coll.x + coll.w <= c.front.x + c.front.w &&
      c.front.y <= coll.y && coll.h >= 0.0 && band.y + band.h <= c.front.y + c.front.h
  {
  }
}
