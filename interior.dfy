/** The interior of the photo quest book (`build_interior_pdf` in app.py):
    an intro page, one mission page per slot, an outro page, then filler
    ("reflection") pages up to the minimum page count. Pages are
    descriptors holding what each page function is built from; drawing
    them is not modelled. */
module Interior {
  import opened Wrappers
  import SeqUtil
  import Arith
  import PyInt
  import RandomSource
  import opened QuestData
  import QuestSchedule
  import KdpPreflight

  type Bytes = seq<bv8>

  /** `_stable_seed`: SHA-256 of the UTF-8 text, first 8 bytes read as a
      big-endian unsigned integer. The hash itself is a parameter. */
  type SeedFn = f: string -> nat | forall s: string :: f(s) < 0x1_0000_0000_0000_0000
    witness (s: string) => 0

  /** A page descriptor: the arguments of the page function that would
      draw it. */
  datatype Page =
    | Intro(name: string)
    | MissionPage(upload: Bytes, hour: int, mission: Mission, idx: nat, total: nat, cumXp: int, totalXp: int)
    | Outro(totalXp: int)
    | Reflection(pageNo: int)

  const MAX_MISSION_PAGES: nat := 22
  const KDP_MIN_PAGES: int := 24
  const NO_UPLOADS: string := "Keine Bilder hochgeladen."

  /** `max(1, min(22, len(files)))`. */
  function MissionTotal(n: nat): (t: nat)
    ensures 1 <= t <= MAX_MISSION_PAGES
    ensures 1 <= n <= MAX_MISSION_PAGES ==> t == n
    ensures n > MAX_MISSION_PAGES ==> t == MAX_MISSION_PAGES
  {
    var m := if n < MAX_MISSION_PAGES then n else MAX_MISSION_PAGES;
    if 1 < m then m else 1
  }

  /** The hour of slot `i`: `(start_hour + i) % 24`. */
  function SlotHour(startHour: int, i: nat): (h: int)
    ensures 0 <= h < 24
    ensures (h - startHour - i) % 24 == 0
  {
    (startHour + i) % 24
  }

  /** A mission picker: the mission for an hour, drawn with a seed. */
  type Picker = (int, nat) -> Mission

  /** `pick_mission_for_time(hour, difficulty, seed)` of the shipped table,
      for a fixed difficulty. */
  function ShippedPicker(src: RandomSource.Source, difficulty: int): Picker {
    (hour: int, seed: nat) => QuestSchedule.PickMissionForTime(src, hour, difficulty, seed)
  }

  /** The mission of slot `i`, picked for the slot's hour with the seed
      `seed_base ^ i`. */
  function SlotMission(pick: Picker, startHour: int, seedBase: nat, i: nat): Mission {
    pick(SlotHour(startHour, i), PyInt.NatXor(seedBase, i))
  }

  /** The missions of the first `count` slots. */
  function SlotMissions(pick: Picker, startHour: int, seedBase: nat, count: nat): (ms: seq<Mission>)
    ensures |ms| == count
    ensures forall i :: 0 <= i < count ==> ms[i] == SlotMission(pick, startHour, seedBase, i)
  {
    seq(count, i requires 0 <= i => SlotMission(pick, startHour, seedBase, i))
  }

  /** The XP values of a list of missions. */
  function Xps(ms: seq<Mission>): (xs: seq<int>)
    ensures |xs| == |ms|
    ensures forall i :: 0 <= i < |ms| ==> xs[i] == ms[i].xp
  {
    seq(|ms|, i requires 0 <= i < |ms| => ms[i].xp)
  }

  /** `sum(xp) or 1`: the XP total, with 1 standing in for a zero sum. */
  function TotalXp(ms: seq<Mission>): (t: int)
    ensures t != 0
    ensures SeqUtil.Sum(Xps(ms)) != 0 ==> t == SeqUtil.Sum(Xps(ms))
  {
    var s := SeqUtil.Sum(Xps(ms));
    if s == 0 then 1 else s
  }

  /** The XP accumulated up to and including slot `i`. */
  function CumXp(ms: seq<Mission>, i: nat): int
    requires i < |ms|
  {
    SeqUtil.Sum(Xps(ms)[..i + 1])
  }

  /** The mission pages: slot `i` shows upload `i % len(files)`, the slot
      hour, its mission and the XP so far. */
  function MissionPages(uploads: seq<Bytes>, startHour: int, ms: seq<Mission>): (ps: seq<Page>)
    requires |uploads| > 0
    ensures |ps| == |ms|
    ensures forall i :: 0 <= i < |ms| ==>
      ps[i] == MissionPage(uploads[i % |uploads|], SlotHour(startHour, i), ms[i], i, |ms|, CumXp(ms, i), TotalXp(ms))
  {
    seq(|ms|, i requires 0 <= i < |ms| =>
      MissionPage(uploads[i % |uploads|], SlotHour(startHour, i), ms[i], i, |ms|, CumXp(ms, i), TotalXp(ms)))
  }

  /** The pages of a book whose slots hold the missions `ms`: the intro,
      the mission pages, the outro with the XP sum, then reflection pages
      up to `min_pages`. */
  function BookPages(name: string, uploads: seq<Bytes>, startHour: int, ms: seq<Mission>, minPages: int): seq<Page>
    requires |uploads| > 0
  {
    var base := [Intro(name)] + MissionPages(uploads, startHour, ms) + [Outro(SeqUtil.Sum(Xps(ms)))];
    KdpPreflight.Padded(Some(base), minPages, n => Reflection(n))
  }

  /** The page list `build_interior_pdf` renders, or the error it raises
      when there are no uploads. */
  function InteriorPages(name: string, uploads: seq<Bytes>, startHour: int, difficulty: int,
                         minPages: int, src: RandomSource.Source, seedOf: SeedFn): (r: Result<seq<Page>, string>)
    ensures r.Err? <==> uploads == []
    ensures r.Err? ==> r.error == NO_UPLOADS
  {
    if uploads == [] then Err(NO_UPLOADS)
    else
      var ms := SlotMissions(ShippedPicker(src, difficulty), startHour, seedOf(name), MissionTotal(|uploads|));
      Ok(BookPages(name, uploads, startHour, ms, minPages))
  }

  /** Python's `xs * times`. */
  function Repeat<T>(xs: seq<T>, times: nat): (r: seq<T>)
    ensures |r| == |xs| * times
  {
    if times == 0 then [] else xs + Repeat(xs, times - 1)
  }

  /** Element k of the repetition is element `k % len(xs)`: uploads are
      reused round-robin. */
  lemma {:induction false} RepeatIndex<T>(xs: seq<T>, times: nat, k: nat)
    requires |xs| > 0 && k < |xs| * times
    ensures Repeat(xs, times)[k] == xs[k % |xs|]
  {
    var n := |xs|;
    assert n * times == n + n * (times - 1);
    if k < n {
      assert k % n == k;
    } else {
      RepeatIndex(xs, times - 1, k - n);
      Arith.ModShift(k - n, n);
    }
  }

  /** `files * (total // len(files) + 1)` is long enough to take `total`
      elements from. */
  lemma RepeatLongEnough(n: nat, total: nat)
    requires n > 0
    ensures total < n * (total / n + 1)
  {
    assert total == n * (total / n) + total % n;
    assert n * (total / n + 1) == n * (total / n) + n;
  }

  /** `build_interior_pdf`: pick the missions, then lay out the pages. */
  method BuildInteriorPdf(name: string, uploads: seq<Bytes>, startHour: int, difficulty: int,
                          minPages: int, src: RandomSource.Source, seedOf: SeedFn)
    returns (r: Result<seq<Page>, string>)
    ensures r == InteriorPages(name, uploads, startHour, difficulty, minPages, src, seedOf)
  {
    if |uploads| == 0 {
      return Err(NO_UPLOADS);
    }
    var missions := PickSlotMissions(ShippedPicker(src, difficulty), startHour, seedOf(name), MissionTotal(|uploads|));
    var pages := LayOutPages(name, uploads, startHour, missions, minPages);
    return Ok(pages);
  }

  /** The first loop of `build_interior_pdf`: slot `i` gets a mission for
      the hour `(start_hour + i) % 24`, drawn with the seed `seed_base ^ i`. */
  method PickSlotMissions(pick: Picker, startHour: int, seedBase: nat, count: nat)
    returns (missions: seq<Mission>)
    ensures missions == SlotMissions(pick, startHour, seedBase, count)
  {
    missions := [];
    for i := 0 to count
      invariant missions == SlotMissions(pick, startHour, seedBase, i)
    {
      var h := (startHour + i) % 24;
      var m := pick(h, PyInt.NatXor(seedBase, i));
      missions := missions + [m];
    }
  }

  /** The rest of `build_interior_pdf`: the mission pages after the
      intro, the outro with the XP sum, and the padding to the minimum page
      count. */
  method LayOutPages(name: string, uploads: seq<Bytes>, startHour: int, missions: seq<Mission>, minPages: int)
    returns (padded: seq<Page>)
    requires |uploads| > 0
    ensures padded == BookPages(name, uploads, startHour, missions, minPages)
  {
    var pages, cum := AddMissionPages(name, uploads, startHour, missions);
    pages := pages + [Outro(cum)];
    padded := KdpPreflight.EnsureMinPages(Some(pages), minPages, n => Reflection(n));
  }

  /** The second loop of `build_interior_pdf`: the uploads repeated
      round-robin, one mission page per slot with the running XP sum. */
  method AddMissionPages(name: string, uploads: seq<Bytes>, startHour: int, missions: seq<Mission>)
    returns (pages: seq<Page>, cum: int)
    requires |uploads| > 0
    ensures pages == [Intro(name)] + MissionPages(uploads, startHour, missions)
    ensures cum == SeqUtil.Sum(Xps(missions))
  {
    var missionTotal := |missions|;
    pages := [Intro(name)];
    var repeated := RepeatUploads(uploads, missionTotal);
    var totalXp := SeqUtil.Sum(Xps(missions));
    if totalXp == 0 {
      totalXp := 1;
    }
    assert totalXp == TotalXp(missions);
    cum := 0;
    for i := 0 to missionTotal
      invariant cum == SeqUtil.Sum(Xps(missions)[..i])
      invariant pages == [Intro(name)] + MissionPages(uploads, startHour, missions)[..i]
    {
      var h := (startHour + i) % 24;
      var m := missions[i];
      cum := cum + m.xp;
      MissionPageStep(uploads, startHour, missions, i);
      pages := pages + [MissionPage(repeated[i], h, m, i, missionTotal, cum, totalXp)];
    }
    assert MissionPages(uploads, startHour, missions)[..missionTotal] == MissionPages(uploads, startHour, missions);
    assert Xps(missions)[..missionTotal] == Xps(missions);
  }

  /** `(files * (total // len(files) + 1))[:total]`: the uploads taken
      round-robin, `total` of them. */
  method RepeatUploads(uploads: seq<Bytes>, total: nat) returns (repeated: seq<Bytes>)
    requires |uploads| > 0
    ensures |repeated| == total
    ensures forall i :: 0 <= i < total ==> repeated[i] == uploads[i % |uploads|]
  {
    RepeatLongEnough(|uploads|, total);
    repeated := Repeat(uploads, total / |uploads| + 1)[..total];
    forall i | 0 <= i < total
      ensures repeated[i] == uploads[i % |uploads|]
    {
      RepeatIndex(uploads, total / |uploads| + 1, i);
    }
  }

  /** One turn of the page loop: the running sum after slot `i` is
      `CumXp(i)`, and the mission pages up to `i` extend by page `i`. */
  lemma MissionPageStep(uploads: seq<Bytes>, startHour: int, missions: seq<Mission>, i: nat)
    requires |uploads| > 0 && i < |missions|
    ensures SeqUtil.Sum(Xps(missions)[..i]) + missions[i].xp == CumXp(missions, i)
    ensures MissionPages(uploads, startHour, missions)[..i + 1] ==
      MissionPages(uploads, startHour, missions)[..i] +
      [MissionPage(uploads[i % |uploads|], (startHour + i) % 24, missions[i], i, |missions|,
                   CumXp(missions, i), TotalXp(missions))]
  {
    assert Xps(missions)[..i + 1][..i] == Xps(missions)[..i];
  }

  /** The page order and count: intro, the mission pages in slot order,
      the outro, then reflection pages numbered after them; the length is
      `max(len(missions) + 2, min_pages)`. */
  lemma BookLayout(name: string, uploads: seq<Bytes>, startHour: int, ms: seq<Mission>, minPages: int)
    requires |uploads| > 0
    ensures var pages := BookPages(name, uploads, startHour, ms, minPages);
      var t := |ms|;
      |pages| == (if minPages <= t + 2 then t + 2 else minPages) &&
      pages[0] == Intro(name) &&
      pages[t + 1] == Outro(SeqUtil.Sum(Xps(ms))) &&
      (forall k :: 1 <= k <= t ==>
         (pages[k].MissionPage? &&
          pages[k].upload == uploads[(k - 1) % |uploads|] &&
          pages[k].hour == (startHour + k - 1) % 24 &&
          pages[k].mission == ms[k - 1] &&
          pages[k].idx == k - 1 && pages[k].total == t)) &&
      (forall k :: t + 2 <= k < |pages| ==> pages[k] == Reflection(k + 1))
  {
    var base := [Intro(name)] + MissionPages(uploads, startHour, ms) + [Outro(SeqUtil.Sum(Xps(ms)))];
    var pages := KdpPreflight.Padded(Some(base), minPages, n => Reflection(n));
    KdpPreflight.PaddedLength(Some(base), minPages, n => Reflection(n));
    KdpPreflight.PaddedKeepsPrefix(Some(base), minPages, n => Reflection(n));
    var t := |ms|;
    forall k | 1 <= k <= t
      ensures pages[k] == MissionPages(uploads, startHour, ms)[k - 1]
    {
      assert pages[k] == pages[..|base|][k] == base[k];
    }
    assert pages[0] == pages[..|base|][0];
    assert pages[t + 1] == pages[..|base|][t + 1];
    forall k | t + 2 <= k < |pages|
      ensures pages[k] == Reflection(k + 1)
    {
      KdpPreflight.PaddedFillerNumbers(Some(base), minPages, n => Reflection(n), k - (t + 2));
    }
  }

  /** Slot i's mission comes from the zone of its hour and respects the
      difficulty whenever that zone has a mission easy enough. */
  lemma SlotMissionFits(src: RandomSource.Source, startHour: int, difficulty: int, seedBase: nat, i: nat)
    ensures var z := QuestSchedule.ZoneForHour(SlotHour(startHour, i));
      var m := SlotMission(ShippedPicker(src, difficulty), startHour, seedBase, i);
      m in z.missions &&
      ((exists m' :: m' in z.missions && m'.difficulty <= difficulty) ==> m.difficulty <= difficulty)
  {
  }

  /** Distinct slots get distinct seeds `seed_base ^ i`. */
  lemma SlotSeedsDistinct(seedBase: nat, i: nat, j: nat)
    requires i != j
    ensures PyInt.NatXor(seedBase, i) != PyInt.NatXor(seedBase, j)
  {
    if PyInt.NatXor(seedBase, i) == PyInt.NatXor(seedBase, j) {
      PyInt.NatXorInjective(seedBase, i, j);
    }
  }

  /** The XP shown on each mission page is the running sum, it never
      decreases when missions carry non-negative XP, and the outro shows
      the final sum, which the last mission page reaches. */
  lemma CumulativeXp(ms: seq<Mission>, i: nat, j: nat)
    requires i <= j < |ms|
    requires forall k :: 0 <= k < |ms| ==> ms[k].xp >= 0
    ensures CumXp(ms, i) <= CumXp(ms, j) <= SeqUtil.Sum(Xps(ms))
    ensures CumXp(ms, |ms| - 1) == SeqUtil.Sum(Xps(ms))
    ensures i > 0 ==> CumXp(ms, i) == CumXp(ms, i - 1) + ms[i].xp
  {
    var xs := Xps(ms);
    SeqUtil.SumPrefixMonotone(xs, i + 1, j + 1);
    SeqUtil.SumPrefixMonotone(xs, j + 1, |xs|);
    assert xs[..|xs|] == xs;
    if i > 0 {
      assert xs[..i + 1][..i] == xs[..i];
    }
  }

  // ---------------------------------------------------------------
  // The XP progress bar of `_page_mission` and the age mapping
  // ---------------------------------------------------------------

  /** Filled width of the XP bar: `bar_w * min(1.0, progress)` when
      `progress = cum_xp / max(1, total_xp)` is positive, nothing
      otherwise. */
  function ProgressFill(cumXp: int, totalXp: int, barW: real): real {
    var denom := if totalXp < 1 then 1 else totalXp;
    var progress := cumXp as real / denom as real;
    if progress > 0.0 then barW * (if progress < 1.0 then progress else 1.0) else 0.0
  }

  /** The fill never exceeds the bar and is never negative. */
  lemma ProgressFillBounds(cumXp: int, totalXp: int, barW: real)
    requires barW >= 0.0
    ensures 0.0 <= ProgressFill(cumXp, totalXp, barW) <= barW
  {
    var denom := if totalXp < 1 then 1 else totalXp;
    var progress := cumXp as real / denom as real;
    if 0.0 < progress < 1.0 {
      assert barW * progress <= barW * 1.0;
    }
  }

  /** Within 0 <= cum <= total the bar shows exactly the fraction cum/total. */
  lemma ProgressFillExact(cumXp: int, totalXp: int, barW: real)
    requires 0 <= cumXp <= totalXp && totalXp >= 1
    ensures ProgressFill(cumXp, totalXp, barW) == barW * (cumXp as real / totalXp as real)
  {
    var p := cumXp as real / totalXp as real;
    assert 0.0 <= p <= 1.0 by {
      assert cumXp as real <= totalXp as real;
    }
    if p == 0.0 {
      assert barW * p == 0.0;
    } else if p == 1.0 {
      assert barW * p == barW * 1.0;
    } else {
      assert ProgressFill(cumXp, totalXp, barW) == barW * p;
    }
  }

  /** The age slider's difficulty: 1 up to age 4, 2 up to 6, 3 up to 9,
      4 beyond. */
  function DifficultyForAge(age: int): (d: int)
    ensures 1 <= d <= 4
    ensures age <= 4 <==> d == 1
    ensures age > 9 <==> d == 4
  {
    if age <= 4 then 1 else if age <= 6 then 2 else if age <= 9 then 3 else 4
  }

  /** Older children never get an easier difficulty. */
  lemma DifficultyForAgeMonotone(a: int, b: int)
    requires a <= b
    ensures DifficultyForAge(a) <= DifficultyForAge(b)
  {
  }

  /** The minimum page count passed by the UI: 24 for the KDP book, 1
      otherwise. */
  function MinPagesForMode(mode: string): (p: int)
    ensures p == KDP_MIN_PAGES <==> mode == "KDP Buch"
    ensures p >= 1
  {
    if mode == "KDP Buch" then KDP_MIN_PAGES else 1
  }
}
