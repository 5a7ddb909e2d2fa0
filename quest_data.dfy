/** The quest database: eight themed time zones covering the 24 hours of
    a day, each with its missions, and the scheduler that maps an hour to
    a zone and picks a mission from it by difficulty. */
module QuestData {
  import SeqUtil
  import PyInt

  /** One mission: movement task, thinking task, proof, XP and a
      difficulty meant to lie in 1..5. */
  datatype Mission = Mission(
    id: string, title: string, movement: string, thinking: string,
    proof: string, xp: int, difficulty: int)

  /** A half-open hour range `(start, end)`: hours h with start <= h < end. */
  datatype HourRange = HourRange(start: int, end: int)

  /** An RGB colour with components meant to lie in [0, 1]. */
  datatype Rgb = Rgb(r: real, g: real, b: real)

  datatype Zone = Zone(
    id: string, name: string, icon: string, atmosphere: string,
    questType: string, timeRanges: seq<HourRange>, color: Rgb,
    missions: seq<Mission>)

  // ---------------------------------------------------------------
  // Hour lookup (`get_zone_for_hour`)
  // ---------------------------------------------------------------

  predicate InRange(h: int, r: HourRange) {
    r.start <= h < r.end
  }

  /** Some range of the zone contains hour `h`. */
  predicate Covers(z: Zone, h: int) {
    exists r :: r in z.timeRanges && InRange(h, r)
  }

  /** Position of the first zone, in list order, that covers `h`, or
      |zones| when none does. */
  function FirstCovering(zones: seq<Zone>, h: int): (i: nat)
    ensures i <= |zones|
    ensures i < |zones| ==> Covers(zones[i], h)
    ensures forall j :: 0 <= j < i ==> !Covers(zones[j], h)
  {
    if zones == [] then 0
    else if Covers(zones[0], h) then 0
    else 1 + FirstCovering(zones[1..], h)
  }

  /** `get_zone_for_hour` over a zone table: the first zone covering
      `hour % 24` (Python's non-negative modulo), or the first zone of the
      table when no zone covers it. */
  function ZoneFor(zones: seq<Zone>, hour: int): (z: Zone)
    requires |zones| > 0
    ensures z in zones
    ensures Covers(z, hour % 24) || z == zones[0]
  {
    var i := FirstCovering(zones, hour % 24);
    if i < |zones| then zones[i] else zones[0]
  }

  /** The nested scan of `get_zone_for_hour` with its early return. */
  method GetZoneForHour(zones: seq<Zone>, hour: int) returns (z: Zone)
    requires |zones| > 0
    ensures z == ZoneFor(zones, hour)
  {
    var h := hour % 24;
    for i := 0 to |zones|
      invariant forall j :: 0 <= j < i ==> !Covers(zones[j], h)
    {
      var ranges := zones[i].timeRanges;
      for k := 0 to |ranges|
        invariant forall q :: 0 <= q < k ==> !InRange(h, ranges[q])
      {
        if ranges[k].start <= h < ranges[k].end {
          assert ranges[k] in zones[i].timeRanges && InRange(h, ranges[k]);
          return zones[i];
        }
      }
    }
    return zones[0];
  }

  /** The lookup only depends on the hour modulo 24, negative hours
      included. */
  lemma ZoneForPeriodic(zones: seq<Zone>, hour: int, days: int)
    requires |zones| > 0
    ensures ZoneFor(zones, hour + 24 * days) == ZoneFor(zones, hour)
    ensures ZoneFor(zones, hour) == ZoneFor(zones, hour % 24)
  {
    assert (hour + 24 * days) % 24 == hour % 24;
    assert (hour % 24) % 24 == hour % 24;
  }

  /** All hour ranges of a zone table, zone by zone in list order. */
  function Ranges(zones: seq<Zone>): seq<HourRange> {
    if zones == [] then [] else zones[0].timeRanges + Ranges(zones[1..])
  }

  /** How many of the ranges contain hour `h`. */
  function CountCovering(rs: seq<HourRange>, h: int): nat {
    if rs == [] then 0
    else (if InRange(h, rs[0]) then 1 else 0) + CountCovering(rs[1..], h)
  }

  lemma {:induction false} CountCoveringAppend(a: seq<HourRange>, b: seq<HourRange>, h: int)
    ensures CountCovering(a + b, h) == CountCovering(a, h) + CountCovering(b, h)
  {
    if a == [] {
      assert a + b == b;
    } else {
      assert (a + b)[1..] == a[1..] + b && (a + b)[0] == a[0];
      CountCoveringAppend(a[1..], b, h);
    }
  }

  lemma {:induction false} CountCoveringPositive(rs: seq<HourRange>, h: int)
    ensures CountCovering(rs, h) > 0 <==> exists r :: r in rs && InRange(h, r)
  {
    if rs != [] {
      CountCoveringPositive(rs[1..], h);
      assert forall r :: r in rs <==> r == rs[0] || r in rs[1..];
    }
  }

  /** A zone covering `h` contributes at least one range to the count. */
  lemma {:induction false} CoveredIsCounted(zones: seq<Zone>, h: int, j: nat)
    requires j < |zones| && Covers(zones[j], h)
    ensures CountCovering(Ranges(zones), h) >= 1
  {
    CountCoveringAppend(zones[0].timeRanges, Ranges(zones[1..]), h);
    if j == 0 {
      CountCoveringPositive(zones[0].timeRanges, h);
    } else {
      CoveredIsCounted(zones[1..], h, j - 1);
    }
  }

  /** Two different zones covering `h` make the count at least two. */
  lemma {:induction false} TwoCoversCountTwice(zones: seq<Zone>, h: int, i: nat, j: nat)
    requires i < j < |zones| && Covers(zones[i], h) && Covers(zones[j], h)
    ensures CountCovering(Ranges(zones), h) >= 2
  {
    CountCoveringAppend(zones[0].timeRanges, Ranges(zones[1..]), h);
    if i == 0 {
      CountCoveringPositive(zones[0].timeRanges, h);
      CoveredIsCounted(zones[1..], h, j - 1);
    } else {
      TwoCoversCountTwice(zones[1..], h, i - 1, j - 1);
    }
  }

  /** When exactly one range of the table contains the hour, the lookup
      needs no fallback and returns the one zone that covers it. */
  lemma UniqueCoverLookup(zones: seq<Zone>, hour: int, j: nat)
    requires j < |zones| && Covers(zones[j], hour % 24)
    requires CountCovering(Ranges(zones), hour % 24) == 1
    ensures FirstCovering(zones, hour % 24) == j
    ensures ZoneFor(zones, hour) == zones[j]
  {
    var h := hour % 24;
    var f := FirstCovering(zones, h);
    if f < j {
      TwoCoversCountTwice(zones, h, f, j);
    }
  }

  /** The ranges of the shipped table, zone by zone. */
  const SHIPPED_RANGES: seq<HourRange> := [
    HourRange(6, 9), HourRange(9, 12), HourRange(12, 13), HourRange(13, 15),
    HourRange(15, 17), HourRange(17, 19), HourRange(19, 21),
    HourRange(21, 24), HourRange(0, 6)]

  /** The zone ids of the shipped table, in order. */
  const SHIPPED_ZONE_IDS: seq<string> := [
    "wachturm", "wilder_pfad", "taverne", "werkstatt", "arena", "ratssaal",
    "quellen", "trauminsel"]

  /** The facts about the shipped table that the lookup and colour lemmas
      rely on; `QuestSchedule.ShippedShapeHolds` proves them of the table. */
  predicate ShippedShape(zones: seq<Zone>) {
    |zones| == 8 && Ranges(zones) == SHIPPED_RANGES && ZoneIds(zones) == SHIPPED_ZONE_IDS &&
    zones[7].timeRanges == [HourRange(21, 24), HourRange(0, 6)] &&
    zones[7].color == Rgb(0.15, 0.15, 0.35)
  }

  /** The shipped ranges partition the day: every hour 0..23 lies in
      exactly one of them, with `(21, 24), (0, 6)` wrapping past midnight. */
  lemma PartitionOfShippedRanges(zones: seq<Zone>, h: int)
    requires Ranges(zones) == SHIPPED_RANGES
    requires 0 <= h < 24
    ensures CountCovering(Ranges(zones), h) == 1
  {
    var L := [
      HourRange(6, 9), HourRange(9, 12), HourRange(12, 13), HourRange(13, 15),
      HourRange(15, 17), HourRange(17, 19), HourRange(19, 21),
      HourRange(21, 24), HourRange(0, 6)];
    assert L == SHIPPED_RANGES;
    assert L[9..] == [];
    assert CountCovering(L[8..], h) == (if 0 <= h < 6 then 1 else 0) + CountCovering(L[9..], h);
    assert CountCovering(L[7..], h) == (if 21 <= h < 24 then 1 else 0) + CountCovering(L[8..], h);
    assert CountCovering(L[6..], h) == (if 19 <= h < 21 then 1 else 0) + CountCovering(L[7..], h);
    assert CountCovering(L[5..], h) == (if 17 <= h < 19 then 1 else 0) + CountCovering(L[6..], h);
    assert CountCovering(L[4..], h) == (if 15 <= h < 17 then 1 else 0) + CountCovering(L[5..], h);
    assert CountCovering(L[3..], h) == (if 13 <= h < 15 then 1 else 0) + CountCovering(L[4..], h);
    assert CountCovering(L[2..], h) == (if 12 <= h < 13 then 1 else 0) + CountCovering(L[3..], h);
    assert CountCovering(L[1..], h) == (if 9 <= h < 12 then 1 else 0) + CountCovering(L[2..], h);
    assert CountCovering(L[0..], h) == (if 6 <= h < 9 then 1 else 0) + CountCovering(L[1..], h);
    assert L[0..] == L;
  }

  /** With the shipped ranges the fallback to the first zone is never
      taken, and the zone returned is the only one covering the hour. */
  lemma LookupWithShippedRanges(zones: seq<Zone>, hour: int)
    requires |zones| > 0 && Ranges(zones) == SHIPPED_RANGES
    ensures FirstCovering(zones, hour % 24) < |zones|
    ensures Covers(ZoneFor(zones, hour), hour % 24)
    ensures forall j :: 0 <= j < |zones| && Covers(zones[j], hour % 24) ==> ZoneFor(zones, hour) == zones[j]
  {
    var h := hour % 24;
    PartitionOfShippedRanges(zones, h);
    CountCoveringPositive(Ranges(zones), h);
    var r :| r in Ranges(zones) && InRange(h, r);
    var j := CoveringZoneOf(zones, h, r);
    UniqueCoverLookup(zones, hour, j);
    forall j' | 0 <= j' < |zones| && Covers(zones[j'], h) ensures ZoneFor(zones, hour) == zones[j'] {
      UniqueCoverLookup(zones, hour, j');
    }
  }

  /** A range of the table that contains `h` belongs to a zone covering `h`. */
  lemma {:induction false} CoveringZoneOf(zones: seq<Zone>, h: int, r: HourRange) returns (j: nat)
    requires r in Ranges(zones) && InRange(h, r)
    ensures j < |zones| && Covers(zones[j], h)
  {
    if r in zones[0].timeRanges {
      j := 0;
    } else {
      j := CoveringZoneOf(zones[1..], h, r);
      j := j + 1;
    }
  }

  predicate IsNight(h: int) {
    h >= 21 || h < 6
  }

  /** In a table shaped like the shipped one, the night hours and only
      they fall into the last zone, "trauminsel". */
  lemma NightZone(zones: seq<Zone>, hour: int)
    requires ShippedShape(zones)
    ensures IsNight(hour % 24) <==> ZoneFor(zones, hour) == zones[7]
    ensures IsNight(hour % 24) <==> ZoneFor(zones, hour).id == "trauminsel"
  {
    var h := hour % 24;
    LookupWithShippedRanges(zones, hour);
    var t := zones[7];
    assert t.id == SHIPPED_ZONE_IDS[7];
    if IsNight(h) {
      if h >= 21 {
        assert InRange(h, t.timeRanges[0]);
      } else {
        assert InRange(h, t.timeRanges[1]);
      }
      assert Covers(t, h);
    } else {
      assert !Covers(t, h);
      var f := FirstCovering(zones, h);
      assert f < 7;
      assert zones[f].id == SHIPPED_ZONE_IDS[f];
      assert forall k :: 0 <= k < 7 ==> SHIPPED_ZONE_IDS[k] != "trauminsel";
    }
  }

  // ---------------------------------------------------------------
  // Mission pick (`pick_mission_for_time`)
  // ---------------------------------------------------------------

  /** The missions with difficulty at most `difficulty`, in order (the
      list comprehension). */
  function AtMost(ms: seq<Mission>, difficulty: int): (r: seq<Mission>)
    ensures forall m :: m in r <==> m in ms && m.difficulty <= difficulty
    ensures |r| <= |ms|
  {
    if ms == [] then []
    else
      assert forall m :: m in ms <==> m == ms[0] || m in ms[1..];
      (if ms[0].difficulty <= difficulty then [ms[0]] else []) + AtMost(ms[1..], difficulty)
  }

  /** The pool the pick draws from: the filtered missions, or all missions
      of the zone when the filter leaves nothing. */
  function Pool(z: Zone, difficulty: int): (pool: seq<Mission>)
    ensures forall m :: m in pool ==> m in z.missions
    ensures |pool| > 0 <==> |z.missions| > 0
    ensures (exists m :: m in z.missions && m.difficulty <= difficulty) ==>
      forall m :: m in pool ==> m.difficulty <= difficulty
    ensures (forall m :: m in z.missions ==> m.difficulty > difficulty) ==> pool == z.missions
  {
    var filtered := AtMost(z.missions, difficulty);
    assert filtered != [] ==> filtered[0] in filtered;
    if filtered == [] then z.missions else filtered
  }

  // ---------------------------------------------------------------
  // Formatting and colour (`fmt_hour`, `get_hour_color`)
  // ---------------------------------------------------------------

  /** `fmt_hour`: "HH:00" with the hour modulo 24 in two digits. */
  function FmtHour(hour: int): (s: string)
    ensures |s| == 5 && s[2..] == ":00"
    ensures '0' <= s[0] <= '2' && '0' <= s[1] <= '9'
    ensures (s[0] as int - '0' as int) * 10 + (s[1] as int - '0' as int) == hour % 24
  {
    var h := hour % 24;
    [PyInt.DigitChar(h / 10), PyInt.DigitChar(h % 10)] + ":00"
  }

  const NIGHT_FACTOR: real := 0.55

  predicate UnitReal(x: real) {
    0.0 <= x <= 1.0
  }

  predicate UnitRgb(c: Rgb) {
    UnitReal(c.r) && UnitReal(c.g) && UnitReal(c.b)
  }

  /** `max(0.0, min(1.0, x))`. */
  function Clamp01(x: real): (y: real)
    ensures UnitReal(y)
    ensures UnitReal(x) ==> y == x
    ensures x < 0.0 ==> y == 0.0
    ensures x > 1.0 ==> y == 1.0
  {
    if 1.0 < x then 1.0 else if x < 0.0 then 0.0 else x
  }

  function Scale(c: Rgb, f: real): Rgb {
    Rgb(c.r * f, c.g * f, c.b * f)
  }

  // ---------------------------------------------------------------
  // Validation (`validate_quest_db`)
  // ---------------------------------------------------------------

  const ZONE_IDS_NOT_UNIQUE: string := "Zone IDs sind nicht eindeutig."
  const MISSION_IDS_NOT_UNIQUE: string := "Mission IDs sind nicht eindeutig (global)."

  function DifficultyMessage(id: string): string {
    "Mission '" + id + "' difficulty außerhalb 1..5."
  }

  predicate ValidDifficulty(m: Mission) {
    1 <= m.difficulty <= 5
  }

  function ZoneIds(zones: seq<Zone>): (ids: seq<string>)
    ensures |ids| == |zones|
    ensures forall k :: 0 <= k < |zones| ==> ids[k] == zones[k].id
  {
    seq(|zones|, k requires 0 <= k < |zones| => zones[k].id)
  }

  function MissionIdsOf(ms: seq<Mission>): (ids: seq<string>)
    ensures |ids| == |ms|
    ensures forall k :: 0 <= k < |ms| ==> ids[k] == ms[k].id
  {
    seq(|ms|, k requires 0 <= k < |ms| => ms[k].id)
  }

  /** The ids of all missions of all zones, zone by zone. */
  function MissionIds(zones: seq<Zone>): seq<string> {
    if zones == [] then [] else MissionIdsOf(zones[0].missions) + MissionIds(zones[1..])
  }

  /** The mission ids of an eight-zone table, zone by zone. */
  lemma MissionIdsOfEight(zones: seq<Zone>)
    requires |zones| == 8
    ensures MissionIds(zones) ==
      MissionIdsOf(zones[0].missions) + MissionIdsOf(zones[1].missions) +
      MissionIdsOf(zones[2].missions) + MissionIdsOf(zones[3].missions) +
      MissionIdsOf(zones[4].missions) + MissionIdsOf(zones[5].missions) +
      MissionIdsOf(zones[6].missions) + MissionIdsOf(zones[7].missions)
  {
    assert zones[8..] == [];
    MissionIdsStep(zones, 7);
    MissionIdsStep(zones, 6);
    MissionIdsStep(zones, 5);
    MissionIdsStep(zones, 4);
    MissionIdsStep(zones, 3);
    MissionIdsStep(zones, 2);
    MissionIdsStep(zones, 1);
    MissionIdsStep(zones, 0);
    assert zones[0..] == zones;
  }

  lemma MissionIdsStep(zones: seq<Zone>, k: nat)
    requires k < |zones|
    ensures MissionIds(zones[k..]) == MissionIdsOf(zones[k].missions) + MissionIds(zones[k + 1..])
  {
    assert zones[k..][1..] == zones[k + 1..];
  }

  /** The difficulty messages for a list of missions, in order. */
  function MissionIssues(ms: seq<Mission>): seq<string> {
    if ms == [] then []
    else
      var m := ms[|ms| - 1];
      MissionIssues(ms[..|ms| - 1]) + (if ValidDifficulty(m) then [] else [DifficultyMessage(m.id)])
  }

  /** The difficulty messages for all zones, in order. */
  function DifficultyIssues(zones: seq<Zone>): seq<string> {
    if zones == [] then []
    else DifficultyIssues(zones[..|zones| - 1]) + MissionIssues(zones[|zones| - 1].missions)
  }

  /** The issue list `validate_quest_db` returns for a zone table. */
  function Issues(zones: seq<Zone>): seq<string> {
    IdIssues(zones) + DifficultyIssues(zones)
  }

  /** The two uniqueness messages, each present when its check fails. */
  function IdIssues(zones: seq<Zone>): seq<string> {
    (if HasRepeats(ZoneIds(zones)) then [ZONE_IDS_NOT_UNIQUE] else []) +
    (if HasRepeats(MissionIds(zones)) then [MISSION_IDS_NOT_UNIQUE] else [])
  }

  /** Python's `len(ids) != len(set(ids))`. */
  predicate HasRepeats(ids: seq<string>) {
    |SeqUtil.Elems(ids)| != |ids|
  }

  /** `validate_quest_db` with its appending loops. */
  method ValidateQuestDb(zones: seq<Zone>) returns (issues: seq<string>)
    ensures issues == Issues(zones)
  {
    issues := [];
    if HasRepeats(ZoneIds(zones)) {
      issues := issues + [ZONE_IDS_NOT_UNIQUE];
    }
    if HasRepeats(MissionIds(zones)) {
      issues := issues + [MISSION_IDS_NOT_UNIQUE];
    }
    issues := CheckAllDifficulties(zones, issues);
  }

  /** The outer loop of `validate_quest_db` over the zones. */
  method CheckAllDifficulties(zones: seq<Zone>, issues: seq<string>) returns (out: seq<string>)
    ensures out == issues + DifficultyIssues(zones)
  {
    out := issues;
    for zi := 0 to |zones|
      invariant out == issues + DifficultyIssues(zones[..zi])
    {
      out := CheckDifficulties(zones[zi].missions, out);
      DifficultyIssuesStep(zones, zi);
    }
    assert zones[..|zones|] == zones;
  }

  /** The inner loop of `validate_quest_db`: one message per mission whose
      difficulty lies outside 1..5, appended in order. */
  method CheckDifficulties(ms: seq<Mission>, issues: seq<string>) returns (out: seq<string>)
    ensures out == issues + MissionIssues(ms)
  {
    out := issues;
    for i := 0 to |ms|
      invariant out == issues + MissionIssues(ms[..i])
    {
      var m := ms[i];
      if !(1 <= m.difficulty <= 5) {
        out := out + [DifficultyMessage(m.id)];
      }
      MissionIssuesStep(ms, i);
    }
    assert ms[..|ms|] == ms;
  }

  lemma MissionIssuesStep(ms: seq<Mission>, i: nat)
    requires i < |ms|
    ensures MissionIssues(ms[..i + 1]) ==
      MissionIssues(ms[..i]) + (if ValidDifficulty(ms[i]) then [] else [DifficultyMessage(ms[i].id)])
  {
    assert ms[..i + 1][..i] == ms[..i];
  }

  lemma DifficultyIssuesStep(zones: seq<Zone>, i: nat)
    requires i < |zones|
    ensures DifficultyIssues(zones[..i + 1]) == DifficultyIssues(zones[..i]) + MissionIssues(zones[i].missions)
  {
    assert zones[..i + 1][..i] == zones[..i];
  }

  predicate AllDifficultiesValid(zones: seq<Zone>) {
    forall z, m :: z in zones && m in z.missions ==> ValidDifficulty(m)
  }

  lemma {:induction false} MissionIssuesEmpty(ms: seq<Mission>)
    ensures MissionIssues(ms) == [] <==> forall m :: m in ms ==> ValidDifficulty(m)
  {
    if ms != [] {
      var init := ms[..|ms| - 1];
      MissionIssuesEmpty(init);
      assert ms == init + [ms[|ms| - 1]];
      assert forall m :: m in ms <==> m in init || m == ms[|ms| - 1];
    }
  }

  lemma {:induction false} DifficultyIssuesEmpty(zones: seq<Zone>)
    ensures DifficultyIssues(zones) == [] <==> AllDifficultiesValid(zones)
  {
    if zones != [] {
      var init := zones[..|zones| - 1];
      var last := zones[|zones| - 1];
      DifficultyIssuesEmpty(init);
      MissionIssuesEmpty(last.missions);
      assert zones == init + [last];
      assert forall z :: z in zones <==> z in init || z == last;
    }
  }

  /** The validator reports nothing exactly when zone ids are unique,
      mission ids are unique across all zones, and every difficulty lies
      in 1..5. */
  lemma IssuesEmptyIff(zones: seq<Zone>)
    ensures Issues(zones) == [] <==>
      SeqUtil.Distinct(ZoneIds(zones)) && SeqUtil.Distinct(MissionIds(zones)) &&
      AllDifficultiesValid(zones)
  {
    SeqUtil.DistinctIffCard(ZoneIds(zones));
    SeqUtil.DistinctIffCard(MissionIds(zones));
    DifficultyIssuesEmpty(zones);
  }

  /** The mission ids of the shipped table, in order. */
  const SHIPPED_MISSION_IDS: seq<string> := [
    "wt_01", "wt_02", "wt_03", "wp_01", "wp_02", "tv_01", "tv_02", "ws_01",
    "ws_02", "ar_01", "ar_02", "rs_01", "rs_02", "qq_01", "qq_02", "ti_01",
    "ti_02"]

  lemma ShippedMissionIdsFirstPart()
    ensures forall k :: 0 <= k < 3 ==> SHIPPED_MISSION_IDS[k] !in SHIPPED_MISSION_IDS[k + 1..]
  {
    assert "wt_01" !in ["wt_02", "wt_03", "wp_01", "wp_02", "tv_01", "tv_02", "ws_01", "ws_02", "ar_01", "ar_02", "rs_01", "rs_02", "qq_01", "qq_02", "ti_01", "ti_02"];
    assert "wt_02" !in ["wt_03", "wp_01", "wp_02", "tv_01", "tv_02", "ws_01", "ws_02", "ar_01", "ar_02", "rs_01", "rs_02", "qq_01", "qq_02", "ti_01", "ti_02"];
    assert "wt_03" !in ["wp_01", "wp_02", "tv_01", "tv_02", "ws_01", "ws_02", "ar_01", "ar_02", "rs_01", "rs_02", "qq_01", "qq_02", "ti_01", "ti_02"];
  }

  lemma ShippedMissionIdsSecondPart()
    ensures forall k :: 3 <= k < 6 ==> SHIPPED_MISSION_IDS[k] !in SHIPPED_MISSION_IDS[k + 1..]
  {
    assert "wp_01" !in ["wp_02", "tv_01", "tv_02", "ws_01", "ws_02", "ar_01", "ar_02", "rs_01", "rs_02", "qq_01", "qq_02", "ti_01", "ti_02"];
    assert "wp_02" !in ["tv_01", "tv_02", "ws_01", "ws_02", "ar_01", "ar_02", "rs_01", "rs_02", "qq_01", "qq_02", "ti_01", "ti_02"];
    assert "tv_01" !in ["tv_02", "ws_01", "ws_02", "ar_01", "ar_02", "rs_01", "rs_02", "qq_01", "qq_02", "ti_01", "ti_02"];
  }

  lemma ShippedMissionIdsThirdPart()
    ensures forall k :: 6 <= k < 9 ==> SHIPPED_MISSION_IDS[k] !in SHIPPED_MISSION_IDS[k + 1..]
  {
    assert "tv_02" !in ["ws_01", "ws_02", "ar_01", "ar_02", "rs_01", "rs_02", "qq_01", "qq_02", "ti_01", "ti_02"];
    assert "ws_01" !in ["ws_02", "ar_01", "ar_02", "rs_01", "rs_02", "qq_01", "qq_02", "ti_01", "ti_02"];
    assert "ws_02" !in ["ar_01", "ar_02", "rs_01", "rs_02", "qq_01", "qq_02", "ti_01", "ti_02"];
  }

  lemma ShippedMissionIdsFourthPart()
    ensures forall k :: 9 <= k < 13 ==> SHIPPED_MISSION_IDS[k] !in SHIPPED_MISSION_IDS[k + 1..]
  {
    assert "ar_01" !in ["ar_02", "rs_01", "rs_02", "qq_01", "qq_02", "ti_01", "ti_02"];
    assert "ar_02" !in ["rs_01", "rs_02", "qq_01", "qq_02", "ti_01", "ti_02"];
    assert "rs_01" !in ["rs_02", "qq_01", "qq_02", "ti_01", "ti_02"];
    assert "rs_02" !in ["qq_01", "qq_02", "ti_01", "ti_02"];
  }

  lemma ShippedMissionIdsFifthPart()
    ensures forall k :: 13 <= k < 17 ==> SHIPPED_MISSION_IDS[k] !in SHIPPED_MISSION_IDS[k + 1..]
  {
    assert "qq_01" !in ["qq_02", "ti_01", "ti_02"];
    assert "qq_02" !in ["ti_01", "ti_02"];
    assert "ti_01" !in ["ti_02"];
    assert "ti_02" !in [];
  }

  lemma ShippedMissionIdsDistinct()
    ensures SeqUtil.Distinct(SHIPPED_MISSION_IDS)
  {
    ShippedMissionIdsFirstPart();
    ShippedMissionIdsSecondPart();
    ShippedMissionIdsThirdPart();
    ShippedMissionIdsFourthPart();
    ShippedMissionIdsFifthPart();
    SeqUtil.DistinctFromLater(SHIPPED_MISSION_IDS);
  }

  lemma ShippedZoneIdsDistinct()
    ensures SeqUtil.Distinct(SHIPPED_ZONE_IDS)
  {
    assert "wachturm" !in ["wilder_pfad", "taverne", "werkstatt", "arena", "ratssaal", "quellen", "trauminsel"];
    assert "wilder_pfad" !in ["taverne", "werkstatt", "arena", "ratssaal", "quellen", "trauminsel"];
    assert "taverne" !in ["werkstatt", "arena", "ratssaal", "quellen", "trauminsel"];
    assert "werkstatt" !in ["arena", "ratssaal", "quellen", "trauminsel"];
    assert "arena" !in ["ratssaal", "quellen", "trauminsel"];
    assert "ratssaal" !in ["quellen", "trauminsel"];
    assert "quellen" !in ["trauminsel"];
    SeqUtil.DistinctFromLater(SHIPPED_ZONE_IDS);
  }

  /** A table with the shipped ids and valid difficulties passes the
      validation. */
  lemma ValidWithShippedIds(zones: seq<Zone>)
    requires ZoneIds(zones) == SHIPPED_ZONE_IDS
    requires MissionIds(zones) == SHIPPED_MISSION_IDS
    requires AllDifficultiesValid(zones)
    ensures Issues(zones) == []
  {
    IssuesEmptyIff(zones);
    ShippedZoneIdsDistinct();
    ShippedMissionIdsDistinct();
  }


}
