/** The scheduler of `quest_data.py` over the shipped zone table: which
    zone an hour belongs to, which mission is picked, the colour of an
    hour, and the facts about the shipped data (the day is partitioned,
    every zone has missions, the database validates). */
module QuestSchedule {
  import opened QuestData
  import opened QuestZones
  import RandomSource

  // Facts about the shipped table, each read off the literal.

  lemma ShippedShapeHolds()
    ensures ShippedShape(ZONES)
  {
    ShippedSize();
    ShippedRangesAre();
    ShippedZoneIdsAre();
    ShippedLastZone();
  }

  lemma ShippedSize()
    ensures |ZONES| == 8
  {
  }

  lemma ShippedRangesAre()
    ensures Ranges(ZONES) == SHIPPED_RANGES
  {
  }

  lemma ShippedZoneIdsAre()
    ensures ZoneIds(ZONES) == SHIPPED_ZONE_IDS
  {
  }

  lemma ShippedLastZone()
    ensures |ZONES| == 8
    ensures ZONES[7].timeRanges == [HourRange(21, 24), HourRange(0, 6)]
    ensures ZONES[7].color == Rgb(0.15, 0.15, 0.35)
  {
  }

  lemma ShippedMissionIdsAre()
    ensures MissionIds(ZONES) == SHIPPED_MISSION_IDS
  {
    ShippedSize();
    MissionIdsOfEight(ZONES);
    ShippedMissionIdsMorning();
    ShippedMissionIdsEvening();
  }

  lemma ShippedMissionIdsMorning()
    ensures MissionIdsOf(ZONES[0].missions) == ["wt_01", "wt_02", "wt_03"]
    ensures MissionIdsOf(ZONES[1].missions) == ["wp_01", "wp_02"]
    ensures MissionIdsOf(ZONES[2].missions) == ["tv_01", "tv_02"]
    ensures MissionIdsOf(ZONES[3].missions) == ["ws_01", "ws_02"]
  {
  }

  lemma ShippedMissionIdsEvening()
    ensures MissionIdsOf(ZONES[4].missions) == ["ar_01", "ar_02"]
    ensures MissionIdsOf(ZONES[5].missions) == ["rs_01", "rs_02"]
    ensures MissionIdsOf(ZONES[6].missions) == ["qq_01", "qq_02"]
    ensures MissionIdsOf(ZONES[7].missions) == ["ti_01", "ti_02"]
  {
  }

  lemma ShippedDifficulties()
    ensures AllDifficultiesValid(ZONES)
  {
    forall j | 0 <= j < |ZONES| ensures forall m :: m in ZONES[j].missions ==> ValidDifficulty(m) {
    }
  }

  /** Every shipped zone has missions to pick from. */
  lemma ShippedZonesHaveMissions()
    ensures forall z :: z in ZONES ==> |z.missions| > 0
  {
    forall j | 0 <= j < |ZONES| ensures |ZONES[j].missions| > 0 {
    }
  }

  /** Every shipped zone colour lies in the unit cube. */
  lemma ShippedColorsInUnit()
    ensures forall z :: z in ZONES ==> UnitRgb(z.color)
  {
    forall j | 0 <= j < |ZONES| ensures UnitRgb(ZONES[j].color) {
    }
  }

  // The scheduler.

  /** `get_zone_for_hour(hour)` on the shipped table. */
  function ZoneForHour(hour: int): (z: Zone)
    ensures z in ZONES
    ensures Covers(z, hour % 24)
    ensures forall j :: 0 <= j < |ZONES| && Covers(ZONES[j], hour % 24) ==> z == ZONES[j]
  {
    ShippedLookup(hour);
    ZoneFor(ZONES, hour)
  }

  /** For the shipped table every hour lies in exactly one range, so the
      lookup never falls back to the first zone and returns the one zone
      covering the hour. */
  lemma ShippedLookup(hour: int)
    ensures |ZONES| > 0
    ensures FirstCovering(ZONES, hour % 24) < |ZONES|
    ensures Covers(ZoneFor(ZONES, hour), hour % 24)
    ensures forall j :: 0 <= j < |ZONES| && Covers(ZONES[j], hour % 24) ==> ZoneFor(ZONES, hour) == ZONES[j]
  {
    ShippedShapeHolds();
    LookupWithShippedRanges(ZONES, hour);
  }

  /** Every hour 0..23 lies in exactly one range of the shipped table. */
  lemma ShippedPartition(h: int)
    requires 0 <= h < 24
    ensures CountCovering(Ranges(ZONES), h) == 1
  {
    ShippedRangesAre();
    PartitionOfShippedRanges(ZONES, h);
  }

  /** Night hours, and only they, fall into the zone "trauminsel". */
  lemma NightIsTrauminsel(hour: int)
    ensures IsNight(hour % 24) <==> ZoneForHour(hour).id == "trauminsel"
    ensures IsNight(hour % 24) ==> ZoneForHour(hour).color == Rgb(0.15, 0.15, 0.35)
  {
    ShippedShapeHolds();
    NightZone(ZONES, hour);
  }

  /** `pick_mission_for_time(hour, difficulty, seed)`: a fresh generator
      seeded with `seed` chooses from the pool of the hour's zone. */
  function PickMissionForTime(src: RandomSource.Source, hour: int, difficulty: int, seed: int): (m: Mission)
    ensures m in ZoneForHour(hour).missions
    ensures (exists m' :: m' in ZoneForHour(hour).missions && m'.difficulty <= difficulty) ==>
      m.difficulty <= difficulty
  {
    ShippedZonesHaveMissions();
    RandomSource.FreshChoice(src, seed, Pool(ZoneForHour(hour), difficulty))
  }

  /** `get_hour_color(hour)`: the colour of the hour's zone, darkened at
      night, each component clamped to [0, 1]. */
  function HourColor(hour: int): (c: Rgb)
    ensures UnitRgb(c)
  {
    var h := hour % 24;
    var base := ZoneForHour(h).color;
    var scaled := if IsNight(h) then Scale(base, NIGHT_FACTOR) else base;
    Rgb(Clamp01(scaled.r), Clamp01(scaled.g), Clamp01(scaled.b))
  }

  /** With the shipped colours the clamp never bites: the hour colour is
      the zone colour, scaled by 0.55 exactly at night. */
  lemma HourColorScaling(hour: int)
    ensures HourColor(hour) ==
      var base := ZoneForHour(hour).color;
      if IsNight(hour % 24) then Scale(base, NIGHT_FACTOR) else base
  {
    assert (hour % 24) % 24 == hour % 24;
    ShippedColorsInUnit();
  }

  /** Every night hour gets the darkened colour of "trauminsel". */
  lemma NightColor(hour: int)
    requires IsNight(hour % 24)
    ensures HourColor(hour) == Rgb(0.55 * 0.15, 0.55 * 0.15, 0.55 * 0.35)
  {
    HourColorScaling(hour);
    NightIsTrauminsel(hour);
  }

  /** The shipped database passes its own validation. */
  lemma ShippedDbValid()
    ensures Issues(ZONES) == []
  {
    ShippedZoneIdsAre();
    ShippedMissionIdsAre();
    ShippedDifficulties();
    ValidWithShippedIds(ZONES);
  }
}
