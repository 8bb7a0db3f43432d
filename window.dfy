/**
 * The daily lights window (`getTimeInfo`) and the on/off decision of
 * `checkLights`.  The window starts from the sunrise/sunset table entry of
 * the date, is padded by the extra minutes, and its off time is replaced by
 * the fixed off time when one is configured.  Lights are kept OFF between
 * the (padded) sunrise and the (padded) sunset, and ON otherwise.
 */
module Window {
  import opened ClockTime
  import opened Calendar

  /** An unsigned 8-bit value, as the two configuration bytes are stored. */
  type Byte = x: int | 0 <= x < 256

  /** The fixed-off-time value meaning "no fixed off time". */
  const FIXED_OFF_TIME_DISABLED: Byte := 255

  /**
   * The two persisted configuration bytes: the fixed off time in minutes
   * after midnight (or the disabled sentinel) and the extra minutes.
   */
  datatype Config = Config(fixedOffTimeOffset: Byte, xtraMinutes: Byte)

  /** One entry of the sunrise/sunset table, both in HHmm. */
  datatype SunTimes = SunTimes(sunRise: int, sunSet: int)

  /** `TimeInfo`: the table entry of a date and the resulting lights window, all in HHmm. */
  datatype TimeInfo = TimeInfo(sunRise: int, sunSet: int, lightsOn: int, lightsOff: int)

  /** The shape of the `SunRiseSet` table: twelve months of 31 days of 16-bit words. */
  predicate IsSunTable(table: seq<seq<SunTimes>>) {
    |table| == 12 &&
    forall m :: 0 <= m < 12 ==>
      |table[m]| == 31 &&
      forall d :: 0 <= d < 31 ==>
        0 <= table[m][d].sunRise < 0x1_0000 && 0 <= table[m][d].sunSet < 0x1_0000
  }

  /** The table entry of a validated date. */
  function Entry(table: seq<seq<SunTimes>>, month: int, day: int): SunTimes
    requires IsSunTable(table) && IsValidDate(month, day)
  {
    table[month - 1][day - 1]
  }

  /** `getTimeInfo`: the lights window of a date under a configuration. */
  function GetTimeInfo(table: seq<seq<SunTimes>>, cfg: Config, month: int, day: int): (ti: TimeInfo)
    requires IsSunTable(table) && IsValidDate(month, day)
    ensures ti.sunRise == Entry(table, month, day).sunRise && ti.sunSet == Entry(table, month, day).sunSet
    ensures cfg.xtraMinutes == 0 && cfg.fixedOffTimeOffset == FIXED_OFF_TIME_DISABLED ==>
      ti.lightsOff == ti.sunRise && ti.lightsOn == ti.sunSet
    ensures cfg.fixedOffTimeOffset != FIXED_OFF_TIME_DISABLED ==>
      ti.lightsOff == Offset2Time(cfg.fixedOffTimeOffset)
    ensures cfg.xtraMinutes == 0 ==> ti.lightsOn == ti.sunSet
  {
    var entry := table[month - 1][day - 1];
    var lightsOff, lightsOn :=
      if cfg.xtraMinutes > 0 then
        Offset2Time(Time2Offset(entry.sunRise) + cfg.xtraMinutes)
      else entry.sunRise,
      if cfg.xtraMinutes > 0 then
        Offset2Time(Time2Offset(entry.sunSet) - cfg.xtraMinutes)
      else entry.sunSet;
    TimeInfo(entry.sunRise, entry.sunSet, lightsOn,
      if cfg.fixedOffTimeOffset != FIXED_OFF_TIME_DISABLED then Offset2Time(cfg.fixedOffTimeOffset)
      else lightsOff)
  }

  /**
   * Padding in minutes: when the sunrise and sunset are valid clock times
   * and the padding does not cross midnight, the lights go on exactly
   * `xtraMinutes` before sunset and (without a fixed off time) off exactly
   * `xtraMinutes` after sunrise, and both remain valid clock times.
   */
  lemma PaddedWindow(table: seq<seq<SunTimes>>, cfg: Config, month: int, day: int)
    requires IsSunTable(table) && IsValidDate(month, day)
    requires IsClockTime(Entry(table, month, day).sunRise) && IsClockTime(Entry(table, month, day).sunSet)
    requires Time2Offset(Entry(table, month, day).sunRise) + cfg.xtraMinutes < 24 * 60
    requires Time2Offset(Entry(table, month, day).sunSet) >= cfg.xtraMinutes
    ensures var ti := GetTimeInfo(table, cfg, month, day);
      IsClockTime(ti.lightsOn) && Time2Offset(ti.lightsOn) == Time2Offset(ti.sunSet) - cfg.xtraMinutes
    ensures var ti := GetTimeInfo(table, cfg, month, day);
      cfg.fixedOffTimeOffset == FIXED_OFF_TIME_DISABLED ==>
        IsClockTime(ti.lightsOff) && Time2Offset(ti.lightsOff) == Time2Offset(ti.sunRise) + cfg.xtraMinutes
  {
    var e := Entry(table, month, day);
    if cfg.xtraMinutes > 0 {
      OffsetRoundTrip(Time2Offset(e.sunRise) + cfg.xtraMinutes);
      OffsetRoundTrip(Time2Offset(e.sunSet) - cfg.xtraMinutes);
    } else {
      ClockTimeRoundTrip(e.sunRise);
      ClockTimeRoundTrip(e.sunSet);
    }
  }

  /** A configured fixed off time wins whatever the extra minutes are. */
  lemma FixedOffTimeWins(table: seq<seq<SunTimes>>, c1: Config, c2: Config, month: int, day: int)
    requires IsSunTable(table) && IsValidDate(month, day)
    requires c1.fixedOffTimeOffset == c2.fixedOffTimeOffset != FIXED_OFF_TIME_DISABLED
    ensures GetTimeInfo(table, c1, month, day).lightsOff == GetTimeInfo(table, c2, month, day).lightsOff
  {
  }

  /** The on time and the table entry do not depend on the fixed off time. */
  lemma LightsOnIgnoresFixedOffTime(table: seq<seq<SunTimes>>, c1: Config, c2: Config, month: int, day: int)
    requires IsSunTable(table) && IsValidDate(month, day)
    requires c1.xtraMinutes == c2.xtraMinutes
    ensures var t1, t2 := GetTimeInfo(table, c1, month, day), GetTimeInfo(table, c2, month, day);
      t1.lightsOn == t2.lightsOn && t1.sunRise == t2.sunRise && t1.sunSet == t2.sunSet
  {
  }

  /**
   * The decision of `checkLights`: lights are OFF when the HHmm time of day
   * lies in the closed interval [lightsOff, lightsOn].
   */
  predicate LightsOffAt(ti: TimeInfo, hour: int, minute: int) {
    ti.lightsOff <= hour * 100 + minute && hour * 100 + minute <= ti.lightsOn
  }

  /**
   * Comparing HHmm integers is the same as comparing minutes since
   * midnight, whenever the window bounds and the time are valid clock times.
   */
  lemma DecisionInMinutes(ti: TimeInfo, hour: int, minute: int)
    requires IsClockTime(ti.lightsOff) && IsClockTime(ti.lightsOn)
    requires 0 <= hour < 24 && 0 <= minute < 60
    ensures LightsOffAt(ti, hour, minute) <==>
      Time2Offset(ti.lightsOff) <= hour * 60 + minute <= Time2Offset(ti.lightsOn)
  {
    var now := hour * 100 + minute;
    HHmmRoundTrip(hour, minute);
    var nowMinutes := Time2Offset(now);
    assert nowMinutes == hour * 60 + minute;
    OrderAgrees(ti.lightsOff, now);
    OrderAgrees(now, ti.lightsOn);
    assert LightsOffAt(ti, hour, minute) <==> Time2Offset(ti.lightsOff) <= nowMinutes <= Time2Offset(ti.lightsOn);
  }

  /**
   * Without a fixed off time, and when the padding stays within the day,
   * the lights are on exactly before the padded sunrise or after the padded
   * sunset, counted in minutes since midnight.
   */
  lemma OnOutsidePaddedDaylight(table: seq<seq<SunTimes>>, cfg: Config, month: int, day: int, hour: int, minute: int)
    requires IsSunTable(table) && IsValidDate(month, day)
    requires IsClockTime(Entry(table, month, day).sunRise) && IsClockTime(Entry(table, month, day).sunSet)
    requires Time2Offset(Entry(table, month, day).sunRise) + cfg.xtraMinutes < 24 * 60
    requires Time2Offset(Entry(table, month, day).sunSet) >= cfg.xtraMinutes
    requires cfg.fixedOffTimeOffset == FIXED_OFF_TIME_DISABLED
    requires 0 <= hour < 24 && 0 <= minute < 60
    ensures var e := Entry(table, month, day);
      !LightsOffAt(GetTimeInfo(table, cfg, month, day), hour, minute) <==>
        hour * 60 + minute < Time2Offset(e.sunRise) + cfg.xtraMinutes ||
        hour * 60 + minute > Time2Offset(e.sunSet) - cfg.xtraMinutes
  {
    PaddedWindow(table, cfg, month, day);
    DecisionInMinutes(GetTimeInfo(table, cfg, month, day), hour, minute);
  }
}
