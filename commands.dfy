/**
 * The command protocol (`processInput` and the handlers it dispatches to).
 * A completed line is a command letter followed by a payload; every length
 * bound counts the command letter too.  `h` prints the help, `i` reports the
 * window of today or of a given `yyyyMMdd` date, `t` sets the clock from
 * `yyyyMMddHHmmss`, `f` sets the fixed off time (1..255 minutes after
 * midnight, 255 being the "disabled" value) and `x` the extra minutes
 * (0..255).  A rejected command answers "Bad input." and changes nothing.
 */
module Commands {
  import opened Wrappers
  import opened Calendar
  import opened Window
  import opened Scan

  datatype Date = Date(year: int, month: int, day: int)

  /**
   * What the clock library reports: whether the time has been set, and the
   * current date and time of day.
   */
  datatype Clock = Clock(timeSet: bool, year: int, month: int, day: int, hour: int, minute: int, second: int)

  /** A set clock always reports a calendar date and a time of day. */
  predicate ClockValid(clock: Clock) {
    clock.timeSet ==>
      IsValidDate(clock.month, clock.day) && IsValidTime(clock.hour, clock.minute, clock.second)
  }

  /** The answer of one command on the serial line, or the request it makes of the clock. */
  datatype Reply =
    | Help
    | BadInput
    | TimeNotSet
    | Info(now: Clock, date: Date, window: TimeInfo, config: Config, temp: int)
    | SetClock(date: Date, hour: int, minute: int, second: int)
    | Stored

  /** The field widths of `%4d%02d%02d` and of `%4d%02d%02d%02d%02d%02d`. */
  const DATE_FIELDS: seq<nat> := [4, 2, 2]
  const DATE_TIME_FIELDS: seq<nat> := [4, 2, 2, 2, 2, 2]

  /** `sscanf(payload, "%d", &v)`: the value read, or `garbage` when nothing converts. */
  function ScanD(payload: string, garbage: int): int {
    SScanf(payload, [|payload|], [garbage])[0]
  }

  /** A non-empty payload of decimal digits converts to its decimal value. */
  lemma ScanDDigits(payload: string, garbage: int)
    requires AllDigits(payload) && payload != []
    ensures ScanD(payload, garbage) == Decimal(payload)
  {
    DigitFields(payload, [|payload|]);
    assert payload[..|payload|] == payload;
    assert payload[|payload|..] == [];
  }

  /**
   * `setFixedOffTimeOffset`: the byte to store, or None when the line is
   * rejected.  The line must be 1..4 characters and the value 1..255.
   */
  function FixedOffCommand(line: string, garbage: int): (r: Option<Byte>)
    ensures r.Some? ==> 1 <= |line| <= 4 && 1 <= r.value
    ensures 2 <= |line| && AllDigits(line[1..]) ==>
      (r.Some? <==> |line| <= 4 && 1 <= Decimal(line[1..]) <= 255) &&
      (r.Some? ==> r.value == Decimal(line[1..]))
  {
    var inputLen := |line|;
    if inputLen < 1 || inputLen > 4 then None
    else
      var offsetVal := ScanD(line[1..], garbage);
      assert 2 <= inputLen && AllDigits(line[1..]) ==> offsetVal == Decimal(line[1..]) by {
        if 2 <= inputLen && AllDigits(line[1..]) {
          ScanDDigits(line[1..], garbage);
        }
      }
      Range(offsetVal, 1)
  }

  /** `setXtraMinutes`: the byte to store, or None when the line is rejected. */
  function XtraCommand(line: string, garbage: int): (r: Option<Byte>)
    ensures r.Some? ==> 1 <= |line| <= 4
    ensures 2 <= |line| && AllDigits(line[1..]) ==>
      (r.Some? <==> |line| <= 4 && Decimal(line[1..]) <= 255) &&
      (r.Some? ==> r.value == Decimal(line[1..]))
  {
    var inputLen := |line|;
    if inputLen < 1 || inputLen > 4 then None
    else
      var xmin := ScanD(line[1..], garbage);
      assert 2 <= inputLen && AllDigits(line[1..]) ==> xmin == Decimal(line[1..]) by {
        if 2 <= inputLen && AllDigits(line[1..]) {
          ScanDDigits(line[1..], garbage);
        }
      }
      Range(xmin, 0)
  }

  /** The range check shared by `f` and `x`: a value from `low` to 255. */
  function Range(v: int, low: int): (r: Option<Byte>)
    requires 0 <= low
    ensures r.Some? <==> low <= v <= 255
    ensures r.Some? ==> r.value == v
  {
    if v < low || v > 255 then None else Some(v)
  }

  /**
   * `printInfo`: the line must be 1 or 9 characters; without a set clock
   * nothing is reported; a given date must be valid.
   */
  function PrintInfo(line: string, cfg: Config, clock: Clock, table: seq<seq<SunTimes>>, temp: int, garbage: seq<int>): (r: Reply)
    requires IsSunTable(table) && ClockValid(clock) && |garbage| == |DATE_FIELDS|
    ensures r.Info? ==> (|line| == 1 || |line| == 9) && clock.timeSet && IsValidDate(r.date.month, r.date.day)
    ensures r.Info? ==> r.window == GetTimeInfo(table, cfg, r.date.month, r.date.day) && r.config == cfg
    ensures r.Info? || r == BadInput || r == TimeNotSet
  {
    var inputLen := |line|;
    if 1 != inputLen && 9 != inputLen then BadInput
    else if !clock.timeSet then TimeNotSet
    else if 1 == inputLen then
      Info(clock, Date(clock.year, clock.month, clock.day), GetTimeInfo(table, cfg, clock.month, clock.day), cfg, temp)
    else
      var v := SScanf(line[1..], DATE_FIELDS, garbage);
      if !IsValidDate(v[1], v[2]) then BadInput
      else Info(clock, Date(v[0], v[1], v[2]), GetTimeInfo(table, cfg, v[1], v[2]), cfg, temp)
  }

  /**
   * `setTime`: the line must be 15 characters and name a valid date and
   * time of day; the reply is the request to set the clock.
   */
  function SetTime(line: string, garbage: seq<int>): (r: Reply)
    requires |garbage| == |DATE_TIME_FIELDS|
    ensures r.SetClock? ==> |line| == 15 && IsValidDate(r.date.month, r.date.day) && IsValidTime(r.hour, r.minute, r.second)
    ensures r.SetClock? || r == BadInput
  {
    if 15 != |line| then BadInput
    else
      var v := SScanf(line[1..], DATE_TIME_FIELDS, garbage);
      if !IsValidDate(v[1], v[2]) || !IsValidTime(v[3], v[4], v[5]) then BadInput
      else SetClock(Date(v[0], v[1], v[2]), v[3], v[4], v[5])
  }

  /** The command letter: the first character, or NUL for an empty line. */
  function Command(line: string): char {
    if line == [] then 0 as char else line[0]
  }

  /**
   * `processInput`: the reply to a completed line and the configuration
   * after it.  `garbage` holds what the handlers' unassigned variables contain.
   */
  function Dispatch(line: string, cfg: Config, clock: Clock, table: seq<seq<SunTimes>>, temp: int, garbage: seq<int>): (r: (Reply, Config))
    requires IsSunTable(table) && ClockValid(clock) && |garbage| == |DATE_TIME_FIELDS|
    ensures r.0 != Stored ==> r.1 == cfg
    ensures r.1.fixedOffTimeOffset != cfg.fixedOffTimeOffset ==> Command(line) == 'f'
    ensures r.1.xtraMinutes != cfg.xtraMinutes ==> Command(line) == 'x'
    ensures Command(line) == 'h' ==> r == (Help, cfg)
    ensures Command(line) !in {'h', 'i', 't', 'f', 'x'} ==> r == (BadInput, cfg)
  {
    match Command(line)
    case 'h' => (Help, cfg)
    case 'i' => (PrintInfo(line, cfg, clock, table, temp, garbage[..|DATE_FIELDS|]), cfg)
    case 't' => (SetTime(line, garbage), cfg)
    case 'f' =>
      (match FixedOffCommand(line, garbage[0])
       case Some(v) => (Stored, cfg.(fixedOffTimeOffset := v))
       case None => (BadInput, cfg))
    case 'x' =>
      (match XtraCommand(line, garbage[0])
       case Some(v) => (Stored, cfg.(xtraMinutes := v))
       case None => (BadInput, cfg))
    case _ => (BadInput, cfg)
  }

  /**
   * Writing a fixed off time of 1..255 as decimal after `f` stores exactly
   * that value, whatever the uninitialised variables hold.
   */
  lemma FixedOffRoundTrip(v: int, cfg: Config, clock: Clock, table: seq<seq<SunTimes>>, temp: int, garbage: seq<int>)
    requires 1 <= v <= 255
    requires IsSunTable(table) && ClockValid(clock) && |garbage| == |DATE_TIME_FIELDS|
    ensures Dispatch("f" + ToDecimal(v), cfg, clock, table, temp, garbage) == (Stored, cfg.(fixedOffTimeOffset := v))
  {
    var line := "f" + ToDecimal(v);
    ToDecimalLength(v);
    assert line[1..] == ToDecimal(v);
  }

  /** Writing 0..255 as decimal after `x` stores exactly that many extra minutes. */
  lemma XtraRoundTrip(v: int, cfg: Config, clock: Clock, table: seq<seq<SunTimes>>, temp: int, garbage: seq<int>)
    requires 0 <= v <= 255
    requires IsSunTable(table) && ClockValid(clock) && |garbage| == |DATE_TIME_FIELDS|
    ensures Dispatch("x" + ToDecimal(v), cfg, clock, table, temp, garbage) == (Stored, cfg.(xtraMinutes := v))
  {
    var line := "x" + ToDecimal(v);
    ToDecimalLength(v);
    assert line[1..] == ToDecimal(v);
  }

  /**
   * A digit payload is accepted by `f` exactly when it has one to three
   * digits denoting 1..255, and then that value is stored; otherwise the
   * reply is "Bad input." and the configuration is unchanged.
   */
  lemma FixedOffDigits(line: string, cfg: Config, clock: Clock, table: seq<seq<SunTimes>>, temp: int, garbage: seq<int>)
    requires IsSunTable(table) && ClockValid(clock) && |garbage| == |DATE_TIME_FIELDS|
    requires 2 <= |line| && line[0] == 'f' && AllDigits(line[1..])
    ensures var r := Dispatch(line, cfg, clock, table, temp, garbage);
      if |line| <= 4 && 1 <= Decimal(line[1..]) <= 255
      then r == (Stored, cfg.(fixedOffTimeOffset := Decimal(line[1..])))
      else r == (BadInput, cfg)
  {
  }

  /** The same for `x`, whose range is 0..255. */
  lemma XtraDigits(line: string, cfg: Config, clock: Clock, table: seq<seq<SunTimes>>, temp: int, garbage: seq<int>)
    requires IsSunTable(table) && ClockValid(clock) && |garbage| == |DATE_TIME_FIELDS|
    requires 2 <= |line| && line[0] == 'x' && AllDigits(line[1..])
    ensures var r := Dispatch(line, cfg, clock, table, temp, garbage);
      if |line| <= 4 && Decimal(line[1..]) <= 255
      then r == (Stored, cfg.(xtraMinutes := Decimal(line[1..])))
      else r == (BadInput, cfg)
  {
  }

  /** The date fields of an eight-digit `i` payload. */
  function DigitDate(p: string): Date
    requires |p| == 8 && AllDigits(p)
  {
    Date(Decimal(p[..4]), Decimal(p[4..6]), Decimal(p[6..]))
  }

  /** Cutting a digit string into fields of 4, 2, 2, ... digits reads each slice. */
  lemma DateSlices(p: string)
    requires |p| == 8 && AllDigits(p)
    ensures ScanFields(p, DATE_FIELDS) == [Some(Decimal(p[..4])), Some(Decimal(p[4..6])), Some(Decimal(p[6..]))]
  {
    DigitFields(p, DATE_FIELDS);
    DateDigitSlices(p);
  }

  /** An eight-character string cut into fields of 4, 2 and 2 characters. */
  lemma DateDigitSlices(p: string)
    requires |p| == 8
    ensures DigitSlices(p, DATE_FIELDS) == [Some(Decimal(p[..4])), Some(Decimal(p[4..6])), Some(Decimal(p[6..]))]
  {
    assert p[..4] == p[..Min(4, |p|)];
    SliceStep(p, 6, [2]);
    SliceStep(p, 8, []);
    assert p[6..8] == p[6..];
  }

  /**
   * With the clock set, an `i` line with eight digits is answered with the
   * window of that date when it is a valid date, and "Bad input." otherwise.
   */
  lemma InfoForDate(line: string, cfg: Config, clock: Clock, table: seq<seq<SunTimes>>, temp: int, garbage: seq<int>)
    requires IsSunTable(table) && ClockValid(clock) && |garbage| == |DATE_TIME_FIELDS|
    requires |line| == 9 && line[0] == 'i' && AllDigits(line[1..]) && clock.timeSet
    ensures var d := DigitDate(line[1..]);
      var r := Dispatch(line, cfg, clock, table, temp, garbage);
      if IsValidDate(d.month, d.day)
      then r == (Info(clock, d, GetTimeInfo(table, cfg, d.month, d.day), cfg, temp), cfg)
      else r == (BadInput, cfg)
  {
    assert Dispatch(line, cfg, clock, table, temp, garbage) ==
      (PrintInfo(line, cfg, clock, table, temp, garbage[..|DATE_FIELDS|]), cfg);
    DateSlices(line[1..]);
  }

  /** With the clock unset, an `i` line of an accepted length is answered "Time has not been set." */
  lemma InfoUnset(line: string, cfg: Config, clock: Clock, table: seq<seq<SunTimes>>, temp: int, garbage: seq<int>)
    requires IsSunTable(table) && ClockValid(clock) && |garbage| == |DATE_TIME_FIELDS|
    requires |line| > 0 && line[0] == 'i' && (|line| == 1 || |line| == 9) && !clock.timeSet
    ensures Dispatch(line, cfg, clock, table, temp, garbage) == (TimeNotSet, cfg)
  {
  }

  /** With the clock set, a bare `i` reports today's date and window and the current configuration. */
  lemma InfoToday(cfg: Config, clock: Clock, table: seq<seq<SunTimes>>, temp: int, garbage: seq<int>)
    requires IsSunTable(table) && ClockValid(clock) && |garbage| == |DATE_TIME_FIELDS|
    requires clock.timeSet
    ensures Dispatch("i", cfg, clock, table, temp, garbage) ==
      (Info(clock, Date(clock.year, clock.month, clock.day), GetTimeInfo(table, cfg, clock.month, clock.day), cfg, temp), cfg)
  {
  }

  /** The date and time fields of a fourteen-digit `t` payload. */
  function DigitDateTime(p: string): Reply
    requires |p| == 14 && AllDigits(p)
  {
    SetClock(Date(Decimal(p[..4]), Decimal(p[4..6]), Decimal(p[6..8])),
      Decimal(p[8..10]), Decimal(p[10..12]), Decimal(p[12..]))
  }

  /** Cutting two digits off the front of a digit string. */
  lemma SliceStep(p: string, at: nat, widths: seq<nat>)
    requires 2 <= at <= |p|
    ensures DigitSlices(p[at - 2..], [2] + widths) == [Some(Decimal(p[at - 2..at]))] + DigitSlices(p[at..], widths)
  {
    assert p[at - 2..][..2] == p[at - 2..at];
    assert p[at - 2..][2..] == p[at..];
  }

  /** A fourteen-digit string cut into fields of 4, 2, 2, 2, 2 and 2 digits. */
  lemma DateTimeDigitSlices(p: string)
    requires |p| == 14
    ensures DigitSlices(p, DATE_TIME_FIELDS) ==
      [Some(Decimal(p[..4])), Some(Decimal(p[4..6])), Some(Decimal(p[6..8])),
       Some(Decimal(p[8..10])), Some(Decimal(p[10..12])), Some(Decimal(p[12..]))]
  {
    assert p[..4] == p[..Min(4, |p|)];
    SliceStep(p, 6, [2, 2, 2, 2]);
    SliceStep(p, 8, [2, 2, 2]);
    SliceStep(p, 10, [2, 2]);
    SliceStep(p, 12, [2]);
    SliceStep(p, 14, []);
    assert p[12..14] == p[12..];
  }

  /** The conversions of a fourteen-digit `t` payload all succeed, each on its slice. */
  lemma DateTimeFields(p: string)
    requires |p| == 14 && AllDigits(p)
    ensures ScanFields(p, DATE_TIME_FIELDS) ==
      [Some(Decimal(p[..4])), Some(Decimal(p[4..6])), Some(Decimal(p[6..8])),
       Some(Decimal(p[8..10])), Some(Decimal(p[10..12])), Some(Decimal(p[12..]))]
  {
    DigitFields(p, DATE_TIME_FIELDS);
    DateTimeDigitSlices(p);
  }

  /** The variables of a fourteen-digit `t` payload hold the values of its six slices. */
  lemma DateTimeSlices(p: string, garbage: seq<int>)
    requires |p| == 14 && AllDigits(p) && |garbage| == |DATE_TIME_FIELDS|
    ensures SScanf(p, DATE_TIME_FIELDS, garbage) ==
      [Decimal(p[..4]), Decimal(p[4..6]), Decimal(p[6..8]), Decimal(p[8..10]), Decimal(p[10..12]), Decimal(p[12..])]
  {
    DateTimeFields(p);
    SixConverted(garbage, Decimal(p[..4]), Decimal(p[4..6]), Decimal(p[6..8]),
      Decimal(p[8..10]), Decimal(p[10..12]), Decimal(p[12..]));
  }

  /** When all six conversions of a `t` payload succeed, the variables hold the values read. */
  lemma SixConverted(garbage: seq<int>, year: int, month: int, day: int, hour: int, minute: int, second: int)
    requires |garbage| == |DATE_TIME_FIELDS|
    ensures Assign([Some(year), Some(month), Some(day), Some(hour), Some(minute), Some(second)], garbage) ==
      [year, month, day, hour, minute, second]
  {
    var v := Assign([Some(year), Some(month), Some(day), Some(hour), Some(minute), Some(second)], garbage);
    assert v[0] == year && v[1] == month && v[2] == day;
    assert v[3] == hour && v[4] == minute && v[5] == second;
  }

  /**
   * A `t` line with fourteen digits asks for exactly the date and time it
   * spells when both are valid, and is rejected otherwise.
   */
  lemma SetTimeDigits(line: string, cfg: Config, clock: Clock, table: seq<seq<SunTimes>>, temp: int, garbage: seq<int>)
    requires IsSunTable(table) && ClockValid(clock) && |garbage| == |DATE_TIME_FIELDS|
    requires |line| == 15 && line[0] == 't' && AllDigits(line[1..])
    ensures var c := DigitDateTime(line[1..]);
      var r := Dispatch(line, cfg, clock, table, temp, garbage);
      if IsValidDate(c.date.month, c.date.day) && IsValidTime(c.hour, c.minute, c.second)
      then r == (c, cfg)
      else r == (BadInput, cfg)
  {
    assert Dispatch(line, cfg, clock, table, temp, garbage) == (SetTime(line, garbage), cfg);
    SetTimeOfDigits(line, garbage);
  }

  /** `setTime` on fourteen digits: the request the digits spell, or "Bad input." */
  lemma SetTimeOfDigits(line: string, garbage: seq<int>)
    requires |garbage| == |DATE_TIME_FIELDS|
    requires |line| == 15 && AllDigits(line[1..])
    ensures var c := DigitDateTime(line[1..]);
      SetTime(line, garbage) ==
        if IsValidDate(c.date.month, c.date.day) && IsValidTime(c.hour, c.minute, c.second) then c else BadInput
  {
    DateTimeSlices(line[1..], garbage);
  }

  /** An `i` line of any length other than 1 or 9 is rejected. */
  lemma InfoLength(line: string, cfg: Config, clock: Clock, table: seq<seq<SunTimes>>, temp: int, garbage: seq<int>)
    requires IsSunTable(table) && ClockValid(clock) && |garbage| == |DATE_TIME_FIELDS|
    requires Command(line) == 'i' && |line| != 1 && |line| != 9
    ensures Dispatch(line, cfg, clock, table, temp, garbage) == (BadInput, cfg)
  {
  }

  /** The fixed off time 0 (midnight) cannot be set: `f0` is rejected. */
  lemma FixedOffZeroRejected(cfg: Config, clock: Clock, table: seq<seq<SunTimes>>, temp: int, garbage: seq<int>)
    requires IsSunTable(table) && ClockValid(clock) && |garbage| == |DATE_TIME_FIELDS|
    ensures Dispatch("f0", cfg, clock, table, temp, garbage) == (BadInput, cfg)
  {
    FixedOffDigits("f0", cfg, clock, table, temp, garbage);
    assert "f0"[1..] == "0";
    assert Decimal("0") == 0 by {
      assert "0"[..0] == [];
    }
  }

  /** `f255` stores the "disabled" value, so it switches the fixed off time off. */
  lemma FixedOff255Disables(cfg: Config, clock: Clock, table: seq<seq<SunTimes>>, temp: int, garbage: seq<int>)
    requires IsSunTable(table) && ClockValid(clock) && |garbage| == |DATE_TIME_FIELDS|
    ensures Dispatch("f255", cfg, clock, table, temp, garbage).1.fixedOffTimeOffset == FIXED_OFF_TIME_DISABLED
  {
    FixedOffDigits("f255", cfg, clock, table, temp, garbage);
    assert "f255"[1..] == "255";
    assert "255"[..2] == "25";
    DecimalOfTwo("25");
  }

  /**
   * `f9999` is rejected by the length bound before its value is looked at:
   * the bound of four characters counts the command letter.
   */
  lemma FixedOffTooLong(cfg: Config, clock: Clock, table: seq<seq<SunTimes>>, temp: int, garbage: seq<int>)
    requires IsSunTable(table) && ClockValid(clock) && |garbage| == |DATE_TIME_FIELDS|
    ensures Dispatch("f9999", cfg, clock, table, temp, garbage) == (BadInput, cfg)
  {
  }

  /** With the clock set, `i20230231` (February 31st) is rejected. */
  lemma InfoFebruary31(cfg: Config, clock: Clock, table: seq<seq<SunTimes>>, temp: int, garbage: seq<int>)
    requires IsSunTable(table) && ClockValid(clock) && |garbage| == |DATE_TIME_FIELDS| && clock.timeSet
    ensures Dispatch("i20230231", cfg, clock, table, temp, garbage) == (BadInput, cfg)
  {
    var line := "i20230231";
    assert line[1..] == "20230231";
    InfoForDate(line, cfg, clock, table, temp, garbage);
    February31();
  }

  /** The digits `20230231` spell month 2, day 31. */
  lemma February31()
    ensures DigitDate("20230231").month == 2 && DigitDate("20230231").day == 31
  {
    var p := "20230231";
    assert p[4..6] == "02" && p[6..] == "31";
    DecimalOfTwo("02");
    DecimalOfTwo("31");
  }

  /** The digits `20240615143000` spell 2024-06-15 14:30:00. */
  lemma ExampleDateTime()
    ensures DigitDateTime("20240615143000") == SetClock(Date(2024, 6, 15), 14, 30, 0)
  {
    var p := "20240615143000";
    assert p[..4] == "2024" && p[4..6] == "06" && p[6..8] == "15";
    assert p[8..10] == "14" && p[10..12] == "30" && p[12..] == "00";
    DecimalOfFour("2024");
    DecimalOfTwo("06");
    DecimalOfTwo("15");
    DecimalOfTwo("14");
    DecimalOfTwo("30");
    DecimalOfTwo("00");
  }

  /** `t20240615143000` asks to set the clock to 2024-06-15 14:30:00. */
  lemma SetTimeExample(cfg: Config, clock: Clock, table: seq<seq<SunTimes>>, temp: int, garbage: seq<int>)
    requires IsSunTable(table) && ClockValid(clock) && |garbage| == |DATE_TIME_FIELDS|
    ensures Dispatch("t20240615143000", cfg, clock, table, temp, garbage) == (SetClock(Date(2024, 6, 15), 14, 30, 0), cfg)
  {
    var line := "t20240615143000";
    assert line[1..] == "20240615143000";
    SetTimeDigits(line, cfg, clock, table, temp, garbage);
    ExampleDateTime();
  }
}
