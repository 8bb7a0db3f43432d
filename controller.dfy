/**
 * The controller: the program state kept between passes of the main loop
 * (`setup`, `loop`, `checkLights` and the two configuration setters).  Each
 * pass drains the serial input; a completed line is processed as a command
 * and forces a lights check.  Otherwise the check runs once the 32-bit
 * millisecond counter has advanced by a minute since the last check.  A
 * check first consults the thermal guard, which may force the lights off or
 * veto the check, and then sets the lights from the window of today.
 */
module Controller {
  import opened Wrappers
  import opened ClockTime
  import opened Calendar
  import opened Window
  import opened Thermal
  import opened LineInput
  import opened Commands

  /** The check interval of the main loop, in milliseconds. */
  const CHECK_LIGHTS_MILLIS := 60 * 1000

  /** The modulus of the `unsigned long` millisecond counter. */
  const MILLIS_MODULUS := 0x1_0000_0000

  /** The tones of `timeNotSetNotice`, sounded when a check finds the clock unset. */
  const TIME_NOT_SET_TONES := 2

  /** A reading of the 32-bit millisecond counter. */
  type Millis = x: int | 0 <= x < 0x1_0000_0000

  /** `now - last` in unsigned 32-bit arithmetic: the time elapsed, across one wrap of the counter. */
  function Elapsed(last: Millis, now: Millis): (e: Millis)
    ensures (last + e) % MILLIS_MODULUS == now
  {
    var e := (now - last) % MILLIS_MODULUS;
    assert last + e == now || last + e == now + MILLIS_MODULUS;
    e
  }

  /** The condition of the main loop for checking the lights. */
  predicate TickDue(last: Millis, now: Millis) {
    last == 0 || Elapsed(last, now) >= CHECK_LIGHTS_MILLIS
  }

  /**
   * Counting from a check made at a non-zero counter value, the next check
   * is due exactly when a minute has elapsed, even when the counter wraps in
   * between (as long as less than a whole counter period has passed).
   */
  lemma DueAfterInterval(last: Millis, e: int)
    requires last != 0 && 0 <= e < MILLIS_MODULUS
    ensures TickDue(last, (last + e) % MILLIS_MODULUS) <==> e >= CHECK_LIGHTS_MILLIS
  {
    var now := (last + e) % MILLIS_MODULUS;
    var d := Elapsed(last, now);
    assert (last + d) % MILLIS_MODULUS == (last + e) % MILLIS_MODULUS;
    if last + e < MILLIS_MODULUS {
      assert now == last + e;
    } else {
      assert now == last + e - MILLIS_MODULUS;
    }
  }

  /**
   * `checkLights`: the lights state after a check.  Without a set clock the
   * lights are left as they are; otherwise they are off inside the window
   * of today and on outside it.
   */
  function LightsAfterCheck(lightsOn: bool, cfg: Config, clock: Clock, table: seq<seq<SunTimes>>): (on: bool)
    requires IsSunTable(table) && ClockValid(clock)
    ensures !clock.timeSet ==> on == lightsOn
    ensures clock.timeSet && cfg.fixedOffTimeOffset != FIXED_OFF_TIME_DISABLED ==>
      (on <==> !(Offset2Time(cfg.fixedOffTimeOffset) <= clock.hour * 100 + clock.minute <=
                 GetTimeInfo(table, cfg, clock.month, clock.day).lightsOn))
  {
    if !clock.timeSet then lightsOn
    else !LightsOffAt(GetTimeInfo(table, cfg, clock.month, clock.day), clock.hour, clock.minute)
  }

  /**
   * With a set clock, no fixed off time and padding within the day, a check
   * turns the lights on exactly before the padded sunrise or after the
   * padded sunset.
   */
  lemma CheckFollowsSun(lightsOn: bool, cfg: Config, clock: Clock, table: seq<seq<SunTimes>>)
    requires IsSunTable(table) && ClockValid(clock) && clock.timeSet
    requires IsClockTime(Entry(table, clock.month, clock.day).sunRise)
    requires IsClockTime(Entry(table, clock.month, clock.day).sunSet)
    requires Time2Offset(Entry(table, clock.month, clock.day).sunRise) + cfg.xtraMinutes < 24 * 60
    requires Time2Offset(Entry(table, clock.month, clock.day).sunSet) >= cfg.xtraMinutes
    requires cfg.fixedOffTimeOffset == FIXED_OFF_TIME_DISABLED
    ensures var e, now := Entry(table, clock.month, clock.day), clock.hour * 60 + clock.minute;
      LightsAfterCheck(lightsOn, cfg, clock, table) <==>
        now < Time2Offset(e.sunRise) + cfg.xtraMinutes || now > Time2Offset(e.sunSet) - cfg.xtraMinutes
  {
    OnOutsidePaddedDaylight(table, cfg, clock.month, clock.day, clock.hour, clock.minute);
  }

  /** The program state between two passes of the main loop. */
  datatype Snapshot = Snapshot(pending: string, config: Config, lightsOn: bool, coolingOff: bool, lastCheckMillis: Millis)

  /**
   * One pass of `loop`: the state after it, the reply to the command it
   * processed (if a line was completed), the number of tones sounded and
   * the number of characters of `input` read.  Reading stops after the
   * first newline; the characters after it stay on the serial line for the
   * next pass.
   * `clock` is what the time library reports while the command runs and
   * `checkClock` what it reports when the lights are checked.
   */
  function Pass(s: Snapshot, input: string, nowMillis: Millis, clock: Clock, checkClock: Clock,
                table: seq<seq<SunTimes>>, temp: int, garbage: seq<int>): (r: (Snapshot, Option<Reply>, nat, nat))
    requires |s.pending| <= MAX_INPUT_LEN && IsSunTable(table) && ClockValid(clock) && ClockValid(checkClock)
    requires |garbage| == |DATE_TIME_FIELDS|
    ensures r.0.pending == Read(s.pending, input).pending
    ensures r.1.Some? <==> Read(s.pending, input).line.Some?
    ensures r.3 == Read(s.pending, input).consumed
    ensures r.1.Some? ==> (r.1.value, r.0.config) == Dispatch(Read(s.pending, input).line.value, s.config, clock, table, temp, garbage)
    ensures r.1.None? ==> r.0.config == s.config
    ensures r.1.Some? || TickDue(s.lastCheckMillis, nowMillis) ==> r.0.lastCheckMillis == nowMillis
    ensures r.0.lastCheckMillis == s.lastCheckMillis || r.0.lastCheckMillis == nowMillis
    ensures r.0.lastCheckMillis != nowMillis ==>
      r.0.lightsOn == s.lightsOn && r.0.coolingOff == s.coolingOff && r.2 == 0
    ensures r.1.None? && !TickDue(s.lastCheckMillis, nowMillis) ==>
      r.0 == s.(pending := r.0.pending) && r.2 == 0
    ensures r.1.Some? || TickDue(s.lastCheckMillis, nowMillis) ==>
      r.0.coolingOff == Evaluate(s.coolingOff, temp).coolingOff
    ensures (r.1.Some? || TickDue(s.lastCheckMillis, nowMillis)) && (!Evaluate(s.coolingOff, temp).allow || checkClock.timeSet) ==>
      r.2 == Evaluate(s.coolingOff, temp).toneCount
    ensures (r.1.Some? || TickDue(s.lastCheckMillis, nowMillis)) && Evaluate(s.coolingOff, temp).allow && !checkClock.timeSet ==>
      r.2 == Evaluate(s.coolingOff, temp).toneCount + TIME_NOT_SET_TONES
    ensures (r.1.Some? || TickDue(s.lastCheckMillis, nowMillis)) && temp >= TEMP_SHUTDOWN ==>
      !r.0.lightsOn && r.0.coolingOff
    ensures (r.1.Some? || TickDue(s.lastCheckMillis, nowMillis)) && Evaluate(s.coolingOff, temp).allow ==>
      r.0.lightsOn == LightsAfterCheck(s.lightsOn, r.0.config, checkClock, table)
    ensures (r.1.Some? || TickDue(s.lastCheckMillis, nowMillis)) && !Evaluate(s.coolingOff, temp).allow && temp < TEMP_SHUTDOWN ==>
      r.0.lightsOn == s.lightsOn
    ensures s.coolingOff && temp >= TEMP_WARN ==> r.0.coolingOff && (r.0.lightsOn ==> s.lightsOn)
  {
    var read := Read(s.pending, input);
    if read.line.Some? then
      var d := Dispatch(read.line.value, s.config, clock, table, temp, garbage);
      var t := Tick(Snapshot(read.pending, d.1, s.lightsOn, s.coolingOff, 0), nowMillis, checkClock, table, temp);
      (t.0, Some(d.0), t.1, read.consumed)
    else
      var t := Tick(s.(pending := read.pending), nowMillis, checkClock, table, temp);
      (t.0, None, t.1, read.consumed)
  }

  /**
   * The timed part of one pass: when the check is due, the thermal guard
   * is consulted, the lights are forced off or checked as it decides, and
   * the timer restarts; otherwise nothing changes.
   */
  function Tick(s: Snapshot, nowMillis: Millis, checkClock: Clock, table: seq<seq<SunTimes>>, temp: int): (r: (Snapshot, nat))
    requires IsSunTable(table) && ClockValid(checkClock)
    ensures r.0.pending == s.pending && r.0.config == s.config
    ensures !TickDue(s.lastCheckMillis, nowMillis) ==> r == (s, 0)
    ensures TickDue(s.lastCheckMillis, nowMillis) ==>
      r.0.lastCheckMillis == nowMillis && r.0.coolingOff == Evaluate(s.coolingOff, temp).coolingOff
    ensures TickDue(s.lastCheckMillis, nowMillis) && (!Evaluate(s.coolingOff, temp).allow || checkClock.timeSet) ==>
      r.1 == Evaluate(s.coolingOff, temp).toneCount
    ensures TickDue(s.lastCheckMillis, nowMillis) && Evaluate(s.coolingOff, temp).allow && !checkClock.timeSet ==>
      r.1 == Evaluate(s.coolingOff, temp).toneCount + TIME_NOT_SET_TONES
    ensures TickDue(s.lastCheckMillis, nowMillis) && temp >= TEMP_SHUTDOWN ==> !r.0.lightsOn
    ensures TickDue(s.lastCheckMillis, nowMillis) && Evaluate(s.coolingOff, temp).allow ==>
      r.0.lightsOn == LightsAfterCheck(s.lightsOn, s.config, checkClock, table)
    ensures TickDue(s.lastCheckMillis, nowMillis) && !Evaluate(s.coolingOff, temp).allow && temp < TEMP_SHUTDOWN ==>
      r.0.lightsOn == s.lightsOn
    ensures s.coolingOff && temp >= TEMP_WARN ==> r.0.coolingOff && (r.0.lightsOn ==> s.lightsOn)
  {
    if TickDue(s.lastCheckMillis, nowMillis) then
      var v := Evaluate(s.coolingOff, temp);
      var on :=
        if v.forcedOff then false
        else if v.allow then LightsAfterCheck(s.lightsOn, s.config, checkClock, table)
        else s.lightsOn;
      var notice := if v.allow && !checkClock.timeSet then TIME_NOT_SET_TONES else 0;
      (s.(lightsOn := on, coolingOff := v.coolingOff, lastCheckMillis := nowMillis), v.toneCount + notice)
    else
      (s, 0)
  }

  /** The controller's state: the line assembler, the thermal guard, the configuration bytes, the lights and the loop timer. */
  class GardenLights {
    const reader: LineReader
    const guard: ThermalGuard
    var fixedOffTimeOffset: Byte
    var xtraMinutes: Byte
    var lightsOn: bool
    var lastCheckMillis: Millis

    ghost predicate Valid()
      reads this, reader
    {
      reader.Valid()
    }

    /** The two configuration bytes. */
    function Settings(): (cfg: Config)
      reads this
      ensures cfg.fixedOffTimeOffset == fixedOffTimeOffset && cfg.xtraMinutes == xtraMinutes
    {
      Config(fixedOffTimeOffset, xtraMinutes)
    }

    /** The whole state, as one pass of the main loop sees it. */
    ghost function State(): Snapshot
      reads this, reader, reader.buffer, guard
      requires Valid()
    {
      Snapshot(reader.Pending(), Settings(), lightsOn, guard.coolingOff, lastCheckMillis)
    }

    /**
     * `setup`: the lights start off, the configuration bytes are loaded
     * from the EEPROM (given as `storedFixedOff` and `storedXtra`) and the
     * loop timer is zero, so the first pass checks the lights.
     */
    constructor (storedFixedOff: Byte, storedXtra: Byte)
      ensures Valid() && fresh(reader) && fresh(reader.buffer) && fresh(guard)
      ensures State() == Snapshot([], Config(storedFixedOff, storedXtra), false, false, 0)
    {
      reader := new LineReader();
      guard := new ThermalGuard();
      lightsOn := false;
      fixedOffTimeOffset := storedFixedOff;
      xtraMinutes := storedXtra;
      lastCheckMillis := 0;
    }

    /** `setFixedOffTimeOffset`: stores the value of an accepted `f` line. */
    method SetFixedOffTimeOffset(line: string, garbage: int) returns (ok: bool)
      modifies this
      ensures ok <==> FixedOffCommand(line, garbage).Some?
      ensures fixedOffTimeOffset == FixedOffCommand(line, garbage).GetOr(old(fixedOffTimeOffset))
      ensures xtraMinutes == old(xtraMinutes) && lightsOn == old(lightsOn) && lastCheckMillis == old(lastCheckMillis)
    {
      var inputLen := |line|;
      if inputLen < 1 || inputLen > 4 {
        return false;
      }
      var offsetVal := ScanD(line[1..], garbage);
      if offsetVal < 1 || offsetVal > 255 {
        return false;
      }
      fixedOffTimeOffset := offsetVal;
      return true;
    }

    /** `setXtraMinutes`: stores the value of an accepted `x` line. */
    method SetXtraMinutes(line: string, garbage: int) returns (ok: bool)
      modifies this
      ensures ok <==> XtraCommand(line, garbage).Some?
      ensures xtraMinutes == XtraCommand(line, garbage).GetOr(old(xtraMinutes))
      ensures fixedOffTimeOffset == old(fixedOffTimeOffset) && lightsOn == old(lightsOn) && lastCheckMillis == old(lastCheckMillis)
    {
      var inputLen := |line|;
      if inputLen < 1 || inputLen > 4 {
        return false;
      }
      var xmin := ScanD(line[1..], garbage);
      if xmin < 0 || xmin > 255 {
        return false;
      }
      xtraMinutes := xmin;
      return true;
    }

    /** `processInput`: dispatches a completed line on its first character. */
    method ProcessInput(line: string, clock: Clock, table: seq<seq<SunTimes>>, temp: int, garbage: seq<int>) returns (reply: Reply)
      requires IsSunTable(table) && ClockValid(clock) && |garbage| == |DATE_TIME_FIELDS|
      modifies this
      ensures (reply, Settings()) == Dispatch(line, old(Settings()), clock, table, temp, garbage)
      ensures lightsOn == old(lightsOn) && lastCheckMillis == old(lastCheckMillis)
    {
      match Command(line)
      case 'h' =>
        reply := Help;
      case 'i' =>
        reply := PrintInfo(line, Settings(), clock, table, temp, garbage[..|DATE_FIELDS|]);
      case 't' =>
        reply := SetTime(line, garbage);
      case 'f' =>
        var ok := SetFixedOffTimeOffset(line, garbage[0]);
        reply := if ok then Stored else BadInput;
      case 'x' =>
        var ok := SetXtraMinutes(line, garbage[0]);
        reply := if ok then Stored else BadInput;
      case _ =>
        reply := BadInput;
    }

    /** `checkLights`: sets the lights from the window of today, when the clock is set. */
    method CheckLights(clock: Clock, table: seq<seq<SunTimes>>) returns (checked: bool)
      requires IsSunTable(table) && ClockValid(clock)
      modifies this
      ensures checked == clock.timeSet
      ensures lightsOn == LightsAfterCheck(old(lightsOn), Settings(), clock, table)
      ensures Settings() == old(Settings()) && lastCheckMillis == old(lastCheckMillis)
    {
      if !clock.timeSet {
        return false;
      }
      var ti := GetTimeInfo(table, Settings(), clock.month, clock.day);
      var ctime := clock.hour * 100 + clock.minute;
      if ti.lightsOff <= ctime && ctime <= ti.lightsOn {
        lightsOn := false;
      } else {
        lightsOn := true;
      }
      return true;
    }

    /** The second half of `loop`: the lights check, when the timer says it is due. */
    method CheckIfDue(nowMillis: Millis, checkClock: Clock, table: seq<seq<SunTimes>>, temp: int) returns (tones: nat)
      requires Valid() && IsSunTable(table) && ClockValid(checkClock)
      modifies this, guard
      ensures Valid()
      ensures (State(), tones) == Tick(old(State()), nowMillis, checkClock, table, temp)
    {
      tones := 0;
      if lastCheckMillis == 0 || Elapsed(lastCheckMillis, nowMillis) >= CHECK_LIGHTS_MILLIS {
        var allow, toneCount, forcedOff := guard.CheckTemp(temp);
        tones := toneCount;
        if forcedOff {
          lightsOn := false;
        }
        if allow {
          var checked := CheckLights(checkClock, table);
          if !checked {
            tones := tones + TIME_NOT_SET_TONES;
          }
        }
        lastCheckMillis := nowMillis;
      }
    }

    /**
     * `loop`: one pass of the main loop, given the characters available on
     * the serial line, the millisecond counter and the temperature.  The
     * characters after the first newline are left unread (`input[consumed..]`).
     */
    method Loop(input: string, nowMillis: Millis, clock: Clock, checkClock: Clock,
                table: seq<seq<SunTimes>>, temp: int, garbage: seq<int>) returns (reply: Option<Reply>, tones: nat, consumed: nat)
      requires Valid() && IsSunTable(table) && ClockValid(clock) && ClockValid(checkClock)
      requires |garbage| == |DATE_TIME_FIELDS|
      modifies this, reader, reader.buffer, guard
      ensures Valid()
      ensures (State(), reply, tones, consumed) == Pass(old(State()), input, nowMillis, clock, checkClock, table, temp, garbage)
    {
      var done;
      done, consumed := reader.ReadInput(input);
      reply := None;
      if done {
        var line := CString(reader.buffer[..]);
        var r := ProcessInput(line, clock, table, temp, garbage);
        reply := Some(r);
        lastCheckMillis := 0;
      }
      tones := CheckIfDue(nowMillis, checkClock, table, temp);
    }
  }
}
