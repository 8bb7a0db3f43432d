# GardenLights decision core in Dafny

GardenLights is an Arduino controller that switches garden lights from a
table of sunrise and sunset times. Between sunrise and sunset the lights are
off and otherwise they are on. Both ends of that daylight window can be padded by a number of
"extra minutes", and the off time can be replaced by a fixed time of day. A
real-time clock supplies the date, the time and a temperature reading. A
thermal guard sounds alerts as the temperature rises, forces the lights off
when it gets too hot, and keeps them from being switched on again until the
temperature has fallen back. The controller is configured through a serial
line with one-letter commands. `h` prints help. `i` reports the window of a
date. `t` sets the clock. `f` sets the fixed off time. `x` sets the extra
minutes.

This project models the decision logic of `src/main.cpp` and proves properties of it:

- `clock.dfy` (`ClockTime`): the HHmm encoding of times of day and the
  conversions to and from minutes since midnight. C's truncating `/` and `%`
  are written out, so the conversions are total.
- `calendar.dfy` (`Calendar`): the date and time validators.
- `window.dfy` (`Window`): the two configuration bytes, the sun table as an
  abstract 12 × 31 table, `getTimeInfo`, and the on/off comparison of
  `checkLights`.
- `thermal.dfy` (`Thermal`): `checkTemp`, written as a specification function
  over the cooling flag, with a class `ThermalGuard` that holds the flag and
  updates it in place.
- `line_input.dfy` (`LineInput`): `readInput` as a class over a 32-character
  array and a persistent index. Its methods are proved against a function
  over the pending line.
- `scan.dfy` (`Scan`): the `%d`, `%4d` and `%02d` conversions of `sscanf`
  that the command handlers use. A variable whose conversion fails is left
  uninitialised. The model takes its value from a `garbage` parameter.
- `commands.dfy` (`Commands`): `processInput` and the validation in
  `printInfo`, `setTime`, `setFixedOffTimeOffset` and `setXtraMinutes`, as
  pure functions from a line and the configuration to a reply and the new
  configuration.
- `controller.dfy` (`Controller`): the class `GardenLights` with the
  program's global state, covering `setup`, `loop`, `processInput`,
  `checkLights` and the two setters. Each method is proved against a
  function of the old state.

Inputs the program reads from hardware or from libraries become parameters:

- the characters available on the serial line;
- `millis()`;
- the clock's time-set flag, date and time;
- the temperature;
- the stored configuration bytes;
- the sun table.

## Model

The core predicates `Window.LightsOffAt`, `Controller.TickDue` and
`Calendar.IsValidTime` have no row of their own: their meaning is stated by
`Window.DecisionInMinutes` and `Controller.LightsAfterCheck`, by
`Controller.DueAfterInterval`, and by `Calendar.ValidTimeIsClockTime`.

| member | source | states |
|---|---|---|
| ClockTime.CDiv | src/main.cpp:111-117 | C division: the quotient truncates toward zero, so the remainder has the dividend's sign and is smaller than the divisor |
| ClockTime.CMod | src/main.cpp:111-117 | C remainder: sign of the dividend, magnitude below the divisor, and `a == b * CDiv(a, b) + r` |
| ClockTime.Time2Offset | src/main.cpp:111-113 | `time2Offset`: a non-negative HHmm gives non-negative minutes, and a valid clock time gives fewer than 1440 minutes |
| ClockTime.Offset2Time | src/main.cpp:115-117 | `offset2Time`: non-negative minutes give a non-negative HHmm, and 0..1439 minutes give a valid clock time |
| ClockTime.HHmmRoundTrip | src/main.cpp:111-117 | for hour 0..23 and minute 0..59, `time2Offset(h*100+m) == h*60+m` and `offset2Time(time2Offset(h*100+m)) == h*100+m` |
| ClockTime.ClockTimeRoundTrip | src/main.cpp:111-117 | every valid HHmm time survives the round trip through minutes |
| ClockTime.OffsetRoundTrip | src/main.cpp:111-117 | `time2Offset(offset2Time(n)) == n` for every integer n, negative ones included, with C truncation |
| ClockTime.OrderAgrees | src/main.cpp:154-155 | on valid clock times, comparing HHmm integers agrees with comparing minutes since midnight |
| Calendar.IsValidDate | src/main.cpp:284-289 | `isValidDate` accepts exactly month 1..12 and day 1..the month's length, with February always allowing 29; the year plays no part |
| Calendar.ValidTimeIsClockTime | src/main.cpp:291-295 | a time accepted by `isValidTime` is a valid HHmm clock time whose minute offset is `hour*60+minute` |
| Window.GetTimeInfo | src/main.cpp:119-139 | sunrise and sunset are the table entry for `[month-1][day-1]`; without padding or a fixed off time the window is exactly sunrise to sunset; a fixed off time sets the off time to `offset2Time(fixed)`; without padding the on time is sunset |
| Window.PaddedWindow | src/main.cpp:127-131 | when padding does not cross midnight, the on time is `xtraMinutes` before sunset and, with no fixed off time, the off time is `xtraMinutes` after sunrise, both valid clock times |
| Window.FixedOffTimeWins | src/main.cpp:133-136 | two configurations with the same fixed off time give the same off time whatever their extra minutes |
| Window.LightsOnIgnoresFixedOffTime | src/main.cpp:122-131 | the on time and the table entry do not depend on the fixed off time |
| Window.DecisionInMinutes | src/main.cpp:154-160 | the HHmm test `LightsOff <= hour*100+minute <= LightsOn` is the same as the test in minutes since midnight |
| Window.OnOutsidePaddedDaylight | src/main.cpp:119-160 | with no fixed off time and padding inside the day, the lights are on exactly before sunrise plus the padding or after sunset minus the padding |
| Thermal.Evaluate | src/main.cpp:163-186 | the band table: at 80 or above the check is denied, the lights are forced off, cooling starts and 6 tones sound; from 50 to 79 the answer is `!coolingOff` with 4 or 2 tones; below 50 cooling clears and the check runs; the check runs exactly when not cooling and below 80 |
| Thermal.Allowances | src/main.cpp:163-186 | the answers to a series of readings, one per reading |
| Thermal.AllowanceAt | src/main.cpp:163-186 | the answer to reading k depends only on the cooling flag left by the readings before it |
| Thermal.CoolingAfterCharacterised | src/main.cpp:163-186 | the cooling flag is set after a series exactly when a reading reached 80, or the flag was already set, and no later reading fell below 50 |
| Thermal.DeniedWhileCooling | src/main.cpp:163-186 | after a reading of 80 or more, every later reading of 50 or more is denied until one below 50 occurs |
| Thermal.ClearedBelowWarn | src/main.cpp:182-185 | a reading below 50 always allows the check and clears cooling |
| Thermal.ThermalGuard.constructor | src/main.cpp:163 | the guard starts with cooling off |
| Thermal.ThermalGuard.CheckTemp | src/main.cpp:163-186 | `checkTemp` returns `(allow, toneCount, forcedOff)` and leaves the cooling flag exactly as `Evaluate` of the old flag says |
| LineInput.CString | src/main.cpp:240-245 | the C string of a buffer is the prefix before its first NUL, which it does not contain |
| LineInput.Step | src/main.cpp:232-255 | one character: only a newline completes the line, and the completed line is the C string of the pending text; CR changes nothing; backspace empties the line and reports the cancel; a newline empties the line; an ordinary character is appended and echoed below capacity, and overflow is reported exactly when it meets a full line; the line never exceeds 31 characters |
| LineInput.Read | src/main.cpp:228-258 | draining input stops right after the first newline, with a completed line and an empty pending line, or consumes everything when there is no newline; the pending line never exceeds 31 characters |
| LineInput.Accumulates | src/main.cpp:247-255 | without newlines or backspaces, the pending line is the first 31 non-CR characters fed since the last reset |
| LineInput.ReadConcat | src/main.cpp:228-258 | input without a newline can be split anywhere: reading it in two goes gives the same result as reading it at once |
| LineInput.CompletedLine | src/main.cpp:226-259 | the completed line is the C string of the first 31 non-CR characters before the newline, however many more were typed |
| LineInput.LongLineTruncated | src/main.cpp:240-255 | more than 31 ordinary characters and a newline complete the line with exactly the first 31 |
| LineInput.LineReader.constructor | src/main.cpp:17-18 | the buffer holds 32 characters and starts with an empty pending line |
| LineInput.LineReader.Feed | src/main.cpp:232-255 | one character updates the buffer and index as `Step` says; on a newline the buffer's C string is the pending line |
| LineInput.LineReader.ReadInput | src/main.cpp:226-259 | `readInput` leaves the pending line, the consumed count and the completion flag as `Read` says, and on completion the buffer holds the line as a C string |
| Scan.Decimal | src/main.cpp:322 | a string of digits denotes a non-negative number |
| Scan.ScanInt | src/main.cpp:407 | one conversion consumes at least one character of the text when it succeeds |
| Scan.ScanFields | src/main.cpp:357 | one field per conversion, and after a failed conversion every later field fails too |
| Scan.DigitField | src/main.cpp:322 | on digits, a conversion reads as many digits as its width and the text allow |
| Scan.DigitFields | src/main.cpp:322 | on digits, the conversions cut the text into consecutive slices of the field widths |
| Scan.ToDecimal | src/main.cpp:407 | the decimal text of a number is digits only, without leading zeros, and denotes the number |
| Scan.ToDecimalLength | src/main.cpp:401 | numbers below 1000 need at most three digits, so they fit the four-character `f` and `x` lines |
| Scan.ScanToDecimal | src/main.cpp:407 | `%d` reads back the decimal text of every number |
| Commands.ScanDDigits | src/main.cpp:406-407 | on a digit payload, `%d` gives the payload's decimal value |
| Commands.FixedOffCommand | src/main.cpp:399-414 | `f` is accepted only on a line of 1..4 characters with a value of 1..255; on a digit payload it is accepted exactly when it is at most 4 characters with value 1..255, and stores that value |
| Commands.XtraCommand | src/main.cpp:416-431 | `x` is accepted only on a line of 1..4 characters; on a digit payload it is accepted exactly when it is at most 4 characters with value 0..255, and stores that value |
| Commands.PrintInfo | src/main.cpp:302-329 | the report is given only for a line of 1 or 9 characters with the clock set and a valid date, and carries the window of that date and the current configuration; otherwise the reply is "Bad input." or "Time has not been set." |
| Commands.SetTime | src/main.cpp:349-361 | a set-clock request is made only for a 15-character line whose date and time pass the validators; otherwise "Bad input." |
| Commands.Dispatch | src/main.cpp:197-224 | `processInput`: `h` answers with help and changes nothing, only a stored `f` or `x` changes the configuration, `f` changes only the fixed off time and `x` only the extra minutes, and any other first character is answered "Bad input." |
| Commands.FixedOffRoundTrip | src/main.cpp:399-414 | `f` followed by the decimal text of 1..255 stores exactly that value, whatever the uninitialised variables hold |
| Commands.XtraRoundTrip | src/main.cpp:416-431 | `x` followed by the decimal text of 0..255 stores exactly that value |
| Commands.FixedOffDigits | src/main.cpp:399-414 | an `f` line with a digit payload stores its value exactly when it has at most 4 characters and a value of 1..255, and otherwise is rejected with nothing changed |
| Commands.XtraDigits | src/main.cpp:416-431 | the same for `x` with the range 0..255 |
| Commands.DateSlices | src/main.cpp:322 | `%4d%02d%02d` on eight digits reads the year, month and day slices |
| Commands.InfoForDate | src/main.cpp:302-329 | with the clock set, `i` and eight digits reports the window of that date when it is valid, and otherwise answers "Bad input." |
| Commands.InfoUnset | src/main.cpp:303-312 | with the clock unset, `i` alone or with eight characters is answered "Time has not been set." and nothing changes |
| Commands.InfoToday | src/main.cpp:314-320 | with the clock set, a bare `i` reports today's date, today's window and the current configuration |
| Commands.DateTimeFields | src/main.cpp:357 | `%4d%02d%02d%02d%02d%02d` on fourteen digits succeeds on all six slices |
| Commands.DateTimeSlices | src/main.cpp:356-357 | the six variables then hold the values of the six slices |
| Commands.SetTimeOfDigits | src/main.cpp:349-361 | `setTime` on fourteen digits asks for the date and time they spell when both are valid, and otherwise answers "Bad input." |
| Commands.SetTimeDigits | src/main.cpp:349-361 | the same through `processInput`, with the configuration unchanged |
| Commands.InfoLength | src/main.cpp:303-307 | an `i` line of any length other than 1 or 9 is rejected |
| Commands.FixedOffZeroRejected | src/main.cpp:408-411 | `f0` is rejected, so midnight cannot be set as the fixed off time |
| Commands.FixedOff255Disables | src/main.cpp:408-413 | `f255` stores the value that disables the fixed off time |
| Commands.FixedOffTooLong | src/main.cpp:400-404 | `f9999` is rejected by the length bound, because the bound counts the command letter |
| Commands.InfoFebruary31 | src/main.cpp:321-326 | with the clock set, `i20230231` is rejected |
| Commands.February31 | src/main.cpp:322 | the digits `20230231` read as month 2 and day 31 |
| Commands.ExampleDateTime | src/main.cpp:357 | the digits `20240615143000` read as 2024-06-15 14:30:00 |
| Commands.SetTimeExample | src/main.cpp:349-361 | `t20240615143000` asks for the clock to be set to 2024-06-15 14:30:00 |
| Controller.Elapsed | src/main.cpp:91 | unsigned 32-bit `now - last` is the time that, added to `last` modulo 2^32, gives `now` |
| Controller.DueAfterInterval | src/main.cpp:91 | after a check at a non-zero counter value, the next check is due exactly when a minute has elapsed, including when the counter wraps in between |
| Controller.LightsAfterCheck | src/main.cpp:141-160 | without a set clock the lights stay as they are; with a fixed off time the lights are on exactly outside `[offset2Time(fixed), LightsOn]` in HHmm |
| Controller.CheckFollowsSun | src/main.cpp:141-160 | with a set clock, no fixed off time and padding inside the day, a check turns the lights on exactly before the padded sunrise or after the padded sunset |
| Controller.Tick | src/main.cpp:90-96 | when the check is not due nothing changes; when it is due the timer restarts, the guard's tones sound plus the two tones of `timeNotSetNotice` when the guard allows the check and the clock is unset, a shutdown reading forces the lights off, a reading the guard allows leaves the lights as `LightsAfterCheck` says, a denied reading below 80 leaves them as they were, and while cooling and not below 50 the lights cannot be turned on |
| Controller.Pass | src/main.cpp:82-97 | one pass of `loop`: reading stops right after the first newline and reports how many characters were read, leaving the rest for the next pass; the configuration changes only through a processed command, a processed command forces the check in the same pass, every check restarts the timer, a pass without a check sounds nothing and changes only the pending line, and when it runs the lights are off at 80 or above, follow `LightsAfterCheck` under the new configuration when the guard allows it, and are kept otherwise; the tones are the guard's plus those of `timeNotSetNotice` when an allowed check finds the clock unset |
| Controller.GardenLights.constructor | src/main.cpp:56-78 | `setup`: lights off, configuration loaded from the stored bytes, an empty line, no cooling and a zero timer |
| Controller.GardenLights.SetFixedOffTimeOffset | src/main.cpp:399-414 | stores the value exactly when `FixedOffCommand` accepts the line, and changes nothing else |
| Controller.GardenLights.SetXtraMinutes | src/main.cpp:416-431 | stores the value exactly when `XtraCommand` accepts the line, and changes nothing else |
| Controller.GardenLights.ProcessInput | src/main.cpp:197-224 | the reply and the new configuration are those of `Dispatch`; the lights and the timer are untouched |
| Controller.GardenLights.CheckLights | src/main.cpp:141-160 | reports whether the clock was set and leaves the lights as `LightsAfterCheck` says |
| Controller.GardenLights.CheckIfDue | src/main.cpp:90-96 | the second half of `loop` leaves the state and sounds the tones (the guard's and, when `checkLights` finds the clock unset, those of `timeNotSetNotice`) as `Tick` says |
| Controller.GardenLights.Loop | src/main.cpp:82-97 | one pass of `loop` leaves the whole state, the reply, the tone count and the number of characters read as `Pass` says |

## Left out

- Serial output, pins and tones: the messages, `printHelp`, `printTime`,
  `printFixedOffTime` and the `snprintf` formatting are not modelled. A reply
  value stands for each message. The lights are a boolean. The alerts of
  `checkTemp` are a tone count. The overflow notice, the cancel notice and
  the echo of typed characters are events of `LineInput.Step` (`Overflow`,
  `Canceled`, `Echoed`) that `Read` discards; their text is not modelled.
- Controller.Pass: the tone count leaves out the tone of
  `inputOverflowNotice` (one per character dropped on a full line) and the
  three start-up tones of `setup`. It does count the two tones of
  `timeNotSetNotice`.
- The clock library and the RTC (`now`, `timeStatus`, `setSyncProvider`,
  `RTC.oscStopped`, `RTC.temperature`) are inputs. `loop` gets two clock
  readings: one when the command runs and one when the lights are checked.
- The temperature is one input per pass, used both for the `i` report and
  for the thermal guard. The program reads the sensor twice (`getTemp` in
  `printInfo` and in `checkTemp`), so the two readings could differ.
- `setTime` after validation (`CalendarYrToTm`, `makeTime`, `setTime`,
  `RTC.set`, the failure messages and the readback of `timeStatus`) is
  reduced to the `SetClock` request that the reply carries.
- The clock library is taken to report a calendar date and a valid time of
  day whenever its time is set (`Commands.ClockValid`). The program relies
  on this when it looks up today's table entry.
- The EEPROM (`storeEeprom`, `loadEeprom`) is reduced to the two
  configuration fields, and the stored bytes are constructor parameters.
- The contents of the sunrise/sunset table: `main.h` is not part of this
  model, so the table is a parameter of the right shape.
- Window.GetTimeInfo: padding that crosses midnight is not handled by the
  program, so `PaddedWindow` and `OnOutsidePaddedDaylight` assume that the
  padding stays inside the day. `GetTimeInfo` itself computes with
  unbounded integers. For table entries that are clock times the values
  stay far below 32767, so the program's 16-bit `int` does not overflow.
  `IsSunTable` admits any 16-bit word, though, and for an entry such as
  65535 `time2Offset` gives 39335, which the program's 16-bit arithmetic
  would wrap; the model does not follow that wrap.
- Scan.ScanInt: overflow of `%d` on long digit strings is not modelled. The
  lines are at most 31 characters, and the values that matter fit 16 bits.
- Variables that `sscanf` leaves uninitialised are arbitrary. The model
  takes them from the `garbage` parameter and makes no claim about their
  contents.
- Three behaviours of the code that are easy to misread:
  - `f9999` is rejected by the four-character line bound, not by its value.
  - With the clock unset, `i` with a date answers "Time has not been set."
    before the date is validated.
  - The bounds on the `f` and `x` lines count the command letter, so the
    payload has at most three digits.
