/**
 * Clock times of the controller.  The sunrise/sunset table, the lights
 * window and the current time are all written in the HHmm encoding
 * (hour * 100 + minute, so 630 is 06:30); padding is added in minutes
 * since midnight.  `time2Offset` and `offset2Time` convert between the two
 * with C's `/` and `%`, which truncate toward zero.
 */
module ClockTime {

  /** C integer division: the quotient is truncated toward zero. */
  function CDiv(a: int, b: int): (q: int)
    requires b > 0
    ensures a >= 0 ==> 0 <= a - b * q < b
    ensures a < 0 ==> -b < a - b * q <= 0
  {
    if a >= 0 then a / b else -((-a) / b)
  }

  /** C remainder: it takes the sign of the dividend. */
  function CMod(a: int, b: int): (r: int)
    requires b > 0
    ensures a >= 0 ==> 0 <= r < b
    ensures a < 0 ==> -b < r <= 0
    ensures a == b * CDiv(a, b) + r
  {
    a - b * CDiv(a, b)
  }

  /** A valid HHmm time of day: hour 0..23 and minute 0..59. */
  predicate IsClockTime(hhmm: int) {
    0 <= hhmm && hhmm / 100 < 24 && hhmm % 100 < 60
  }

  /** `time2Offset`: HHmm to minutes since midnight. */
  function Time2Offset(hhmm: int): (minutes: int)
    ensures hhmm >= 0 ==> minutes >= 0
    ensures IsClockTime(hhmm) ==> minutes < 24 * 60
  {
    CDiv(hhmm, 100) * 60 + CMod(hhmm, 100)
  }

  /** `offset2Time`: minutes since midnight to HHmm. */
  function Offset2Time(minutes: int): (hhmm: int)
    ensures minutes >= 0 ==> hhmm >= 0
    ensures 0 <= minutes < 24 * 60 ==> IsClockTime(hhmm)
  {
    CDiv(minutes, 60) * 100 + CMod(minutes, 60)
  }

  /** Division by the two radices of the HHmm encoding is unique. */
  lemma DivMod(q: int, r: int, b: int)
    requires b == 60 || b == 100
    requires 0 <= r < b
    ensures (b * q + r) / b == q && (b * q + r) % b == r
  {
    if b == 60 {
      var a := 60 * q + r;
      assert a == 60 * (a / 60) + a % 60 && 0 <= a % 60 < 60;
    } else {
      var a := 100 * q + r;
      assert a == 100 * (a / 100) + a % 100 && 0 <= a % 100 < 100;
    }
  }

  /** An hour and minute encoded as HHmm come back from minutes unchanged. */
  lemma HHmmRoundTrip(hour: int, minute: int)
    requires 0 <= hour < 24 && 0 <= minute < 60
    ensures IsClockTime(hour * 100 + minute)
    ensures Time2Offset(hour * 100 + minute) == hour * 60 + minute
    ensures Offset2Time(Time2Offset(hour * 100 + minute)) == hour * 100 + minute
  {
    DivMod(hour, minute, 100);
    DivMod(hour, minute, 60);
  }

  /** Every valid HHmm time survives the trip through minutes. */
  lemma ClockTimeRoundTrip(hhmm: int)
    requires IsClockTime(hhmm)
    ensures Offset2Time(Time2Offset(hhmm)) == hhmm
  {
    HHmmRoundTrip(hhmm / 100, hhmm % 100);
  }

  /** Every minutes value, of either sign, survives the trip through HHmm. */
  lemma OffsetRoundTrip(minutes: int)
    ensures Time2Offset(Offset2Time(minutes)) == minutes
  {
    var q, r := CDiv(minutes, 60), CMod(minutes, 60);
    var t := q * 100 + r;
    assert Offset2Time(minutes) == t;
    if minutes >= 0 {
      assert q >= 0 && 0 <= r < 60;
      DivMod(q, r, 100);
      assert CDiv(t, 100) == q && CMod(t, 100) == r;
    } else {
      assert q <= 0 && -60 < r <= 0;
      DivMod(-q, -r, 100);
      assert t < 0 && -t == 100 * (-q) + (-r);
      assert CDiv(t, 100) == q && CMod(t, 100) == r;
    }
  }

  /**
   * On valid clock times the HHmm order is the chronological order, which
   * is what lets the controller compare HHmm integers directly.
   */
  lemma OrderAgrees(a: int, b: int)
    requires IsClockTime(a) && IsClockTime(b)
    ensures a <= b <==> Time2Offset(a) <= Time2Offset(b)
  {
    var ha, ma, hb, mb := a / 100, a % 100, b / 100, b % 100;
    HHmmRoundTrip(ha, ma);
    HHmmRoundTrip(hb, mb);
    assert a == ha * 100 + ma && b == hb * 100 + mb;
    if ha < hb {
      assert ha * 100 + 100 <= hb * 100 && ha * 60 + 60 <= hb * 60;
    } else if hb < ha {
      assert hb * 100 + 100 <= ha * 100 && hb * 60 + 60 <= ha * 60;
    }
  }
}
