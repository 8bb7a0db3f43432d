/**
 * The thermal guard (`checkTemp`).  Each reading falls in one of four
 * bands: at or above the shutdown threshold the lights are forced off and
 * the guard starts cooling; in the critical and warning bands an alert is
 * sounded and the lights check may run only when the guard is not cooling;
 * below the warning threshold cooling ends and the check may run.  Alerts
 * are counted in tone pulses: 6 for shutdown, 4 for critical, 2 for warning.
 */
module Thermal {

  const TEMP_WARN := 50
  const TEMP_CRITICAL := 70
  const TEMP_SHUTDOWN := 80

  /**
   * The outcome of one reading: whether the lights check may run, how many
   * alert tones sound, whether the lights are forced off, and the new
   * cooling flag.
   */
  datatype Verdict = Verdict(allow: bool, toneCount: nat, forcedOff: bool, coolingOff: bool)

  /** One evaluation of the guard, from the cooling flag and a reading. */
  function Evaluate(coolingOff: bool, temp: int): (v: Verdict)
    ensures temp >= TEMP_SHUTDOWN ==>
      !v.allow && v.forcedOff && v.coolingOff && v.toneCount == 6
    ensures TEMP_WARN <= temp < TEMP_SHUTDOWN ==>
      v.allow == !coolingOff && !v.forcedOff && v.coolingOff == coolingOff &&
      v.toneCount == (if temp >= TEMP_CRITICAL then 4 else 2)
    ensures temp < TEMP_WARN ==>
      v.allow && !v.forcedOff && !v.coolingOff && v.toneCount == 0
    ensures v.allow <==> !v.coolingOff && temp < TEMP_SHUTDOWN
  {
    if temp >= TEMP_SHUTDOWN then Verdict(false, 6, true, true)
    else if temp >= TEMP_CRITICAL then Verdict(!coolingOff, 4, false, coolingOff)
    else if temp >= TEMP_WARN then Verdict(!coolingOff, 2, false, coolingOff)
    else Verdict(true, 0, false, false)
  }

  /** The cooling flag after a series of readings. */
  function CoolingAfter(coolingOff: bool, temps: seq<int>): bool
    decreases |temps|
  {
    if temps == [] then coolingOff
    else CoolingAfter(Evaluate(coolingOff, temps[0]).coolingOff, temps[1..])
  }

  /** Whether each of a series of readings lets the lights check run. */
  function Allowances(coolingOff: bool, temps: seq<int>): (allowed: seq<bool>)
    ensures |allowed| == |temps|
    decreases |temps|
  {
    if temps == [] then []
    else [Evaluate(coolingOff, temps[0]).allow] + Allowances(Evaluate(coolingOff, temps[0]).coolingOff, temps[1..])
  }

  /** Whether reading `k` of a series lets the lights check run: it depends on the flag left by the readings before it. */
  lemma {:induction false} AllowanceAt(coolingOff: bool, temps: seq<int>, k: nat)
    requires k < |temps|
    ensures Allowances(coolingOff, temps)[k] == Evaluate(CoolingAfter(coolingOff, temps[..k]), temps[k]).allow
    decreases k
  {
    if k > 0 {
      var c := Evaluate(coolingOff, temps[0]).coolingOff;
      AllowanceAt(c, temps[1..], k - 1);
      assert temps[1..][..k - 1] == temps[..k][1..];
      assert temps[1..][k - 1] == temps[k];
    }
  }

  /**
   * The cooling flag is set after a series of readings exactly when some
   * reading reached the shutdown threshold (or the flag was already set) and
   * no later reading fell below the warning threshold.
   */
  lemma {:induction false} CoolingAfterCharacterised(coolingOff: bool, temps: seq<int>)
    ensures CoolingAfter(coolingOff, temps) <==>
      (exists i :: 0 <= i < |temps| && temps[i] >= TEMP_SHUTDOWN &&
         forall j :: i < j < |temps| ==> temps[j] >= TEMP_WARN) ||
      (coolingOff && forall j :: 0 <= j < |temps| ==> temps[j] >= TEMP_WARN)
    decreases |temps|
  {
    if temps != [] {
      var c := Evaluate(coolingOff, temps[0]).coolingOff;
      var rest := temps[1..];
      CoolingAfterCharacterised(c, rest);
      var shutdownLater := exists i :: (0 <= i < |rest| && rest[i] >= TEMP_SHUTDOWN &&
        forall j :: i < j < |rest| ==> rest[j] >= TEMP_WARN);
      var shutdownHere := exists i :: (0 <= i < |temps| && temps[i] >= TEMP_SHUTDOWN &&
        forall j :: i < j < |temps| ==> temps[j] >= TEMP_WARN);
      if shutdownLater {
        var i :| 0 <= i < |rest| && rest[i] >= TEMP_SHUTDOWN && forall j :: i < j < |rest| ==> rest[j] >= TEMP_WARN;
        assert temps[i + 1] >= TEMP_SHUTDOWN && forall j :: i + 1 < j < |temps| ==> temps[j] >= TEMP_WARN by {
          forall j | i + 1 < j < |temps| ensures temps[j] >= TEMP_WARN {
            assert temps[j] == rest[j - 1];
          }
        }
        assert shutdownHere;
      }
      if shutdownHere {
        var i :| 0 <= i < |temps| && temps[i] >= TEMP_SHUTDOWN && forall j :: i < j < |temps| ==> temps[j] >= TEMP_WARN;
        if i > 0 {
          assert rest[i - 1] >= TEMP_SHUTDOWN && forall j :: i - 1 < j < |rest| ==> rest[j] >= TEMP_WARN by {
            forall j | i - 1 < j < |rest| ensures rest[j] >= TEMP_WARN {
              assert rest[j] == temps[j + 1];
            }
          }
          assert shutdownLater;
        } else {
          assert c && forall j :: 0 <= j < |rest| ==> rest[j] >= TEMP_WARN by {
            forall j | 0 <= j < |rest| ensures rest[j] >= TEMP_WARN {
              assert rest[j] == temps[j + 1];
            }
          }
        }
      }
      if (coolingOff && forall j :: 0 <= j < |temps| ==> temps[j] >= TEMP_WARN) {
        assert c && forall j :: 0 <= j < |rest| ==> rest[j] >= TEMP_WARN by {
          forall j | 0 <= j < |rest| ensures rest[j] >= TEMP_WARN {
            assert rest[j] == temps[j + 1];
          }
        }
      }
      if c && forall j :: 0 <= j < |rest| ==> rest[j] >= TEMP_WARN {
        if temps[0] >= TEMP_SHUTDOWN {
          assert shutdownHere by {
            forall j | 0 < j < |temps| ensures temps[j] >= TEMP_WARN {
              assert temps[j] == rest[j - 1];
            }
          }
        } else {
          assert coolingOff && temps[0] >= TEMP_WARN;
          forall j | 0 <= j < |temps| ensures temps[j] >= TEMP_WARN {
            if j > 0 { assert temps[j] == rest[j - 1]; }
          }
        }
      }
    }
  }

  /**
   * After a shutdown-level reading, every later reading at or above the
   * warning threshold is denied, until a reading below it occurs.
   */
  lemma {:induction false} DeniedWhileCooling(coolingOff: bool, temps: seq<int>, k: nat)
    requires k < |temps|
    requires exists i :: (0 <= i <= k && temps[i] >= TEMP_SHUTDOWN &&
      forall j :: i < j <= k ==> temps[j] >= TEMP_WARN)
    ensures !Allowances(coolingOff, temps)[k]
  {
    var i :| 0 <= i <= k && temps[i] >= TEMP_SHUTDOWN && forall j :: i < j <= k ==> temps[j] >= TEMP_WARN;
    AllowanceAt(coolingOff, temps, k);
    if i < k {
      var prefix := temps[..k];
      CoolingAfterCharacterised(coolingOff, prefix);
      assert prefix[i] >= TEMP_SHUTDOWN && forall j :: i < j < |prefix| ==> prefix[j] >= TEMP_WARN;
    }
  }

  /** A reading below the warning threshold always clears cooling and allows the check. */
  lemma {:induction false} ClearedBelowWarn(coolingOff: bool, temps: seq<int>, k: nat)
    requires k < |temps| && temps[k] < TEMP_WARN
    ensures Allowances(coolingOff, temps)[k]
    ensures !CoolingAfter(coolingOff, temps[..k + 1])
  {
    AllowanceAt(coolingOff, temps, k);
    CoolingAfterCharacterised(coolingOff, temps[..k + 1]);
  }

  /** The guard's one piece of state, `coolingOff`. */
  class ThermalGuard {
    var coolingOff: bool

    constructor ()
      ensures !coolingOff
    {
      coolingOff := false;
    }

    /**
     * `checkTemp`: evaluates a reading, updates the cooling flag and reports
     * whether the lights check may run, the alert tone count and whether the
     * lights must be forced off.
     */
    method CheckTemp(temp: int) returns (allow: bool, toneCount: nat, forcedOff: bool)
      modifies this
      ensures Verdict(allow, toneCount, forcedOff, coolingOff) == Evaluate(old(coolingOff), temp)
    {
      if temp >= TEMP_SHUTDOWN {
        coolingOff := true;
        return false, 6, true;
      }
      if temp >= TEMP_CRITICAL {
        return !coolingOff, 4, false;
      }
      if temp >= TEMP_WARN {
        return !coolingOff, 2, false;
      }
      coolingOff := false;
      return true, 0, false;
    }
  }
}
