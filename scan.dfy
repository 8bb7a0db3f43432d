/**
 * The integer conversions of `sscanf` that the command handlers use:
 * `%d` and the fixed-width `%4d` / `%02d`.  A conversion skips leading
 * white space, accepts an optional sign and then decimal digits, all within
 * the field width; it fails when no digit is found, and then every later
 * conversion of the same call fails too.  A variable whose conversion
 * failed is left uninitialised; the model gives such variables arbitrary
 * values, supplied by the caller as `garbage`.
 */
module Scan {
  import opened Wrappers

  predicate IsDigit(c: char) {
    '0' <= c <= '9'
  }

  /** The white-space characters `isspace` accepts in the C locale. */
  predicate IsSpace(c: char) {
    c == ' ' || c == '\t' || c == '\n' || c == 11 as char || c == 12 as char || c == '\r'
  }

  predicate AllDigits(s: string) {
    forall i :: 0 <= i < |s| ==> IsDigit(s[i])
  }

  /**
   * The number a string of decimal digits denotes, most significant digit
   * first (each character counts as its distance from '0').
   */
  function Decimal(s: string): (v: int)
    ensures AllDigits(s) ==> 0 <= v
    decreases |s|
  {
    if s == [] then 0
    else
      assert AllDigits(s) ==> AllDigits(s[..|s| - 1]);
      Decimal(s[..|s| - 1]) * 10 + ((s[|s| - 1] as int) - ('0' as int))
  }

  /** The value of a two-character field. */
  lemma DecimalOfTwo(s: string)
    requires |s| == 2
    ensures Decimal(s) == (s[0] as int - '0' as int) * 10 + (s[1] as int - '0' as int)
  {
    var first := s[..1];
    assert first[..0] == [] && first[0] == s[0];
    assert Decimal(first) == s[0] as int - '0' as int;
  }

  /** The value of a four-character field. */
  lemma DecimalOfFour(s: string)
    requires |s| == 4
    ensures Decimal(s) ==
      (s[0] as int - '0' as int) * 1000 + (s[1] as int - '0' as int) * 100 +
      (s[2] as int - '0' as int) * 10 + (s[3] as int - '0' as int)
  {
    DecimalOfTwo(s[..2]);
    assert s[..3][..2] == s[..2];
  }

  /** How many white-space characters `s` starts with. */
  function LeadingSpaces(s: string): (n: nat)
    ensures n <= |s|
    ensures forall i :: 0 <= i < n ==> IsSpace(s[i])
    ensures n < |s| ==> !IsSpace(s[n])
  {
    if s == [] || !IsSpace(s[0]) then 0 else 1 + LeadingSpaces(s[1..])
  }

  /** How many digits `s` starts with, counting at most `limit`. */
  function LeadingDigits(s: string, limit: nat): (n: nat)
    ensures n <= |s| && n <= limit
    ensures AllDigits(s[..n])
    ensures n < |s| && n < limit ==> !IsDigit(s[n])
  {
    if s == [] || limit == 0 || !IsDigit(s[0]) then 0
    else
      var n := 1 + LeadingDigits(s[1..], limit - 1);
      assert forall i :: 1 <= i < n ==> s[..n][i] == s[1..][..n - 1][i - 1];
      n
  }

  /**
   * One conversion `%<width>d` applied to `s`: the value read and how many
   * characters of `s` it consumed, or None when it does not match.
   */
  function ScanInt(s: string, width: nat): (r: Option<(int, nat)>)
    ensures r.Some? ==> 0 < r.value.1 <= |s|
  {
    var w := LeadingSpaces(s);
    var t := s[w..];
    var k := if |t| > 0 && (t[0] == '+' || t[0] == '-') then 1 else 0;
    if width < k then None
    else
      var n := LeadingDigits(t[k..], width - k);
      if n == 0 then None
      else
        var v := Decimal(t[k..][..n]);
        var value := if k == 1 && t[0] == '-' then -v else v;
        Some((value, w + k + n))
  }

  /**
   * The conversions of one `sscanf` call with the given field widths, one
   * after another; a failed conversion ends the call.
   */
  function ScanFields(s: string, widths: seq<nat>): (r: seq<Option<int>>)
    ensures |r| == |widths|
    ensures forall i, j :: 0 <= i <= j < |r| && r[i].None? ==> r[j].None?
    decreases |widths|
  {
    if widths == [] then []
    else
      match ScanInt(s, widths[0])
      case None => seq(|widths|, _ => None)
      case Some((v, k)) => [Some(v)] + ScanFields(s[k..], widths[1..])
  }

  /**
   * The variables after one `sscanf` call: converted fields hold the values
   * read, the others keep their indeterminate contents.
   */
  function SScanf(s: string, widths: seq<nat>, garbage: seq<int>): (vals: seq<int>)
    requires |garbage| == |widths|
    ensures |vals| == |widths|
  {
    Assign(ScanFields(s, widths), garbage)
  }

  /** Each variable receives its converted value, or keeps its previous contents. */
  function Assign(fields: seq<Option<int>>, garbage: seq<int>): (vals: seq<int>)
    requires |garbage| == |fields|
    ensures |vals| == |fields|
    ensures forall i :: 0 <= i < |fields| && fields[i].Some? ==> vals[i] == fields[i].value
    ensures forall i :: 0 <= i < |fields| && fields[i].None? ==> vals[i] == garbage[i]
  {
    seq(|fields|, i requires 0 <= i < |fields| => fields[i].GetOr(garbage[i]))
  }

  /** The smaller of two numbers. */
  function Min(a: nat, b: nat): nat {
    if a <= b then a else b
  }

  /** On digits, a conversion reads as many digits as its width and the text allow. */
  lemma DigitField(s: string, width: nat)
    requires AllDigits(s) && 1 <= width && s != []
    ensures ScanInt(s, width) == Some((Decimal(s[..Min(width, |s|)]), Min(width, |s|)))
  {
    assert !IsSpace(s[0]);
    assert s[0..] == s;
    var n := LeadingDigits(s, width);
    assert n == Min(width, |s|);
    assert s[0..][..n] == s[..n];
  }

  /** The fields a string of digits is cut into by the given widths, left to right. */
  function DigitSlices(s: string, widths: seq<nat>): (r: seq<Option<int>>)
    ensures |r| == |widths|
    decreases |widths|
  {
    if widths == [] then []
    else if s == [] then seq(|widths|, _ => None)
    else
      var n := Min(widths[0], |s|);
      [Some(Decimal(s[..n]))] + DigitSlices(s[n..], widths[1..])
  }

  /**
   * On a string of digits, each conversion of positive width reads the
   * next slice of at most that many digits.
   */
  lemma {:induction false} DigitFields(s: string, widths: seq<nat>)
    requires AllDigits(s)
    requires forall j :: 0 <= j < |widths| ==> widths[j] >= 1
    ensures ScanFields(s, widths) == DigitSlices(s, widths)
    decreases |widths|
  {
    if widths != [] && s != [] {
      DigitField(s, widths[0]);
      var rest := s[Min(widths[0], |s|)..];
      assert AllDigits(rest) by {
        forall j | 0 <= j < |rest| ensures IsDigit(rest[j]) {
          assert rest[j] == s[Min(widths[0], |s|) + j];
        }
      }
      DigitFields(rest, widths[1..]);
    }
  }

  /** The decimal text of a number: no sign, no leading zeros, "0" for zero. */
  function ToDecimal(v: nat): (s: string)
    ensures AllDigits(s) && 1 <= |s|
    ensures |s| > 1 ==> s[0] != '0'
    ensures Decimal(s) == v
  {
    var d := [('0' as int + v % 10) as char];
    if v < 10 then d
    else
      var s := ToDecimal(v / 10) + d;
      assert s[..|s| - 1] == ToDecimal(v / 10);
      s
  }

  /** Digits needed for a number below 1000. */
  lemma ToDecimalLength(v: nat)
    requires v < 1000
    ensures |ToDecimal(v)| <= 3
  {
    if v >= 10 {
      ToDecimalLength(v / 10);
      if v >= 100 {
        assert v / 10 >= 10;
        assert |ToDecimal(v / 10)| == |ToDecimal(v / 10 / 10)| + 1;
      }
    }
  }

  /** `%d` reads back the decimal text of every number. */
  lemma ScanToDecimal(v: nat)
    ensures var s := ToDecimal(v); ScanInt(s, |s|) == Some((v, |s|))
  {
    DigitField(ToDecimal(v), |ToDecimal(v)|);
    assert ToDecimal(v)[..|ToDecimal(v)|] == ToDecimal(v);
  }
}
