/**
 * The line assembler (`readInput`).  Characters arrive one at a time and
 * are collected in a 32-character buffer through a persistent index: a
 * carriage return is ignored, a backspace cancels the line, a newline
 * terminates it with a NUL and hands it over, and an ordinary character is
 * stored while fewer than 31 are held, otherwise dropped with an overflow
 * notice.  The completed line is read as a C string, that is, up to the
 * first NUL of the buffer.
 */
module LineInput {
  import opened Wrappers

  const MAX_INPUT_LEN := 31
  const CR: char := '\r'
  const LF: char := '\n'
  const BACKSPACE: char := 8 as char
  const NUL: char := 0 as char

  /** What feeding one character reports on the serial line. */
  datatype Event = Ignored | Canceled | Completed(line: string) | Echoed | Overflow

  /** The C string held by a character buffer: everything before its first NUL. */
  function CString(s: seq<char>): (r: string)
    ensures r <= s && NUL !in r
    ensures |r| < |s| ==> s[|r|] == NUL
  {
    if s == [] || s[0] == NUL then [] else [s[0]] + CString(s[1..])
  }

  /** A NUL ends the C string whatever follows it. */
  lemma {:induction false} CStringAtNul(s: seq<char>, rest: seq<char>)
    ensures CString(s + [NUL] + rest) == CString(s)
  {
    if s != [] {
      assert (s + [NUL] + rest)[1..] == s[1..] + [NUL] + rest;
      if s[0] != NUL {
        CStringAtNul(s[1..], rest);
      }
    }
  }

  /** Feeding one character to the pending (not yet completed) line. */
  function Step(pending: string, c: char): (r: (string, Event))
    requires |pending| <= MAX_INPUT_LEN
    ensures |r.0| <= MAX_INPUT_LEN
    ensures r.1.Completed? <==> c == LF
    ensures r.1.Completed? ==> r.1.line == CString(pending)
    ensures r.0 == [] <==> c == LF || c == BACKSPACE || (pending == [] && c == CR)
    ensures r.1 == Overflow <==> c != CR && c != BACKSPACE && c != LF && |pending| == MAX_INPUT_LEN
    ensures r.0 == pending || r.0 == pending + [c] || r.0 == []
    ensures c == CR ==> r == (pending, Ignored)
    ensures c == BACKSPACE ==> r == ([], Canceled)
    ensures c != CR && c != BACKSPACE && c != LF && |pending| < MAX_INPUT_LEN ==> r == (pending + [c], Echoed)
  {
    if c == CR then (pending, Ignored)
    else if c == BACKSPACE then ([], Canceled)
    else if c == LF then ([], Completed(CString(pending)))
    else if |pending| < MAX_INPUT_LEN then (pending + [c], Echoed)
    else (pending, Overflow)
  }

  /**
   * The outcome of draining the available input: the pending line left,
   * the completed line if a newline was met, and how many characters were
   * consumed.
   */
  datatype ReadResult = ReadResult(pending: string, line: Option<string>, consumed: nat)

  /** Draining available input: characters are fed until a line completes or the input runs out. */
  function Read(pending: string, input: string): (r: ReadResult)
    requires |pending| <= MAX_INPUT_LEN
    ensures |r.pending| <= MAX_INPUT_LEN && r.consumed <= |input|
    ensures r.line.Some? ==>
      r.pending == [] && 0 < r.consumed && input[r.consumed - 1] == LF && LF !in input[..r.consumed - 1]
    ensures r.line.None? ==> r.consumed == |input| && LF !in input
    decreases |input|
  {
    if input == [] then ReadResult(pending, None, 0)
    else
      var (p, ev) := Step(pending, input[0]);
      if ev.Completed? then ReadResult(p, Some(ev.line), 1)
      else
        var r := Read(p, input[1..]);
        assert input == [input[0]] + input[1..];
        ReadResult(r.pending, r.line, r.consumed + 1)
  }

  /** Reading from position `k` on feeds the character there first. */
  lemma ReadFrom(pending: string, input: string, k: nat)
    requires |pending| <= MAX_INPUT_LEN && k < |input|
    ensures var r := Read(pending, input[k..]);
      if input[k] == LF then r == ReadResult([], Some(CString(pending)), 1)
      else
        var r' := Read(Step(pending, input[k]).0, input[k + 1..]);
        r == ReadResult(r'.pending, r'.line, r'.consumed + 1)
  {
    assert input[k..][0] == input[k];
    assert input[k..][1..] == input[k + 1..];
  }

  /** The characters of a stream other than carriage returns. */
  function WithoutCR(s: string): (r: string)
    ensures |r| <= |s| && CR !in r
  {
    if s == [] then [] else (if s[0] == CR then [] else [s[0]]) + WithoutCR(s[1..])
  }

  /** The first `n` elements of `s`, or all of them when there are fewer. */
  function Take(s: string, n: nat): (r: string)
    ensures |r| <= n && r <= s
    ensures |s| <= n ==> r == s
  {
    if |s| <= n then s else s[..n]
  }

  /**
   * Without newlines and backspaces, the pending line keeps the first 31
   * non-CR characters fed since the last reset; later ones are dropped.
   */
  lemma {:induction false} Accumulates(pending: string, input: string)
    requires |pending| <= MAX_INPUT_LEN
    requires LF !in input && BACKSPACE !in input
    ensures Read(pending, input) == ReadResult(Take(pending + WithoutCR(input), MAX_INPUT_LEN), None, |input|)
    decreases |input|
  {
    if input == [] {
      assert pending + WithoutCR(input) == pending;
    } else {
      var c, rest := input[0], input[1..];
      assert LF !in rest && BACKSPACE !in rest by {
        assert forall x :: x in rest ==> x in input;
      }
      Accumulates(Step(pending, c).0, rest);
      assert input == [c] + rest;
      AccumulateStep(pending, c, rest);
    }
  }

  /** One ordinary or CR character moves the kept prefix along by itself. */
  lemma AccumulateStep(pending: string, c: char, rest: string)
    requires |pending| <= MAX_INPUT_LEN && c != LF && c != BACKSPACE
    ensures Take(Step(pending, c).0 + WithoutCR(rest), MAX_INPUT_LEN) ==
      Take(pending + WithoutCR([c] + rest), MAX_INPUT_LEN)
  {
    assert ([c] + rest)[1..] == rest;
    if c == CR {
      assert WithoutCR([c] + rest) == WithoutCR(rest);
    } else {
      assert WithoutCR([c] + rest) == [c] + WithoutCR(rest);
      assert pending + ([c] + WithoutCR(rest)) == (pending + [c]) + WithoutCR(rest);
      if |pending| == MAX_INPUT_LEN {
        assert (pending + [c] + WithoutCR(rest))[..MAX_INPUT_LEN] == pending;
        assert (pending + WithoutCR(rest))[..MAX_INPUT_LEN] == pending;
      }
    }
  }

  /** Reading input that holds no newline leaves nothing to stop the next read. */
  lemma {:induction false} ReadConcat(pending: string, first: string, second: string)
    requires |pending| <= MAX_INPUT_LEN
    requires LF !in first
    ensures var r1 := Read(pending, first);
      var r2 := Read(r1.pending, second);
      Read(pending, first + second) == ReadResult(r2.pending, r2.line, |first| + r2.consumed)
    decreases |first|
  {
    if first != [] {
      assert (first + second)[0] == first[0];
      assert (first + second)[1..] == first[1..] + second;
      assert LF !in first[1..] by {
        assert forall x :: x in first[1..] ==> x in first;
      }
      ReadConcat(Step(pending, first[0]).0, first[1..], second);
    } else {
      assert first + second == second;
    }
  }

  /** A newline completes the pending line at once. */
  lemma NewlineCompletes(pending: string, after: string)
    requires |pending| <= MAX_INPUT_LEN
    ensures Read(pending, [LF] + after) == ReadResult([], Some(CString(pending)), 1)
  {
    assert ([LF] + after)[0] == LF;
  }

  /**
   * A completed line is the C string of the first 31 non-CR characters fed
   * before the newline, however many more were typed.
   */
  lemma CompletedLine(pending: string, input: string, after: string)
    requires |pending| <= MAX_INPUT_LEN
    requires LF !in input && BACKSPACE !in input
    ensures Read(pending, input + [LF] + after) ==
      ReadResult([], Some(CString(Take(pending + WithoutCR(input), MAX_INPUT_LEN))), |input| + 1)
  {
    var rest := [LF] + after;
    assert input + [LF] + after == input + rest;
    var held := Take(pending + WithoutCR(input), MAX_INPUT_LEN);
    Accumulates(pending, input);
    NewlineCompletes(held, after);
    ReadConcat(pending, input, rest);
  }

  /** A text without carriage returns passes through `WithoutCR` unchanged. */
  lemma {:induction false} WithoutCRIdentity(s: string)
    requires CR !in s
    ensures WithoutCR(s) == s
  {
    if s != [] {
      assert CR !in s[1..] by {
        assert forall x :: x in s[1..] ==> x in s;
      }
      WithoutCRIdentity(s[1..]);
      assert s == [s[0]] + s[1..];
    }
  }

  /** A text without NUL characters is its own C string. */
  lemma {:induction false} CStringIdentity(s: string)
    requires NUL !in s
    ensures CString(s) == s
  {
    if s != [] {
      assert NUL !in s[1..] by {
        assert forall x :: x in s[1..] ==> x in s;
      }
      CStringIdentity(s[1..]);
      assert s == [s[0]] + s[1..];
    }
  }

  /**
   * Typing more than 31 ordinary characters on an empty line and then a
   * newline completes the line with exactly the first 31 of them.
   */
  lemma LongLineTruncated(input: string)
    requires |input| > MAX_INPUT_LEN
    requires LF !in input && BACKSPACE !in input && CR !in input && NUL !in input
    ensures Read([], input + [LF]).line == Some(input[..MAX_INPUT_LEN])
  {
    CompletedLine([], input, []);
    assert input + [LF] + [] == input + [LF];
    WithoutCRIdentity(input);
    assert [] + WithoutCR(input) == input;
    assert NUL !in input[..MAX_INPUT_LEN] by {
      assert forall x :: x in input[..MAX_INPUT_LEN] ==> x in input;
    }
    CStringIdentity(input[..MAX_INPUT_LEN]);
  }

  /** The buffer and the persistent index of `readInput`. */
  class LineReader {
    const buffer: array<char>
    var ndx: int

    ghost predicate Valid()
      reads this
    {
      buffer.Length == MAX_INPUT_LEN + 1 && 0 <= ndx <= MAX_INPUT_LEN
    }

    /** The characters collected since the last reset. */
    ghost function Pending(): string
      reads this, buffer
      requires Valid()
    {
      buffer[..ndx]
    }

    constructor ()
      ensures Valid() && fresh(buffer) && Pending() == []
    {
      buffer := new char[MAX_INPUT_LEN + 1](_ => NUL);
      ndx := 0;
    }

    /** The handling of one received character by `readInput`. */
    method Feed(c: char)
      requires Valid()
      modifies this, buffer
      ensures Valid() && Pending() == Step(old(Pending()), c).0
      ensures c == LF ==> CString(buffer[..]) == CString(old(Pending()))
    {
      ghost var before := Pending();
      if c == CR {
        // ignored
      } else if c == BACKSPACE {
        ndx := 0;
      } else if c == LF {
        buffer[ndx] := NUL;
        assert buffer[..] == before + [NUL] + buffer[ndx + 1..];
        CStringAtNul(before, buffer[ndx + 1..]);
        ndx := 0;
      } else if ndx < MAX_INPUT_LEN {
        buffer[ndx] := c;
        ndx := ndx + 1;
        assert Pending() == before + [c];
      } else {
        // dropped: the overflow notice is serial output
      }
    }

    /**
     * `readInput`: consumes available characters until a line completes or
     * the input runs out.  On completion the buffer holds the line as a C
     * string.
     */
    method ReadInput(input: string) returns (done: bool, consumed: nat)
      requires Valid()
      modifies this, buffer
      ensures Valid()
      ensures var r := Read(old(Pending()), input);
        Pending() == r.pending && consumed == r.consumed && done == r.line.Some?
      ensures done ==> CString(buffer[..]) == Read(old(Pending()), input).line.value
    {
      consumed := 0;
      while consumed < |input|
        invariant Valid()
        invariant 0 <= consumed <= |input|
        invariant var r, s := Read(old(Pending()), input), Read(Pending(), input[consumed..]);
          r.pending == s.pending && r.line == s.line && r.consumed == consumed + s.consumed
      {
        var c := input[consumed];
        ReadFrom(Pending(), input, consumed);
        Feed(c);
        consumed := consumed + 1;
        if c == LF {
          return true, consumed;
        }
      }
      return false, consumed;
    }
  }
}
