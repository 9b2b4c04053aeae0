/**
 * `format_duration`: whole seconds split into days, hours, minutes and
 * seconds by floor division, rendered as "1d 2h 3m 4s" with the leading
 * zero units left out.  A small reader for that format is the partner
 * that shows the rendering loses nothing.
 */
module Time {
  import opened Text

  /** Python's `int(x)` on a float: truncation toward zero. */
  function Trunc(x: real): (n: int)
    ensures x >= 0.0 ==> n >= 0 && n as real <= x < n as real + 1.0
    ensures x < 0.0 ==> n <= 0 && n as real - 1.0 < x <= n as real
  {
    if x >= 0.0 then x.Floor else -((-x).Floor)
  }

  /** The `divmod` cascade (floor division, as Python's `divmod` and Dafny's `/` agree on for positive divisors). */
  function Components(n: int): (c: (int, nat, nat, nat))
    ensures c.0 * 86400 + c.1 * 3600 + c.2 * 60 + c.3 == n
    ensures c.1 < 24 && c.2 < 60 && c.3 < 60
    ensures n >= 0 ==> c.0 >= 0
  {
    var minutes := n / 60;
    var hours := minutes / 60;
    (hours / 24, hours % 24, minutes % 60, n % 60)
  }

  /** The list `parts` before it is joined. */
  function Parts(n: int): seq<string> {
    var (d, h, m, s) := Components(n);
    (if d > 0 then [NatToString(d) + "d"] else []) +
    (if h > 0 || d > 0 then [NatToString(h) + "h"] else []) +
    (if m > 0 || h > 0 || d > 0 then [NatToString(m) + "m"] else []) +
    [NatToString(s) + "s"]
  }

  function FormatDuration(seconds: real): string {
    Join(Parts(Trunc(seconds)), ' ')
  }

  /**
   * The days part is present iff there are days, hours iff hours or days,
   * minutes iff any larger unit is nonzero; seconds are always last.
   */
  lemma PartsPresence(n: int)
    ensures var (d, h, m, s) := Components(n);
      |Parts(n)| == (if d > 0 then 4 else if h > 0 then 3 else if m > 0 then 2 else 1) &&
      Parts(n)[|Parts(n)| - 1] == NatToString(s) + "s" &&
      (d > 0 ==> Parts(n)[0] == NatToString(d) + "d")
  {
  }

  /** The rendering ends with the seconds modulo sixty. */
  lemma {:induction false} EndsWithSeconds(seconds: real)
    ensures var text := FormatDuration(seconds); var tail := NatToString(Trunc(seconds) % 60) + "s";
      |tail| <= |text| && text[|text| - |tail|..] == tail
  {
    JoinEndsWithLast(Parts(Trunc(seconds)), ' ');
  }

  lemma {:induction false} JoinEndsWithLast(parts: seq<string>, sep: char)
    requires |parts| >= 1
    ensures var text := Join(parts, sep); var last := parts[|parts| - 1];
      |last| <= |text| && text[|text| - |last|..] == last
    decreases |parts|
  {
    if |parts| > 1 {
      JoinEndsWithLast(parts[1..], sep);
      var rest := Join(parts[1..], sep);
      var last := parts[|parts| - 1];
      assert Join(parts, sep) == (parts[0] + [sep]) + rest;
      assert Join(parts, sep)[|Join(parts, sep)| - |last|..] == rest[|rest| - |last|..];
    }
  }

  /** Seconds per unit letter. */
  function UnitSeconds(u: char): int {
    if u == 'd' then 86400 else if u == 'h' then 3600 else if u == 'm' then 60 else if u == 's' then 1 else 0
  }

  /** One "<number><unit>" part read back as seconds (0 for anything else). */
  function ReadPart(p: string): int {
    if |p| >= 1 && forall i :: 0 <= i < |p| - 1 ==> IsDigit(p[i])
    then DigitsValue(p[..|p| - 1]) * UnitSeconds(p[|p| - 1])
    else 0
  }

  function SumParts(parts: seq<string>): int {
    if parts == [] then 0 else ReadPart(parts[0]) + SumParts(parts[1..])
  }

  /** Reads a rendered duration back as a number of seconds. */
  function ReadDuration(text: string): int {
    SumParts(Split(text, ' '))
  }

  lemma ReadOnePart(k: nat, u: char)
    ensures ReadPart(NatToString(k) + [u]) == k * UnitSeconds(u)
  {
    var p := NatToString(k) + [u];
    assert p[..|p| - 1] == NatToString(k);
    NatToStringRoundTrip(k);
  }

  lemma NoSpaceInPart(k: nat, u: char)
    requires u != ' '
    ensures forall j :: 0 <= j < |NatToString(k) + [u]| ==> (NatToString(k) + [u])[j] != ' '
  {
    var p := NatToString(k) + [u];
    forall j | 0 <= j < |p|
      ensures p[j] != ' '
    {
      if j < |p| - 1 {
        assert IsDigit(NatToString(k)[j]);
      }
    }
  }

  /** Every rendered part is digits followed by a unit letter, so none holds a space. */
  lemma PartsHaveNoSpace(n: int)
    ensures forall i, j :: 0 <= i < |Parts(n)| && 0 <= j < |Parts(n)[i]| ==> Parts(n)[i][j] != ' '
  {
    var (d, h, m, s) := Components(n);
    NoSpaceInPart(s, 's');
    NoSpaceInPart(m, 'm');
    NoSpaceInPart(h, 'h');
    if d > 0 {
      NoSpaceInPart(d, 'd');
    }
  }

  /** The parts of a non-negative count of seconds add back up to it. */
  lemma PartsSum(n: int)
    requires n >= 0
    ensures SumParts(Parts(n)) == n
  {
    var (d, h, m, s) := Components(n);
    var ps, pm, ph, pd := NatToString(s) + "s", NatToString(m) + "m", NatToString(h) + "h", NatToString(d) + "d";
    ReadOnePart(s, 's');
    ReadOnePart(m, 'm');
    ReadOnePart(h, 'h');
    ReadOnePart(d, 'd');
    assert SumParts([ps]) == s;
    assert SumParts([pm, ps]) == m * 60 + s;
    assert SumParts([ph, pm, ps]) == h * 3600 + m * 60 + s;
    assert SumParts([pd, ph, pm, ps]) == d * 86400 + h * 3600 + m * 60 + s;
    if d > 0 {
      assert Parts(n) == [pd, ph, pm, ps];
    } else if h > 0 {
      assert Parts(n) == [ph, pm, ps];
    } else if m > 0 {
      assert Parts(n) == [pm, ps];
    } else {
      assert Parts(n) == [ps];
    }
  }

  /**
   * For a non-negative duration the rendering loses nothing: reading it back
   * gives `int(seconds)`.
   */
  lemma RoundTrip(seconds: real)
    requires seconds >= 0.0
    ensures ReadDuration(FormatDuration(seconds)) == Trunc(seconds)
  {
    PartsHaveNoSpace(Trunc(seconds));
    SplitJoin(Parts(Trunc(seconds)), ' ');
    PartsSum(Trunc(seconds));
  }

  /** Zero seconds render as "0s". */
  lemma FormatZero()
    ensures FormatDuration(0.0) == "0s"
  {
    assert NatToString(0) == "0";
  }

  /** One hour keeps the zero minutes and seconds: "1h 0m 0s". */
  lemma FormatOneHour()
    ensures FormatDuration(3600.0) == "1h 0m 0s"
  {
    assert NatToString(0) == "0";
    assert NatToString(1) == "1";
  }

  /** A negative duration wraps to the previous day's last second, and the negative day count is dropped. */
  lemma FormatNegativeWraps()
    ensures FormatDuration(-1.0) == "23h 59m 59s"
  {
    assert Trunc(-1.0) == -1;
    assert Components(-1) == (-1, 23, 59, 59);
    assert NatToString(23) == "23";
    assert NatToString(59) == "59";
  }
}
