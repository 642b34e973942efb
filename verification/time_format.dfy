/** The player's `m:ss` time label (`formatTime`). */
module TimeFormat {
  import opened Decimal

  /** `n.toString().padStart(2, '0')` for a number below 100. */
  function PadTwo(n: nat): (s: string)
    requires n < 100
    ensures |s| == 2 && AllDigits(s) && ParseDigits(s) == n
  {
    ParseNatToString(n);
    var d := NatToString(n);
    if |d| < 2 then LeadingZero(d); ['0'] + d else d
  }

  /** The label of a playback position or duration of `seconds` whole seconds (the
      source floors a fractional value first): `"0:00"` for zero, otherwise the whole
      minutes, a colon, and the seconds within the minute as exactly two digits. */
  function FormatTime(seconds: nat): (r: string)
    ensures seconds == 0 ==> r == "0:00"
    ensures |r| >= 4 && r[|r| - 3] == ':'
    ensures AllDigits(r[..|r| - 3]) && AllDigits(r[|r| - 2..])
    ensures ParseDigits(r[|r| - 2..]) < 60
  {
    if seconds == 0 then
      assert "0:00"[1..] == ":00" && "0:00"[2..] == "00" && "00"[..1] == "0";
      "0:00"
    else
      var r := NatToString(seconds / 60) + ":" + PadTwo(seconds % 60);
      assert r[..|r| - 3] == NatToString(seconds / 60);
      assert r[|r| - 2..] == PadTwo(seconds % 60);
      r
  }

  /** The label's minutes field is the decimal form of the number of whole minutes (so it
      has no leading zero unless it is `0`), and its seconds field the remaining seconds. */
  lemma FormatTimeFields(seconds: nat)
    ensures var r := FormatTime(seconds);
      && r[..|r| - 3] == NatToString(seconds / 60)
      && ParseDigits(r[..|r| - 3]) == seconds / 60
      && ParseDigits(r[|r| - 2..]) == seconds % 60
  {
    var r := FormatTime(seconds);
    if seconds == 0 {
      assert r[..|r| - 3] == "0" == NatToString(0);
      assert r[|r| - 2..] == "00";
    } else {
      var minutes, secs := seconds / 60, seconds % 60;
      assert r == NatToString(minutes) + ":" + PadTwo(secs);
      assert r[..|r| - 3] == NatToString(minutes);
      assert r[|r| - 2..] == PadTwo(secs);
      ParseNatToString(minutes);
    }
  }

  /** The number of seconds an `m:ss` label denotes. */
  function ReadTime(r: string): nat
    requires |r| >= 3 && AllDigits(r[..|r| - 3]) && AllDigits(r[|r| - 2..])
  {
    60 * ParseDigits(r[..|r| - 3]) + ParseDigits(r[|r| - 2..])
  }

  /** Reading a label gives back the position it was made from. */
  lemma FormatTimeReadsBack(seconds: nat)
    ensures ReadTime(FormatTime(seconds)) == seconds
  {
    FormatTimeFields(seconds);
  }

  /** Distinct positions get distinct labels. */
  lemma FormatTimeInjective(a: nat, b: nat)
    requires FormatTime(a) == FormatTime(b)
    ensures a == b
  {
    FormatTimeReadsBack(a);
    FormatTimeReadsBack(b);
  }
}
