/**
 * The timestamp `addWorklog` sends when no start time is given: PHP's
 * `date('Y-m-d\TH:i:s.000O')` of the clock's local time, for example
 * "2024-01-01T10:00:00.000+0000".
 */
module Timestamp {
  import opened Wrappers
  import opened Decimal

  /** A reading of the clock in local time; `offsetMinutes` is the local offset from UTC. */
  datatype LocalTime = LocalTime(
    year: int, month: nat, day: nat, hour: nat, minute: nat, second: nat, offsetMinutes: int)
  {
    predicate Valid() {
      1 <= month <= 12 && 1 <= day <= 31 && hour < 24 && minute < 60 && second < 60
      && -100 * 60 < offsetMinutes < 100 * 60
    }
  }

  /** 'Y': at least four digits, with a '-' before years before year 0. */
  function YearText(y: int): string {
    if y < 0 then "-" + Pad(-y, 4) else Pad(y, 4)
  }

  /** 'O': the offset from UTC as a sign and four digits, hours then minutes. */
  function OffsetText(minutes: int): string {
    var magnitude := if minutes < 0 then -minutes else minutes;
    (if minutes < 0 then "-" else "+") + Pad(magnitude / 60, 2) + Pad(magnitude % 60, 2)
  }

  /** "-MM-DDTHH:MM:SS.000": the date and time of day after the year. */
  function ClockText(t: LocalTime): string {
    "-" + Pad(t.month, 2) + "-" + Pad(t.day, 2) + "T" + Pad(t.hour, 2) + ":" + Pad(t.minute, 2) + ":" + Pad(t.second, 2) + ".000"
  }

  function Format(t: LocalTime): string {
    YearText(t.year) + ClockText(t) + OffsetText(t.offsetMinutes)
  }

  /** Length of everything after the year: 19 for the clock and 5 for the offset. */
  const TailLength := 24

  function TwoDigits(s: string): Option<nat>
    requires |s| == 2
  {
    if AllDigits(s) then Some(ValueOf(s)) else None
  }

  datatype Clock = Clock(month: nat, day: nat, hour: nat, minute: nat, second: nat)

  function ParseClock(c: string): Option<Clock>
    requires |c| == 19
  {
    if c[0] != '-' || c[3] != '-' || c[6] != 'T' || c[9] != ':' || c[12] != ':' || c[15..] != ".000" then None
    else
      var month :- TwoDigits(c[1..3]);
      var day :- TwoDigits(c[4..6]);
      var hour :- TwoDigits(c[7..9]);
      var minute :- TwoDigits(c[10..12]);
      var second :- TwoDigits(c[13..15]);
      Some(Clock(month, day, hour, minute, second))
  }

  function ParseOffset(o: string): Option<int>
    requires |o| == 5
  {
    if o[0] != '+' && o[0] != '-' then None
    else
      var hours :- TwoDigits(o[1..3]);
      var minutes :- TwoDigits(o[3..]);
      Some(if o[0] == '-' then -(hours * 60 + minutes) else hours * 60 + minutes)
  }

  /** Reads a formatted timestamp back into the clock reading. */
  function Parse(s: string): Option<LocalTime> {
    if |s| < TailLength + 4 then None
    else
      var y := |s| - TailLength;
      var year :- ParseInt(s[..y]);
      var c :- ParseClock(s[y..y + 19]);
      var offset :- ParseOffset(s[y + 19..]);
      Some(LocalTime(year, c.month, c.day, c.hour, c.minute, c.second, offset))
  }

  lemma YearTextParses(y: int)
    ensures |YearText(y)| >= 4
    ensures ParseInt(YearText(y)) == Some(y)
  {
    if y < 0 {
      ValueOfPad(-y, 4);
      assert YearText(y)[1..] == Pad(-y, 4);
    } else {
      ValueOfPad(y, 4);
    }
  }

  lemma TwoDigitsOfPad(n: nat)
    requires n < 100
    ensures |Pad(n, 2)| == 2 && TwoDigits(Pad(n, 2)) == Some(n)
  {
    PadTwo(n);
    ValueOfPad(n, 2);
  }

  lemma ClockTextParses(t: LocalTime)
    requires t.Valid()
    ensures |ClockText(t)| == 19
    ensures ParseClock(ClockText(t)) == Some(Clock(t.month, t.day, t.hour, t.minute, t.second))
  {
    TwoDigitsOfPad(t.month); TwoDigitsOfPad(t.day); TwoDigitsOfPad(t.hour);
    TwoDigitsOfPad(t.minute); TwoDigitsOfPad(t.second);
    var c := ClockText(t);
    assert c[1..3] == Pad(t.month, 2);
    assert c[4..6] == Pad(t.day, 2);
    assert c[7..9] == Pad(t.hour, 2);
    assert c[10..12] == Pad(t.minute, 2);
    assert c[13..15] == Pad(t.second, 2);
    assert c[15..] == ".000";
    ParseClockOf(c, Clock(t.month, t.day, t.hour, t.minute, t.second));
  }

  /** Separators in place and five two-digit fields: the clock those fields denote. */
  lemma ParseClockOf(c: string, k: Clock)
    requires |c| == 19
    requires c[0] == '-' && c[3] == '-' && c[6] == 'T' && c[9] == ':' && c[12] == ':' && c[15..] == ".000"
    requires TwoDigits(c[1..3]) == Some(k.month) && TwoDigits(c[4..6]) == Some(k.day)
    requires TwoDigits(c[7..9]) == Some(k.hour) && TwoDigits(c[10..12]) == Some(k.minute)
    requires TwoDigits(c[13..15]) == Some(k.second)
    ensures ParseClock(c) == Some(k)
  {
  }

  lemma OffsetTextParses(minutes: int)
    requires -100 * 60 < minutes < 100 * 60
    ensures |OffsetText(minutes)| == 5
    ensures ParseOffset(OffsetText(minutes)) == Some(minutes)
  {
    var m := if minutes < 0 then -minutes else minutes;
    TwoDigitsOfPad(m / 60);
    TwoDigitsOfPad(m % 60);
    var o := OffsetText(minutes);
    assert o[1..3] == Pad(m / 60, 2);
    assert o[3..] == Pad(m % 60, 2);
  }

  /** Every valid clock reading survives formatting and parsing. */
  lemma ParseFormat(t: LocalTime)
    requires t.Valid()
    ensures Parse(Format(t)) == Some(t)
  {
    var s := Format(t);
    YearTextParses(t.year);
    ClockTextParses(t);
    OffsetTextParses(t.offsetMinutes);
    var y := |YearText(t.year)|;
    assert |s| == y + TailLength;
    assert s[..y] == YearText(t.year);
    assert s[y..y + 19] == ClockText(t);
    assert s[y + 19..] == OffsetText(t.offsetMinutes);
    ParseOf(s, t);
  }

  /** A year, a clock and an offset in their places: the reading they denote. */
  lemma ParseOf(s: string, t: LocalTime)
    requires |s| >= TailLength + 4
    requires ParseInt(s[..|s| - TailLength]) == Some(t.year)
    requires ParseClock(s[|s| - TailLength..|s| - TailLength + 19]) == Some(Clock(t.month, t.day, t.hour, t.minute, t.second))
    requires ParseOffset(s[|s| - TailLength + 19..]) == Some(t.offsetMinutes)
    ensures Parse(s) == Some(t)
  {
  }
}
