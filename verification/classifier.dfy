/**
 * The on-time/late decision taken when a scan is accepted. Times are
 * milliseconds after local midnight of the day of the scan; the clock is a
 * parameter.
 */
module Classifier {
  import opened Optional
  import opened Text
  import opened Types

  /** `setHours(hours, minutes, 0, 0)` as milliseconds after local midnight. */
  function ClockMs(hours: int, minutes: int): int
  {
    hours * 3600000 + minutes * 60000
  }

  /** A time of day given as hours 0..23 and minutes 0..59 falls inside the day (86400000 ms). */
  lemma ClockMsInDay(hours: int, minutes: int)
    requires 0 <= hours < 24 && 0 <= minutes < 60
    ensures 0 <= ClockMs(hours, minutes) < 86400000
  {
  }

  /**
   * The instant `setHours(hours, minutes, 0, 0)` sets, where `hours` and
   * `minutes` are the first two ':'-separated pieces of `startTime` passed
   * through `Number`, in ms after local midnight (out-of-range values roll
   * over into neighbouring days). `None` is NaN: a piece that is not a
   * number, or a missing minutes piece (`undefined`).
   */
  function CutoffMs(startTime: string): Option<int>
  {
    var parts := Split(startTime, ':');
    if |parts| < 2 then None
    else
      var hours, minutes := JsInteger(parts[0]), JsInteger(parts[1]);
      if hours.Some? && minutes.Some? then Some(ClockMs(hours.value, minutes.value))
      else None
  }

  /** The start time, when the school is set up and its `startSchoolTime` is truthy (present and non-empty). */
  function StartTime(details: Option<SchoolDetails>): Option<string>
  {
    if details.Some? && details.value.startSchoolTime.Some? && details.value.startSchoolTime.value != ""
    then details.value.startSchoolTime
    else None
  }

  /**
   * A scan at `nowMs` is LATE when a start time is configured, it parses,
   * and `nowMs` is strictly after it; every other case is PRESENT (a NaN
   * comparison is false).
   */
  function ClassifyStatus(details: Option<SchoolDetails>, nowMs: int): Status
  {
    match StartTime(details)
    case None => Present
    case Some(t) =>
      match CutoffMs(t)
      case Some(cutoff) => if nowMs > cutoff then Late else Present
      case None => Present
  }

  /** A "HH:mm" time of day, as the school profile form stores it. */
  predicate IsHHmm(t: string)
  {
    |t| == 5 && AllDigits(t[..2]) && t[2] == ':' && AllDigits(t[3..])
    && DigitsValue(t[..2]) < 24 && DigitsValue(t[3..]) < 60
  }

  /** The instant after local midnight that a "HH:mm" string names. */
  function HHmmMs(t: string): int
    requires IsHHmm(t)
  {
    ClockMs(DigitsValue(t[..2]), DigitsValue(t[3..]))
  }

  /** "HH:mm" for a time of day. */
  function FormatHHmm(hours: nat, minutes: nat): string
    requires hours < 24 && minutes < 60
  {
    TwoDigits(hours) + ":" + TwoDigits(minutes)
  }

  /** A well-formed start time parses to its own minute of the day, a cutoff inside the day. */
  lemma CutoffOfHHmm(t: string)
    requires IsHHmm(t)
    ensures CutoffMs(t) == Some(HHmmMs(t))
    ensures 0 <= HHmmMs(t) < 86400000
  {
    var a, b := t[..2], t[3..];
    SplitHHmm(t);
    JsIntegerOfDigits(a);
    JsIntegerOfDigits(b);
    CutoffOfPieces(t, DigitsValue(a), DigitsValue(b));
    ClockMsInDay(DigitsValue(a), DigitsValue(b));
  }

  /** "HH:mm" splits on ':' into its hours and its minutes. */
  lemma SplitHHmm(t: string)
    requires IsHHmm(t)
    ensures Split(t, ':') == [t[..2], t[3..]]
  {
    var a, b := t[..2], t[3..];
    assert t == a + [':'] + b;
    assert ':' !in a by { assert forall k :: 0 <= k < |a| ==> IsDigit(a[k]); }
    assert ':' !in b by { assert forall k :: 0 <= k < |b| ==> IsDigit(b[k]); }
    SplitAfterPiece(a, ':', b);
    SplitNoSeparator(b, ':');
  }

  /** The cutoff of a start time whose two pieces convert to `h` and `m`. */
  lemma CutoffOfPieces(t: string, h: int, m: int)
    requires |Split(t, ':')| == 2
    requires JsInteger(Split(t, ':')[0]) == Some(h) && JsInteger(Split(t, ':')[1]) == Some(m)
    ensures CutoffMs(t) == Some(ClockMs(h, m))
  {
  }

  /** Formatting a time of day and reading it back as a start time gives that time. */
  lemma FormatThenCutoff(hours: nat, minutes: nat)
    requires hours < 24 && minutes < 60
    ensures IsHHmm(FormatHHmm(hours, minutes))
    ensures CutoffMs(FormatHHmm(hours, minutes)) == Some(ClockMs(hours, minutes))
  {
    var t := FormatHHmm(hours, minutes);
    assert t[..2] == TwoDigits(hours) && t[3..] == TwoDigits(minutes);
    TwoDigitsValue(hours);
    TwoDigitsValue(minutes);
    CutoffOfHHmm(t);
  }

  /** With a well-formed start time, LATE means strictly after it: the exact cutoff is still PRESENT. */
  lemma LateIffAfterStart(details: Option<SchoolDetails>, nowMs: int)
    requires details.Some? && details.value.startSchoolTime.Some?
    requires IsHHmm(details.value.startSchoolTime.value)
    ensures ClassifyStatus(details, nowMs) == Late <==> nowMs > HHmmMs(details.value.startSchoolTime.value)
  {
    CutoffOfHHmm(details.value.startSchoolTime.value);
  }

  /** Without a school profile, or with its start time missing or empty, every scan is PRESENT. */
  lemma NoStartTimeIsPresent(details: Option<SchoolDetails>, nowMs: int)
    requires details.None? || details.value.startSchoolTime.None? || details.value.startSchoolTime.value == ""
    ensures ClassifyStatus(details, nowMs) == Present
  {
  }

  /** A start time with no ':' (so no minutes) makes the cutoff NaN, and every scan is PRESENT. */
  lemma {:induction false} NoMinutesIsPresent(details: Option<SchoolDetails>, nowMs: int)
    requires details.Some? && details.value.startSchoolTime.Some?
    requires ':' !in details.value.startSchoolTime.value
    ensures ClassifyStatus(details, nowMs) == Present
  {
    SplitNoSeparator(details.value.startSchoolTime.value, ':');
  }

  /**
   * A start time whose hours or minutes piece holds a character that no
   * decimal numeral has (as in "ab:cd" or "8:3O") makes the cutoff NaN, and
   * every scan is PRESENT.
   */
  lemma NonNumberPieceIsPresent(details: Option<SchoolDetails>, nowMs: int, piece: nat, k: nat)
    requires details.Some? && details.value.startSchoolTime.Some?
    requires var parts := Split(details.value.startSchoolTime.value, ':');
             piece < 2 && piece < |parts| && k < |parts[piece]| && !IsNumeralChar(parts[piece][k])
    ensures ClassifyStatus(details, nowMs) == Present
  {
    var parts := Split(details.value.startSchoolTime.value, ':');
    JsIntegerNaN(parts[piece], k);
  }

  /** "08:00": a scan at 08:00:00.000 is PRESENT, one at 08:00:00.001 is LATE. */
  lemma EightOClockBoundary(details: Option<SchoolDetails>)
    requires details.Some? && details.value.startSchoolTime == Some("08:00")
    ensures ClassifyStatus(details, 28800000) == Present
    ensures ClassifyStatus(details, 28800001) == Late
  {
    var t := FormatHHmm(8, 0);
    assert t == "08:00" by { assert TwoDigits(8) == "08" && TwoDigits(0) == "00"; }
    FormatThenCutoff(8, 0);
    assert ClockMs(8, 0) == 28800000;
  }
}
