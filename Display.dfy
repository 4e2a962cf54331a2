/**
 * The pure display helpers shared by the recorder and history screens:
 * the `mm:ss` clock, the 15-second pin window label, the text shown for a
 * transcript, and the relative-age bucket of a session's date.
 */
module Display {
  import opened Text

  /** Length of the clip that ends at a pin, in seconds. */
  const WindowSeconds := 15

  /** Placeholder shown for a missing or silent transcript. */
  const Dashes := "- - -"

  /** The non-negative clock value `formatTime` works from. */
  function Clamp(sec: int): nat
  {
    if sec < 0 then 0 else sec
  }

  /** `formatTime(sec)`: minutes and seconds, each padded to two digits, joined by a colon. */
  function FormatTime(sec: int): (r: string)
    ensures |r| >= 5 && r[|r| - 3] == ':'
  {
    var c := Clamp(sec);
    ClockShape(c / 60, c % 60);
    PadStart2(Decimal(c / 60)) + ":" + PadStart2(Decimal(c % 60))
  }

  /** Padded minutes, a colon and padded seconds below 60 put the colon third from the end. */
  lemma ClockShape(minutes: nat, seconds: nat)
    requires seconds < 60
    ensures var r := PadStart2(Decimal(minutes)) + ":" + PadStart2(Decimal(seconds));
      |r| >= 5 && r[|r| - 3] == ':'
  {
    TwoDigitsPadded(seconds);
  }

  /**
   * `r` reads as a clock: at least two digits worth `minutes`, a colon, and
   * exactly two digits worth `seconds`.
   */
  predicate ReadsAsClock(r: string, minutes: nat, seconds: nat)
  {
    && |r| >= 5 && r[|r| - 3] == ':'
    && AllDigits(r[..|r| - 3]) && AllDigits(r[|r| - 2..])
    && DigitsValue(r[..|r| - 3]) == minutes
    && DigitsValue(r[|r| - 2..]) == seconds
  }

  /**
   * Reading `formatTime(sec)` back gives the whole minutes and the remaining
   * seconds of the clamped clock value, so no information is lost.
   */
  lemma FormatTimeReadsBack(sec: int)
    ensures ReadsAsClock(FormatTime(sec), Clamp(sec) / 60, Clamp(sec) % 60)
    ensures Clamp(sec) % 60 < 60 && 60 * (Clamp(sec) / 60) + Clamp(sec) % 60 == Clamp(sec)
  {
    var c := Clamp(sec);
    var m, s := PadStart2(Decimal(c / 60)), PadStart2(Decimal(c % 60));
    TwoDigitsPadded(c % 60);
    PaddedValue(c / 60);
    PaddedValue(c % 60);
    ClockParts(m, s, c / 60, c % 60);
  }

  /** The two fields of `m + ":" + s` are `m` and `s` again. */
  lemma ClockParts(m: string, s: string, minutes: nat, seconds: nat)
    requires |m| >= 2 && |s| == 2 && AllDigits(m) && AllDigits(s)
    requires DigitsValue(m) == minutes && DigitsValue(s) == seconds
    ensures ReadsAsClock(m + ":" + s, minutes, seconds)
  {
    var r := m + ":" + s;
    assert r[..|r| - 3] == m && r[|r| - 2..] == s;
  }

  /** A number below 100 pads to exactly two characters. */
  lemma TwoDigitsPadded(n: nat)
    requires n < 100
    ensures |PadStart2(Decimal(n))| == 2
  {
    if n >= 10 {
      assert Decimal(n) == Decimal(n / 10) + [DigitChar(n % 10)];
    }
  }

  lemma PaddedValue(n: nat)
    ensures AllDigits(PadStart2(Decimal(n))) && DigitsValue(PadStart2(Decimal(n))) == n
  {
    DecimalRoundTrip(n);
    PadStart2Value(Decimal(n));
  }

  /** Start of a pin's clip as the analysis loop computes it (a conditional). */
  function ClipStart(pinTime: int): int
  {
    if pinTime - WindowSeconds >= 0 then pinTime - WindowSeconds else 0
  }

  /** Start of a pin's window as the pin label computes it (`Math.max`). */
  function LabelStart(pinTime: int): int
  {
    if 0 >= pinTime - WindowSeconds then 0 else pinTime - WindowSeconds
  }

  /** The clip that is cut for a pin: `(start, duration)`. */
  function ClipWindow(pinTime: int): (w: (int, int))
    ensures w.0 >= 0 && w.0 + w.1 == pinTime
    ensures pinTime >= 0 ==> 0 <= w.1 <= WindowSeconds
    ensures pinTime >= WindowSeconds ==> w.1 == WindowSeconds
    ensures 0 <= pinTime < WindowSeconds ==> w.0 == 0
  {
    var start := ClipStart(pinTime);
    (start, pinTime - start)
  }

  /** The label and the clip agree on where a pin's window starts. */
  lemma LabelMatchesClip(pinTime: int)
    ensures LabelStart(pinTime) == ClipStart(pinTime) == ClipWindow(pinTime).0
  {
  }

  /** `renderPinTimeRange(t)`: a pin emoji, then `from - to` as two clocks. */
  function RenderPinTimeRange(pinTime: int): (r: string)
    ensures r == "\U{1F4CD}" + FormatTime(ClipWindow(pinTime).0) + " - " + FormatTime(pinTime)
  {
    "\U{1F4CD}" + FormatTime(LabelStart(pinTime)) + " - " + FormatTime(pinTime)
  }

  /** The regular expression `(?:^|\s)\.(?:\s|$)` matches with its dot at index `i`. */
  predicate IsolatedDotAt(s: string, i: int)
  {
    0 <= i < |s| && s[i] == '.' &&
    (i == 0 || IsJsSpace(s[i - 1])) &&
    (i == |s| - 1 || IsJsSpace(s[i + 1]))
  }

  /** `/(?:^|\s)\.(?:\s|$)/.test(s)`: some dot stands alone between white space or the ends. */
  predicate HasIsolatedDot(s: string): (b: bool)
    ensures b ==> '.' in s
    ensures s == "." ==> b
  {
    assert s == "." ==> IsolatedDotAt(s, 0);
    exists i | 0 <= i < |s| :: IsolatedDotAt(s, i)
  }

  /** Text that the screens never show verbatim. */
  predicate Hidden(s: string)
  {
    '$' in s || HasIsolatedDot(s)
  }

  /** `getOriginalDisplayText` of the recorder screen (no empty-text test). */
  function RecorderDisplayText(original: string): (r: string)
    ensures Hidden(original) ==> r == Dashes
    ensures !Hidden(original) ==> r == original
    ensures !Hidden(r)
  {
    assert !HasIsolatedDot(Dashes) by {
      forall i | 0 <= i < |Dashes| ensures !IsolatedDotAt(Dashes, i) {
        assert Dashes[i] != '.';
      }
    }
    if Hidden(original) then Dashes else original
  }

  /** `getOriginalDisplayText` of the history screen: also hides an empty or missing text. */
  function HistoryDisplayText(original: string): (r: string)
    ensures original == [] || Hidden(original) ==> r == Dashes
    ensures original != [] && !Hidden(original) ==> r == original
    ensures r != [] && !Hidden(r)
  {
    if original == [] then Dashes else RecorderDisplayText(original)
  }

  /** The two screens show the same text for every transcript except the empty one. */
  lemma DisplayTextsDiffer(original: string)
    ensures RecorderDisplayText(original) != HistoryDisplayText(original) <==> original == []
  {
    if original == [] {
      assert !Hidden(original);
    }
  }

  /** Showing already-shown text changes nothing. */
  lemma HistoryDisplayTextIdempotent(original: string)
    ensures HistoryDisplayText(HistoryDisplayText(original)) == HistoryDisplayText(original)
  {
  }

  /** What `formatRelativeOrDate` shows, before the numbers are turned into text. */
  datatype Age =
    | UnknownTime
    | SecondsAgo(seconds: nat)
    | MinutesAgo(minutes: nat)
    | HoursAgo(hours: nat)
    | DaysAgo(days: nat)
    | CalendarDate

  const MsPerMinute := 60 * 1000
  const MsPerHour := 60 * MsPerMinute
  const MsPerDay := 24 * MsPerHour

  /**
   * `formatRelativeOrDate` with the clock taken as an input: `hasDate` is
   * false for a missing date string, `diffMs` is now minus the date. Each
   * unit is the floor of the previous one divided by 60, 60 or 24.
   */
  function RelativeAge(hasDate: bool, diffMs: int): (r: Age)
    ensures r == UnknownTime <==> !hasDate || diffMs < 0
    ensures r.SecondsAgo? <==> hasDate && 0 <= diffMs < MsPerMinute
  {
    if !hasDate || diffMs < 0 then UnknownTime
    else
      var sec := diffMs / 1000;
      if sec < 60 then SecondsAgo(sec)
      else
        var min := sec / 60;
        if min < 60 then MinutesAgo(min)
        else
          var hour := min / 60;
          if hour < 24 then HoursAgo(hour)
          else
            var day := hour / 24;
            if day < 7 then DaysAgo(day) else CalendarDate
  }

  /**
   * Every bucket reports the whole number of its unit that has elapsed, lies
   * within its bounds, and the calendar date is used from seven days on.
   */
  lemma RelativeAgeBuckets(hasDate: bool, diffMs: int)
    ensures var a := RelativeAge(hasDate, diffMs);
      && (a == UnknownTime <==> !hasDate || diffMs < 0)
      && (a.SecondsAgo? ==> a.seconds == diffMs / 1000 && diffMs < MsPerMinute)
      && (a.MinutesAgo? ==> a.minutes == diffMs / MsPerMinute && 1 <= a.minutes < 60)
      && (a.HoursAgo? ==> a.hours == diffMs / MsPerHour && 1 <= a.hours < 24)
      && (a.DaysAgo? ==> a.days == diffMs / MsPerDay && 1 <= a.days < 7)
      && (a == CalendarDate <==> hasDate && diffMs >= 7 * MsPerDay)
  {
    if hasDate && diffMs >= 0 {
      var sec := diffMs / 1000;
      var min := sec / 60;
      var hour := min / 60;
      assert min == diffMs / MsPerMinute;
      assert hour == diffMs / MsPerHour;
      assert hour / 24 == diffMs / MsPerDay;
    }
  }
}
