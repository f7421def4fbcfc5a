/** The labels of the week view's time axis: one per `minutesStep` minutes
    of the day, on-the-hour labels as `h am`/`h pm`, the others as `H:MM`. */
module TimeAxis {
  import opened Calendar
  import opened Decimal
  import opened Arith

  datatype Option<T> = None | Some(value: T)

  /** The hour of a 24-hour `hour` on a 12-hour clock. */
  function ClockHour(hour: nat): (h: int)
    ensures 1 <= h <= 12
    ensures h % 12 == hour % 12
  {
    ((hour + 11) % 12) + 1
  }

  /** An on-the-hour label, `h am` or `h pm`. */
  function FormatTime(hour: nat): (s: string)
    ensures |s| >= 4 && s[|s| - 3] == ' '
    ensures s[|s| - 2..] == "am" <==> hour < 12
    ensures s[|s| - 2..] == "am" || s[|s| - 2..] == "pm"
    ensures ParseDecimal(s[..|s| - 3]) == ClockHour(hour)
    ensures s[..|s| - 3] == NatToString(ClockHour(hour))
  {
    var h := ClockHour(hour);
    var s := NatToString(h) + " " + (if hour < 12 then "am" else "pm");
    assert s[..|s| - 3] == NatToString(h);
    ParseNatToString(h);
    s
  }

  /** Minutes with a leading zero below ten. */
  function TwoDigits(m: nat): (s: string)
    requires m < 100
    ensures |s| == 2 && ParseDecimal(s) == m
    ensures IsDigit(s[0]) && IsDigit(s[1])
    ensures s[0] == '0' <==> m < 10
  {
    ParseNatToString(m);
    if m < 10 then
      assert ("0" + NatToString(m))[..1] == "0";
      "0" + NatToString(m)
    else NatToString(m)
  }

  /** The label of minute `timer` of the day: on the hour an `h am`/`h pm`
      label, otherwise `H:MM` with the hour and the two-digit minutes
      around the colon. */
  function Label(timer: nat): string {
    var minutes := timer % 60;
    var hour := timer / 60;
    if minutes == 0 then FormatTime(hour)
    else NatToString(hour) + ":" + TwoDigits(minutes)
  }

  /** A label on the hour is the formatted hour (the clock hour, a space and
      `am`/`pm`); any other label is the 24-hour hour in decimal, a colon and
      two minute digits, and the two numbers read back to the hour and the
      minute. */
  lemma LabelShape(timer: nat)
    ensures var s := Label(timer);
      && |s| >= 4
      && (s[|s| - 3] == ' ' <==> timer % 60 == 0)
      && (s[|s| - 3] == ':' <==> timer % 60 != 0)
      && (timer % 60 == 0 ==> s == FormatTime(timer / 60))
      && (timer % 60 != 0 ==>
            && s[..|s| - 3] == NatToString(timer / 60)
            && IsDigit(s[|s| - 2]) && IsDigit(s[|s| - 1])
            && ParseDecimal(s[..|s| - 3]) == timer / 60 && ParseDecimal(s[|s| - 2..]) == timer % 60)
  {
    var minutes := timer % 60;
    var hour := timer / 60;
    if minutes != 0 {
      var hs := NatToString(hour);
      var ms := TwoDigits(minutes);
      var s := hs + ":" + ms;
      assert s[|s| - 3] == ':' && s[..|s| - 3] == hs && s[|s| - 2..] == ms;
      ParseNatToString(hour);
    }
  }

  /** Reads a label back to the minute of the day it names. */
  function ParseLabel(s: string): Option<int> {
    if |s| < 4 then None
    else if s[|s| - 3] == ' ' then
      var h := ParseDecimal(s[..|s| - 3]) % 12;
      Some(60 * (if s[|s| - 2..] == "pm" then h + 12 else h))
    else if s[|s| - 3] == ':' then
      Some(60 * ParseDecimal(s[..|s| - 3]) + ParseDecimal(s[|s| - 2..]))
    else None
  }

  lemma HourLabelRoundTrip(hour: nat)
    requires hour < 24
    ensures ParseLabel(FormatTime(hour)) == Some(60 * hour)
  {
    var h := ClockHour(hour);
    var s := FormatTime(hour);
    assert s == NatToString(h) + " " + (if hour < 12 then "am" else "pm");
    assert s[..|s| - 3] == NatToString(h);
    ParseNatToString(h);
  }

  /** Every label of the day reads back to its own minute, so the 12-hour
      clock with its am/pm suffix loses nothing and no two minutes of the
      day share a label. */
  lemma LabelRoundTrip(timer: nat)
    requires timer < MinutesInDay
    ensures ParseLabel(Label(timer)) == Some(timer)
  {
    var minutes := timer % 60;
    var hour := timer / 60;
    assert timer == 60 * hour + minutes;
    if minutes == 0 {
      HourLabelRoundTrip(hour);
    } else {
      var s := Label(timer);
      LabelShape(timer);
      assert ParseLabel(s) == Some(60 * ParseDecimal(s[..|s| - 3]) + ParseDecimal(s[|s| - 2..]));
    }
  }

  /** Number of labels: one per step, rounded up to cover the whole day. */
  function LabelCount(minutesStep: int): int
    requires minutesStep > 0
  {
    (MinutesInDay + minutesStep - 1) / minutesStep
  }

  /** The step between labels: the day shows `labelsInDisplay` labels over
      `hoursInDisplay` hours. Only whole hours and whole-minute steps are
      modelled, with the exact quotient; the component divides in floating
      point, which can leave a rounding error in a step that is whole here. */
  predicate WholeStep(labelsInDisplay: int, hoursInDisplay: int) {
    labelsInDisplay > 0 && hoursInDisplay > 0
    && (60 * hoursInDisplay) % labelsInDisplay == 0
  }

  function MinutesStep(labelsInDisplay: int, hoursInDisplay: int): (step: int)
    requires WholeStep(labelsInDisplay, hoursInDisplay)
    ensures step > 0
    ensures step * labelsInDisplay == 60 * hoursInDisplay
  {
    60 * hoursInDisplay / labelsInDisplay
  }

  /** Two different minutes of the day never share a label. */
  lemma LabelInjective(a: nat, b: nat)
    requires a < MinutesInDay && b < MinutesInDay && a != b
    ensures Label(a) != Label(b)
  {
    LabelRoundTrip(a);
    LabelRoundTrip(b);
  }

  /** Labels of minutes `0, step, 2 * step, ...` of the day read back to
      those minutes. */
  lemma StepLabelsRoundTrip(times: seq<string>, step: int)
    requires step > 0 && (|times| - 1) * step < MinutesInDay
    requires forall k :: 0 <= k < |times| ==> times[k] == Label(k * step)
    ensures forall k :: 0 <= k < |times| ==> ParseLabel(times[k]) == Some(k * step)
  {
    forall k | 0 <= k < |times|
      ensures ParseLabel(times[k]) == Some(k * step)
    {
      MulMono(0, k, step);
      MulMono(k, |times| - 1, step);
      LabelRoundTrip(k * step);
    }
  }

  /** Labels that read back to different multiples of the step are pairwise
      distinct. */
  lemma StepLabelsDistinct(times: seq<string>, step: int)
    requires step > 0
    requires forall k :: 0 <= k < |times| ==> ParseLabel(times[k]) == Some(k * step)
    ensures forall j, k :: 0 <= j < k < |times| ==> times[j] != times[k]
  {
    forall j, k | 0 <= j < k < |times|
      ensures times[j] != times[k]
    {
      MulMono(j + 1, k, step);
      assert (j + 1) * step == j * step + step;
      assert ParseLabel(times[j]) != ParseLabel(times[k]);
    }
  }

  /** The labels at 0, step, 2*step, ... while the moment stays inside the day. */
  method StepLabels(step: int) returns (times: seq<string>)
    requires step > 0
    ensures |times| > 0
    ensures (|times| - 1) * step < MinutesInDay <= |times| * step
    ensures forall k :: 0 <= k < |times| ==> times[k] == Label(k * step)
  {
    times := [];
    var timer := 0;
    ghost var timers: seq<nat> := [];
    while timer < MinutesInDay
      invariant |timers| == |times|
      invariant timer == |times| * step
      invariant |times| > 0 ==> (|times| - 1) * step < MinutesInDay
      invariant forall k :: 0 <= k < |timers| ==> timers[k] == k * step
      invariant forall k :: 0 <= k < |times| ==> times[k] == Label(timers[k])
    {
      assert (|times| + 1) * step == |times| * step + step;
      times := times + [Label(timer)];
      timers := timers + [timer];
      timer := timer + step;
    }
  }

  /** The labels every `step` minutes: one per step, each reading back to
      its own moment of the day, no two alike. */
  method LabelsEvery(step: int) returns (times: seq<string>)
    requires step > 0
    ensures |times| == LabelCount(step)
    ensures (|times| - 1) * step < MinutesInDay <= |times| * step
    ensures forall k :: 0 <= k < |times| ==> times[k] == Label(k * step)
    ensures forall k :: 0 <= k < |times| ==> ParseLabel(times[k]) == Some(k * step)
    ensures forall j, k :: 0 <= j < k < |times| ==> times[j] != times[k]
  {
    times := StepLabels(step);
    CeilDiv(|times|, step, MinutesInDay);
    StepLabelsRoundTrip(times, step);
    StepLabelsDistinct(times, step);
  }

  /** The labels of the time axis when `labelsInDisplay` labels are shown
      over `hoursInDisplay` hours. */
  method CalculateTimes(labelsInDisplay: int, hoursInDisplay: int) returns (times: seq<string>)
    requires WholeStep(labelsInDisplay, hoursInDisplay)
    ensures var step := MinutesStep(labelsInDisplay, hoursInDisplay);
      && |times| == LabelCount(step)
      && (forall k :: 0 <= k < |times| ==> times[k] == Label(k * step))
      && (forall k :: 0 <= k < |times| ==> ParseLabel(times[k]) == Some(k * step))
    ensures forall j, k :: 0 <= j < k < |times| ==> times[j] != times[k]
  {
    times := LabelsEvery(MinutesStep(labelsInDisplay, hoursInDisplay));
  }
}
