/**
 * Timing planner (app/lib/audio/duration.ts): splits the audio length into
 * equal, contiguous per-image slots, and formats a number of seconds as a
 * clock reading.
 */
module Duration {
  import opened Wrappers
  import opened Text
  import opened Types

  /** One image's slot: `index`, `start` and `end` in seconds, and its length. */
  datatype Timing = Timing(index: nat, start: real, end: real, duration: real)

  const ImageCountMessage: string := "Image count must be greater than 0"

  /** `calculateImageDuration`: the per-image display time, or the error it throws. */
  function CalculateImageDuration(totalDuration: real, imageCount: int): (r: Result<real, Thrown>)
    ensures r.Failure? <==> imageCount <= 0
    ensures r.Failure? ==> r.error == ErrorObject(ImageCountMessage)
    ensures r.Success? ==> r.value * (imageCount as real) == totalDuration
  {
    if imageCount <= 0 then Failure(ErrorObject(ImageCountMessage))
    else Success(totalDuration / imageCount as real)
  }

  /** Slots that tile `[0, totalDuration]` in order, each `d` long. */
  ghost predicate Contiguous(ts: seq<Timing>, totalDuration: real)
  {
    && |ts| > 0
    && ts[0].start == 0.0
    && ts[|ts| - 1].end == totalDuration
    && (forall i :: 0 <= i < |ts| - 1 ==> ts[i].end == ts[i + 1].start)
    && (forall i :: 0 <= i < |ts| ==> ts[i].end - ts[i].start == ts[i].duration)
  }

  /**
   * `calculateImageTimings`: one entry per image, entry `i` being
   * `[i*d, (i+1)*d)` with `d` the per-image duration.
   */
  method CalculateImageTimings(totalDuration: real, imageCount: int) returns (r: Result<seq<Timing>, Thrown>)
    ensures r.Failure? <==> imageCount <= 0
    ensures r.Failure? ==> r.error == ErrorObject(ImageCountMessage)
    ensures r.Success? ==>
      var d := totalDuration / imageCount as real;
      && |r.value| == imageCount
      && (forall i :: 0 <= i < |r.value| ==>
            r.value[i].index == i && r.value[i].duration == d
            && r.value[i].start == i as real * d && r.value[i].end == (i + 1) as real * d)
      && Contiguous(r.value, totalDuration)
  {
    var dr := CalculateImageDuration(totalDuration, imageCount);
    if dr.Failure? {
      return Failure(dr.error);
    }
    var d := dr.value;
    var timings: seq<Timing> := [];
    var i := 0;
    while i < imageCount
      invariant 0 <= i <= imageCount
      invariant |timings| == i
      invariant forall k :: 0 <= k < i ==>
        timings[k] == Timing(k, k as real * d, (k + 1) as real * d, d)
    {
      timings := timings + [Timing(i, i as real * d, (i + 1) as real * d, d)];
      i := i + 1;
    }
    UniformSlotsContiguous(timings, totalDuration, d);
    return Success(timings);
  }

  lemma SlotLength(i: nat, d: real)
    ensures (i + 1) as real * d - i as real * d == d
  {
    var a := i as real;
    assert (i + 1) as real == a + 1.0;
    assert (a + 1.0) * d == a * d + d;
  }

  /** Equal slots laid end to end from zero tile the whole duration. */
  lemma UniformSlotsContiguous(ts: seq<Timing>, totalDuration: real, d: real)
    requires |ts| > 0
    requires d * |ts| as real == totalDuration
    requires forall k :: 0 <= k < |ts| ==> ts[k] == Timing(k, k as real * d, (k + 1) as real * d, d)
    ensures Contiguous(ts, totalDuration)
  {
    forall i | 0 <= i < |ts|
      ensures ts[i].end - ts[i].start == ts[i].duration
    {
      SlotLength(i, d);
    }
    forall i | 0 <= i < |ts| - 1
      ensures ts[i].end == ts[i + 1].start
    {
      assert ts[i].end == (i + 1) as real * d;
      assert ts[i + 1].start == (i + 1) as real * d;
    }
    var n := |ts| - 1;
    assert ts[n].end == (n + 1) as real * d;
    assert (n + 1) as real * d == d * |ts| as real;
  }

  function SumDurations(ts: seq<Timing>): real
  {
    if |ts| == 0 then 0.0 else SumDurations(ts[..|ts| - 1]) + ts[|ts| - 1].duration
  }

  /** Slot lengths of equal-length slots add up to the count times the length. */
  lemma {:induction false} SumOfEqualSlots(ts: seq<Timing>, d: real)
    requires forall i :: 0 <= i < |ts| ==> ts[i].duration == d
    ensures SumDurations(ts) == |ts| as real * d
    decreases |ts|
  {
    if |ts| > 0 {
      SumOfEqualSlots(ts[..|ts| - 1], d);
    }
  }

  /** The slots of a successful plan add up to the whole audio length. */
  lemma SlotsCoverTotal(totalDuration: real, imageCount: int, ts: seq<Timing>)
    requires imageCount > 0
    requires |ts| == imageCount
    requires forall i :: 0 <= i < |ts| ==> ts[i].duration == totalDuration / imageCount as real
    ensures SumDurations(ts) == totalDuration
  {
    SumOfEqualSlots(ts, totalDuration / imageCount as real);
  }

  /** The hour, minute and second fields of a number of seconds. */
  function ClockFields(seconds: nat): (f: (nat, nat, nat))
    ensures f.1 < 60 && f.2 < 60
    ensures f.0 * 3600 + f.1 * 60 + f.2 == seconds
  {
    (seconds / 3600, (seconds % 3600) / 60, seconds % 60)
  }

  /** `n.toString().padStart(2, "0")` for a minute or second field. */
  function Pad2(n: nat): (s: string)
    requires n < 60
    ensures |s| == 2 && AllDigits(s) && DigitsValue(s) == n
  {
    DecimalRoundTrip(n);
    if n < 10 then
      var s := "0" + Decimal(n);
      assert s[1..] == Decimal(n);
      s
    else Decimal(n)
  }

  /** `formatDuration`: `H:MM:SS` from one hour on, `M:SS` below. */
  function FormatDuration(seconds: nat): (s: string)
    ensures var f := Split(s, ':');
      && (seconds >= 3600 ==> |f| == 3 && |f[1]| == 2 && |f[2]| == 2)
      && (seconds < 3600 ==> |f| == 2 && |f[1]| == 2)
      && (forall i :: 0 <= i < |f| ==> 0 < |f[i]| && AllDigits(f[i]))
    ensures var f := Split(s, ':');
      var (hours, minutes, secs) := ClockFields(seconds);
      && (seconds >= 3600 ==> |f| == 3 && DigitsValue(f[0]) == hours && DigitsValue(f[1]) == minutes && DigitsValue(f[2]) == secs)
      && (seconds < 3600 ==> |f| == 2 && DigitsValue(f[0]) == minutes && DigitsValue(f[1]) == secs)
  {
    var (hours, minutes, secs) := ClockFields(seconds);
    var fields := if hours > 0 then [Decimal(hours), Pad2(minutes), Pad2(secs)]
                  else [Decimal(minutes), Pad2(secs)];
    NoColonInDigits(fields);
    SplitJoin(fields, ':');
    DecimalRoundTrip(hours);
    DecimalRoundTrip(minutes);
    Join(fields, ':')
  }

  lemma NoColonInDigits(fields: seq<string>)
    requires forall i :: 0 <= i < |fields| ==> AllDigits(fields[i])
    ensures forall i :: 0 <= i < |fields| ==> ':' !in fields[i]
  {
  }

  /** Reads a clock string `M:SS` or `H:MM:SS` back into seconds. */
  function ParseClock(s: string): Option<nat>
  {
    var f := Split(s, ':');
    if |f| == 2 && AllDigits(f[0]) && AllDigits(f[1]) then
      Some(DigitsValue(f[0]) * 60 + DigitsValue(f[1]))
    else if |f| == 3 && AllDigits(f[0]) && AllDigits(f[1]) && AllDigits(f[2]) then
      Some(DigitsValue(f[0]) * 3600 + DigitsValue(f[1]) * 60 + DigitsValue(f[2]))
    else None
  }

  /** The formatted clock reading loses nothing: reading it back gives the seconds. */
  lemma FormatDurationRoundTrip(seconds: nat)
    ensures ParseClock(FormatDuration(seconds)) == Some(seconds)
  {
    var (hours, minutes, secs) := ClockFields(seconds);
    var fields := if hours > 0 then [Decimal(hours), Pad2(minutes), Pad2(secs)]
                  else [Decimal(minutes), Pad2(secs)];
    NoColonInDigits(fields);
    SplitJoin(fields, ':');
    assert Split(FormatDuration(seconds), ':') == fields;
    DecimalRoundTrip(hours);
    DecimalRoundTrip(minutes);
  }
}
