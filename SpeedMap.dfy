/** The averaging and colouring used when a speed matrix row is drawn on a
    map (helper/debug_show_traffic_speed_map.py). */
module SpeedMap {
  import TimeFormat
  import opened Wrappers

  function Sum(s: seq<real>): real
  {
    if s == [] then 0.0 else Sum(s[..|s| - 1]) + s[|s| - 1]
  }

  /** The arithmetic mean, 0 for an empty sequence. */
  function Mean(s: seq<real>): real
  {
    if s == [] then 0.0 else Sum(s) / (|s| as real)
  }

  /** The indices the scan visits as [lo, hi): the whole row for a negative
      start, otherwise start..end inclusive. A range that reaches past the
      row raises `IndexError` at the first index beyond it, which is the
      failure's value. */
  function ScanRange(rowLength: nat, start: int, end: int): (r: Result<(int, int), int>)
    ensures r.Failure? <==> 0 <= start <= end && rowLength <= end
    ensures r.Failure? ==> r.error == (if start < rowLength then rowLength else start)
    ensures r.Failure? ==> start <= r.error <= end && rowLength <= r.error
    ensures r.Success? ==> 0 <= r.value.0 <= r.value.1 <= rowLength
    ensures start < 0 ==> r == Success((0, rowLength))
    ensures 0 <= start <= end < rowLength ==> r == Success((start, end + 1))
    ensures 0 <= start && end < start ==> r.Success? && r.value.0 == r.value.1
  {
    if start < 0 then Success((0, rowLength))
    else if end < start then Success((0, 0))
    else if rowLength <= end then Failure(if start < rowLength then rowLength else start)
    else Success((start, end + 1))
  }

  /** The indices in [lo, hi) whose value in row is positive, in order. */
  function PositiveIndices(row: seq<real>, lo: int, hi: int): (r: seq<int>)
    requires 0 <= lo <= hi <= |row|
    ensures forall k :: 0 <= k < |r| ==> lo <= r[k] < hi && row[r[k]] > 0.0
    ensures forall k, l :: 0 <= k < l < |r| ==> r[k] < r[l]
    ensures forall j :: lo <= j < hi && row[j] > 0.0 ==> j in r
    decreases hi - lo
  {
    if lo == hi then []
    else if row[hi - 1] > 0.0 then PositiveIndices(row, lo, hi - 1) + [hi - 1]
    else PositiveIndices(row, lo, hi - 1)
  }

  /** The update `road_speed += (x - road_speed) / i` for the i-th sample. */
  function UpdateMean(mean: real, x: real, i: nat): real
    requires i > 0
  {
    mean + (x - mean) / (i as real)
  }

  /** The running mean after one more sample is the mean of the longer
      sequence. */
  lemma RunningMeanStep(s: seq<real>, x: real)
    ensures Mean(s + [x]) == UpdateMean(Mean(s), x, |s| + 1)
  {
    assert (s + [x])[..|s|] == s;
    assert Sum(s + [x]) == Sum(s) + x;
    if s != [] {
      MeanUpdateArithmetic(Sum(s), |s| as real, x);
    }
  }

  /** (t + x) / (n + 1) == t / n + (x - t / n) / (n + 1) for n > 0. */
  lemma MeanUpdateArithmetic(total: real, n: real, x: real)
    requires n > 0.0
    ensures (total + x) / (n + 1.0) == total / n + (x - total / n) / (n + 1.0)
  {
    var m := total / n;
    assert m * n == total;
    var lhs := (total + x) / (n + 1.0);
    var rhs := m + (x - m) / (n + 1.0);
    assert rhs * (n + 1.0) == m * (n + 1.0) + (x - m);
    assert m * (n + 1.0) == m * n + m;
    assert rhs * (n + 1.0) == total + x;
    assert lhs * (n + 1.0) == total + x;
  }

  /** The values of row at the given indices. */
  function ValuesAt(row: seq<real>, idx: seq<int>): (r: seq<real>)
    requires forall k :: 0 <= k < |idx| ==> 0 <= idx[k] < |row|
    ensures |r| == |idx|
    ensures forall k :: 0 <= k < |idx| ==> r[k] == row[idx[k]]
  {
    if idx == [] then [] else ValuesAt(row, idx[..|idx| - 1]) + [row[idx[|idx| - 1]]]
  }

  /** The clock strings of the given bin indices. */
  function TimesAt(idx: seq<int>, interval: int): (r: seq<string>)
    ensures |r| == |idx|
    ensures forall k :: 0 <= k < |idx| ==> r[k] == TimeFormat.TimeRangeIndexToStr(idx[k], interval, ":", 0)
  {
    if idx == [] then [] else TimesAt(idx[..|idx| - 1], interval) + [TimeFormat.TimeRangeIndexToStr(idx[|idx| - 1], interval, ":", 0)]
  }

  /** The positive entries of row[lo..hi), in order: what the scan
      collects. */
  function SamplesIn(row: seq<real>, lo: int, hi: int): seq<real>
    requires 0 <= lo <= hi <= |row|
    decreases hi - lo
  {
    if lo == hi then []
    else if row[hi - 1] > 0.0 then SamplesIn(row, lo, hi - 1) + [row[hi - 1]]
    else SamplesIn(row, lo, hi - 1)
  }

  /** The clock strings of the bins of row[lo..hi) whose entry is positive. */
  function ClocksIn(row: seq<real>, lo: int, hi: int, interval: int): seq<string>
    requires 0 <= lo <= hi <= |row|
    decreases hi - lo
  {
    if lo == hi then []
    else if row[hi - 1] > 0.0 then ClocksIn(row, lo, hi - 1, interval) + [TimeFormat.TimeRangeIndexToStr(hi - 1, interval, ":", 0)]
    else ClocksIn(row, lo, hi - 1, interval)
  }

  /** The collected samples are exactly the values and clock strings at the
      positive indices of the scanned range. */
  lemma {:induction false} SamplesAtPositiveIndices(row: seq<real>, lo: int, hi: int, interval: int)
    requires 0 <= lo <= hi <= |row|
    ensures SamplesIn(row, lo, hi) == ValuesAt(row, PositiveIndices(row, lo, hi))
    ensures ClocksIn(row, lo, hi, interval) == TimesAt(PositiveIndices(row, lo, hi), interval)
    decreases hi - lo
  {
    if lo < hi {
      SamplesAtPositiveIndices(row, lo, hi - 1, interval);
      var before := PositiveIndices(row, lo, hi - 1);
      if row[hi - 1] > 0.0 {
        assert PositiveIndices(row, lo, hi) == before + [hi - 1];
        assert (before + [hi - 1])[..|before|] == before;
      }
    }
  }

  /** What `get_traffic_speed_data` returns: the running mean, and the
      positive entries with their clock strings. */
  datatype SpeedData = SpeedData(roadSpeed: real, sampleSpeed: seq<real>, sampleTime: seq<string>)

  /** `get_traffic_speed_data`: scans the row (all of it for a negative
      start, else start..end inclusive), collects the positive entries with
      their clock times and keeps their running mean. A range past the row
      raises `IndexError`, the failure holding the offending index; the
      samples gathered before it are lost with the exception. */
  method GetTrafficSpeedData(row: seq<real>, start: int, end: int, interval: int)
    returns (data: Result<SpeedData, int>)
    ensures ScanRange(|row|, start, end).Failure? ==> data == Failure(ScanRange(|row|, start, end).error)
    ensures ScanRange(|row|, start, end).Success? ==> data.Success?
    ensures ScanRange(|row|, start, end).Success? ==>
      var r := ScanRange(|row|, start, end).value;
      && data.value.sampleSpeed == ValuesAt(row, PositiveIndices(row, r.0, r.1))
      && data.value.sampleTime == TimesAt(PositiveIndices(row, r.0, r.1), interval)
      && data.value.roadSpeed == Mean(data.value.sampleSpeed)
  {
    var range := ScanRange(|row|, start, end);
    if range.Failure? {
      return Failure(range.error);
    }
    var lo, hi := range.value.0, range.value.1;
    var sampleSpeed, sampleTime, roadSpeed := [], [], 0.0;
    var i := 0;
    var index := lo;
    while index < hi
      invariant lo <= index <= hi
      invariant Scanned(row, lo, index, interval, roadSpeed, sampleSpeed, sampleTime, i)
    {
      ScanStep(row, lo, index, interval, roadSpeed, sampleSpeed, sampleTime, i);
      if row[index] > 0.0 {
        i := i + 1;
        roadSpeed := UpdateMean(roadSpeed, row[index], i);
        sampleSpeed := sampleSpeed + [row[index]];
        sampleTime := sampleTime + [TimeFormat.TimeRangeIndexToStr(index, interval, ":", 0)];
      }
      index := index + 1;
    }
    ScanDone(row, lo, hi, interval, roadSpeed, sampleSpeed, sampleTime, i);
    return Success(SpeedData(roadSpeed, sampleSpeed, sampleTime));
  }

  /** The state of the scan once row[lo..index) is scanned. */
  predicate Scanned(row: seq<real>, lo: int, index: int, interval: int,
                    roadSpeed: real, sampleSpeed: seq<real>, sampleTime: seq<string>, i: int)
    requires 0 <= lo <= index <= |row|
  {
    && sampleSpeed == SamplesIn(row, lo, index)
    && sampleTime == ClocksIn(row, lo, index, interval)
    && roadSpeed == Mean(sampleSpeed)
    && i == |sampleSpeed|
  }

  /** One entry more: a positive entry joins the samples and the running
      mean, any other entry changes nothing. */
  lemma ScanStep(row: seq<real>, lo: int, index: int, interval: int,
                 roadSpeed: real, sampleSpeed: seq<real>, sampleTime: seq<string>, i: int)
    requires 0 <= lo <= index < |row|
    requires Scanned(row, lo, index, interval, roadSpeed, sampleSpeed, sampleTime, i)
    ensures var x := row[index];
            if x > 0.0 then
              Scanned(row, lo, index + 1, interval, UpdateMean(roadSpeed, x, i + 1), sampleSpeed + [x],
                      sampleTime + [TimeFormat.TimeRangeIndexToStr(index, interval, ":", 0)], i + 1)
            else Scanned(row, lo, index + 1, interval, roadSpeed, sampleSpeed, sampleTime, i)
  {
    if row[index] > 0.0 {
      RunningMeanStep(sampleSpeed, row[index]);
    }
  }

  /** The finished scan holds the values and clock strings at the positive
      indices, and their mean. */
  lemma ScanDone(row: seq<real>, lo: int, hi: int, interval: int,
                 roadSpeed: real, sampleSpeed: seq<real>, sampleTime: seq<string>, i: int)
    requires 0 <= lo <= hi <= |row|
    requires Scanned(row, lo, hi, interval, roadSpeed, sampleSpeed, sampleTime, i)
    ensures sampleSpeed == ValuesAt(row, PositiveIndices(row, lo, hi))
    ensures sampleTime == TimesAt(PositiveIndices(row, lo, hi), interval)
    ensures roadSpeed == Mean(sampleSpeed)
  {
    SamplesAtPositiveIndices(row, lo, hi, interval);
  }

  /** Every sample is positive and every positive entry of the scanned
      range is a sample, so the returned speed is positive exactly when the
      scanned range holds a positive entry. */
  lemma TrafficSpeedPositiveIffData(row: seq<real>, lo: int, hi: int)
    requires 0 <= lo <= hi <= |row|
    ensures Mean(ValuesAt(row, PositiveIndices(row, lo, hi))) > 0.0
      <==> exists j :: lo <= j < hi && row[j] > 0.0
  {
    var idx := PositiveIndices(row, lo, hi);
    var samples := ValuesAt(row, idx);
    if exists j :: lo <= j < hi && row[j] > 0.0 {
      var j :| lo <= j < hi && row[j] > 0.0;
      assert j in idx;
      SumOfPositivesIsPositive(samples);
    } else {
      assert idx == [];
      assert samples == [];
    }
  }

  lemma {:induction false} SumOfPositivesIsPositive(s: seq<real>)
    requires s != []
    requires forall k :: 0 <= k < |s| ==> s[k] > 0.0
    ensures Sum(s) > 0.0
    ensures Mean(s) > 0.0
  {
    if |s| > 1 {
      SumOfPositivesIsPositive(s[..|s| - 1]);
    }
  }

  const Green: string := "#84ca50"
  const Yellow: string := "#f07d02"
  const Red: string := "#e60000"
  const Gray: string := "#a9acb8"
  const DarkRed: string := "#9e1313"

  /** A non-positive speed limit counts as 30. */
  function EffectiveLimit(speedLimit: real): (l: real)
    ensures l > 0.0
    ensures speedLimit > 0.0 ==> l == speedLimit
  {
    if speedLimit <= 0.0 then 30.0 else speedLimit
  }

  /** `get_traffic_speed_color`: bands at 20%, 10% and 5% of the limit. */
  function GetTrafficSpeedColor(roadSpeed: real, speedLimit: real): (color: string)
    ensures var l := EffectiveLimit(speedLimit);
      && (color == Green <==> roadSpeed >= 0.2 * l)
      && (color == Yellow <==> 0.1 * l <= roadSpeed < 0.2 * l)
      && (color == Red <==> 0.05 * l <= roadSpeed < 0.1 * l)
      && (color == DarkRed <==> 0.0 < roadSpeed < 0.05 * l)
      && (color == Gray <==> roadSpeed <= 0.0)
  {
    var l := EffectiveLimit(speedLimit);
    if roadSpeed >= 0.2 * l then Green
    else if roadSpeed >= 0.1 * l then Yellow
    else if roadSpeed >= 0.05 * l then Red
    else if roadSpeed <= 0.0 then Gray
    else DarkRed
  }
}
