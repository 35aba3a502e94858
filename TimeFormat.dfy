/** Rendering of time-bin indices as clock strings
    (helper/helper_time_range_index_to_str.py). */
module TimeFormat {

  const MinutesPerDay: int := 1440

  /** The decimal digit character of d. */
  function DigitChar(d: int): (c: char)
    requires 0 <= d < 10
    ensures '0' <= c <= '9'
  {
    (48 + d) as char
  }

  /** The value of a decimal digit character. */
  function DigitValue(c: char): int
  {
    c as int - 48
  }

  /** `"{:0>2d}".format(n)` for 0 <= n < 100: two digits, zero padded. */
  function TwoDigits(n: int): (s: string)
    requires 0 <= n < 100
    ensures |s| == 2
    ensures 10 * DigitValue(s[0]) + DigitValue(s[1]) == n
  {
    [DigitChar(n / 10), DigitChar(n % 10)]
  }

  /** The hour shown for minute t of the (possibly wrapped) timeline:
      `math.floor(t / 60) % 24`.  Dafny's `/` and `%` agree with Python's
      floor division and modulo here because the divisors are positive. */
  function HourOf(t: int): (h: int)
    ensures 0 <= h < 24
  {
    (t / 60) % 24
  }

  /** The minute shown for minute t: `math.floor(t % 60)`. */
  function MinuteOf(t: int): (m: int)
    ensures 0 <= m < 60
  {
    t % 60
  }

  /** `time_range_index_to_str(index, interval, delimiter, offset)`. */
  function TimeRangeIndexToStr(index: int, interval: int, delimiter: string, offset: int): (s: string)
    ensures |s| == 4 + |delimiter|
    ensures s[2..2 + |delimiter|] == delimiter
  {
    var t := index * interval + offset;
    TwoDigits(HourOf(t)) + delimiter + TwoDigits(MinuteOf(t))
  }

  /** The rendered clock reads back as the bin's first minute
      (index * interval + offset) modulo one day. */
  lemma TimeRangeIndexToStrReadsBack(index: int, interval: int, delimiter: string, offset: int)
    ensures ReadClock(TimeRangeIndexToStr(index, interval, delimiter, offset), |delimiter|)
      == (index * interval + offset) % MinutesPerDay
  {
    var t := index * interval + offset;
    ClockReadsMinuteOfDay(t);
    var s := TimeRangeIndexToStr(index, interval, delimiter, offset);
    assert s == TwoDigits(HourOf(t)) + delimiter + TwoDigits(MinuteOf(t));
    assert s[2 + |delimiter|..] == TwoDigits(MinuteOf(t));
  }

  /** Reads back a rendered "HH<delimiter>MM" as minutes since midnight. */
  function ReadClock(s: string, delimiterLength: nat): int
    requires |s| == 4 + delimiterLength
  {
    60 * (10 * DigitValue(s[0]) + DigitValue(s[1]))
      + 10 * DigitValue(s[2 + delimiterLength]) + DigitValue(s[3 + delimiterLength])
  }

  /** The shown hour and minute denote t modulo one day. */
  lemma ClockReadsMinuteOfDay(t: int)
    ensures 60 * HourOf(t) + MinuteOf(t) == t % MinutesPerDay
  {
    var q, m := t / 60, t % 60;
    assert t == 60 * q + m;
    var k, h := q / 24, q % 24;
    assert q == 24 * k + h;
    assert t == 1440 * k + (60 * h + m);
    assert 0 <= 60 * h + m < 1440;
  }

  /** `time_range_index_to_time_range_str(start, end, interval, delimiter)`. */
  function TimeRangeIndexToTimeRangeStr(start: int, end: int, interval: int, delimiter: string): (s: string)
    ensures start < 0 ==> s == "all day average"
    ensures start >= 0 ==> |s| == 11 + 2 * |delimiter|
    ensures start >= 0 ==> s[4 + |delimiter|..7 + |delimiter|] == " - "
    ensures start >= 0 ==> ReadClock(s[..4 + |delimiter|], |delimiter|) == (start * interval) % MinutesPerDay
    ensures start >= 0 ==>
      ReadClock(s[7 + |delimiter|..], |delimiter|) == (end * interval - 1) % MinutesPerDay
  {
    if start < 0 then
      "all day average"
    else
      TimeRangeIndexToStrReadsBack(start, interval, delimiter, 0);
      TimeRangeIndexToStrReadsBack(end, interval, delimiter, -1);
      var first := TimeRangeIndexToStr(start, interval, delimiter, 0);
      var last := TimeRangeIndexToStr(end, interval, delimiter, -1);
      assert (first + " - " + last)[..4 + |delimiter|] == first;
      assert (first + " - " + last)[7 + |delimiter|..] == last;
      first + " - " + last
  }

  /** Minute 1440 wraps to midnight. */
  lemma MidnightWraps()
    ensures TimeRangeIndexToStr(1440, 1, ":", 0) == "00:00"
  {
  }

  /** Minute -1 wraps to the last minute of the previous day. */
  lemma MinusOneWraps()
    ensures TimeRangeIndexToStr(0, 15, ":", -1) == "23:59"
  {
  }
}
