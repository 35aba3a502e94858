/** Assembly of a way-by-column history matrix from single-day speed tables
    (helper/history_data.py). A day's table is given as its rows; the file
    it is read from is chosen by how many days before the current day it
    lies. */
module HistoryData {
  import opened Wrappers

  const SecondsPerDay: int := 86400

  /** `1440 // 15`, the bin count used for yesterday whatever the interval. */
  const MaxIndex: int := 1440 / 15

  /** One `[daysBack, start, end]` entry of a task list: columns
      [start, end) of the table of the day `daysBack` days ago. */
  datatype Task = Task(daysBack: int, start: int, end: int)

  /** The column count `np.zeros` is asked for. */
  function Width(t: Task): int
  {
    t.end - t.start
  }

  function TotalWidth(tasks: seq<Task>): int
  {
    if tasks == [] then 0 else TotalWidth(tasks[..|tasks| - 1]) + Width(tasks[|tasks| - 1])
  }

  /** One row of a day table: the way id of the first column and the bin
      values of the remaining columns. */
  datatype DayRow = DayRow(id: int, values: seq<real>)

  type Matrix = seq<seq<real>>

  datatype Error =
    | HoursTooLarge        // ValueError, hours >= 24
    | NoTasks              // IndexError on results[0] of an empty task list
    | NegativeWidth        // ValueError of np.zeros
    | UnknownWay(id: int)  // KeyError in the way-to-row map
    | ShapeMismatch        // ValueError when a sliced row cannot broadcast

  // ---------------------------------------------------------------------
  // Bin index of the current time

  /** k * d >= d for k >= 1 and d > 0. */
  lemma MultipleAtLeast(k: int, d: int)
    requires k >= 1 && d > 0
    ensures k * d >= d
  {
    assert k * d == (k - 1) * d + d;
  }

  /** The quotient and remainder of Euclidean division are unique. */
  lemma DivModUnique(a: int, d: int, q: int, r: int)
    requires d > 0 && a == q * d + r && 0 <= r < d
    ensures a / d == q && a % d == r
  {
    var q0, r0 := a / d, a % d;
    assert a == q0 * d + r0;
    assert (q - q0) * d == r0 - r;
    if q > q0 {
      MultipleAtLeast(q - q0, d);
    } else if q < q0 {
      MultipleAtLeast(q0 - q, d);
    }
  }

  /** The ceiling of second / step as a multiple of step. */
  lemma CeilingToStep(second: int, step: int)
    requires 0 <= second && step > 0
    ensures var rounded := second + (-second) % step;
      && rounded % step == 0
      && rounded - step < second <= rounded
  {
    var q, m := second / step, second % step;
    assert second == q * step + m;
    if m == 0 {
      DivModUnique(-second, step, -q, 0);
      DivModUnique(second, step, q, 0);
    } else {
      DivModUnique(-second, step, -q - 1, step - m);
      DivModUnique(second + (step - m), step, q + 1, 0);
    }
  }

  /** `(k * interval * 60) / 60 / interval == k`. */
  lemma BinOfBoundary(k: int, interval: int)
    requires interval > 0
    ensures (k * (interval * 60)) / 60 / interval == k
  {
    assert k * (interval * 60) == (k * interval) * 60;
    DivModUnique(k * (interval * 60), 60, k * interval, 0);
    DivModUnique(k * interval, interval, k, 0);
  }

  /** The bin the rounded-up time falls in, read modulo one day. */
  lemma RoundedBin(second: int, interval: int)
    requires 0 <= second < SecondsPerDay
    requires 0 < interval && 1440 % interval == 0
    ensures var step := interval * 60;
      var idx := (second + (-second) % step) % SecondsPerDay / 60 / interval;
      && 0 <= idx < 1440 / interval
      && (second <= SecondsPerDay - step ==> (idx - 1) * step < second <= idx * step)
      && (second > SecondsPerDay - step ==> idx == 0)
  {
    var step := interval * 60;
    var rounded := second + (-second) % step;
    CeilingToStep(second, step);
    var c := rounded / step;
    assert rounded == c * step;
    var bins := 1440 / interval;
    DivModUnique(1440, interval, bins, 0);
    assert SecondsPerDay == bins * step;
    BoundaryCount(c, bins, step, second);
    if c == bins {
      DivModUnique(rounded, SecondsPerDay, 1, 0);
      DivModUnique(0, 60, 0, 0);
      DivModUnique(0, interval, 0, 0);
    } else {
      DivModUnique(rounded, SecondsPerDay, 0, rounded);
      BinOfBoundary(c, interval);
    }
  }

  /** A multiple c * step of step that is the ceiling of a second in
      [0, bins * step) has 0 <= c <= bins, and c < bins leaves a whole step
      before the end of the day. */
  lemma BoundaryCount(c: int, bins: int, step: int, second: int)
    requires step > 0 && 0 <= second < bins * step
    requires c * step - step < second <= c * step
    ensures 0 <= c <= bins
    ensures c < bins <==> second <= bins * step - step
  {
    assert (-c) * step == -(c * step);
    assert c * step - bins * step == (c - bins) * step;
    if c < 0 {
      MultipleAtLeast(-c, step);
    }
    if c > bins {
      MultipleAtLeast(c - bins, step);
    }
    if c < bins {
      MultipleAtLeast(bins - c, step);
    }
  }

  /** `round_down_to_interval_index` for a time `second` seconds after
      midnight. Despite its name it rounds UP to the next bin boundary: a
      time on a boundary keeps its bin, any other time goes to the following
      bin, and a time within the last bin of the day wraps to bin 0. */
  function RoundDownToIntervalIndex(second: int, interval: int): (idx: int)
    requires 0 <= second < SecondsPerDay
    requires 0 < interval && 1440 % interval == 0
    ensures 0 <= idx < 1440 / interval
    ensures second <= SecondsPerDay - interval * 60 ==>
      (idx - 1) * (interval * 60) < second <= idx * (interval * 60)
    ensures second > SecondsPerDay - interval * 60 ==> idx == 0
  {
    RoundedBin(second, interval);
    var step := interval * 60;
    (second + (-second) % step) % SecondsPerDay / 60 / interval
  }

  // ---------------------------------------------------------------------
  // Task lists

  /** The `task_infos` of `get_recent_hours_data`: the `hours` hours before
      bin idx, split at midnight. The part before midnight always uses
      `1440 // 15` bins for yesterday, whatever the interval. */
  function RecentHoursTasks(idx: int, hours: int, interval: int): (r: Result<seq<Task>, Error>)
    requires interval > 0
    ensures r.Failure? <==> hours >= 24
    ensures r.Failure? ==> r.error == HoursTooLarge
    ensures r.Success? && idx - (hours * 60) / interval >= 0 ==>
      r.value == [Task(0, idx - (hours * 60) / interval, idx)]
    ensures r.Success? && idx - (hours * 60) / interval < 0 ==>
      && |r.value| == 2
      && r.value[0] == Task(1, idx - (hours * 60) / interval + MaxIndex, MaxIndex - 1)
      && r.value[1] == Task(0, 0, idx)
  {
    var start := idx - (hours * 60) / interval;
    if hours >= 24 then Failure(HoursTooLarge)
    else if start < 0 then Success([Task(1, start + MaxIndex, MaxIndex - 1), Task(0, 0, idx)])
    else Success([Task(0, start, idx)])
  }

  /** With 15-minute bins, a span that reaches back past midnight loses the
      last bin of yesterday: the tasks cover one column fewer than the
      span's bin count, and yesterday's range stops before bin 95. */
  lemma {:induction false} YesterdayLosesLastBin(idx: int, hours: int)
    requires 0 <= idx < MaxIndex && 0 <= hours < 24
    requires idx - hours * 4 < 0
    ensures var r := RecentHoursTasks(idx, hours, 15);
      && r.Success?
      && TotalWidth(r.value) == hours * 4 - 1
      && r.value[0].end == MaxIndex - 1
  {
    var r := RecentHoursTasks(idx, hours, 15);
    assert (hours * 60) / 15 == hours * 4;
    var first := r.value[..1];
    assert first == [r.value[0]] && first[..0] == [];
    assert TotalWidth(first) == Width(r.value[0]);
    assert TotalWidth(r.value) == TotalWidth(first) + Width(r.value[1]);
  }

  /** Without the split the tasks cover exactly the span's bins. */
  lemma {:induction false} SameDaySpanIsExact(idx: int, hours: int, interval: int)
    requires interval > 0 && hours < 24
    requires idx - (hours * 60) / interval >= 0
    ensures var r := RecentHoursTasks(idx, hours, interval);
      r.Success? && TotalWidth(r.value) == (hours * 60) / interval
  {
    var r := RecentHoursTasks(idx, hours, interval);
    assert r.value[..0] == [];
  }

  /** With 5-minute bins the columns taken for the hour before midnight are
      bins 84..94 of yesterday, that is 07:00 to 07:50, not 23:00 to 23:55. */
  lemma OtherIntervalsTakeWrongBins()
    ensures RecentHoursTasks(0, 1, 5) == Success([Task(1, 84, 95), Task(0, 0, 0)])
  {
  }

  /** The `task_infos` of `get_recent_days_data` (stride 1) and
      `get_recent_weeks_data` (stride 7): for i = 1..count, the single bin
      idx of the day i * stride days back, most recent first. */
  function PastBinTaskList(idx: int, count: int, stride: int): (tasks: seq<Task>)
    ensures |tasks| == if count > 0 then count else 0
    ensures forall k :: 0 <= k < |tasks| ==> tasks[k] == Task((k + 1) * stride, idx, idx + 1)
  {
    if count <= 0 then [] else PastBinTaskList(idx, count - 1, stride) + [Task(count * stride, idx, idx + 1)]
  }

  /** Builds the past-bin task list by appending one task per past day. */
  method PastBinTasks(idx: int, count: int, stride: int) returns (tasks: seq<Task>)
    ensures tasks == PastBinTaskList(idx, count, stride)
  {
    tasks := [];
    var i := 1;
    while i <= count
      invariant count > 0 ==> 1 <= i <= count + 1
      invariant count <= 0 ==> i == 1
      invariant tasks == PastBinTaskList(idx, i - 1, stride)
    {
      tasks := tasks + [Task(i * stride, idx, idx + 1)];
      i := i + 1;
    }
  }

  /** Every past-bin task is one column wide, so the list spans one column
      per past day. */
  lemma {:induction false} PastBinWidth(idx: int, count: int, stride: int)
    ensures TotalWidth(PastBinTaskList(idx, count, stride)) == if count > 0 then count else 0
  {
    if count > 0 {
      PastBinWidth(idx, count - 1, stride);
      var l := PastBinTaskList(idx, count, stride);
      assert l[..|l| - 1] == PastBinTaskList(idx, count - 1, stride);
    }
  }

  // ---------------------------------------------------------------------
  // Reading columns out of a day table

  /** A Python slice bound normalised against a length: a negative bound
      counts from the end, and the result is clamped to [0, length]. */
  function SliceBound(i: int, length: int): (b: int)
    requires length >= 0
    ensures 0 <= b
    ensures b <= length
    ensures 0 <= i <= length ==> b == i
    ensures -length <= i < 0 ==> b == i + length
  {
    if i + length < 0 then 0
    else if i < 0 then i + length
    else if i > length then length
    else i
  }

  /** `values[start:end]` with numpy's slice semantics. */
  function PySlice(values: seq<real>, start: int, end: int): (s: seq<real>)
    ensures 0 <= start <= end <= |values| ==> s == values[start..end]
    ensures end <= start && 0 <= end ==> s == []
  {
    var lo, hi := SliceBound(start, |values|), SliceBound(end, |values|);
    if lo < hi then values[lo..hi] else []
  }

  /** The row index of each way id in a day table, the last row winning for
      a repeated id (the dictionary built by `get_way_id_to_matrix_row`). */
  function RowIndexOf(ids: seq<int>): (m: map<int, int>)
    ensures forall id :: id in m ==> 0 <= m[id] < |ids|
  {
    if ids == [] then map[] else RowIndexOf(ids[..|ids| - 1])[ids[|ids| - 1] := |ids| - 1]
  }

  /** An id has a row exactly when it occurs, and its row is its last
      occurrence. */
  lemma {:induction false} RowIndexOfMeaning(ids: seq<int>, id: int)
    ensures var m := RowIndexOf(ids);
            && (id in m <==> id in ids)
            && (id in m ==> ids[m[id]] == id && forall j :: m[id] < j < |ids| ==> ids[j] != id)
    decreases |ids|
  {
    if ids != [] {
      var front := ids[..|ids| - 1];
      RowIndexOfMeaning(front, id);
      assert ids == front + [ids[|ids| - 1]];
    }
  }

  function IdsOf(table: seq<DayRow>): (ids: seq<int>)
    ensures |ids| == |table|
    ensures forall k :: 0 <= k < |table| ==> ids[k] == table[k].id
  {
    seq(|table|, k requires 0 <= k < |table| => table[k].id)
  }

  /** `get_way_id_to_matrix_row`: maps each id to its row, counting rows
      with a counter. */
  method GetWayIdToMatrixRow(table: seq<DayRow>) returns (m: map<int, int>)
    ensures m == RowIndexOf(IdsOf(table))
  {
    m := map[];
    var counter := 0;
    while counter < |table|
      invariant 0 <= counter <= |table|
      invariant m == RowIndexOf(IdsOf(table)[..counter])
    {
      assert IdsOf(table)[..counter + 1][..counter] == IdsOf(table)[..counter];
      m := m[table[counter].id := counter];
      counter := counter + 1;
    }
    assert IdsOf(table)[..counter] == IdsOf(table);
  }

  /** The columns [start, end) of one way's row, broadcast the way numpy
      assigns a sliced row into a row of `end - start` zeros. */
  function WayColumns(table: seq<DayRow>, rowOf: map<int, int>, start: int, end: int, way: int): (r: Result<seq<real>, Error>)
    requires forall id :: id in rowOf ==> 0 <= rowOf[id] < |table|
    requires end - start >= 0
    ensures r.Success? ==> |r.value| == end - start
    ensures way !in rowOf <==> r == Failure(UnknownWay(way))
    ensures way in rowOf && 0 <= start <= end <= |table[rowOf[way]].values| ==>
      r == Success(table[rowOf[way]].values[start..end])
  {
    if way !in rowOf then Failure(UnknownWay(way))
    else
      var s := PySlice(table[rowOf[way]].values, start, end);
      if |s| == end - start then Success(s)
      else if |s| == 1 then Success(seq(end - start, _ => s[0]))
      else Failure(ShapeMismatch)
  }

  /** The rows of `ways`, in order; the first failing way decides the error. */
  function WayRows(table: seq<DayRow>, rowOf: map<int, int>, start: int, end: int, ways: seq<int>): (r: Result<Matrix, Error>)
    requires forall id :: id in rowOf ==> 0 <= rowOf[id] < |table|
    requires end - start >= 0
    ensures r.Success? ==> |r.value| == |ways| && forall k :: 0 <= k < |ways| ==> |r.value[k]| == end - start
  {
    if ways == [] then Success([])
    else
      match WayRows(table, rowOf, start, end, ways[..|ways| - 1])
      case Failure(e) => Failure(e)
      case Success(rows) =>
        match WayColumns(table, rowOf, start, end, ways[|ways| - 1])
        case Failure(e) => Failure(e)
        case Success(row) => Success(rows + [row])
  }

  /** Row k holds the columns of way k; a failure is the failure of some
      way. */
  lemma {:induction false} WayRowsMeaning(table: seq<DayRow>, rowOf: map<int, int>, start: int, end: int, ways: seq<int>)
    requires forall id :: id in rowOf ==> 0 <= rowOf[id] < |table|
    requires end - start >= 0
    ensures WayRows(table, rowOf, start, end, ways).Success? ==>
              forall k :: 0 <= k < |ways| ==>
                WayColumns(table, rowOf, start, end, ways[k]) == Success(WayRows(table, rowOf, start, end, ways).value[k])
    ensures WayRows(table, rowOf, start, end, ways).Failure? ==>
              exists k :: 0 <= k < |ways| && WayColumns(table, rowOf, start, end, ways[k]).Failure?
    decreases |ways|
  {
    if ways != [] {
      var front := ways[..|ways| - 1];
      WayRowsMeaning(table, rowOf, start, end, front);
      assert forall k :: 0 <= k < |front| ==> front[k] == ways[k];
      var before := WayRows(table, rowOf, start, end, front);
      if before.Failure? {
        var k :| 0 <= k < |front| && WayColumns(table, rowOf, start, end, front[k]).Failure?;
        assert WayColumns(table, rowOf, start, end, ways[k]).Failure?;
      }
    }
  }

  /** `get_history_data_by_interval_range` on one day's table: a
      `len(ways) x (end - start)` matrix whose row k holds way k's
      columns [start, end). */
  function ByIntervalRange(table: seq<DayRow>, start: int, end: int, ways: seq<int>): (r: Result<Matrix, Error>)
    ensures end - start < 0 ==> r == Failure(NegativeWidth)
    ensures r.Success? ==> |r.value| == |ways| && forall k :: 0 <= k < |ways| ==> |r.value[k]| == end - start
  {
    if end - start < 0 then Failure(NegativeWidth)
    else WayRows(table, RowIndexOf(IdsOf(table)), start, end, ways)
  }

  /** A loaded row is the way's last row in the table, cut to [start, end)
      when that range lies inside it; a way missing from the table makes
      the load fail. */
  lemma ByIntervalRangeRows(table: seq<DayRow>, start: int, end: int, ways: seq<int>)
    ensures var r := ByIntervalRange(table, start, end, ways);
      var m := RowIndexOf(IdsOf(table));
      && (r.Success? ==> forall k :: 0 <= k < |ways| ==>
           && ways[k] in m
           && (0 <= start <= end <= |table[m[ways[k]]].values| ==> r.value[k] == table[m[ways[k]]].values[start..end]))
      && (end - start >= 0 && (exists k :: 0 <= k < |ways| && ways[k] !in m) ==> r.Failure?)
  {
    var r := ByIntervalRange(table, start, end, ways);
    var m := RowIndexOf(IdsOf(table));
    if end - start >= 0 {
      WayRowsMeaning(table, m, start, end, ways);
    }
    if end - start >= 0 && exists k :: 0 <= k < |ways| && ways[k] !in m {
      var k :| 0 <= k < |ways| && ways[k] !in m;
      assert WayColumns(table, m, start, end, ways[k]).Failure?;
    }
  }

  /** Places two matrices with the same rows side by side (`np.hstack`). */
  function HStack(a: Matrix, b: Matrix): (m: Matrix)
    requires |a| == |b|
    ensures |m| == |a|
    ensures forall k :: 0 <= k < |a| ==> m[k] == a[k] + b[k]
  {
    seq(|a|, k requires 0 <= k < |a| => a[k] + b[k])
  }

  /** The columns of every task, side by side in task order; the first
      failing task decides the error, and an empty task list fails with
      `NoTasks` (its `results[0]` raises). */
  function TaskColumns(tables: int -> seq<DayRow>, tasks: seq<Task>, ways: seq<int>): (r: Result<Matrix, Error>)
    ensures tasks == [] ==> r == Failure(NoTasks)
    ensures r.Success? ==> |r.value| == |ways|
    ensures r.Success? ==> forall k :: 0 <= k < |ways| ==> |r.value[k]| == TotalWidth(tasks)
  {
    if tasks == [] then Failure(NoTasks)
    else
      var last := tasks[|tasks| - 1];
      var prefix := tasks[..|tasks| - 1];
      if prefix == [] then ByIntervalRange(tables(last.daysBack), last.start, last.end, ways)
      else
        match TaskColumns(tables, prefix, ways)
        case Failure(e) => Failure(e)
        case Success(m) =>
          match ByIntervalRange(tables(last.daysBack), last.start, last.end, ways)
          case Failure(e) => Failure(e)
          case Success(c) => Success(HStack(m, c))
  }

  /** `np.hstack(results)` for a non-empty list of matrices with n rows. */
  function StackAll(ms: seq<Matrix>, n: nat): (m: Matrix)
    requires |ms| > 0
    requires forall j :: 0 <= j < |ms| ==> |ms[j]| == n
    ensures |m| == n
  {
    if |ms| == 1 then ms[0] else HStack(StackAll(ms[..|ms| - 1], n), ms[|ms| - 1])
  }

  /** How the columns of a list of tasks change when one more task is loaded. */
  lemma TaskColumnsStep(tables: int -> seq<DayRow>, tasks: seq<Task>, ways: seq<int>, i: int)
    requires 0 <= i < |tasks|
    ensures var t := tasks[i];
      var loaded := ByIntervalRange(tables(t.daysBack), t.start, t.end, ways);
      var before := TaskColumns(tables, tasks[..i], ways);
      var after := TaskColumns(tables, tasks[..i + 1], ways);
      && (i == 0 ==> after == loaded)
      && (i > 0 && before.Failure? ==> after == before)
      && (i > 0 && before.Success? && loaded.Failure? ==> after == loaded)
      && (i > 0 && before.Success? && loaded.Success? ==> after == Success(HStack(before.value, loaded.value)))
  {
    assert tasks[..i + 1][..i] == tasks[..i];
  }

  /** The loading loop shared by the three `get_recent_*_data` functions:
      loads every task's columns in order, then stacks them (`results[0]`
      for a single task, which raises for an empty list). */
  method GetRecentData(tables: int -> seq<DayRow>, tasks: seq<Task>, ways: seq<int>) returns (r: Result<Matrix, Error>)
    ensures r == TaskColumns(tables, tasks, ways)
  {
    var results: seq<Matrix> := [];
    var i := 0;
    while i < |tasks|
      invariant 0 <= i <= |tasks|
      invariant Stacked(tables, tasks, ways, i, results)
    {
      var t := tasks[i];
      var loaded := ByIntervalRange(tables(t.daysBack), t.start, t.end, ways);
      if loaded.Failure? {
        TaskColumnsStep(tables, tasks, ways, i);
        TaskColumnsFailurePersists(tables, tasks, ways, i + 1);
        return Failure(loaded.error);
      }
      StackedStep(tables, tasks, ways, i, results);
      results := results + [loaded.value];
      i := i + 1;
    }
    assert tasks[..i] == tasks;
    if |results| == 0 {
      return Failure(NoTasks);
    }
    return Success(StackAll(results, |ways|));
  }

  /** The loading loop's state after i tasks: one matrix per task, each
      with a row per way, stacking to the columns of those tasks. */
  predicate Stacked(tables: int -> seq<DayRow>, tasks: seq<Task>, ways: seq<int>, i: nat, results: seq<Matrix>)
    requires i <= |tasks|
  {
    && |results| == i
    && (forall j :: 0 <= j < i ==> |results[j]| == |ways|)
    && (i > 0 ==> TaskColumns(tables, tasks[..i], ways) == Success(StackAll(results, |ways|)))
  }

  /** Loading task i successfully extends the loop's state by its
      matrix. */
  lemma StackedStep(tables: int -> seq<DayRow>, tasks: seq<Task>, ways: seq<int>, i: nat, results: seq<Matrix>)
    requires i < |tasks| && Stacked(tables, tasks, ways, i, results)
    requires ByIntervalRange(tables(tasks[i].daysBack), tasks[i].start, tasks[i].end, ways).Success?
    ensures Stacked(tables, tasks, ways, i + 1,
                    results + [ByIntervalRange(tables(tasks[i].daysBack), tasks[i].start, tasks[i].end, ways).value])
  {
    TaskColumnsStep(tables, tasks, ways, i);
    var loaded := ByIntervalRange(tables(tasks[i].daysBack), tasks[i].start, tasks[i].end, ways).value;
    assert (results + [loaded])[..i] == results;
  }

  /** Once a task fails to load, the whole list fails with that task's
      error unless an earlier task already failed. */
  lemma {:induction false} TaskColumnsFailurePersists(tables: int -> seq<DayRow>, tasks: seq<Task>, ways: seq<int>, i: int)
    requires 0 < i <= |tasks|
    requires TaskColumns(tables, tasks[..i], ways).Failure?
    ensures TaskColumns(tables, tasks, ways) == TaskColumns(tables, tasks[..i], ways)
    decreases |tasks| - i
  {
    if i < |tasks| {
      assert tasks[..i + 1][..i] == tasks[..i];
      TaskColumnsFailurePersists(tables, tasks, ways, i + 1);
    } else {
      assert tasks[..i] == tasks;
    }
  }

  // ---------------------------------------------------------------------
  // The whole history matrix

  /** What `get_history_data` returns: the recent-hours columns, then one
      column per past day, then one per past week. */
  function HistoryColumns(tables: int -> seq<DayRow>, second: int, ways: seq<int>, interval: int,
                          hours: int, days: int, weeks: int): Result<Matrix, Error>
    requires 0 <= second < SecondsPerDay
    requires 0 < interval && 1440 % interval == 0
  {
    var idx := RoundDownToIntervalIndex(second, interval);
    match RecentHoursTasks(idx, hours, interval)
    case Failure(e) => Failure(e)
    case Success(hourTasks) =>
      match TaskColumns(tables, hourTasks, ways)
      case Failure(e) => Failure(e)
      case Success(h) =>
        match TaskColumns(tables, PastBinTaskList(idx, days, 1), ways)
        case Failure(e) => Failure(e)
        case Success(d) =>
          match TaskColumns(tables, PastBinTaskList(idx, weeks, 7), ways)
          case Failure(e) => Failure(e)
          case Success(w) => Success(HStack(HStack(h, d), w))
  }

  /** `get_history_data`: the three column groups, side by side. */
  method GetHistoryData(tables: int -> seq<DayRow>, second: int, ways: seq<int>, interval: int,
                        hours: int, days: int, weeks: int) returns (r: Result<Matrix, Error>)
    requires 0 <= second < SecondsPerDay
    requires 0 < interval && 1440 % interval == 0
    ensures r == HistoryColumns(tables, second, ways, interval, hours, days, weeks)
  {
    var idx := RoundDownToIntervalIndex(second, interval);
    var hourTasks := RecentHoursTasks(idx, hours, interval);
    if hourTasks.Failure? {
      return Failure(hourTasks.error);
    }
    var h := GetRecentData(tables, hourTasks.value, ways);
    if h.Failure? {
      return Failure(h.error);
    }
    var dayTasks := PastBinTasks(idx, days, 1);
    var d := GetRecentData(tables, dayTasks, ways);
    if d.Failure? {
      return Failure(d.error);
    }
    var weekTasks := PastBinTasks(idx, weeks, 7);
    var w := GetRecentData(tables, weekTasks, ways);
    if w.Failure? {
      return Failure(w.error);
    }
    return Success(HStack(HStack(h.value, d.value), w.value));
  }

  /** On success every way's row has the recent-hours columns first, then
      exactly one column per past day and per past week; a request for no
      past days or no past weeks always fails. */
  lemma HistoryColumnsLayout(tables: int -> seq<DayRow>, second: int, ways: seq<int>, interval: int,
                             hours: int, days: int, weeks: int)
    requires 0 <= second < SecondsPerDay
    requires 0 < interval && 1440 % interval == 0
    ensures var r := HistoryColumns(tables, second, ways, interval, hours, days, weeks);
      var idx := RoundDownToIntervalIndex(second, interval);
      && (days <= 0 || weeks <= 0 || hours >= 24 ==> r.Failure?)
      && (r.Success? ==>
           && days > 0 && weeks > 0
           && RecentHoursTasks(idx, hours, interval).Success?
           && |r.value| == |ways|
           && forall k :: 0 <= k < |ways| ==>
                |r.value[k]| == TotalWidth(RecentHoursTasks(idx, hours, interval).value) + days + weeks)
  {
    var idx := RoundDownToIntervalIndex(second, interval);
    PastBinWidth(idx, days, 1);
    PastBinWidth(idx, weeks, 7);
  }
}
