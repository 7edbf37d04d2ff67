/** The Windows resource profiler (src/resource_profiler_windows.c): per
    sample, the process's user and kernel times from GetProcessTimes and its
    working set from GetProcessMemoryInfo, and the CPU share between two
    samples. What the Windows calls return, and the wall-clock time of each
    sample, are inputs. */
module ProfilerWindows {
  import opened Common

  /** proc_metrics_t: times in milliseconds, sizes in bytes. */
  datatype Metrics = Metrics(userTime: U64Val, kernelTime: U64Val, workingSet: U64Val, peakWorkingSet: U64Val)

  /** What GetProcessTimes reports, in 100-nanosecond FILETIME units. */
  datatype FileTimes = FileTimes(kernel: U64Val, user: U64Val)

  /** What GetProcessMemoryInfo reports. */
  datatype MemoryCounters = MemoryCounters(workingSetSize: U64Val, peakWorkingSetSize: U64Val)

  /** The three calls of get_process_metrics: OpenProcess succeeds or not,
      and each query returns its values or fails. */
  datatype Query = Query(handle: bool, times: Option<FileTimes>, memory: Option<MemoryCounters>)

  /** GetSystemTime's hour, minute, second and millisecond fields. */
  datatype SystemTime = SystemTime(hour: nat, minute: nat, second: nat, milliseconds: nat)

  /** A FILETIME count in milliseconds: 10000 units of 100 ns make 1 ms. */
  function FileTimeMs(ft: U64Val): (ms: U64Val)
    ensures ms * 10000 <= ft < (ms + 1) * 10000
  {
    ft / 10000
  }

  /** get_process_metrics: the metrics, or None when any of the three
      calls fails. */
  function ProcessMetrics(q: Query): (m: Option<Metrics>)
    ensures m.Some? <==> q.handle && q.times.Some? && q.memory.Some?
    ensures m.Some? ==>
      m.value.userTime == FileTimeMs(q.times.value.user) &&
      m.value.kernelTime == FileTimeMs(q.times.value.kernel) &&
      m.value.workingSet == q.memory.value.workingSetSize &&
      m.value.peakWorkingSet == q.memory.value.peakWorkingSetSize
  {
    if !q.handle || q.times.None? || q.memory.None? then None
    else
      Some(Metrics(FileTimeMs(q.times.value.user), FileTimeMs(q.times.value.kernel),
                   q.memory.value.workingSetSize, q.memory.value.peakWorkingSetSize))
  }

  /** The milliseconds of CPU time between two samples, as an unsigned
      64-bit difference of the user + kernel sums. */
  function CpuDelta(prev: Metrics, curr: Metrics): U64Val
  {
    Wrap(Wrap(curr.userTime + curr.kernelTime) - Wrap(prev.userTime + prev.kernelTime))
  }

  /** calc_cpu_percent: the CPU time between the samples as a percentage of
      the interval, capped at 100; 0 when a sample is missing. */
  function CalcCpuPercent(prev: Option<Metrics>, curr: Option<Metrics>, intervalMs: int): (r: real)
    ensures 0.0 <= r <= 100.0
    ensures prev.None? || curr.None? ==> r == 0.0
    ensures prev.Some? && curr.Some? ==>
      var d := CpuDelta(prev.value, curr.value);
      var i := AtLeastOne(intervalMs);
      (d < i ==> r * i as real == 100.0 * d as real) && (d >= i ==> r == 100.0)
  {
    if prev.None? || curr.None? then 0.0
    else
      var d := CpuDelta(prev.value, curr.value);
      var i := AtLeastOne(intervalMs);
      var pct := (d as real / i as real) * 100.0;
      ShareOfInterval(d, i);
      if pct > 100.0 then 100.0 else pct
  }

  lemma ShareOfInterval(d: nat, i: nat)
    requires i > 0
    ensures var pct := (d as real / i as real) * 100.0;
      pct >= 0.0 && pct * i as real == 100.0 * d as real && (pct >= 100.0 <==> d >= i)
  {
    var q := d as real / i as real;
    assert q * i as real == d as real;
    var pct := q * 100.0;
    assert pct * i as real == 100.0 * d as real;
    if pct >= 100.0 {
      assert pct * i as real >= 100.0 * i as real;
    } else {
      assert pct * i as real < 100.0 * i as real;
    }
  }

  /** When the process used d ms of CPU between samples, even across a
      wrap of the 64-bit sums, the share is 100 * d / interval below the
      cap of one whole interval. */
  lemma CpuPercentOfUsage(prev: Metrics, curr: Metrics, d: nat, intervalMs: int)
    requires d < U64
    requires Wrap(curr.userTime + curr.kernelTime) == Wrap(prev.userTime + prev.kernelTime + d)
    requires d < AtLeastOne(intervalMs)
    ensures CalcCpuPercent(Some(prev), Some(curr), intervalMs) * AtLeastOne(intervalMs) as real == 100.0 * d as real
  {
    CpuDeltaOfUsage(prev, curr, d);
  }

  /** The unsigned difference of the sums gives back the CPU time used. */
  lemma CpuDeltaOfUsage(prev: Metrics, curr: Metrics, d: nat)
    requires d < U64
    requires Wrap(curr.userTime + curr.kernelTime) == Wrap(prev.userTime + prev.kernelTime + d)
    ensures CpuDelta(prev, curr) == d
  {
    var a := Wrap(curr.userTime + curr.kernelTime);
    var b := Wrap(prev.userTime + prev.kernelTime);
    WrapAdd(prev.userTime + prev.kernelTime, d);
    WrapDiff(a, b, d);
  }

  /** The timestamp column: milliseconds since midnight (UTC). */
  function Millis(t: SystemTime): int
  {
    t.hour * 3600000 + t.minute * 60000 + t.second * 1000 + t.milliseconds
  }

  /** One CSV row. */
  datatype Row = Row(timestampMs: int, pid: nat, userTimeMs: U64Val, kernelTimeMs: U64Val,
                     cpuPercent: real, workingSet: U64Val, peakWorkingSet: U64Val)

  /** The row of a sample, given the metrics of the one before it (None
      for the first sample, whose CPU share is 0). */
  function RowOf(pid: nat, intervalMs: int, clock: SystemTime, prev: Option<Metrics>, m: Metrics): (row: Row)
    ensures prev.None? ==> row.cpuPercent == 0.0
  {
    Row(Millis(clock), pid, m.userTime, m.kernelTime,
        if prev.None? then 0.0 else CalcCpuPercent(prev, Some(m), intervalMs),
        m.workingSet, m.peakWorkingSet)
  }

  /** The outputs of a sampling loop from here on, and whether every sample
      succeeded: each sample's reading f(q) either fails, which ends the
      loop, or gives the row of that reading against the previous one (prev
      to start with). */
  function Emit<Q, C, M, R>(f: Q -> Option<M>, row: (C, Option<M>, M) -> R,
                            qs: seq<Q>, cs: seq<C>, prev: Option<M>): (seq<R>, bool)
    requires |qs| == |cs|
    decreases |qs|
  {
    if qs == [] then ([], true)
    else
      match f(qs[0])
      case None => ([], false)
      case Some(m) =>
        var (rest, ok) := Emit(f, row, qs[1..], cs[1..], Some(m));
        ([row(cs[0], prev, m)] + rest, ok)
  }

  /** A loop that completes writes one row per sample; one that fails stops
      at the first failed sample, and every row before it is that sample's
      reading against the sample before (or prev for the first). */
  lemma {:induction false} EmitTrace<Q, C, M, R>(f: Q -> Option<M>, row: (C, Option<M>, M) -> R,
                                                  qs: seq<Q>, cs: seq<C>, prev: Option<M>)
    requires |qs| == |cs|
    ensures var (rows, ok) := Emit(f, row, qs, cs, prev);
      && |rows| <= |qs|
      && (ok <==> |rows| == |qs|)
      && (!ok ==> f(qs[|rows|]).None?)
      && (forall j :: 0 <= j < |rows| ==> f(qs[j]).Some?)
      && (forall j :: 0 <= j < |rows| ==>
            rows[j] == row(cs[j], if j == 0 then prev else f(qs[j - 1]), f(qs[j]).value))
    decreases |qs|
  {
    if qs != [] && f(qs[0]).Some? {
      var m := f(qs[0]).value;
      EmitTrace(f, row, qs[1..], cs[1..], Some(m));
      var (rows, ok) := Emit(f, row, qs, cs, prev);
      var (rest, _) := Emit(f, row, qs[1..], cs[1..], Some(m));
      assert rows == [row(cs[0], prev, m)] + rest;
      forall j | 0 <= j < |rows|
        ensures f(qs[j]).Some?
        ensures rows[j] == row(cs[j], if j == 0 then prev else f(qs[j - 1]), f(qs[j]).value)
      {
        if j > 0 {
          assert rows[j] == rest[j - 1];
          assert qs[j] == qs[1..][j - 1] && cs[j] == cs[1..][j - 1];
          if j > 1 {
            assert qs[j - 1] == qs[1..][j - 2];
          }
        }
      }
      if !ok {
        assert qs[|rows|] == qs[1..][|rest|];
      }
    }
  }

  /** The sampling loop, with its `first` flag and previous reading. */
  method EmitLoop<Q, C, M, R>(f: Q -> Option<M>, row: (C, Option<M>, M) -> R, qs: seq<Q>, cs: seq<C>, zero: M)
    returns (out: seq<R>, ok: bool)
    requires |qs| == |cs|
    ensures (out, ok) == Emit(f, row, qs, cs, None)
  {
    out := [];
    var prev := zero;
    var first := true;
    var i := 0;
    ghost var whole := Emit(f, row, qs, cs, None);
    assert qs[0..] == qs && cs[0..] == cs;
    assert whole.0 == out + whole.0;
    while i < |qs|
      invariant 0 <= i <= |qs|
      invariant whole.0 == out + Emit(f, row, qs[i..], cs[i..], if first then None else Some(prev)).0
      invariant whole.1 == Emit(f, row, qs[i..], cs[i..], if first then None else Some(prev)).1
    {
      SuffixStep(qs, i);
      SuffixStep(cs, i);
      var last := if first then None else Some(prev);
      var curr := f(qs[i]);
      if curr.None? {
        assert Emit(f, row, qs[i..], cs[i..], last) == ([], false);
        assert out + [] == out;
        return out, false;
      }
      var r := row(cs[i], last, curr.value);
      ghost var rest := Emit(f, row, qs[i + 1..], cs[i + 1..], curr);
      assert Emit(f, row, qs[i..], cs[i..], last) == ([r] + rest.0, rest.1);
      assert out + ([r] + rest.0) == (out + [r]) + rest.0;
      out := out + [r];
      prev := curr.value;
      first := false;
      i := i + 1;
    }
    assert qs[i..] == [] && cs[i..] == [];
    assert out + [] == out;
    ok := true;
  }

  /** The rows rp_run writes for the samples, and whether all succeeded. */
  function Rows(pid: nat, intervalMs: int, queries: seq<Query>, clocks: seq<SystemTime>): (out: (seq<Row>, bool))
    requires |queries| == |clocks|
    ensures |out.0| <= |queries|
    ensures forall j :: 0 <= j < |out.0| ==> ProcessMetrics(queries[j]).Some?
  {
    EmitTrace(ProcessMetrics, (c, p, m) => RowOf(pid, intervalMs, c, p, m), queries, clocks, None);
    Emit(ProcessMetrics, (c, p, m) => RowOf(pid, intervalMs, c, p, m), queries, clocks, None)
  }

  /** A run that completes writes one row per sample and one that fails
      stops at the first sample whose metrics cannot be read; row j is the
      row of sample j's metrics against those of sample j - 1 (none for the
      first sample). */
  lemma RowsTrace(pid: nat, intervalMs: int, queries: seq<Query>, clocks: seq<SystemTime>)
    requires |queries| == |clocks|
    ensures var rows := Rows(pid, intervalMs, queries, clocks).0;
      && |rows| <= |queries|
      && (Rows(pid, intervalMs, queries, clocks).1 <==> |rows| == |queries|)
      && (|rows| < |queries| ==> ProcessMetrics(queries[|rows|]).None?)
      && (forall j :: 0 <= j < |rows| ==> ProcessMetrics(queries[j]).Some?)
      && (forall j :: 0 <= j < |rows| ==>
            rows[j] == RowOf(pid, intervalMs, clocks[j], if j == 0 then None else ProcessMetrics(queries[j - 1]),
                             ProcessMetrics(queries[j]).value))
  {
    var row := (c, p, m) => RowOf(pid, intervalMs, c, p, m);
    EmitTrace(ProcessMetrics, row, queries, clocks, None);
  }

  /** The columns of row j: sample j's times and working set, its clock
      time and the pid; the CPU share is 0 in the first row and, in the
      others, calc_cpu_percent of sample j - 1 and sample j. */
  lemma RowsColumns(pid: nat, intervalMs: int, queries: seq<Query>, clocks: seq<SystemTime>, j: nat)
    requires |queries| == |clocks|
    requires j < |Rows(pid, intervalMs, queries, clocks).0|
    ensures var row := Rows(pid, intervalMs, queries, clocks).0[j];
      var m := ProcessMetrics(queries[j]).value;
      && row.userTimeMs == m.userTime && row.kernelTimeMs == m.kernelTime
      && row.workingSet == m.workingSet && row.peakWorkingSet == m.peakWorkingSet
      && row.timestampMs == Millis(clocks[j]) && row.pid == pid
      && (j == 0 ==> row.cpuPercent == 0.0)
      && (j > 0 ==> row.cpuPercent == CalcCpuPercent(ProcessMetrics(queries[j - 1]), ProcessMetrics(queries[j]), intervalMs))
  {
    RowsTrace(pid, intervalMs, queries, clocks);
    var prev := if j == 0 then None else ProcessMetrics(queries[j - 1]);
    assert Rows(pid, intervalMs, queries, clocks).0[j] == RowOf(pid, intervalMs, clocks[j], prev, ProcessMetrics(queries[j]).value);
  }

  /** rp_run: -1 with nothing written when the output file does not open;
      otherwise the header and one row per sample and 0, or -1 after the
      rows so far at the first sample whose metrics cannot be read. The
      pid column is the pid as a DWORD. */
  method RpRun(pidRaw: Int32, intervalMs: Int32, samples: Int32, outpath: Option<string>, opens: bool,
               queries: seq<Query>, clocks: seq<SystemTime>)
    returns (code: int, rows: Option<seq<Row>>)
    requires AtLeastOne(samples) <= |queries| && AtLeastOne(samples) <= |clocks|
    ensures rows.None? <==> outpath.Some? && !opens
    ensures code == 0 || code == -1
    ensures rows.None? ==> code == -1
    ensures rows.Some? ==>
      var n := AtLeastOne(samples);
      (rows.value, code == 0) == Rows(pidRaw % 0x1_0000_0000, intervalMs, queries[..n], clocks[..n])
  {
    var n := AtLeastOne(samples);
    var pid: nat := pidRaw % 0x1_0000_0000;
    if outpath.Some? && !opens {
      return -1, None;
    }
    var out, ok := EmitLoop(ProcessMetrics, (c, p, m) => RowOf(pid, intervalMs, c, p, m),
                            queries[..n], clocks[..n], Metrics(0, 0, 0, 0));
    code := if ok then 0 else -1;
    rows := Some(out);
  }
}
