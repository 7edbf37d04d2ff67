/** The per-process monitor of src/process_monitor.c: /proc/<pid>/stat and
    comm readers, the CPU share between two readings, the sampling loop and
    the CSV/JSON record shapes. Whether /proc/<pid> exists, the file texts,
    sysinfo's answer, the page size, the clock tick rate and the monotonic
    clock readings are inputs. */
module ProcessMonitor {
  import opened Common
  import opened Scanf
  import opened Utils

  /** ProcessStats. */
  datatype ProcessStats = ProcessStats(
    pid: int, name: string, state: char, utime: int, stime: int, vsize: int,
    rss: int, numThreads: int, cpuPercent: real, memPercent: real)

  /** What an uninitialised record holds in the model; no result depends on it. */
  const UnsetProcessStats := ProcessStats(0, "", '\0', 0, 0, 0, 0, 0, 0.0, 0.0)

  /** sysinfo's total RAM in units of memUnit bytes. */
  datatype SysInfo = SysInfo(totalram: U64Val, memUnit: U64Val)

  /** What one read_process_stats call sees: whether stat("/proc/<pid>")
      succeeds, the text of /proc/<pid>/stat (None when it does not open),
      and sysinfo's answer (None when it fails). */
  datatype ProcInput = ProcInput(present: bool, stat: Option<string>, sys: Option<SysInfo>)

  // ---------------------------------------------------------------------------
  // get_process_name

  /** get_process_name: -1 when /proc/<pid>/comm does not open or is empty;
      otherwise what fgets read into the buffer of size bytes, cut at the
      first newline. */
  function GetProcessName(comm: Option<string>, size: nat): (r: Option<string>)
    requires size > 0
    ensures comm.None? || comm == Some([]) ==> r.None?
    ensures r.Some? ==> '\n' !in r.value && |r.value| < size
  {
    match comm
    case None => None
    case Some(content) => FirstLine(content, size)
  }

  /** The name is the start of the file's text, up to the first newline or
      the buffer's capacity. */
  lemma GetProcessNameIsPrefix(l: string, others: string, size: nat)
    requires size > 0 && '\n' !in l
    ensures GetProcessName(Some(l + "\n" + others), size) == Some(Truncate(l, size - 1))
    ensures GetProcessName(Some(l + "\n" + others), size).value <= l + "\n" + others
  {
    var s := l + "\n" + others;
    var k := IndexOf(s, '\n');
    assert s == l + ("\n" + others);
    IndexOfAfter(l, "\n" + others, '\n');
    assert s[..k] == l;
    assert Lines(s)[0] == l;
    var t := Truncate(l, size - 1);
    assert t == l[..|t|];
    assert s[..|t|] == t;
  }

  // ---------------------------------------------------------------------------
  // read_process_stats

  /** " %*d" (signed) or " %*u" repeated k times. */
  function Skips(signed: bool, k: nat): seq<Directive>
  {
    if k == 0 then [] else [Ws, Num(signed, false)] + Skips(signed, k - 1)
  }

  /** "%*d %s %c %*d %*d %*d %*d %*d %*u %*u %*u %*u %*u %lu %lu %*d %*d %*d
      %*d %ld %*d %*u %lu %lu": name, state, utime, stime, num_threads,
      vsize, rss. */
  const ProcFmt: seq<Directive> :=
    [Num(true, false), Ws, Word(true), Ws, Char(true)] + Skips(true, 5) + Skips(false, 5)
    + Nums(2) + Skips(true, 4) + [Ws, Num(true, true)] + Skips(true, 1) + Skips(false, 1) + Nums(2)

  /** The first character of a text the scan assigned. */
  function CharAt(v: seq<Field>, i: nat): char
    requires i < |v|
  {
    var t := TextAt(v, i);
    if t == [] then '\0' else t[0]
  }

  /** fscanf writes each value it assigns straight into the record, in the
      order of the format, so a scan that stops early leaves the later fields
      as they were. */
  function ProcAssign(v: seq<Field>, st: ProcessStats): (r: ProcessStats)
    ensures r.pid == st.pid && r.cpuPercent == st.cpuPercent && r.memPercent == st.memPercent
    ensures |v| >= 7 ==>
      r.name == TextAt(v, 0) && r.state == CharAt(v, 1) && r.utime == NumAt(v, 2) && r.stime == NumAt(v, 3) && r.numThreads == NumAt(v, 4)
      && r.vsize == NumAt(v, 5) && r.rss == NumAt(v, 6)
    ensures |v| == 0 ==> r == st
  {
    st.(name := if |v| > 0 then TextAt(v, 0) else st.name,
        state := if |v| > 1 then CharAt(v, 1) else st.state,
        utime := if |v| > 2 then NumAt(v, 2) else st.utime,
        stime := if |v| > 3 then NumAt(v, 3) else st.stime,
        numThreads := if |v| > 4 then NumAt(v, 4) else st.numThreads,
        vsize := if |v| > 5 then NumAt(v, 5) else st.vsize,
        rss := if |v| > 6 then NumAt(v, 6) else st.rss)
  }

  /** The name without the parentheses the kernel puts around it: only a
      name that starts with '(' and ends with ')' loses them. */
  function Unparen(s: string): string
  {
    if |s| >= 2 && s[0] == '(' && s[|s| - 1] == ')' then s[1..|s| - 1] else s
  }

  /** A parenthesised name comes back without its parentheses; any other
      name is unchanged. */
  lemma UnparenCases(t: string, s: string)
    ensures Unparen("(" + t + ")") == t
    ensures s == [] || s[0] != '(' || s[|s| - 1] != ')' ==> Unparen(s) == s
  {
    assert ("(" + t + ")")[1..|t| + 1] == t;
  }

  /** The name stripping of read_process_stats on the NUL-terminated buffer
      a[..n]: the closing ')' is overwritten by the terminator and the rest
      is moved one place to the front. Returns the new length. */
  method StripParens(a: array<char>, n: nat) returns (m: nat)
    requires n < a.Length && a[n] == '\0'
    requires forall k :: 0 <= k < n ==> a[k] != '\0'
    modifies a
    ensures m < a.Length && a[m] == '\0'
    ensures a[..m] == Unparen(old(a[..n]))
  {
    ghost var s := a[..n];
    if n == 0 || a[0] != '(' || a[n - 1] != ')' {
      return n;
    }
    if n == 1 {
      return n;
    }
    a[n - 1] := '\0';
    ghost var cut := a[..];
    MoveToFront(a, 1, n);
    m := n - 2;
    forall k | 0 <= k < n
      ensures a[k] == cut[k + 1]
    {
      assert a[..n][k] == cut[1..n + 1][k];
    }
    assert a[m] == cut[n - 1] == '\0';
    assert a[..m] == s[1..n - 1] by {
      forall k | 0 <= k < m
        ensures a[..m][k] == s[1..n - 1][k]
      {
        assert cut[k + 1] == s[k + 1];
      }
    }
  }

  /** The conditions under which read_process_stats returns 0: the process
      exists, its stat file opens, and all seven values are assigned. */
  predicate ReadOk(inp: ProcInput)
  {
    inp.present && inp.stat.Some? && |Scan(ProcFmt, inp.stat.value)| >= 7
  }

  /** The memory share: the resident pages in kB as a percentage of the total
      RAM in kB, each product taken in unsigned long. */
  function MemPercent(rss: int, pageSize: U64Val, si: SysInfo): real
  {
    CalculatePercentage(Wrap(rss * pageSize) / 1024, Wrap(si.totalram * si.memUnit) / 1024)
  }

  /** read_process_stats: the return code and the record afterwards. */
  function ReadProcessStats(pid: int, inp: ProcInput, pageSize: U64Val, st0: ProcessStats)
    : (r: (int, ProcessStats))
    ensures r.0 == 0 || r.0 == -1
    ensures r.0 == 0 <==> ReadOk(inp)
    ensures !inp.present || inp.stat.None? ==> r.1 == st0
    ensures inp.present && inp.stat.Some? ==> r.1.pid == pid
    ensures r.1.cpuPercent == st0.cpuPercent
  {
    if !inp.present || inp.stat.None? then (-1, st0)
    else
      var v := Scan(ProcFmt, inp.stat.value);
      var st := ProcAssign(v, st0.(pid := pid));
      if |v| < 7 then (-1, st)
      else
        var named := st.(name := Unparen(st.name));
        if inp.sys.Some? then (0, named.(memPercent := MemPercent(named.rss, pageSize, inp.sys.value)))
        else (0, named)
  }

  /** A successful read holds the seven values the scan assigned, the name
      without its parentheses, and the memory share when sysinfo answered
      (otherwise the share the record had). */
  lemma ReadProcessStatsFields(pid: int, inp: ProcInput, pageSize: U64Val, st0: ProcessStats, v: seq<Field>)
    requires ReadOk(inp) && v == Scan(ProcFmt, inp.stat.value)
    ensures |v| >= 7
    ensures var st := ReadProcessStats(pid, inp, pageSize, st0).1;
      st.name == Unparen(TextAt(v, 0)) && st.state == CharAt(v, 1)
      && st.utime == NumAt(v, 2) && st.stime == NumAt(v, 3) && st.numThreads == NumAt(v, 4)
      && st.vsize == NumAt(v, 5) && st.rss == NumAt(v, 6)
      && st.memPercent == (if inp.sys.Some? then MemPercent(NumAt(v, 6), pageSize, inp.sys.value) else st0.memPercent)
  {
  }

  /** A failed scan still overwrites the fields assigned before it stopped:
      a stat text whose scan assigns only the name leaves the new name in the
      record. */
  lemma FailedScanKeepsName(pid: int, inp: ProcInput, pageSize: U64Val, st0: ProcessStats)
    requires inp.present && inp.stat.Some? && |Scan(ProcFmt, inp.stat.value)| == 1
    ensures ReadProcessStats(pid, inp, pageSize, st0).0 == -1
    ensures ReadProcessStats(pid, inp, pageSize, st0).1.name == TextAt(Scan(ProcFmt, inp.stat.value), 0)
    ensures ReadProcessStats(pid, inp, pageSize, st0).1.utime == st0.utime
  {
  }

  // ---------------------------------------------------------------------------
  // calculate_process_cpu_usage

  /** calculate_process_cpu_usage: the CPU seconds the process used between
      the two readings (an unsigned difference of utime + stime sums), as a
      percentage of the elapsed seconds; 0 when no time elapsed or the tick
      rate is not positive. There is no upper clamp. */
  function ProcessCpuUsage(prev: ProcessStats, curr: ProcessStats, elapsed: real, clkTck: int): (r: real)
    ensures elapsed <= 0.0 || clkTck <= 0 ==> r == 0.0
    ensures r >= 0.0
    ensures elapsed > 0.0 && clkTck > 0 ==>
      IsShare(r, Wrap((curr.utime + curr.stime) - (prev.utime + prev.stime)) as real, clkTck as real, elapsed)
  {
    if elapsed <= 0.0 then 0.0
    else
      var total := TotalTime(prev, curr);
      if clkTck <= 0 then 0.0
      else Share(total as real, clkTck as real, elapsed)
  }

  /** total_time: the unsigned difference of the summed user and system
      ticks, which is the exact difference modulo 2^64. */
  function TotalTime(prev: ProcessStats, curr: ProcessStats): (t: U64Val)
    ensures t == Wrap((curr.utime + curr.stime) - (prev.utime + prev.stime))
  {
    WrapSub(curr.utime + curr.stime, prev.utime + prev.stime);
    Wrap(Wrap(curr.utime + curr.stime) - Wrap(prev.utime + prev.stime))
  }

  /** r percent of the elapsed seconds are the ticks at the given rate. */
  predicate IsShare(r: real, ticks: real, rate: real, elapsed: real)
  {
    r * elapsed * rate == 100.0 * ticks
  }

  /** A tick count over the tick rate, as a percentage of the elapsed time. */
  function Share(ticks: real, rate: real, elapsed: real): (r: real)
    requires rate > 0.0 && elapsed > 0.0
    ensures ticks >= 0.0 ==> r >= 0.0
    ensures IsShare(r, ticks, rate, elapsed)
  {
    var used := ticks / rate;
    assert used * rate == ticks;
    var q := used / elapsed;
    assert q * elapsed == used;
    q * 100.0
  }

  /** Subtracting wrapped sums wraps the difference. */
  lemma WrapSub(a: int, b: int)
    ensures Wrap(Wrap(a) - Wrap(b)) == Wrap(a - b)
  {
    var ka, kb := a / U64, b / U64;
    assert a == Wrap(a) + ka * U64;
    assert b == Wrap(b) + kb * U64;
    WrapDiffOf(Wrap(a) - Wrap(b), a - b, ka - kb);
  }

  lemma WrapDiffOf(x: int, y: int, k: int)
    requires y == x + k * U64
    ensures Wrap(x) == Wrap(y)
  {
    var kx, ky := x / U64, y / U64;
    assert x == Wrap(x) + kx * U64;
    assert y == Wrap(y) + ky * U64;
    assert Wrap(y) - Wrap(x) == (kx + k - ky) * U64;
  }

  /** Nothing caps the share at 100: a process that used two seconds of CPU
      in one second (two threads) reports 200. */
  lemma CpuUsageNotClamped(prev: ProcessStats, curr: ProcessStats)
    requires prev.utime == 0 && prev.stime == 0
    requires curr.utime == 200 && curr.stime == 0
    ensures ProcessCpuUsage(prev, curr, 1.0, 100) == 200.0
  {
    var r := ProcessCpuUsage(prev, curr, 1.0, 100);
    assert Wrap(200) == 200;
    assert r * 1.0 * 100.0 == 100.0 * 200.0;
  }

  // ---------------------------------------------------------------------------
  // monitor_process

  /** The rows of the loop after the baseline: each successful reading gets
      its CPU share against the previous row (the baseline first) over the
      time since that row's clock reading; the first failed reading ends the
      rows. carry is the record the reads go into. */
  function MonitorRows(pid: int, pageSize: U64Val, clkTck: int, prev: ProcessStats, prevTime: TimeSpec,
                       carry: ProcessStats, inputs: seq<ProcInput>, times: seq<TimeSpec>): seq<ProcessStats>
    requires |times| == |inputs|
    decreases |inputs|
  {
    if inputs == [] then []
    else
      var r := ReadProcessStats(pid, inputs[0], pageSize, carry);
      if r.0 != 0 then []
      else
        var row := r.1.(cpuPercent := ProcessCpuUsage(prev, r.1, ElapsedTime(prevTime, times[0]), clkTck));
        [row] + MonitorRows(pid, pageSize, clkTck, row, times[0], row, inputs[1..], times[1..])
  }

  /** How many readings from the front succeed. */
  function LeadingOk(inputs: seq<ProcInput>): (k: nat)
    ensures k <= |inputs|
  {
    if inputs == [] || !ReadOk(inputs[0]) then 0 else 1 + LeadingOk(inputs[1..])
  }

  /** The readings before LeadingOk all succeed, and the one at it fails. */
  lemma {:induction false} LeadingOkStops(inputs: seq<ProcInput>, k: nat)
    requires k == LeadingOk(inputs)
    ensures forall j :: 0 <= j < k ==> ReadOk(inputs[j])
    ensures k < |inputs| ==> !ReadOk(inputs[k])
    decreases |inputs|
  {
    if inputs != [] && ReadOk(inputs[0]) {
      var rest := inputs[1..];
      LeadingOkStops(rest, k - 1);
      forall j | 1 <= j < k
        ensures ReadOk(inputs[j])
      {
        assert inputs[j] == rest[j - 1];
      }
      if k < |inputs| {
        assert inputs[k] == rest[k - 1];
      }
    }
  }

  /** The loop stops at the first failed reading: there is one row for each
      reading before it, and each row is the process's own. */
  lemma {:induction false} MonitorRowsStop(pid: int, pageSize: U64Val, clkTck: int, prev: ProcessStats,
                                           prevTime: TimeSpec, carry: ProcessStats,
                                           inputs: seq<ProcInput>, times: seq<TimeSpec>)
    requires |times| == |inputs|
    ensures |MonitorRows(pid, pageSize, clkTck, prev, prevTime, carry, inputs, times)| == LeadingOk(inputs)
    ensures forall j :: 0 <= j < |MonitorRows(pid, pageSize, clkTck, prev, prevTime, carry, inputs, times)| ==>
      MonitorRows(pid, pageSize, clkTck, prev, prevTime, carry, inputs, times)[j].pid == pid
    decreases |inputs|
  {
    if inputs != [] && ReadOk(inputs[0]) {
      var r := ReadProcessStats(pid, inputs[0], pageSize, carry);
      var row := r.1.(cpuPercent := ProcessCpuUsage(prev, r.1, ElapsedTime(prevTime, times[0]), clkTck));
      MonitorRowsStop(pid, pageSize, clkTck, row, times[0], row, inputs[1..], times[1..]);
    }
  }

  /** monitor_process: -1 when the process does not exist, the output does
      not open or the baseline reading fails; otherwise the rows above, over
      at most duration_seconds readings, and 0. */
  method MonitorProcess(pid: int, present: bool, durationSeconds: int, opens: bool,
                        pageSize: U64Val, clkTck: int, initial: ProcInput, t0: TimeSpec,
                        inputs: seq<ProcInput>, times: seq<TimeSpec>)
    returns (code: int, rows: seq<ProcessStats>)
    requires |inputs| >= durationSeconds && |times| >= durationSeconds
    ensures !present || !opens || !ReadOk(initial) ==> code == -1 && rows == []
    ensures present && opens && ReadOk(initial) ==>
      var n := if durationSeconds > 0 then durationSeconds else 0;
      var base := ReadProcessStats(pid, initial, pageSize, UnsetProcessStats).1;
      code == 0 && rows == MonitorRows(pid, pageSize, clkTck, base, t0, UnsetProcessStats, inputs[..n], times[..n])
  {
    rows := [];
    if !present || !opens {
      return -1, rows;
    }
    var r := ReadProcessStats(pid, initial, pageSize, UnsetProcessStats);
    if r.0 != 0 {
      return -1, rows;
    }
    var prev, prevTime := r.1, t0;
    var curr := UnsetProcessStats;
    var n := if durationSeconds > 0 then durationSeconds else 0;
    ghost var ins, ts := inputs[..n], times[..n];
    var i := 0;
    while i < n
      invariant 0 <= i <= n
      invariant MonitorRows(pid, pageSize, clkTck, r.1, t0, UnsetProcessStats, ins, ts)
             == rows + MonitorRows(pid, pageSize, clkTck, prev, prevTime, curr, ins[i..], ts[i..])
    {
      SuffixStep(ins, i);
      SuffixStep(ts, i);
      assert ins[i] == inputs[i] && ts[i] == times[i];
      var c := ReadProcessStats(pid, inputs[i], pageSize, curr);
      if c.0 != 0 {
        break;
      }
      curr := c.1;
      var elapsed := ElapsedTime(prevTime, times[i]);
      curr := curr.(cpuPercent := ProcessCpuUsage(prev, curr, elapsed, clkTck));
      rows := rows + [curr];
      prev, prevTime := curr, times[i];
      i := i + 1;
    }
    code := 0;
  }

  // ---------------------------------------------------------------------------
  // export_process_data_csv / export_process_data_json

  /** The values one exported record holds: sizes in kB, the resident size
      from pages times the page size in unsigned long. */
  datatype ExportRow = ExportRow(
    pid: int, name: string, state: char, cpuPercent: real, memPercent: real,
    vsizeKb: int, rssKb: int, threads: int)

  function ExportRowOf(p: ProcessStats, pageSize: U64Val): (e: ExportRow)
    ensures p.vsize >= 0 ==> e.vsizeKb * 1024 <= p.vsize < (e.vsizeKb + 1) * 1024
    ensures 0 <= e.rssKb < U64 / 1024
  {
    ExportRow(p.pid, p.name, p.state, p.cpuPercent, p.memPercent,
      p.vsize / 1024, Wrap(p.rss * pageSize) / 1024, p.numThreads)
  }

  /** A line of the CSV export. */
  datatype CsvLine = CsvHeader | CsvRecord(row: ExportRow)

  /** export_process_data_csv: -1 when the file does not open; otherwise the
      header and one record per element of data[..count]. */
  method ExportCsv(opens: bool, data: seq<ProcessStats>, count: int, pageSize: U64Val)
    returns (code: int, lines: seq<CsvLine>)
    requires count <= |data|
    ensures !opens ==> code == -1 && lines == []
    ensures opens ==> code == 0 && |lines| == 1 + (if count > 0 then count else 0)
    ensures opens ==>
      lines[0] == CsvHeader && forall k :: 0 <= k < |lines| - 1 ==> lines[k + 1] == CsvRecord(ExportRowOf(data[k], pageSize))
  {
    lines := [];
    if !opens {
      return -1, lines;
    }
    lines := [CsvHeader];
    var i := 0;
    while i < count
      invariant 0 <= i && (count > 0 ==> i <= count) && (count <= 0 ==> i == 0)
      invariant |lines| == 1 + i && lines[0] == CsvHeader
      invariant forall k :: 0 <= k < i ==> lines[k + 1] == CsvRecord(ExportRowOf(data[k], pageSize))
    {
      lines := lines + [CsvRecord(ExportRowOf(data[i], pageSize))];
      i := i + 1;
    }
    code := 0;
  }

  /** One element of the JSON array and what follows its closing brace. */
  datatype JsonElem = JsonElem(row: ExportRow, sep: string)

  /** export_process_data_json: -1 when the file does not open; otherwise one
      element per element of data[..count], each but the last followed by
      a comma. */
  method ExportJson(opens: bool, data: seq<ProcessStats>, count: int, pageSize: U64Val)
    returns (code: int, elems: seq<JsonElem>)
    requires count <= |data|
    ensures !opens ==> code == -1 && elems == []
    ensures opens ==> code == 0 && |elems| == (if count > 0 then count else 0)
    ensures forall k :: 0 <= k < |elems| ==> elems[k].row == ExportRowOf(data[k], pageSize)
    ensures forall k :: 0 <= k < |elems| ==> (elems[k].sep == "," <==> k < |elems| - 1)
    ensures forall k :: 0 <= k < |elems| ==> (elems[k].sep == "" <==> k == |elems| - 1)
  {
    elems := [];
    if !opens {
      return -1, elems;
    }
    var i := 0;
    while i < count
      invariant 0 <= i && (count > 0 ==> i <= count) && (count <= 0 ==> i == 0)
      invariant |elems| == i
      invariant forall k :: 0 <= k < i ==> elems[k].row == ExportRowOf(data[k], pageSize)
      invariant forall k :: 0 <= k < i ==> (elems[k].sep == "," <==> k < count - 1)
      invariant forall k :: 0 <= k < i ==> (elems[k].sep == "" <==> k == count - 1)
    {
      elems := elems + [JsonElem(ExportRowOf(data[i], pageSize), if i < count - 1 then "," else "")];
      i := i + 1;
    }
    code := 0;
  }
}
