/** The /proc/meminfo reader and the memory sampling loop of
    src/memory_monitor.c. The file is an optional text (None when it does not
    open); the loop's successive readings are a sequence of such texts. */
module MemoryMonitor {
  import opened Common
  import opened Scanf
  import opened Utils

  /** MemoryStats: seven kB counters and the usage percentage. */
  datatype MemoryStats = MemoryStats(
    total: int, free: int, available: int, buffers: int, cached: int,
    swapTotal: int, swapFree: int, usagePercent: real)

  /** The record after memset to zero. */
  const ZeroMemoryStats := MemoryStats(0, 0, 0, 0, 0, 0, 0, 0.0)

  /** The keys tried on each line, in the order of the if-else chain. */
  const MemKeys: seq<string> :=
    ["MemTotal:", "MemFree:", "MemAvailable:", "Buffers:", "Cached:", "SwapTotal:", "SwapFree:"]

  /** The counter the k-th key sets. */
  function Get(m: MemoryStats, k: nat): int
    requires k < 7
  {
    match k
    case 0 => m.total
    case 1 => m.free
    case 2 => m.available
    case 3 => m.buffers
    case 4 => m.cached
    case 5 => m.swapTotal
    case _ => m.swapFree
  }

  /** The record with the k-th counter replaced. */
  function Set(m: MemoryStats, k: nat, v: int): (r: MemoryStats)
    requires k < 7
    ensures Get(r, k) == v
    ensures forall j :: 0 <= j < 7 && j != k ==> Get(r, j) == Get(m, j)
    ensures r.usagePercent == m.usagePercent
  {
    match k
    case 0 => m.(total := v)
    case 1 => m.(free := v)
    case 2 => m.(available := v)
    case 3 => m.(buffers := v)
    case 4 => m.(cached := v)
    case 5 => m.(swapTotal := v)
    case _ => m.(swapFree := v)
  }

  /** One line of /proc/meminfo: the first key of the chain that starts the
      line is scanned with "%lu" after it, and sets its counter if a number
      follows; a line starting with no key changes nothing. */
  function MemLine(line: string, m: MemoryStats): MemoryStats
  {
    var k := FirstPrefix(MemKeys, line);
    if k < |MemKeys| then Set(m, k, Assigned(ScanKey(MemKeys[k], false, line), Get(m, k))) else m
  }

  /** The lines applied in file order. */
  function MemFold(lines: seq<string>, m: MemoryStats): MemoryStats
  {
    if lines == [] then m else MemFold(lines[1..], MemLine(lines[0], m))
  }

  /** The usage percentage, set only when the total is positive, from the
      unsigned difference total - available. */
  function WithUsage(m: MemoryStats): (r: MemoryStats)
    ensures forall k :: 0 <= k < 7 ==> Get(r, k) == Get(m, k)
  {
    if m.total > 0 then m.(usagePercent := CalculatePercentage(Wrap(m.total - m.available), m.total))
    else m
  }

  /** What read_memory_stats leaves in the record when the file opens. */
  function MemInfo(content: string): MemoryStats
  {
    WithUsage(MemFold(Lines(content), ZeroMemoryStats))
  }

  /** read_memory_stats: Fail with the record untouched when /proc/meminfo
      does not open; otherwise the record is zeroed, every line is applied,
      and the usage is derived. */
  method ReadMemoryStats(file: Option<string>, m0: MemoryStats) returns (st: Status, m: MemoryStats)
    ensures st == Ok <==> file.Some?
    ensures st == Fail ==> m == m0
    ensures st == Ok ==> m == MemInfo(file.value)
  {
    if file.None? {
      return Fail, m0;
    }
    m := ScanMemLines(Lines(file.value));
    m := SetUsage(m);
    st := Ok;
  }

  /** The usage step of read_memory_stats: the percentage is computed only
      when the total is positive. */
  method SetUsage(m0: MemoryStats) returns (m: MemoryStats)
    ensures m == WithUsage(m0)
  {
    m := m0;
    if m.total > 0 {
      var used := Wrap(m.total - m.available);
      m := m.(usagePercent := CalculatePercentage(used, m.total));
    }
  }

  /** The fgets loop of read_memory_stats over a zeroed record. */
  method ScanMemLines(lines: seq<string>) returns (m: MemoryStats)
    ensures m == MemFold(lines, ZeroMemoryStats)
  {
    m := ZeroMemoryStats;
    var i := 0;
    while i < |lines|
      invariant i <= |lines|
      invariant MemFold(lines, ZeroMemoryStats) == MemFold(lines[i..], m)
    {
      assert lines[i..][1..] == lines[i + 1..];
      m := MemLine(lines[i], m);
      i := i + 1;
    }
    assert lines[i..] == [];
  }

  /** The value the last line scanning key gave, else the prior value. */
  function LastValue(key: string, lines: seq<string>, prior: int): int
  {
    if lines == [] then prior
    else LastValue(key, lines[1..], Assigned(ScanKey(key, false, lines[0]), prior))
  }

  lemma MemKeysPrefixFree()
    ensures PrefixFree(MemKeys)
  {
    forall a, b | 0 <= a < 7 && 0 <= b < 7 && a != b
      ensures !(MemKeys[a] <= MemKeys[b])
    {
      var x, y := MemKeys[a], MemKeys[b];
      var j := if x[0] != y[0] then 0 else if x[0] == 'M' then 3 else 4;
      assert x[j] != y[j];
    }
  }

  /** A line sets the k-th counter exactly when it starts with the k-th key
      and a number follows: no key of the chain is a prefix of another, so
      the chain's order never hides a key. */
  lemma MemLineField(line: string, m: MemoryStats, k: nat)
    requires k < 7
    ensures Get(MemLine(line, m), k) == Assigned(ScanKey(MemKeys[k], false, line), Get(m, k))
  {
    var i := FirstPrefix(MemKeys, line);
    if i < 7 && i != k {
      MemKeysPrefixFree();
      PrefixExcludes(MemKeys, line, i, k);
    }
  }

  /** Every counter holds the value of the last line that scanned its key,
      and the usage is left alone. */
  lemma {:induction false} MemFoldField(lines: seq<string>, m: MemoryStats, k: nat)
    requires k < 7
    ensures Get(MemFold(lines, m), k) == LastValue(MemKeys[k], lines, Get(m, k))
    ensures MemFold(lines, m).usagePercent == m.usagePercent
    decreases |lines|
  {
    if lines != [] {
      MemLineField(lines[0], m, k);
      MemFoldField(lines[1..], MemLine(lines[0], m), k);
    }
  }

  /** A key no line scans keeps its prior value. */
  lemma {:induction false} LastValueUnset(key: string, lines: seq<string>, prior: int)
    requires forall i :: 0 <= i < |lines| ==> ScanKey(key, false, lines[i]).None?
    ensures LastValue(key, lines, prior) == prior
    decreases |lines|
  {
    if lines != [] {
      LastValueUnset(key, lines[1..], prior);
    }
  }

  /** A later line scanning the key overrides every earlier one. */
  lemma {:induction false} LastValueLater(key: string, lines: seq<string>, line: string, prior: int)
    requires ScanKey(key, false, line).Some?
    ensures LastValue(key, lines + [line], prior) == ScanKey(key, false, line).value
    decreases |lines|
  {
    if lines == [] {
      assert [] + [line] == [line];
    } else {
      assert (lines + [line])[1..] == lines[1..] + [line];
      LastValueLater(key, lines[1..], line, Assigned(ScanKey(key, false, lines[0]), prior));
    }
  }

  /** What read_memory_stats reports: each counter is the last value its
      key gave, 0 when no line gives one. */
  lemma MemInfoFields(content: string)
    ensures forall k :: 0 <= k < 7 ==>
      Get(MemInfo(content), k) == LastValue(MemKeys[k], Lines(content), 0)
  {
    forall k | 0 <= k < 7
      ensures Get(MemInfo(content), k) == LastValue(MemKeys[k], Lines(content), 0)
    {
      MemFoldField(Lines(content), ZeroMemoryStats, k);
      assert Get(ZeroMemoryStats, k) == 0;
    }
  }

  /** The usage step: a zero total leaves the zeroed percentage; a positive
      one gives the percentage of total that total - available (in unsigned
      arithmetic) makes, within [0, 100] when available does not exceed
      total. */
  lemma WithUsageValue(m: MemoryStats)
    requires m.usagePercent == 0.0
    ensures var r := WithUsage(m);
      (m.total <= 0 ==> r.usagePercent == 0.0)
      && (m.total > 0 ==> r.usagePercent == CalculatePercentage(Wrap(m.total - m.available), m.total))
      && (0 <= m.available <= m.total < U64 && 0 < m.total ==> 0.0 <= r.usagePercent <= 100.0)
  {
    if 0 <= m.available <= m.total < U64 && 0 < m.total {
      assert Wrap(m.total - m.available) == m.total - m.available;
    }
  }

  /** What read_memory_stats derives: the usage as above, over the counters
      the lines gave. */
  lemma MemInfoUsage(content: string)
    ensures var r := MemInfo(content);
      (r.total <= 0 ==> r.usagePercent == 0.0)
      && (r.total > 0 ==> r.usagePercent == CalculatePercentage(Wrap(r.total - r.available), r.total))
      && (0 <= r.available <= r.total < U64 && 0 < r.total ==> 0.0 <= r.usagePercent <= 100.0)
  {
    var f := MemFold(Lines(content), ZeroMemoryStats);
    MemFoldField(Lines(content), ZeroMemoryStats, 0);
    WithUsageValue(f);
    assert Get(MemInfo(content), 0) == Get(f, 0) && Get(MemInfo(content), 2) == Get(f, 2);
  }

  // ---------------------------------------------------------------------------
  // monitor_memory

  /** One CSV row: the reading and the used kB, total - available in
      unsigned arithmetic. The timestamp is not modelled. */
  datatype MemRow = MemRow(stats: MemoryStats, used: int)

  function RowOf(m: MemoryStats): MemRow
  {
    MemRow(m, Wrap(m.total - m.available))
  }

  /** The rows for a run of readings: one per reading that opened. */
  function MemRows(files: seq<Option<string>>): seq<MemRow>
  {
    if files == [] then []
    else
      var last := files[|files| - 1];
      MemRows(files[..|files| - 1]) + (if last.Some? then [RowOf(MemInfo(last.value))] else [])
  }

  /** monitor_memory: -1 when the output does not open; otherwise one
      reading per second for duration_seconds iterations, a failed reading
      skipped, and 0. */
  method MonitorMemory(durationSeconds: int, opens: bool, files: seq<Option<string>>)
    returns (code: int, rows: seq<MemRow>)
    requires |files| >= durationSeconds
    ensures !opens ==> code == -1 && rows == []
    ensures opens ==> code == 0 && rows == MemRows(files[..if durationSeconds > 0 then durationSeconds else 0])
  {
    rows := [];
    if !opens {
      return -1, rows;
    }
    var i := 0;
    while i < durationSeconds
      invariant 0 <= i <= |files|
      invariant durationSeconds > 0 ==> i <= durationSeconds
      invariant durationSeconds <= 0 ==> i == 0
      invariant rows == MemRows(files[..i])
    {
      assert files[..i + 1][..i] == files[..i];
      var st, stats := ReadMemoryStats(files[i], ZeroMemoryStats);
      if st == Fail {
        i := i + 1;
        continue;
      }
      rows := rows + [RowOf(stats)];
      i := i + 1;
    }
    code := 0;
  }

  /** The rows are exactly the readings that opened, in order. */
  lemma {:induction false} MemRowsAreSuccesses(files: seq<Option<string>>)
    ensures |MemRows(files)| == |Successes(files)|
    ensures forall j :: 0 <= j < |MemRows(files)| ==>
      MemRows(files)[j] == RowOf(MemInfo(Successes(files)[j]))
    decreases |files|
  {
    if files != [] {
      var init, last := files[..|files| - 1], files[|files| - 1];
      assert files == init + [last];
      SuccessesAppend(init, [last]);
      MemRowsAreSuccesses(init);
    }
  }
}
