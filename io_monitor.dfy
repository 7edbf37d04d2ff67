/** The /proc/diskstats reader and the disk sampling loop of
    src/io_monitor.c. The file is an optional text (None when it does not
    open); the loop's successive readings are a sequence of such texts. */
module IoMonitor {
  import opened Common
  import opened Scanf

  /** IOStats: the device name and the eleven counters of a diskstats row. */
  datatype IOStats = IOStats(
    device: string,
    readsCompleted: int, readsMerged: int, sectorsRead: int, timeReading: int,
    writesCompleted: int, writesMerged: int, sectorsWritten: int, timeWriting: int,
    iosInProgress: int, timeIo: int, weightedTimeIo: int)

  /** What an uninitialised record holds in the model; no result depends on it. */
  const UnsetIOStats := IOStats("", 0, 0, 0, 0, 0, 0, 0, 0, 0, 0, 0)

  /** "%u %u %s %llu ... %llu", eleven counters after the device name. */
  const DiskFmt: seq<Directive> :=
    [Num(false, true), Ws, Num(false, true), Ws, Word(true)] + Nums(11)

  /** The j-th counter of the record, in the order of the row. */
  function Counter(st: IOStats, j: nat): int
    requires j < 11
  {
    match j
    case 0 => st.readsCompleted
    case 1 => st.readsMerged
    case 2 => st.sectorsRead
    case 3 => st.timeReading
    case 4 => st.writesCompleted
    case 5 => st.writesMerged
    case 6 => st.sectorsWritten
    case 7 => st.timeWriting
    case 8 => st.iosInProgress
    case 9 => st.timeIo
    case _ => st.weightedTimeIo
  }

  /** What the scan leaves in the j-th counter: value 3 + j when it was
      assigned, else what the counter held. */
  function Stored(v: seq<Field>, j: nat, prior: int): int
  {
    if 3 + j < |v| then NumAt(v, 3 + j) else prior
  }

  /** The sscanf of a row writes the counters straight into the record, as
      many as it assigned, whether or not the row is the one looked for. */
  function DiskAssign(v: seq<Field>, st: IOStats): (r: IOStats)
    ensures r.device == st.device
    ensures forall j :: 0 <= j < 11 ==> Counter(r, j) == Stored(v, j, Counter(st, j))
  {
    st.(readsCompleted := Stored(v, 0, st.readsCompleted),
        readsMerged := Stored(v, 1, st.readsMerged),
        sectorsRead := Stored(v, 2, st.sectorsRead),
        timeReading := Stored(v, 3, st.timeReading),
        writesCompleted := Stored(v, 4, st.writesCompleted),
        writesMerged := Stored(v, 5, st.writesMerged),
        sectorsWritten := Stored(v, 6, st.sectorsWritten),
        timeWriting := Stored(v, 7, st.timeWriting),
        iosInProgress := Stored(v, 8, st.iosInProgress),
        timeIo := Stored(v, 9, st.timeIo),
        weightedTimeIo := Stored(v, 10, st.weightedTimeIo))
  }

  /** A row matches when all fourteen values were assigned and the name is
      the device. */
  predicate Matches(v: seq<Field>, device: string)
  {
    |v| >= 14 && TextAt(v, 2) == device
  }

  /** The record a matching row gives, the name kept in 31 characters. */
  function RowStats(v: seq<Field>): IOStats
    requires |v| >= 14
  {
    IOStats(Truncate(TextAt(v, 2), 31),
      NumAt(v, 3), NumAt(v, 4), NumAt(v, 5), NumAt(v, 6), NumAt(v, 7), NumAt(v, 8),
      NumAt(v, 9), NumAt(v, 10), NumAt(v, 11), NumAt(v, 12), NumAt(v, 13))
  }

  /** Where the row scan stops: whether a row matched, and the record. */
  datatype DiskScan = DiskScan(found: bool, stats: IOStats)

  /** The rows' scans applied in file order until one matches. */
  function DiskFold(vs: seq<seq<Field>>, device: string, st: IOStats): DiskScan
  {
    if vs == [] then DiskScan(false, st)
    else
      var st' := DiskAssign(vs[0], st);
      if Matches(vs[0], device) then DiskScan(true, st'.(device := Truncate(TextAt(vs[0], 2), 31)))
      else DiskFold(vs[1..], device, st')
  }

  /** The scan of every line. */
  function Scans(lines: seq<string>): (r: seq<seq<Field>>)
    ensures |r| == |lines|
  {
    seq(|lines|, k requires 0 <= k < |lines| => Scan(DiskFmt, lines[k]))
  }

  /** read_io_stats: -1 with the record untouched when the file does not
      open; otherwise the rows are scanned into the record until one matches,
      and the result is 0 exactly when one did. */
  method ReadIoStats(file: Option<string>, device: string, st0: IOStats)
    returns (code: int, st: IOStats)
    ensures file.None? ==> code == -1 && st == st0
    ensures file.Some? ==>
      var r := DiskFold(Scans(Lines(file.value)), device, st0);
      (code == 0 <==> r.found) && (code == 0 || code == -1) && st == r.stats
  {
    st := st0;
    if file.None? {
      return -1, st;
    }
    var lines := Lines(file.value);
    ghost var vs := Scans(lines);
    var found := false;
    var i := 0;
    while i < |lines|
      invariant 0 <= i <= |lines|
      invariant DiskFold(vs, device, st0) == DiskFold(vs[i..], device, st)
      invariant !found
    {
      var v := Scan(DiskFmt, lines[i]);
      assert vs[i..][0] == v && vs[i..][1..] == vs[i + 1..];
      st := DiskAssign(v, st);
      if Matches(v, device) {
        st := st.(device := Truncate(TextAt(v, 2), 31));
        found := true;
        break;
      }
      i := i + 1;
    }
    assert !found ==> vs[i..] == [];
    code := if found then 0 else -1;
  }

  /** The first matching row gives the whole record: all eleven counters and
      the name come from it, whatever the record held and whatever earlier
      rows wrote. */
  lemma {:induction false} DiskFoldFound(vs: seq<seq<Field>>, device: string, st: IOStats, i: nat)
    requires i < |vs| && Matches(vs[i], device)
    requires forall j :: 0 <= j < i ==> !Matches(vs[j], device)
    ensures DiskFold(vs, device, st) == DiskScan(true, RowStats(vs[i]))
    decreases i
  {
    if i > 0 {
      DiskFoldFound(vs[1..], device, DiskAssign(vs[0], st), i - 1);
    }
  }

  /** Without a matching row the lookup fails, and the record keeps what the
      rows' scans wrote into it: every counter holds the value of the last
      row that assigned it, else its old value. */
  lemma {:induction false} DiskFoldMissed(vs: seq<seq<Field>>, device: string, st: IOStats, j: nat)
    requires j < 11
    requires forall k :: 0 <= k < |vs| ==> !Matches(vs[k], device)
    ensures !DiskFold(vs, device, st).found
    ensures DiskFold(vs, device, st).stats.device == st.device
    ensures Counter(DiskFold(vs, device, st).stats, j) == LastStored(vs, j, Counter(st, j))
    decreases |vs|
  {
    if vs != [] {
      DiskFoldMissed(vs[1..], device, DiskAssign(vs[0], st), j);
    }
  }

  /** The value the last row that assigned counter j gave, else prior. */
  function LastStored(vs: seq<seq<Field>>, j: nat, prior: int): int
  {
    if vs == [] then prior else LastStored(vs[1..], j, Stored(vs[0], j, prior))
  }

  /** A failed lookup does change the record: one full row for another
      device leaves its counters behind. */
  lemma MissLeavesCounters(v: seq<Field>, device: string, st: IOStats)
    requires |v| >= 14 && TextAt(v, 2) != device
    ensures !DiskFold([v], device, st).found
    ensures forall j :: 0 <= j < 11 ==> Counter(DiskFold([v], device, st).stats, j) == NumAt(v, 3 + j)
  {
    assert [v][1..] == [];
  }

  /** The reading a lookup gives, which does not depend on the record passed
      in. */
  function DiskRead(file: Option<string>, device: string): Option<IOStats>
  {
    match file
    case None => None
    case Some(content) =>
      var r := DiskFold(Scans(Lines(content)), device, UnsetIOStats);
      if r.found then Some(r.stats) else None
  }

  /** Whether a row matches, and the record it then gives, are the same
      whatever the record held before. */
  lemma {:induction false} DiskFoldIndependent(vs: seq<seq<Field>>, device: string, st1: IOStats, st2: IOStats)
    ensures DiskFold(vs, device, st1).found == DiskFold(vs, device, st2).found
    ensures DiskFold(vs, device, st1).found ==> DiskFold(vs, device, st1) == DiskFold(vs, device, st2)
    decreases |vs|
  {
    if vs != [] && !Matches(vs[0], device) {
      DiskFoldIndependent(vs[1..], device, DiskAssign(vs[0], st1), DiskAssign(vs[0], st2));
    }
  }

  // ---------------------------------------------------------------------------
  // The rows the kernel writes

  /** The first five directives over "<major> <minor> <name>": the two
      numbers and the name. */
  lemma DiskScanHead(major: U64Val, minor: U64Val, name: string, after: string)
    requires name != [] && forall i :: 0 <= i < |name| ==> !IsSpace(name[i])
    requires after != [] && after[0] == ' '
    ensures Scan(DiskFmt, " " + NatToString(major) + " " + NatToString(minor) + " " + name + after)
         == [Int(major), Int(minor), Text(name)] + Scan(Nums(11), after)
  {
    var ma, mi := NatToString(major), NatToString(minor);
    var s4 := name + after;
    var s3 := " " + s4;
    var s2 := mi + s3;
    var s1 := " " + s2;
    HeadParts(ma, mi, name, after);
    ApplyNumSpaced(major, s1);
    ApplyWsBeforeDigits(mi, s3);
    ApplyNumToDigits(minor, s3);
    ApplyWsBeforeWord(s4);
    ApplyWordName(name, after, true);
    ScanFive(Num(false, true), Ws, Num(false, true), Ws, Word(true), Nums(11),
      " " + ma + s1, s1, s2, s3, s4, after, [Int(major)], [], [Int(minor)], [], [Text(name)]);
    ThreeValues(Int(major), Int(minor), Text(name));
  }

  lemma ThreeValues<T>(a: T, b: T, c: T)
    ensures [a] + [] + [b] + [] + [c] == [a, b, c]
  {
  }

  lemma HeadParts(ma: string, mi: string, name: string, after: string)
    ensures " " + ma + " " + mi + " " + name + after == " " + ma + (" " + (mi + (" " + (name + after))))
    ensures " " + mi + (" " + (name + after)) == " " + (mi + (" " + (name + after)))
    ensures DiskFmt == [Num(false, true), Ws, Num(false, true), Ws, Word(true)] + Nums(11)
  {
  }

  /** A row as the kernel lays it out, " major minor name" and eleven
      counters, reads back as those values. */
  lemma DiskScanOfRow(major: U64Val, minor: U64Val, name: string, ns: seq<U64Val>, rest: string)
    requires name != [] && forall i :: 0 <= i < |name| ==> !IsSpace(name[i])
    requires |ns| == 11
    requires rest == [] || !IsDigit(rest[0])
    ensures Scan(DiskFmt, " " + NatToString(major) + " " + NatToString(minor) + " " + name + Spaced(ns) + rest)
         == [Int(major), Int(minor), Text(name)] + Ints(ns)
  {
    var after := Spaced(ns) + rest;
    assert after[0] == ' ' by { SpacedCons(ns, rest); }
    assert " " + NatToString(major) + " " + NatToString(minor) + " " + name + Spaced(ns) + rest
        == " " + NatToString(major) + " " + NatToString(minor) + " " + name + after;
    DiskScanHead(major, minor, name, after);
    assert Nums(11) == Nums(|ns|) + [];
    ScanSpaced(ns, [], rest);
    assert Ints(ns) + Scan([], rest) == Ints(ns);
  }

  /** Such a row matches its own device, with its counters, and no other. */
  lemma RowMatches(major: U64Val, minor: U64Val, name: string, ns: seq<U64Val>, rest: string, device: string)
    requires name != [] && forall i :: 0 <= i < |name| ==> !IsSpace(name[i])
    requires |ns| == 11
    requires rest == [] || !IsDigit(rest[0])
    ensures |Scan(DiskFmt, " " + NatToString(major) + " " + NatToString(minor) + " " + name + Spaced(ns) + rest)| == 14
    ensures Matches(Scan(DiskFmt, " " + NatToString(major) + " " + NatToString(minor) + " " + name + Spaced(ns) + rest), device)
        <==> device == name
    ensures RowStats(Scan(DiskFmt, " " + NatToString(major) + " " + NatToString(minor) + " " + name + Spaced(ns) + rest)) == IOStats(Truncate(name, 31), ns[0], ns[1], ns[2], ns[3], ns[4], ns[5],
                                ns[6], ns[7], ns[8], ns[9], ns[10])
  {
    DiskScanOfRow(major, minor, name, ns, rest);
    RowValues(major, minor, name, ns, device, [Int(major), Int(minor), Text(name)] + Ints(ns));
  }

  /** The values of a row scan give its name and its eleven counters. */
  lemma RowValues(major: U64Val, minor: U64Val, name: string, ns: seq<U64Val>, device: string, v: seq<Field>)
    requires |ns| == 11 && v == [Int(major), Int(minor), Text(name)] + Ints(ns)
    ensures |v| == 14
    ensures Matches(v, device) <==> device == name
    ensures RowStats(v) == IOStats(Truncate(name, 31), ns[0], ns[1], ns[2], ns[3], ns[4], ns[5],
                                   ns[6], ns[7], ns[8], ns[9], ns[10])
  {
    assert TextAt(v, 2) == name;
    assert forall k :: 3 <= k < 14 ==> NumAt(v, k) == ns[k - 3];
  }

  // ---------------------------------------------------------------------------
  // monitor_io

  /** One CSV row: the reading and the kB read and written since the previous
      one: the unsigned sector difference times 512 (itself unsigned), over
      1024. The timestamp is not modelled. */
  datatype IoSample = IoSample(stats: IOStats, readKb: real, writeKb: real)

  function IoRateRow(prev: IOStats, curr: IOStats): IoSample
  {
    IoSample(curr,
      Wrap(Wrap(curr.sectorsRead - prev.sectorsRead) * 512) as real / 1024.0,
      Wrap(Wrap(curr.sectorsWritten - prev.sectorsWritten) * 512) as real / 1024.0)
  }

  /** A sector is half a kB: when the counters advanced by fewer than 2^55
      sectors, the rates are half the sector deltas. */
  lemma IoRateHalfSectors(prev: IOStats, curr: IOStats)
    requires 0 <= prev.sectorsRead <= curr.sectorsRead < U64
    requires 0 <= prev.sectorsWritten <= curr.sectorsWritten < U64
    requires (curr.sectorsRead - prev.sectorsRead) * 512 < U64
    requires (curr.sectorsWritten - prev.sectorsWritten) * 512 < U64
    ensures IoRateRow(prev, curr).readKb * 2.0 == (curr.sectorsRead - prev.sectorsRead) as real
    ensures IoRateRow(prev, curr).writeKb * 2.0 == (curr.sectorsWritten - prev.sectorsWritten) as real
  {
    var dr, dw := curr.sectorsRead - prev.sectorsRead, curr.sectorsWritten - prev.sectorsWritten;
    assert Wrap(dr) == dr && Wrap(dw) == dw;
    assert Wrap(dr * 512) == dr * 512 && Wrap(dw * 512) == dw * 512;
  }

  /** The readings of a run, one per file. */
  function IoReadings(files: seq<Option<string>>, device: string): (r: seq<Option<IOStats>>)
    ensures |r| == |files|
  {
    seq(|files|, k requires 0 <= k < |files| => DiskRead(files[k], device))
  }

  /** One read_io_stats call into the record the loop keeps, as a reading. */
  method ReadInto(file: Option<string>, device: string, st0: IOStats) returns (code: int, st: IOStats)
    ensures code == 0 <==> DiskRead(file, device).Some?
    ensures code == 0 ==> st == DiskRead(file, device).value
  {
    code, st := ReadIoStats(file, device, st0);
    if file.Some? {
      DiskFoldIndependent(Scans(Lines(file.value)), device, st0, UnsetIOStats);
    }
  }

  /** monitor_io: -1 when the output or the initial reading fails; otherwise
      one row per later reading that succeeds, comparing it with the last
      reading that succeeded, and 0. */
  method MonitorIo(device: string, durationSeconds: int, opens: bool,
                   initial: Option<string>, files: seq<Option<string>>)
    returns (code: int, rows: seq<IoSample>)
    requires |files| >= durationSeconds
    ensures !opens || DiskRead(initial, device).None? ==> code == -1 && rows == []
    ensures opens && DiskRead(initial, device).Some? ==>
      code == 0 && rows == DeltaRows(DiskRead(initial, device).value,
                        IoReadings(files[..if durationSeconds > 0 then durationSeconds else 0], device), IoRateRow)
  {
    rows := [];
    if !opens {
      return -1, rows;
    }
    var c, prev := ReadInto(initial, device, UnsetIOStats);
    if c != 0 {
      return -1, rows;
    }
    var n := if durationSeconds > 0 then durationSeconds else 0;
    ghost var rs := IoReadings(files[..n], device);
    ghost var first := DiskRead(initial, device).value;
    RowsFromStart(first, rs, IoRateRow);
    var curr := UnsetIOStats;
    var i: nat := 0;
    while i < n
      invariant i <= n && RowsFrom(first, rs, IoRateRow, i, prev, rows)
    {
      var ci;
      ci, curr := ReadInto(files[i], device, curr);
      var next: nat := i + 1;
      prev, rows := NextRow(ci, curr, prev, rows, first, rs, i, next);
      i := next;
    }
    RowsFromEnd(first, rs, IoRateRow, i, prev, rows);
    code := 0;
  }

  /** One pass of monitor_io's loop after its read: a successful reading
      adds a row and becomes the previous one. */
  method NextRow(code: int, curr: IOStats, prev0: IOStats, rows0: seq<IoSample>,
                 ghost first: IOStats, ghost readings: seq<Option<IOStats>>, ghost i: nat, ghost next: nat)
    returns (prev: IOStats, rows: seq<IoSample>)
    requires i < |readings| && next == i + 1 && (code == 0 <==> readings[i].Some?)
    requires code == 0 ==> curr == readings[i].value
    requires RowsFrom(first, readings, IoRateRow, i, prev0, rows0)
    ensures RowsFrom(first, readings, IoRateRow, next, prev, rows)
  {
    RowsStep(first, readings, IoRateRow, i, next, prev0, rows0, readings[i]);
    prev, rows := prev0, rows0;
    if code == 0 {
      rows := rows + [IoRateRow(prev, curr)];
      prev := curr;
    }
  }
}
