/** The /proc/net/dev reader and the traffic sampling loop of
    src/network_monitor.c. The file is an optional text (None when it does not
    open); the loop's successive readings are a sequence of such texts. */
module NetworkMonitor {
  import opened Common
  import opened Scanf

  /** NetworkStats: the interface name and the eight counters kept. */
  datatype NetworkStats = NetworkStats(
    iface: string, rxBytes: int, rxPackets: int, rxErrors: int, rxDropped: int,
    txBytes: int, txPackets: int, txErrors: int, txDropped: int)

  /** What an uninitialised record holds in the model; no result depends on it. */
  const UnsetNetworkStats := NetworkStats("", 0, 0, 0, 0, 0, 0, 0, 0)

  /** "%[^:]: %llu ... %llu", sixteen numbers after the name. */
  const NetDevFmt: seq<Directive> := [Until(':', true), Lit(":")] + Nums(16)

  /** The name with its leading blanks and tabs stepped over. */
  function SkipBlanks(s: string): (r: string)
    ensures |r| <= |s| && r == s[|s| - |r|..]
    ensures forall i :: 0 <= i < |s| - |r| ==> s[i] == ' ' || s[i] == '\t'
    ensures r == [] || (r[0] != ' ' && r[0] != '\t')
  {
    if s != [] && (s[0] == ' ' || s[0] == '\t') then SkipBlanks(s[1..]) else s
  }

  /** One row of /proc/net/dev: its counters when at least sixteen values
      were assigned and the name, blanks stepped over, is the interface; the
      name is kept in 31 characters. The receive counters are values 1-4 and
      the transmit counters values 9-12 of the scan. */
  function DevLine(line: string, iface: string): Option<NetworkStats>
  {
    var v := Scan(NetDevFmt, line);
    if |v| >= 16 && SkipBlanks(TextAt(v, 0)) == iface then
      Some(NetworkStats(Truncate(SkipBlanks(TextAt(v, 0)), 31),
        NumAt(v, 1), NumAt(v, 2), NumAt(v, 3), NumAt(v, 4),
        NumAt(v, 9), NumAt(v, 10), NumAt(v, 11), NumAt(v, 12)))
    else None
  }

  /** What each row gives for the interface. */
  function Candidates(rows: seq<string>, iface: string): (r: seq<Option<NetworkStats>>)
    ensures |r| == |rows|
  {
    seq(|rows|, k requires 0 <= k < |rows| => DevLine(rows[k], iface))
  }

  /** The first row that matches the interface. */
  function NetLookup(rows: seq<string>, iface: string): Option<NetworkStats>
  {
    FirstSome(Candidates(rows, iface))
  }

  /** The lines left after the two header reads. */
  function Body(ls: seq<string>): seq<string>
  {
    if |ls| <= 2 then [] else ls[2..]
  }

  /** What read_network_stats finds: None when the file does not open or no
      row matches. */
  function ReadNetDev(file: Option<string>, iface: string): Option<NetworkStats>
  {
    match file
    case None => None
    case Some(content) => NetLookup(Body(Lines(content)), iface)
  }

  /** read_network_stats: 0 and the matching row's counters, or -1 with the
      record untouched. */
  method ReadNetworkStats(file: Option<string>, iface: string, st0: NetworkStats)
    returns (code: int, st: NetworkStats)
    ensures code == 0 || code == -1
    ensures code == 0 <==> ReadNetDev(file, iface).Some?
    ensures code == 0 ==> st == ReadNetDev(file, iface).value
    ensures code == -1 ==> st == st0
  {
    st := st0;
    if file.None? {
      return -1, st;
    }
    var rows := Body(Lines(file.value));
    ghost var cs := Candidates(rows, iface);
    var found := false;
    var i := 0;
    while i < |rows|
      invariant 0 <= i <= |rows|
      invariant FirstSome(cs) == FirstSome(cs[i..])
      invariant !found && st == st0
    {
      var r := DevLine(rows[i], iface);
      assert cs[i..][0] == r && cs[i..][1..] == cs[i + 1..];
      if r.Some? {
        st := r.value;
        found := true;
        break;
      }
      i := i + 1;
    }
    assert !found ==> cs[i..] == [];
    code := if found then 0 else -1;
  }

  /** The first matching row wins: a row that matches, after rows that do
      not, is the one found. */
  lemma NetLookupFirst(rows: seq<string>, iface: string, i: nat)
    requires i < |rows| && DevLine(rows[i], iface).Some?
    requires forall j :: 0 <= j < i ==> DevLine(rows[j], iface).None?
    ensures NetLookup(rows, iface) == DevLine(rows[i], iface)
  {
    var cs := Candidates(rows, iface);
    assert forall j :: 0 <= j < i ==> cs[j] == DevLine(rows[j], iface);
    FirstSomeAt(cs, i);
  }

  /** The lookup fails exactly when no row matches, and what it finds is
      some row's reading. */
  lemma NetLookupNone(rows: seq<string>, iface: string)
    ensures NetLookup(rows, iface).None? <==> forall j :: 0 <= j < |rows| ==> DevLine(rows[j], iface).None?
    ensures NetLookup(rows, iface).Some? ==>
      exists j :: 0 <= j < |rows| && NetLookup(rows, iface) == DevLine(rows[j], iface)
  {
    var cs := Candidates(rows, iface);
    FirstSomeNone(cs);
    assert forall j :: 0 <= j < |rows| ==> cs[j] == DevLine(rows[j], iface);
  }

  /** The two header lines are never matched, whatever they hold. */
  lemma HeadersSkipped(h1: string, h2: string, rows: seq<string>, iface: string)
    requires '\n' !in h1 && '\n' !in h2
    requires forall i :: 0 <= i < |rows| ==> '\n' !in rows[i]
    ensures ReadNetDev(Some(Unlines([h1, h2] + rows)), iface) == NetLookup(rows, iface)
  {
    var ls := [h1, h2] + rows;
    HeadersHaveNoNewline(h1, h2, rows, ls);
    LinesOfUnlines(ls);
    BodyAfterHeaders(h1, h2, rows, ls, Lines(Unlines(ls)));
    assert NetLookup(Body(Lines(Unlines(ls))), iface) == NetLookup(rows, iface);
  }

  lemma HeadersHaveNoNewline(h1: string, h2: string, rows: seq<string>, ls: seq<string>)
    requires '\n' !in h1 && '\n' !in h2
    requires forall i :: 0 <= i < |rows| ==> '\n' !in rows[i]
    requires ls == [h1, h2] + rows
    ensures forall i :: 0 <= i < |ls| ==> '\n' !in ls[i]
  {
    forall i | 0 <= i < |ls|
      ensures '\n' !in ls[i]
    {
      if i >= 2 {
        assert ls[i] == rows[i - 2];
      }
    }
  }

  lemma BodyAfterHeaders(h1: string, h2: string, rows: seq<string>, ls: seq<string>, read: seq<string>)
    requires ls == [h1, h2] + rows && read == ls
    ensures Body(read) == rows
  {
    assert ls[2..] == rows;
  }

  /** Stepping over a pad of blanks in front of a name that starts with
      neither blank nor tab gives the name. */
  lemma {:induction false} SkipBlanksPad(pad: string, name: string)
    requires forall i :: 0 <= i < |pad| ==> pad[i] == ' ' || pad[i] == '\t'
    requires name == [] || (name[0] != ' ' && name[0] != '\t')
    ensures SkipBlanks(pad + name) == name
    decreases |pad|
  {
    if pad == [] {
      assert pad + name == name;
    } else {
      assert (pad + name)[1..] == pad[1..] + name;
      SkipBlanksPad(pad[1..], name);
    }
  }

  /** The scan of a row the kernel writes: the head up to the colon, then
      the sixteen counters. */
  lemma NetDevScan(head: string, ns: seq<U64Val>, rest: string)
    requires head != [] && ':' !in head
    requires |ns| == 16
    requires rest == [] || !IsDigit(rest[0])
    ensures Scan(NetDevFmt, head + ":" + Spaced(ns) + rest) == [Text(head)] + Ints(ns)
  {
    var after := Spaced(ns) + rest;
    var s := head + ":" + Spaced(ns) + rest;
    assert s == head + (":" + after);
    IndexOfAfter(head, ":" + after, ':');
    assert s[|head|..] == ":" + after;
    TwoParts(Until(':', true), Lit(":"), Nums(16));
    ScanStep(Until(':', true), [Lit(":")] + Nums(16), s, Step([Text(head)], ":" + after));
    assert (":" + after)[1..] == after;
    ScanStep(Lit(":"), Nums(16), ":" + after, Step([], after));
    assert Nums(16) == Nums(|ns|) + [];
    ScanSpaced(ns, [], rest);
    var counters := Scan(Nums(16), after);
    assert counters == Ints(ns) + [];
    EmptyMiddle([Text(head)], counters);
  }

  lemma EmptyMiddle<T>(a: seq<T>, b: seq<T>)
    ensures a + ([] + b) == a + b
  {
  }

  /** A row as the kernel lays it out, the name right-aligned with blanks
      and followed by sixteen counters, is found for its own name, with the
      receive counters 1-4 and the transmit counters 9-12, and for no other
      interface. */
  lemma DevLineOfRow(pad: string, name: string, ns: seq<U64Val>, rest: string, iface: string)
    requires forall i :: 0 <= i < |pad| ==> pad[i] == ' '
    requires name != [] && ':' !in name && name[0] != ' ' && name[0] != '\t'
    requires |ns| == 16
    requires rest == [] || !IsDigit(rest[0])
    ensures iface == name ==>
      DevLine(pad + name + ":" + Spaced(ns) + rest, iface) == Some(NetworkStats(Truncate(name, 31), ns[0], ns[1], ns[2], ns[3], ns[8], ns[9], ns[10], ns[11]))
    ensures iface != name ==> DevLine(pad + name + ":" + Spaced(ns) + rest, iface).None?
  {
    var head := pad + name;
    assert ':' !in head by {
      forall i | 0 <= i < |head|
        ensures head[i] != ':'
      {
        if i >= |pad| {
          assert head[i] == name[i - |pad|];
        }
      }
    }
    NetDevScan(head, ns, rest);
    SkipBlanksPad(pad, name);
    var v := [Text(head)] + Ints(ns);
    assert TextAt(v, 0) == head;
    assert forall k :: 1 <= k <= 16 ==> NumAt(v, k) == ns[k - 1];
  }

  // ---------------------------------------------------------------------------
  // monitor_network

  /** One CSV row: the reading and the kB received and sent since the
      previous one, from unsigned differences. The timestamp is not modelled. */
  datatype NetSample = NetSample(stats: NetworkStats, rxRateKb: real, txRateKb: real)

  function RateRow(prev: NetworkStats, curr: NetworkStats): NetSample
  {
    NetSample(curr,
      Wrap(curr.rxBytes - prev.rxBytes) as real / 1024.0,
      Wrap(curr.txBytes - prev.txBytes) as real / 1024.0)
  }

  /** The readings of a run, one per file. */
  function NetReadings(files: seq<Option<string>>, iface: string): (r: seq<Option<NetworkStats>>)
    ensures |r| == |files|
  {
    seq(|files|, k requires 0 <= k < |files| => ReadNetDev(files[k], iface))
  }

  /** monitor_network: -1 when the output or the initial reading fails;
      otherwise one row per later reading that succeeds, comparing it with
      the last reading that succeeded, and 0. */
  method MonitorNetwork(iface: string, durationSeconds: int, opens: bool,
                        initial: Option<string>, files: seq<Option<string>>)
    returns (code: int, rows: seq<NetSample>)
    requires |files| >= durationSeconds
    ensures !opens || ReadNetDev(initial, iface).None? ==> code == -1 && rows == []
    ensures opens && ReadNetDev(initial, iface).Some? ==>
      code == 0 && rows == DeltaRows(ReadNetDev(initial, iface).value,
                        NetReadings(files[..if durationSeconds > 0 then durationSeconds else 0], iface), RateRow)
  {
    rows := [];
    if !opens {
      return -1, rows;
    }
    var c, prev := ReadNetworkStats(initial, iface, UnsetNetworkStats);
    if c != 0 {
      return -1, rows;
    }
    var n := if durationSeconds > 0 then durationSeconds else 0;
    ghost var rs := NetReadings(files[..n], iface);
    assert forall k :: 0 <= k < |rs| ==> rs[k] == ReadNetDev(files[k], iface);
    ghost var first := ReadNetDev(initial, iface).value;
    RowsFromStart(first, rs, RateRow);
    var curr := UnsetNetworkStats;
    var i: nat := 0;
    while i < n
      invariant i <= n && RowsFrom(first, rs, RateRow, i, prev, rows)
    {
      var ci;
      ci, curr := ReadNetworkStats(files[i], iface, curr);
      var next: nat := i + 1;
      prev, rows := NextRow(ci, curr, prev, rows, first, rs, i, next);
      i := next;
    }
    RowsFromEnd(first, rs, RateRow, i, prev, rows);
    code := 0;
  }

  /** One pass of monitor_network's loop after its read: a successful
      reading adds a row and becomes the previous one. */
  method NextRow(code: int, curr: NetworkStats, prev0: NetworkStats, rows0: seq<NetSample>,
                 ghost first: NetworkStats, ghost readings: seq<Option<NetworkStats>>, ghost i: nat, ghost next: nat)
    returns (prev: NetworkStats, rows: seq<NetSample>)
    requires i < |readings| && next == i + 1 && (code == 0 <==> readings[i].Some?)
    requires code == 0 ==> curr == readings[i].value
    requires RowsFrom(first, readings, RateRow, i, prev0, rows0)
    ensures RowsFrom(first, readings, RateRow, next, prev, rows)
  {
    RowsStep(first, readings, RateRow, i, next, prev0, rows0, readings[i]);
    prev, rows := prev0, rows0;
    if code == 0 {
      rows := rows + [RateRow(prev, curr)];
      prev := curr;
    }
  }

  /** The counters only grow, and stay below 2^64, along the successful
      readings. */
  predicate Advancing(prev: NetworkStats, readings: seq<Option<NetworkStats>>)
    decreases |readings|
  {
    readings == [] ||
    (if readings[0].None? then Advancing(prev, readings[1..])
     else
       var c := readings[0].value;
       prev.rxBytes <= c.rxBytes < U64 && prev.txBytes <= c.txBytes < U64
       && Advancing(c, readings[1..]))
  }

  function TotalRx(rows: seq<NetSample>): real
  {
    if rows == [] then 0.0 else rows[0].rxRateKb + TotalRx(rows[1..])
  }

  function TotalTx(rows: seq<NetSample>): real
  {
    if rows == [] then 0.0 else rows[0].txRateKb + TotalTx(rows[1..])
  }

  /** Over counters that only grow, the rates add up to the traffic between
      the initial reading and the last successful one. */
  lemma {:induction false} RatesTelescope(prev: NetworkStats, readings: seq<Option<NetworkStats>>)
    requires 0 <= prev.rxBytes && 0 <= prev.txBytes
    requires Advancing(prev, readings)
    ensures TotalRx(DeltaRows(prev, readings, RateRow)) * 1024.0
         == (LastReading(prev, readings).rxBytes - prev.rxBytes) as real
    ensures TotalTx(DeltaRows(prev, readings, RateRow)) * 1024.0
         == (LastReading(prev, readings).txBytes - prev.txBytes) as real
    decreases |readings|
  {
    if readings != [] {
      if readings[0].None? {
        RatesTelescope(prev, readings[1..]);
      } else {
        var c := readings[0].value;
        RatesTelescope(c, readings[1..]);
        var rest := DeltaRows(c, readings[1..], RateRow);
        var d := DeltaRows(prev, readings, RateRow);
        assert d == [RateRow(prev, c)] + rest;
        assert d[1..] == rest;
        assert Wrap(c.rxBytes - prev.rxBytes) == c.rxBytes - prev.rxBytes;
        assert Wrap(c.txBytes - prev.txBytes) == c.txBytes - prev.txBytes;
      }
    }
  }
}
