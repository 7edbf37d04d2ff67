/** The per-process resource profiler: it samples the system CPU line of
    /proc/stat, a process's /proc/<pid>/stat, status and io files and its
    socket tables, and emits one CSV or JSON record per sample with the CPU
    share and I/O rates since the previous sample. Kernel files are given as
    their text (None when fopen fails). */
module ResourceProfiler {
  import opened Common
  import opened Scanf

  // ---------------------------------------------------------------------------
  // Records

  /** The cumulative CPU times of the first line of /proc/stat (unsigned long). */
  datatype CpuStat = CpuStat(user: int, nice: int, system: int, idle: int, iowait: int)

  /** The per-process counters the profiler keeps (proc_stat_t). */
  datatype ProcStat = ProcStat(
    utime: int, stime: int, vsize: int, rss: int, minflt: int, majflt: int,
    threads: int, vmSwapKb: int, ctxVoluntary: int, ctxNonvoluntary: int)

  const ZeroProcStat := ProcStat(0, 0, 0, 0, 0, 0, 0, 0, 0, 0)
  const ZeroCpuStat := CpuStat(0, 0, 0, 0, 0)

  // ---------------------------------------------------------------------------
  // read_cpu_stat

  /** "cpu %lu %lu %lu %lu %lu" */
  const CpuFmt: seq<Directive> := [Lit("cpu")] + Nums(5)

  /** read_cpu_stat: the five tick counters of the first line of /proc/stat,
      read into a 256-byte buffer; None unless all five were assigned. */
  function ReadCpuStat(file: Option<string>): Option<CpuStat>
  {
    match file
    case None => None
    case Some(content) =>
      match FirstLine(content, 256)
      case None => None
      case Some(buf) =>
        var v := Scan(CpuFmt, buf);
        if |v| >= 5 then Some(CpuStat(NumAt(v, 0), NumAt(v, 1), NumAt(v, 2), NumAt(v, 3), NumAt(v, 4)))
        else None
  }

  /** The aggregate line the kernel writes, "cpu u n s i w ...", reads back
      as the five counters it holds. */
  lemma ReadCpuStatOfLine(ns: seq<U64Val>, rest: string, others: string)
    requires |ns| == 5
    requires rest == [] || !IsDigit(rest[0])
    requires '\n' !in "cpu" + Spaced(ns) + rest && |"cpu" + Spaced(ns) + rest| < 256
    ensures ReadCpuStat(Some("cpu" + Spaced(ns) + rest + "\n" + others))
         == Some(CpuStat(ns[0], ns[1], ns[2], ns[3], ns[4]))
  {
    var line := "cpu" + Spaced(ns) + rest;
    FirstLineOf(line, others, 256);
    ScanCpuLine(ns, rest);
  }

  lemma ScanCpuLine(ns: seq<U64Val>, rest: string)
    requires |ns| == 5
    requires rest == [] || !IsDigit(rest[0])
    ensures Scan(CpuFmt, "cpu" + Spaced(ns) + rest) == Ints(ns)
  {
    var line := "cpu" + Spaced(ns) + rest;
    CpuLineSplit(ns, rest);
    ScanStep(Lit("cpu"), Nums(5), line, Step([], Spaced(ns) + rest));
    ScanSpaced(ns, [], rest);
    NoTail(Nums(5));
    NoTail(Ints(ns));
  }

  lemma CpuLineSplit(ns: seq<U64Val>, rest: string)
    ensures Apply(Lit("cpu"), "cpu" + Spaced(ns) + rest) == Some(Step([], Spaced(ns) + rest))
    ensures CpuFmt == [Lit("cpu")] + Nums(5)
  {
    assert ("cpu" + Spaced(ns) + rest)[3..] == Spaced(ns) + rest;
  }

  lemma NoTail<T>(a: seq<T>)
    ensures a + [] == a
  {
  }

  /** A first line that does not start with "cpu" is refused. */
  lemma ReadCpuStatNeedsCpuLine(content: string)
    requires FirstLine(content, 256).Some? && !("cpu" <= FirstLine(content, 256).value)
    ensures ReadCpuStat(Some(content)).None?
  {
    var buf := FirstLine(content, 256).value;
    assert CpuFmt[0] == Lit("cpu");
  }

  // ---------------------------------------------------------------------------
  // read_proc_stat: the numeric tokenizer

  /** The numbers the tokenizer of read_proc_stat collects from t, at most
      cap of them: a position where strtoul converts nothing is skipped one
      character at a time, otherwise the number is kept and scanning resumes
      at the end pointer. */
  function NumericFields(t: string, cap: nat): (fs: seq<U64Val>)
    ensures |fs| <= cap
    decreases |t|
  {
    if t == [] || cap == 0 then []
    else
      var c := Strtoul(t);
      if c.consumed == 0 then NumericFields(t[1..], cap)
      else [c.value as U64Val] + NumericFields(t[c.consumed..], cap - 1)
  }

  /** The tokenizer loop: rest is the text from the cursor on; fs holds the
      fields stored so far, at most 64 (the fields[64] buffer). */
  method CollectFields(p: string) returns (fs: seq<U64Val>)
    ensures fs == NumericFields(p, 64)
  {
    var fi := 0;
    var rest := p;
    ghost var room: nat := 64;
    fs := [];
    while |rest| > 0 && fi < 64
      invariant fi <= 64 && |fs| == fi && room == 64 - fi
      invariant NumericFields(p, 64) == fs + NumericFields(rest, room)
      decreases |rest|
    {
      var c := Strtoul(rest);
      CollectStep(p, fs, rest, room, c);
      if c.consumed == 0 {
        rest := rest[1..];
      } else {
        var v: U64Val := c.value;
        fs := fs + [v];
        rest := rest[c.consumed..];
        room := room - 1;
        fi := fi + 1;
      }
    }
  }

  /** The loop invariant of CollectFields carries over one step. */
  lemma CollectStep(p: string, got: seq<U64Val>, rest: string, room: nat, c: Conv)
    requires NumericFields(p, 64) == got + NumericFields(rest, room)
    requires rest != [] && room > 0 && c == Strtoul(rest)
    ensures c.consumed <= |rest| && c.value < U64
    ensures c.consumed == 0 ==> NumericFields(p, 64) == got + NumericFields(rest[1..], room)
    ensures c.consumed != 0 ==>
      NumericFields(p, 64) == (got + [c.value as U64Val]) + NumericFields(rest[c.consumed..], room - 1)
  {
    NumericFieldsAt(rest, room, c);
    if c.consumed != 0 {
      Snoc(got, NumericFields(rest[c.consumed..], room - 1), c.value);
    }
  }

  /** One step of the tokenizer, where strtoul returns c. */
  lemma NumericFieldsAt(t: string, cap: nat, c: Conv)
    requires t != [] && cap > 0 && c == Strtoul(t)
    ensures c.consumed <= |t|
    ensures c.consumed == 0 ==> NumericFields(t, cap) == NumericFields(t[1..], cap)
    ensures c.consumed != 0 ==>
      NumericFields(t, cap) == [c.value as U64Val] + NumericFields(t[c.consumed..], cap - 1)
  {
  }

  lemma Snoc(a: seq<U64Val>, b: seq<U64Val>, x: U64Val)
    ensures a + ([x] + b) == (a + [x]) + b
  {
  }

  /** Numbers written as " n1 n2 ..." are collected back, in order. */
  lemma {:induction false} NumericFieldsOfSpaced(ns: seq<U64Val>, cap: nat)
    requires |ns| <= cap
    ensures NumericFields(Spaced(ns), cap) == ns
    decreases |ns|
  {
    if |ns| > 0 {
      var tail := ns[1..];
      var room: nat := cap - 1;
      NumericFieldsOfSpaced(tail, room);
      var k := 1 + |NatToString(ns[0])|;
      SpacedHead(ns, tail, k);
      StrtoulOfSpaced(ns, tail, k);
      NumericFieldsCons(Spaced(ns), ns[0], k, cap, room);
      NumericFieldsOfEqual(Spaced(ns)[k..], Spaced(tail), room);
      ConsChain(NumericFields(Spaced(ns), cap), ns[0], NumericFields(Spaced(ns)[k..], room),
                NumericFields(Spaced(tail), room), tail, ns);
    }
  }

  /** A number strtoul reads at the front, then the fields of the rest. */
  lemma NumericFieldsCons(s: string, n: U64Val, k: nat, cap: nat, room: nat)
    requires cap == room + 1 && 0 < k <= |s|
    requires Strtoul(s) == Conv(n, k)
    ensures NumericFields(s, cap) == [n] + NumericFields(s[k..], room)
  {
    assert s != [] && cap != 0;
  }

  /** Equal texts have equal fields. */
  lemma NumericFieldsOfEqual(a: string, b: string, cap: nat)
    requires a == b
    ensures NumericFields(a, cap) == NumericFields(b, cap)
  {
  }

  lemma ConsChain<T>(a: seq<T>, x: T, b: seq<T>, c: seq<T>, tail: seq<T>, ns: seq<T>)
    requires a == [x] + b
    requires b == c
    requires c == tail
    requires ns != [] && ns[0] == x && ns[1..] == tail
    ensures a == ns
  {
    assert [x] + tail == ns;
  }

  /** The text after the first number of " n1 n2 ..." is " n2 ...". */
  lemma SpacedHead(ns: seq<U64Val>, tail: seq<U64Val>, k: nat)
    requires ns != [] && tail == ns[1..] && k == 1 + |NatToString(ns[0])|
    ensures k <= |Spaced(ns)| && Spaced(ns)[k..] == Spaced(tail)
  {
    assert Spaced(ns) == " " + NatToString(ns[0]) + Spaced(tail);
  }

  /** strtoul on " n1 n2 ..." reads n1 and stops right after it. */
  lemma StrtoulOfSpaced(ns: seq<U64Val>, tail: seq<U64Val>, k: nat)
    requires ns != [] && tail == ns[1..] && k == 1 + |NatToString(ns[0])|
    ensures Strtoul(Spaced(ns)) == Conv(ns[0], k)
  {
    SpacedStartsWithBlank(tail);
    StrtoulOfSpacedNat(ns[0], Spaced(tail));
    assert Spaced(ns) == " " + NatToString(ns[0]) + Spaced(tail);
  }

  /** A character strtoul cannot start on (the state letter) is stepped over. */
  lemma NumericFieldsSkipsLetter(c: char, t: string, cap: nat)
    requires !IsSpace(c) && !IsDigit(c) && c != '+' && c != '-'
    ensures NumericFields([c] + t, cap) == NumericFields(t, cap)
  {
    StrtoulAtNonNumeric([c] + t);
    assert ([c] + t)[1..] == t;
  }

  // ---------------------------------------------------------------------------
  // read_proc_stat: the six counters

  /** Where the positional fallback takes each counter from, as indexes into
      the collected fields. */
  datatype Positions = Positions(minflt: nat, majflt: nat, utime: nat, stime: nat, vsize: nat, rss: nat)
  {
    predicate Valid() { minflt < 24 && majflt < 24 && utime < 24 && stime < 24 && vsize < 24 && rss < 24 }
  }

  /** The indexes read_proc_stat uses: fields[7], [9], [12], [13], [22], [23]. */
  const AsWritten := Positions(7, 9, 12, 13, 22, 23)

  /** The indexes of minflt, majflt, utime, stime, vsize and rss: the fields
      start at proc(5) field 4 (ppid), so field n is at index n - 4. */
  const Intended := Positions(10 - 4, 12 - 4, 14 - 4, 15 - 4, 23 - 4, 24 - 4)

  /** "%*d %*d %*d %*d %*u %*u %*u %lu %*u %lu %*u %lu %lu %*d %*d %*d %*d %*d %*u %lu %ld" */
  const StatFmt: seq<Directive> := [
    Num(true, false), Ws, Num(true, false), Ws, Num(true, false), Ws, Num(true, false), Ws,
    Num(false, false), Ws, Num(false, false), Ws, Num(false, false), Ws, Num(false, true), Ws,
    Num(false, false), Ws, Num(false, true), Ws, Num(false, false), Ws, Num(false, true), Ws,
    Num(false, true), Ws, Num(true, false), Ws, Num(true, false), Ws, Num(true, false), Ws,
    Num(true, false), Ws, Num(true, false), Ws, Num(false, false), Ws, Num(false, true), Ws,
    Num(true, true)]

  /** The text after "<pid> (<comm>) ": the first line (4096-byte buffer),
      from two characters past its first ')'; None when the file does not
      open, is empty, or the line has no ')'. A ')' at the very end leaves
      nothing to parse. */
  function StatBody(statFile: Option<string>): Option<string>
  {
    match statFile
    case None => None
    case Some(content) =>
      match FirstLine(content, 4096)
      case None => None
      case Some(buf) =>
        var k := IndexOf(buf, ')');
        if k == |buf| then None
        else Some(buf[if k + 2 <= |buf| then k + 2 else |buf|..])
  }

  /** The six counters: from the sscanf format when it assigns all six, else
      from the collected fields at the given positions. */
  function WithCounters(r: ProcStat, p: string, fs: seq<U64Val>, pos: Positions): ProcStat
    requires |fs| >= 24 && pos.Valid()
  {
    var v := Scan(StatFmt, p);
    if |v| < 6 then
      r.(minflt := fs[pos.minflt], majflt := fs[pos.majflt], utime := fs[pos.utime],
         stime := fs[pos.stime], vsize := fs[pos.vsize], rss := ToLong(fs[pos.rss]))
    else
      r.(minflt := NumAt(v, 0), majflt := NumAt(v, 1), utime := NumAt(v, 2),
         stime := NumAt(v, 3), vsize := NumAt(v, 4), rss := NumAt(v, 5))
  }

  /** When the text after ") " starts with the state letter, the format's
      first "%*d" fails there, nothing is assigned, and the positional
      fallback decides all six counters. */
  lemma LetterStateUsesFallback(r: ProcStat, p: string, fs: seq<U64Val>, pos: Positions)
    requires |fs| >= 24 && pos.Valid()
    requires p != [] && !IsSpace(p[0]) && !IsDigit(p[0]) && p[0] != '+' && p[0] != '-'
    ensures WithCounters(r, p, fs, pos)
         == r.(minflt := fs[pos.minflt], majflt := fs[pos.majflt], utime := fs[pos.utime],
               stime := fs[pos.stime], vsize := fs[pos.vsize], rss := ToLong(fs[pos.rss]))
  {
    StrtolAtNonNumeric(p);
    assert StatFmt[0] == Num(true, false);
  }

  // ---------------------------------------------------------------------------
  // read_proc_stat: the status keys

  /** One line of /proc/<pid>/status: the sscanf calls "Threads: %d",
      "voluntary_ctxt_switches: %lu", "nonvoluntary_ctxt_switches: %lu" and
      "VmSwap: %lu" are tried in this order and the first that assigns its
      number sets its field; other lines change nothing. */
  function StatusLine(line: string, r: ProcStat): ProcStat
  {
    var t := ScanKey("Threads:", true, line);
    if t.Some? then r.(threads := t.value)
    else
      var v := ScanKey("voluntary_ctxt_switches:", false, line);
      if v.Some? then r.(ctxVoluntary := v.value)
      else
        var n := ScanKey("nonvoluntary_ctxt_switches:", false, line);
        if n.Some? then r.(ctxNonvoluntary := n.value)
        else
          var w := ScanKey("VmSwap:", false, line);
          if w.Some? then r.(vmSwapKb := w.value) else r
  }

  /** The status lines applied in file order. */
  function StatusFold(lines: seq<string>, r: ProcStat): ProcStat
  {
    if lines == [] then r else StatusFold(lines[1..], StatusLine(lines[0], r))
  }

  /** The lines of the status file; none when it does not open. */
  function StatusLines(statusFile: Option<string>): seq<string>
  {
    match statusFile
    case None => []
    case Some(content) => Lines(content)
  }

  /** The fgets loop over /proc/<pid>/status. */
  method ApplyStatusLines(lines: seq<string>, r0: ProcStat) returns (r: ProcStat)
    ensures r == StatusFold(lines, r0)
  {
    r := r0;
    var i := 0;
    while i < |lines|
      invariant i <= |lines|
      invariant StatusFold(lines, r0) == StatusFold(lines[i..], r)
    {
      assert lines[i..][1..] == lines[i + 1..];
      r := StatusLine(lines[i], r);
      i := i + 1;
    }
  }

  /** The status file only ever sets threads, the context switches and the
      swap size: the six counters from the stat file are kept. */
  lemma {:induction false} StatusFoldKeepsCounters(lines: seq<string>, r: ProcStat)
    ensures SameCounters(StatusFold(lines, r), r)
    decreases |lines|
  {
    if lines != [] {
      var s := StatusLine(lines[0], r);
      assert SameCounters(s, r);
      StatusFoldKeepsCounters(lines[1..], s);
    }
  }

  /** The six counters read from the stat file agree. */
  predicate SameCounters(s: ProcStat, r: ProcStat)
  {
    s.utime == r.utime && s.stime == r.stime && s.vsize == r.vsize && s.rss == r.rss
    && s.minflt == r.minflt && s.majflt == r.majflt
  }

  /** A line "VmSwap:<blanks>n kB" sets the swap size to n and nothing else. */
  lemma StatusLineVmSwap(pad: string, n: nat, r: ProcStat)
    requires n < U64
    requires forall i :: 0 <= i < |pad| ==> IsSpace(pad[i])
    ensures StatusLine("VmSwap:" + pad + NatToString(n) + " kB", r) == r.(vmSwapKb := n)
  {
    var line := "VmSwap:" + pad + NatToString(n) + " kB";
    assert line[0] == 'V';
    assert ScanKey("Threads:", true, line) == None by { assert !("Threads:" <= line); }
    assert ScanKey("voluntary_ctxt_switches:", false, line) == None by {
      assert !("voluntary_ctxt_switches:" <= line);
    }
    assert ScanKey("nonvoluntary_ctxt_switches:", false, line) == None by {
      assert !("nonvoluntary_ctxt_switches:" <= line);
    }
    ScanKeyLine("VmSwap:", pad, n, " kB");
  }

  // ---------------------------------------------------------------------------
  // read_proc_stat

  /** What read_proc_stat leaves in the record, None when it fails. */
  function ProcStatRead(statFile: Option<string>, statusFile: Option<string>, prev: ProcStat, pos: Positions): Option<ProcStat>
    requires pos.Valid()
  {
    match StatBody(statFile)
    case None => None
    case Some(p) =>
      var fs := NumericFields(p, 64);
      if |fs| < 24 then None
      else Some(StatusFold(StatusLines(statusFile), WithCounters(prev, p, fs, pos)))
  }

  /** read_proc_stat, with the positional fallback at the given positions.
      It fails, leaving the record as it was, when the stat file cannot be
      read, its line has no ')', or fewer than 24 numbers follow; otherwise
      it sets the six counters and then applies the status file, whose keys
      keep their previous values when absent. */
  method ReadProcStat(statFile: Option<string>, statusFile: Option<string>, prev: ProcStat, pos: Positions)
    returns (st: Status, r: ProcStat)
    requires pos.Valid()
    ensures st == Ok <==> ProcStatRead(statFile, statusFile, prev, pos).Some?
    ensures st == Fail ==> r == prev
    ensures st == Ok ==> r == ProcStatRead(statFile, statusFile, prev, pos).value
  {
    var body := StatBody(statFile);
    if body.None? {
      return Fail, prev;
    }
    var p := body.value;
    var fs := CollectFields(p);
    if |fs| < 24 {
      return Fail, prev;
    }
    r := WithCounters(prev, p, fs, pos);
    r := ApplyStatusLines(StatusLines(statusFile), r);
    st := Ok;
  }

  /** The stat line the kernel writes: "<pid> (<comm>) <state> <fields...>",
      the fields being proc(5) fields 4 onwards. */
  function StatLine(pid: nat, comm: string, state: char, fs: seq<U64Val>): string
  {
    NatToString(pid) + " (" + comm + ") " + [state] + Spaced(fs)
  }

  /** The text after ") " of such a line is the state and the fields. */
  lemma StatBodyOfLine(pid: nat, comm: string, state: char, fs: seq<U64Val>, others: string)
    requires ')' !in comm
    requires '\n' !in StatLine(pid, comm, state, fs) && |StatLine(pid, comm, state, fs)| < 4096
    ensures StatBody(Some(StatLine(pid, comm, state, fs) + "\n" + others)) == Some([state] + Spaced(fs))
  {
    var pre := NatToString(pid) + " (" + comm;
    var body := [state] + Spaced(fs);
    assert StatLine(pid, comm, state, fs) == pre + (") " + body);
    StatBodyAfterParen(pre, body, others);
  }

  /** The first line "pre) body" with no ')' in pre gives body back. */
  lemma StatBodyAfterParen(pre: string, body: string, others: string)
    requires ')' !in pre
    requires '\n' !in pre + (") " + body) && |pre + (") " + body)| < 4096
    ensures StatBody(Some(pre + (") " + body) + "\n" + others)) == Some(body)
  {
    var line := pre + (") " + body);
    FirstLineOf(line, others, 4096);
    IndexOfAfter(pre, ") " + body, ')');
    assert line[|pre| + 2..] == body;
  }

  /** The fields after the state letter, as the tokenizer collects them. */
  lemma FieldsOfBody(state: char, fs: seq<U64Val>)
    requires !IsSpace(state) && !IsDigit(state) && state != '+' && state != '-'
    requires |fs| <= 64
    ensures NumericFields([state] + Spaced(fs), 64) == fs
  {
    NumericFieldsSkipsLetter(state, Spaced(fs), 64);
    NoTail(Spaced(fs));
    NumericFieldsOfSpaced(fs, 64);
  }

  /** A kernel stat line is read up to its fields: the text after ") " is
      the state and the fields, and the tokenizer collects exactly the fields. */
  lemma ReadStatLine(pid: nat, comm: string, state: char, fs: seq<U64Val>, others: string)
    requires ')' !in comm
    requires '\n' !in StatLine(pid, comm, state, fs) && |StatLine(pid, comm, state, fs)| < 4096
    requires !IsSpace(state) && !IsDigit(state) && state != '+' && state != '-'
    requires |fs| <= 64
    ensures StatBody(Some(StatLine(pid, comm, state, fs) + "\n" + others)) == Some([state] + Spaced(fs))
    ensures NumericFields([state] + Spaced(fs), 64) == fs
  {
    StatBodyOfLine(pid, comm, state, fs, others);
    FieldsOfBody(state, fs);
  }

  /** proc(5) field n (1-based: pid, comm and state are fields 1 to 3) among
      the fields that follow the state. */
  function ProcField(fs: seq<U64Val>, n: nat): U64Val
    requires 4 <= n < |fs| + 4
  {
    fs[n - 4]
  }

  /** With the intended positions, the fields after a state letter give
      minflt (proc(5) field 10), majflt (12), utime (14), stime (15), vsize
      (23) and rss (24). */
  lemma IntendedReadsNamedFields(state: char, fs: seq<U64Val>, prev: ProcStat)
    requires !IsSpace(state) && !IsDigit(state) && state != '+' && state != '-'
    requires 24 <= |fs|
    ensures var r := WithCounters(prev, [state] + Spaced(fs), fs, Intended);
      r.minflt == ProcField(fs, 10) && r.majflt == ProcField(fs, 12)
      && r.utime == ProcField(fs, 14) && r.stime == ProcField(fs, 15)
      && r.vsize == ProcField(fs, 23) && r.rss == ToLong(ProcField(fs, 24))
  {
    LetterStateUsesFallback(prev, [state] + Spaced(fs), fs, Intended);
  }

  /** As written, the positions are off: the profiler reports cminflt (11),
      cmajflt (13), cutime (16), cstime (17), startcode (26) and endcode (27),
      so whenever a process's own user time differs from its waited-for
      children's, the utime it reports is not its own. */
  lemma AsWrittenReadsOtherFields(state: char, fs: seq<U64Val>, prev: ProcStat)
    requires !IsSpace(state) && !IsDigit(state) && state != '+' && state != '-'
    requires 24 <= |fs|
    ensures var r := WithCounters(prev, [state] + Spaced(fs), fs, AsWritten);
      r.minflt == ProcField(fs, 11) && r.majflt == ProcField(fs, 13)
      && r.utime == ProcField(fs, 16) && r.stime == ProcField(fs, 17)
      && r.vsize == ProcField(fs, 26) && r.rss == ToLong(ProcField(fs, 27))
      && (ProcField(fs, 14) != ProcField(fs, 16) ==> r.utime != ProcField(fs, 14))
  {
    LetterStateUsesFallback(prev, [state] + Spaced(fs), fs, AsWritten);
  }

  // ---------------------------------------------------------------------------
  // read_proc_io_fn

  /** The cumulative byte counters of /proc/<pid>/io (unsigned long long). */
  datatype IoCounters = IoCounters(rchar: int, wchar: int, readBytes: int, writeBytes: int)

  const ZeroIo := IoCounters(0, 0, 0, 0)

  /** One line of the io file: "rchar: %llu", "wchar: %llu", "read_bytes: %llu"
      and "write_bytes: %llu" are all tried, each setting its own counter
      when it assigns. */
  function IoLine(line: string, c: IoCounters): IoCounters
  {
    IoCounters(
      Assigned(ScanKey("rchar:", false, line), c.rchar),
      Assigned(ScanKey("wchar:", false, line), c.wchar),
      Assigned(ScanKey("read_bytes:", false, line), c.readBytes),
      Assigned(ScanKey("write_bytes:", false, line), c.writeBytes))
  }

  /** The io lines applied in file order. */
  function IoFold(lines: seq<string>, c: IoCounters): IoCounters
  {
    if lines == [] then c else IoFold(lines[1..], IoLine(lines[0], c))
  }

  /** read_proc_io_fn: Fail with the counters untouched when the file does not
      open; otherwise every line is scanned. */
  method ReadProcIo(ioFile: Option<string>, c0: IoCounters) returns (st: Status, c: IoCounters)
    ensures st == Ok <==> ioFile.Some?
    ensures st == Fail ==> c == c0
    ensures st == Ok ==> c == IoFold(Lines(ioFile.value), c0)
  {
    if ioFile.None? {
      return Fail, c0;
    }
    var lines := Lines(ioFile.value);
    c := c0;
    var i := 0;
    while i < |lines|
      invariant i <= |lines|
      invariant IoFold(lines, c0) == IoFold(lines[i..], c)
    {
      assert lines[i..][1..] == lines[i + 1..];
      c := IoLine(lines[i], c);
      i := i + 1;
    }
    st := Ok;
  }

  /** The counters rp_run passes in start at 0, and stay so when the file
      does not open. */
  function IoOf(ioFile: Option<string>): IoCounters
  {
    match ioFile
    case None => ZeroIo
    case Some(content) => IoFold(Lines(content), ZeroIo)
  }

  /** Reading a file in two parts is reading the parts one after the other. */
  lemma {:induction false} IoFoldAppend(a: seq<string>, b: seq<string>, c: IoCounters)
    ensures IoFold(a + b, c) == IoFold(b, IoFold(a, c))
    decreases |a|
  {
    if a != [] {
      assert (a + b)[1..] == a[1..] + b;
      IoFoldAppend(a[1..], b, IoLine(a[0], c));
    } else {
      assert a + b == b;
    }
  }

  /** A line "<key> n" as the kernel writes it. */
  function KeyLine(key: string, n: nat): string
  {
    key + " " + NatToString(n)
  }

  lemma KeyValue(key: string, n: U64Val)
    ensures ScanKey(key, false, KeyLine(key, n)) == Some(n)
    ensures |key| < |KeyLine(key, n)| && KeyLine(key, n)[..|key|] == key
  {
    ScanKeyLine(key, " ", n, "");
    assert KeyLine(key, n) + "" == KeyLine(key, n);
  }

  /** A line that starts with none of the four keys changes nothing. */
  lemma IoLineOther(line: string, c: IoCounters)
    requires |line| >= 2 && line[0] != 'r' && line[0] != 'w'
    ensures IoLine(line, c) == c
  {
  }

  /** The first two characters tell the four keys apart, so a line can only
      ever set the counter its key names: the other three scans fail on it. */
  lemma IoLineSetsOwnCounter(line: string, c: IoCounters)
    requires |line| >= 2
    ensures line[0] == 'r' && line[1] == 'c' ==>
      IoLine(line, c) == c.(rchar := Assigned(ScanKey("rchar:", false, line), c.rchar))
    ensures line[0] == 'w' && line[1] == 'c' ==>
      IoLine(line, c) == c.(wchar := Assigned(ScanKey("wchar:", false, line), c.wchar))
    ensures line[0] == 'r' && line[1] == 'e' ==>
      IoLine(line, c) == c.(readBytes := Assigned(ScanKey("read_bytes:", false, line), c.readBytes))
    ensures line[0] == 'w' && line[1] == 'r' ==>
      IoLine(line, c) == c.(writeBytes := Assigned(ScanKey("write_bytes:", false, line), c.writeBytes))
  {
    if line[0] == 'r' && line[1] == 'c' {
      RcharLine(line, c);
    } else if line[0] == 'w' && line[1] == 'c' {
      WcharLine(line, c);
    } else if line[0] == 'r' && line[1] == 'e' {
      ReadBytesLine(line, c);
    } else if line[0] == 'w' && line[1] == 'r' {
      WriteBytesLine(line, c);
    }
  }

  lemma RcharLine(line: string, c: IoCounters)
    requires |line| >= 2 && line[0] == 'r' && line[1] == 'c'
    ensures IoLine(line, c) == c.(rchar := Assigned(ScanKey("rchar:", false, line), c.rchar))
  {
    ScanKeyMismatch("wchar:", false, line, 0);
    ScanKeyMismatch("write_bytes:", false, line, 0);
    ScanKeyMismatch("read_bytes:", false, line, 1);
  }

  lemma WcharLine(line: string, c: IoCounters)
    requires |line| >= 2 && line[0] == 'w' && line[1] == 'c'
    ensures IoLine(line, c) == c.(wchar := Assigned(ScanKey("wchar:", false, line), c.wchar))
  {
    ScanKeyMismatch("rchar:", false, line, 0);
    ScanKeyMismatch("read_bytes:", false, line, 0);
    ScanKeyMismatch("write_bytes:", false, line, 1);
  }

  lemma ReadBytesLine(line: string, c: IoCounters)
    requires |line| >= 2 && line[0] == 'r' && line[1] == 'e'
    ensures IoLine(line, c) == c.(readBytes := Assigned(ScanKey("read_bytes:", false, line), c.readBytes))
  {
    ScanKeyMismatch("wchar:", false, line, 0);
    ScanKeyMismatch("write_bytes:", false, line, 0);
    ScanKeyMismatch("rchar:", false, line, 1);
  }

  lemma WriteBytesLine(line: string, c: IoCounters)
    requires |line| >= 2 && line[0] == 'w' && line[1] == 'r'
    ensures IoLine(line, c) == c.(writeBytes := Assigned(ScanKey("write_bytes:", false, line), c.writeBytes))
  {
    ScanKeyMismatch("rchar:", false, line, 0);
    ScanKeyMismatch("read_bytes:", false, line, 0);
    ScanKeyMismatch("wchar:", false, line, 1);
  }

  // ---------------------------------------------------------------------------
  // count_net_conns_fn

  /** The sockets listed in a /proc/<pid>/net table: its lines less the
      header, 0 when the file does not open or is empty. */
  function NetConns(file: Option<string>): (n: nat)
  {
    match file
    case None => 0
    case Some(content) => var k := |Lines(content)|; if k > 0 then k - 1 else 0
  }

  /** count_net_conns_fn: counts the fgets calls that return a line. */
  method CountNetConns(file: Option<string>) returns (n: int)
    ensures n == NetConns(file)
  {
    if file.None? {
      return 0;
    }
    var rest := file.value;
    var lines := 0;
    while rest != []
      invariant lines + |Lines(rest)| == |Lines(file.value)|
      decreases |rest|
    {
      var k := IndexOf(rest, '\n');
      rest := if k == |rest| then [] else rest[k + 1..];
      lines := lines + 1;
    }
    n := if lines > 0 then lines - 1 else 0;
  }

  /** A table written as a header line and one line per socket counts its
      sockets. */
  lemma NetConnsOfTable(header: string, rows: seq<string>)
    requires '\n' !in header
    requires forall i :: 0 <= i < |rows| ==> '\n' !in rows[i]
    ensures NetConns(Some(Unlines([header] + rows))) == |rows|
  {
    var ls := [header] + rows;
    assert forall i :: 0 <= i < |ls| ==> '\n' !in ls[i] by {
      forall i | 0 <= i < |ls| ensures '\n' !in ls[i] {
        if i > 0 { assert ls[i] == rows[i - 1]; }
      }
    }
    LinesOfUnlines(ls);
  }

  // ---------------------------------------------------------------------------
  // calc_cpu_percent

  /** The process's CPU ticks, user plus system. */
  function ProcTicks(p: ProcStat): int { p.utime + p.stime }

  /** All CPU ticks of the aggregate line: user, nice, system, idle and iowait. */
  function CpuTotal(c: CpuStat): int { c.user + c.nice + c.system + c.idle + c.iowait }

  /** calc_cpu_percent: the process's share of the CPU ticks that elapsed
      between two samples, in percent and capped at 100; 0 when a sample is
      missing or no tick elapsed. Both deltas are unsigned long differences. */
  function CalcCpuPercent(prev: Option<ProcStat>, curr: Option<ProcStat>,
                          prevCpu: Option<CpuStat>, currCpu: Option<CpuStat>): (r: real)
    ensures 0.0 <= r <= 100.0
    ensures prev.None? || curr.None? || prevCpu.None? || currCpu.None? ==> r == 0.0
    ensures prev.Some? && curr.Some? && prevCpu.Some? && currCpu.Some? ==>
      var dp := Wrap(ProcTicks(curr.value) - ProcTicks(prev.value));
      var dc := Wrap(CpuTotal(currCpu.value) - CpuTotal(prevCpu.value));
      (dc == 0 ==> r == 0.0)
      && (dc > 0 && dp <= dc ==> r * dc as real == 100.0 * dp as real)
      && (dc > 0 && dp > dc ==> r == 100.0)
  {
    if prev.None? || curr.None? || prevCpu.None? || currCpu.None? then 0.0
    else
      var dp := Wrap(ProcTicks(curr.value) - ProcTicks(prev.value));
      var dc := Wrap(CpuTotal(currCpu.value) - CpuTotal(prevCpu.value));
      if dc == 0 then 0.0
      else
        var pct := (dp as real / dc as real) * 100.0;
        PercentOfTicks(dp, dc);
        if pct > 100.0 then 100.0 else pct
  }

  /** The unclamped percentage exceeds 100 exactly when more ticks were
      charged to the process than elapsed. */
  lemma PercentOfTicks(dp: nat, dc: nat)
    requires dc > 0
    ensures var pct := (dp as real / dc as real) * 100.0;
      pct >= 0.0 && pct * dc as real == 100.0 * dp as real && (pct > 100.0 <==> dp > dc)
  {
    var q := dp as real / dc as real;
    assert q * dc as real == dp as real;
    var pct := q * 100.0;
    assert pct * dc as real == 100.0 * dp as real;
    if pct > 100.0 {
      assert pct * dc as real > 100.0 * dc as real;
    } else {
      assert pct * dc as real <= 100.0 * dc as real;
    }
  }

  /** When the process used dp of the dc ticks that elapsed, the share is
      100 * dp / dc, even if a counter wrapped around in between. */
  lemma CpuPercentOfElapsedTicks(prev: ProcStat, curr: ProcStat, prevCpu: CpuStat, currCpu: CpuStat,
                                 dp: nat, dc: nat)
    requires 0 < dc < U64 && dp <= dc
    requires Wrap(ProcTicks(curr)) == Wrap(ProcTicks(prev) + dp)
    requires Wrap(CpuTotal(currCpu)) == Wrap(CpuTotal(prevCpu) + dc)
    ensures CalcCpuPercent(Some(prev), Some(curr), Some(prevCpu), Some(currCpu)) * dc as real
         == 100.0 * dp as real
  {
    WrapDiff(ProcTicks(curr), ProcTicks(prev), dp);
    WrapDiff(CpuTotal(currCpu), CpuTotal(prevCpu), dc);
  }

  // ---------------------------------------------------------------------------
  // rp_run: the output format

  /** JSON output when the output path's last '.' starts ".json" to its end. */
  function EmitsJson(outpath: Option<string>): bool
  {
    match outpath
    case None => false
    case Some(p) => var d := LastIndexOf(p, '.'); d.Some? && p[d.value..] == ".json"
  }

  /** JSON is chosen exactly for the paths that end in ".json". */
  lemma EmitsJsonIffSuffix(p: string)
    ensures EmitsJson(Some(p)) <==> |p| >= 5 && p[|p| - 5..] == ".json"
  {
    var d := LastIndexOf(p, '.');
    if |p| >= 5 && p[|p| - 5..] == ".json" {
      assert p[|p| - 5] == '.';
      assert forall j :: |p| - 5 < j < |p| ==> p[j] == p[|p| - 5..][j - (|p| - 5)] != '.';
      assert d.value == |p| - 5;
    }
  }

  // ---------------------------------------------------------------------------
  // rp_run: the sampling loop

  /** What one pass of the sampling loop finds: the files it opens (/proc/stat,
      the process's stat, status and io files and its tcp, tcp6, udp and udp6
      tables; None when fopen fails) and the CLOCK_REALTIME reading. */
  datatype Sample = Sample(
    procStat: Option<string>, stat: Option<string>, status: Option<string>, io: Option<string>,
    tcp: Option<string>, tcp6: Option<string>, udp: Option<string>, udp6: Option<string>,
    sec: int, nsec: int)

  /** One output record, the columns of a CSV row or the members of a JSON
      object in their order. */
  datatype Record = Record(
    timestampMs: int, pid: int, proc: ProcStat, cpuPercent: real, io: IoCounters,
    readBps: real, writeBps: real, tcpConns: int, udpConns: int)

  /** A record and what follows it on its line: "," between JSON objects. */
  datatype Row = Row(rec: Record, sep: string)

  /** What rp_run writes: JSON or CSV, the rows, and whether the closing "]"
      of a JSON array was written. */
  datatype Output = Output(json: bool, rows: seq<Row>, trailer: bool)

  /** The (system, process) readings of successive samples, up to the first
      sample where either read fails; each process reading starts from the
      previous one. */
  function Trace(samples: seq<Sample>, prev: ProcStat, pos: Positions): (t: seq<(CpuStat, ProcStat)>)
    requires pos.Valid()
    ensures |t| <= |samples|
    decreases |samples|
  {
    if samples == [] then []
    else
      match ReadCpuStat(samples[0].procStat)
      case None => []
      case Some(cpu) =>
        match ProcStatRead(samples[0].stat, samples[0].status, prev, pos)
        case None => []
        case Some(p) => [(cpu, p)] + Trace(samples[1..], p, pos)
  }

  /** The separator after record i of n. */
  function Separator(json: bool, i: nat, n: nat): string
  {
    if json && i + 1 < n then "," else ""
  }

  /** Bytes per second between two unsigned long long counters. */
  function Rate(first: bool, curr: int, prior: int, intervalMs: int): (r: real)
    ensures r >= 0.0
    ensures first || intervalMs <= 0 ==> r == 0.0
    ensures !first && intervalMs > 0 ==> r * (intervalMs as real / 1000.0) == Wrap(curr - prior) as real
  {
    var intervalS := intervalMs as real / 1000.0;
    if !first && intervalS > 0.0 then Wrap(curr - prior) as real / intervalS else 0.0
  }

  /** The record of one sample: its readings, those of the previous sample
      for the CPU share and the I/O rates (neither is computed on the first
      sample), and the socket counts. */
  function SampleRecord(pid: int, intervalMs: int, s: Sample, first: bool,
                        prev: (CpuStat, ProcStat), curr: (CpuStat, ProcStat),
                        prevIo: IoCounters, io: IoCounters, tcp: int, tcp6: int, udp: int, udp6: int): (r: Record)
    ensures first ==> r.cpuPercent == 0.0 && r.readBps == 0.0 && r.writeBps == 0.0
    ensures 0.0 <= r.cpuPercent <= 100.0 && r.readBps >= 0.0 && r.writeBps >= 0.0
  {
    Record(
      s.sec * 1000 + CDiv(s.nsec, 1000000), pid, curr.1,
      if first then 0.0 else CalcCpuPercent(Some(prev.1), Some(curr.1), Some(prev.0), Some(curr.0)),
      io,
      Rate(first, io.readBytes, prevIo.readBytes, intervalMs),
      Rate(first, io.writeBytes, prevIo.writeBytes, intervalMs),
      tcp + tcp6, udp + udp6)
  }

  /** The readings before sample i: zero before the first. */
  function PrevReading(t: seq<(CpuStat, ProcStat)>, i: nat): (CpuStat, ProcStat)
    requires i <= |t|
  {
    if i == 0 then (ZeroCpuStat, ZeroProcStat) else t[i - 1]
  }

  /** The io counters before sample i: zero before the first. */
  function PrevIo(samples: seq<Sample>, i: nat): IoCounters
    requires i <= |samples|
  {
    if i == 0 then ZeroIo else IoOf(samples[i - 1].io)
  }

  /** The record of sample i, given the trace of readings. */
  function RecordAt(pid: int, intervalMs: int, samples: seq<Sample>, t: seq<(CpuStat, ProcStat)>, i: nat): Record
    requires i < |t| <= |samples|
  {
    var s := samples[i];
    SampleRecord(pid, intervalMs, s, i == 0, PrevReading(t, i), t[i], PrevIo(samples, i), IoOf(s.io),
                 NetConns(s.tcp), NetConns(s.tcp6), NetConns(s.udp), NetConns(s.udp6))
  }

  /** rp_run. It fails with -1, writing nothing, when the output file does not
      open; otherwise it writes one record per sample and returns 0, or stops
      with -1 after the records so far at the first sample whose /proc/stat or
      process stat file cannot be read, without closing a JSON array. */
  method RpRun(pid: int, intervalMs: int, samples: int, outpath: Option<string>, opens: bool,
               readings: seq<Sample>, pos: Positions)
    returns (code: int, out: Option<Output>)
    requires pos.Valid()
    requires |readings| >= AtLeastOne(samples)
    ensures code == 0 || code == -1
    ensures out.None? <==> outpath.Some? && !opens
    ensures out.None? ==> code == -1
    ensures out.Some? ==>
      var n := AtLeastOne(samples);
      var t := Trace(readings[..n], ZeroProcStat, pos);
      var o := out.value;
      o.json == EmitsJson(outpath)
      && (code == 0 <==> |t| == n)
      && o.trailer == (o.json && code == 0)
      && |o.rows| == |t|
      && forall i :: 0 <= i < |t| ==>
           o.rows[i] == Row(RecordAt(pid, intervalMs, readings, t, i), Separator(o.json, i, n))
  {
    var n := AtLeastOne(samples);
    if outpath.Some? && !opens {
      return -1, None;
    }
    var json := EmitsJson(outpath);
    ghost var t := Trace(readings[..n], ZeroProcStat, pos);
    var rows: seq<Row> := [];
    var prevProc, prevCpu := ZeroProcStat, ZeroCpuStat;
    var prevIo := ZeroIo;
    var i: nat := 0;
    assert readings[..n] == readings[0..n];
    while i < n
      invariant Progress(pid, intervalMs, readings, n, pos, t, i, prevCpu, prevProc, prevIo, rows, json)
    {
      var ok, cpu, curr, io, tcp, tcp6, udp, udp6, row :=
        ReadSample(pid, intervalMs, readings[i], i, n, json, prevCpu, prevProc, prevIo, pos);
      if !ok {
        ProgressStops(pid, intervalMs, readings, n, pos, t, i, prevCpu, prevProc, prevIo, rows, json);
        return -1, Some(Output(json, rows, false));
      }
      var next: nat := i + 1;
      var grown := rows + [row];
      ProgressStep(pid, intervalMs, readings, n, pos, t, i, prevCpu, prevProc, prevIo, rows, json,
                   cpu, curr, io, tcp, tcp6, udp, udp6, row, next, grown);
      rows := grown;
      prevProc, prevCpu := curr, cpu;
      prevIo := io;
      i := next;
    }
    ProgressDone(pid, intervalMs, readings, n, pos, t, prevCpu, prevProc, prevIo, rows, json);
    code := 0;
    out := Some(Output(json, rows, json));
  }

  /** One pass of rp_run's sampling loop: /proc/stat, then the process stat
      files (the pass fails when either cannot be read), then the I/O
      counters and the four socket tables, and the row they give. */
  method ReadSample(pid: int, intervalMs: int, s: Sample, i: nat, n: nat, json: bool,
                    prevCpu: CpuStat, prevProc: ProcStat, prevIo: IoCounters, pos: Positions)
    returns (ok: bool, cpu: CpuStat, curr: ProcStat, io: IoCounters,
             tcp: int, tcp6: int, udp: int, udp6: int, row: Row)
    requires pos.Valid()
    ensures ok <==> ReadCpuStat(s.procStat).Some? && ProcStatRead(s.stat, s.status, prevProc, pos).Some?
    ensures ok ==> ReadCpuStat(s.procStat) == Some(cpu)
    ensures ok ==> ProcStatRead(s.stat, s.status, prevProc, pos) == Some(curr)
    ensures ok ==> io == IoOf(s.io)
    ensures ok ==> tcp == NetConns(s.tcp) && tcp6 == NetConns(s.tcp6)
    ensures ok ==> udp == NetConns(s.udp) && udp6 == NetConns(s.udp6)
    ensures ok ==> row == Row(SampleRecord(pid, intervalMs, s, i == 0, (prevCpu, prevProc), (cpu, curr),
                                           prevIo, io, tcp, tcp6, udp, udp6), Separator(json, i, n))
  {
    ok, cpu, curr, io, tcp, tcp6, udp, udp6 := false, ZeroCpuStat, prevProc, ZeroIo, 0, 0, 0, 0;
    row := Row(SampleRecord(pid, intervalMs, s, true, (prevCpu, prevProc), (prevCpu, prevProc),
                            prevIo, prevIo, 0, 0, 0, 0), "");
    var cpuRead := ReadCpuStat(s.procStat);
    if cpuRead.None? {
      return;
    }
    cpu := cpuRead.value;
    var st;
    st, curr := ReadProcStat(s.stat, s.status, prevProc, pos);
    if st == Fail {
      return;
    }
    var ioSt;
    ioSt, io := ReadProcIo(s.io, ZeroIo);
    tcp := CountNetConns(s.tcp);
    tcp6 := CountNetConns(s.tcp6);
    udp := CountNetConns(s.udp);
    udp6 := CountNetConns(s.udp6);
    var rec := SampleRecord(pid, intervalMs, s, i == 0, (prevCpu, prevProc), (cpu, curr),
                            prevIo, io, tcp, tcp6, udp, udp6);
    row := Row(rec, Separator(json, i, n));
    ok := true;
  }

  /** The loop's invariant after i samples: the rest of the trace is read
      from the remaining samples, the previous readings are the last ones of
      the trace, and the rows written are the records of the trace so far. */
  predicate Progress(pid: int, intervalMs: int, samples: seq<Sample>, n: nat, pos: Positions,
                     t: seq<(CpuStat, ProcStat)>, i: nat, prevCpu: CpuStat, prevProc: ProcStat,
                     prevIo: IoCounters, rows: seq<Row>, json: bool)
    requires pos.Valid()
  {
    n <= |samples| && i <= n && i <= |t|
    && t[i..] == Trace(samples[i..n], prevProc, pos)
    && (prevCpu, prevProc) == PrevReading(t, i)
    && prevIo == PrevIo(samples, i)
    && RowsMatch(rows, i, pid, intervalMs, samples, t, json, n)
  }

  lemma ProgressStep(pid: int, intervalMs: int, samples: seq<Sample>, n: nat, pos: Positions,
                     t: seq<(CpuStat, ProcStat)>, i: nat, prevCpu: CpuStat, prevProc: ProcStat,
                     prevIo: IoCounters, rows: seq<Row>, json: bool,
                     cpu: CpuStat, curr: ProcStat, io: IoCounters, tcp: int, tcp6: int, udp: int, udp6: int, row: Row,
                     next: nat, grown: seq<Row>)
    requires pos.Valid()
    requires Progress(pid, intervalMs, samples, n, pos, t, i, prevCpu, prevProc, prevIo, rows, json)
    requires i < n && next == i + 1 && grown == rows + [row]
    requires ReadCpuStat(samples[i].procStat) == Some(cpu)
    requires ProcStatRead(samples[i].stat, samples[i].status, prevProc, pos) == Some(curr)
    requires io == IoOf(samples[i].io)
    requires tcp == NetConns(samples[i].tcp) && tcp6 == NetConns(samples[i].tcp6)
    requires udp == NetConns(samples[i].udp) && udp6 == NetConns(samples[i].udp6)
    requires row == Row(SampleRecord(pid, intervalMs, samples[i], i == 0, (prevCpu, prevProc), (cpu, curr),
                                     prevIo, io, tcp, tcp6, udp, udp6), Separator(json, i, n))
    ensures Progress(pid, intervalMs, samples, n, pos, t, next, cpu, curr, io, grown, json)
  {
    TraceStep(samples, i, n, prevProc, pos, t);
    RecordAtIs(pid, intervalMs, samples, t, i, (prevCpu, prevProc), (cpu, curr), prevIo, io, tcp, tcp6, udp, udp6);
    RowsMatchSnoc(rows, i, pid, intervalMs, samples, t, json, n, row);
  }

  lemma ProgressStops(pid: int, intervalMs: int, samples: seq<Sample>, n: nat, pos: Positions,
                      t: seq<(CpuStat, ProcStat)>, i: nat, prevCpu: CpuStat, prevProc: ProcStat,
                      prevIo: IoCounters, rows: seq<Row>, json: bool)
    requires pos.Valid()
    requires Progress(pid, intervalMs, samples, n, pos, t, i, prevCpu, prevProc, prevIo, rows, json)
    requires i < n
    requires ReadCpuStat(samples[i].procStat).None?
          || ProcStatRead(samples[i].stat, samples[i].status, prevProc, pos).None?
    ensures |t| == i && |rows| == i
    ensures forall j :: 0 <= j < i ==>
      rows[j] == Row(RecordAt(pid, intervalMs, samples, t, j), Separator(json, j, n))
  {
    TraceStops(samples, i, n, prevProc, pos);
  }

  lemma ProgressDone(pid: int, intervalMs: int, samples: seq<Sample>, n: nat, pos: Positions,
                     t: seq<(CpuStat, ProcStat)>, prevCpu: CpuStat, prevProc: ProcStat,
                     prevIo: IoCounters, rows: seq<Row>, json: bool)
    requires pos.Valid()
    requires Progress(pid, intervalMs, samples, n, pos, t, n, prevCpu, prevProc, prevIo, rows, json)
    ensures |t| == n && |rows| == n
    ensures forall j :: 0 <= j < n ==>
      rows[j] == Row(RecordAt(pid, intervalMs, samples, t, j), Separator(json, j, n))
  {
    assert samples[n..n] == [];
  }

  /** The record of sample i from readings known to be those of the trace. */
  lemma RecordAtIs(pid: int, intervalMs: int, samples: seq<Sample>, t: seq<(CpuStat, ProcStat)>, i: nat,
                   prev: (CpuStat, ProcStat), curr: (CpuStat, ProcStat), prevIo: IoCounters, io: IoCounters,
                   tcp: int, tcp6: int, udp: int, udp6: int)
    requires i < |t| <= |samples|
    requires prev == PrevReading(t, i) && curr == t[i]
    requires prevIo == PrevIo(samples, i) && io == IoOf(samples[i].io)
    requires tcp == NetConns(samples[i].tcp) && tcp6 == NetConns(samples[i].tcp6)
    requires udp == NetConns(samples[i].udp) && udp6 == NetConns(samples[i].udp6)
    ensures RecordAt(pid, intervalMs, samples, t, i)
         == SampleRecord(pid, intervalMs, samples[i], i == 0, prev, curr, prevIo, io, tcp, tcp6, udp, udp6)
  {
  }

  /** The first k rows are the records of the first k samples. */
  predicate RowsMatch(rows: seq<Row>, k: nat, pid: int, intervalMs: int, samples: seq<Sample>,
                      t: seq<(CpuStat, ProcStat)>, json: bool, n: nat)
  {
    |rows| == k && k <= |t| <= |samples|
    && forall j {:trigger rows[j]} :: 0 <= j < k ==>
         rows[j] == Row(RecordAt(pid, intervalMs, samples, t, j), Separator(json, j, n))
  }

  lemma RowsMatchSnoc(rows: seq<Row>, k: nat, pid: int, intervalMs: int, samples: seq<Sample>,
                      t: seq<(CpuStat, ProcStat)>, json: bool, n: nat, row: Row)
    requires RowsMatch(rows, k, pid, intervalMs, samples, t, json, n)
    requires k < |t| && row == Row(RecordAt(pid, intervalMs, samples, t, k), Separator(json, k, n))
    ensures RowsMatch(rows + [row], k + 1, pid, intervalMs, samples, t, json, n)
  {
  }

  /** A sample whose reads succeed adds its readings to the trace. */
  lemma TraceStep(samples: seq<Sample>, i: nat, n: nat, curr: ProcStat, pos: Positions,
                  t: seq<(CpuStat, ProcStat)>)
    requires pos.Valid() && i < n <= |samples| && i <= |t|
    requires t[i..] == Trace(samples[i..n], curr, pos)
    requires ReadCpuStat(samples[i].procStat).Some?
    requires ProcStatRead(samples[i].stat, samples[i].status, curr, pos).Some?
    ensures i < |t|
    ensures t[i] == (ReadCpuStat(samples[i].procStat).value,
                     ProcStatRead(samples[i].stat, samples[i].status, curr, pos).value)
    ensures t[i + 1..] == Trace(samples[i + 1..n], t[i].1, pos)
  {
    assert samples[i..n][0] == samples[i] && samples[i..n][1..] == samples[i + 1..n];
    assert t[i..][1..] == t[i + 1..];
  }

  /** The trace ends at a sample whose /proc/stat or stat file cannot be read. */
  lemma TraceStops(samples: seq<Sample>, i: nat, n: nat, curr: ProcStat, pos: Positions)
    requires pos.Valid() && i < n <= |samples|
    requires ReadCpuStat(samples[i].procStat).None?
          || ProcStatRead(samples[i].stat, samples[i].status, curr, pos).None?
    ensures Trace(samples[i..n], curr, pos) == []
  {
    assert samples[i..n][0] == samples[i];
  }
}
