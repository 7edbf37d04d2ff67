/** The cgroup-v2 controller: every operation on a named group first checks
    that the group's directory exists under the cgroup mount, then reads or
    writes one of the group's control files. Output written with fprintf is
    not checked by the C code, so an operation succeeds as soon as the file
    opens. */
module CgroupV2 {
  import opened Common
  import opened Scanf
  import opened Utils
  import opened CgroupFs

  /** cgroup_get_full_path: "<mount>/<name>". */
  function GroupPath(name: string): string
  {
    Join(Root, name)
  }

  /** "<mount>/<name>/<file>". */
  function ControlPath(name: string, file: string): string
  {
    Join(GroupPath(name), file)
  }

  /** cgroup_exists: stat succeeds on the group's path and reports a
      directory. */
  predicate Exists(fs: FileSystem, name: string)
    reads fs
  {
    fs.IsDir(GroupPath(name))
  }

  // ---------------------------------------------------------------------------
  // The texts written to control files

  /** "%d\n" and "%lu\n". */
  function DecimalLine(n: int): string
  {
    IntToString(n) + "\n"
  }

  /** cpu.max: "max <period>\n" for a negative quota, else "<quota> <period>\n". */
  function CpuMaxText(quota: Long, period: Long): string
  {
    if quota < 0 then "max " + IntToString(period) + "\n"
    else IntToString(quota) + " " + IntToString(period) + "\n"
  }

  /** "<word> <k1><a> <k2><b><rest>": the layout of io.max ("rbps=", "wbps=")
      and of an io.stat line ("rbytes=", "wbytes="). */
  function PairLine(word: string, k1: string, a: U64Val, k2: string, b: U64Val, rest: string): string
  {
    word + (" " + (k1 + (NatToString(a) + (" " + (k2 + (NatToString(b) + rest))))))
  }

  /** io.max: "<device> rbps=<r> wbps=<w>\n". */
  function IoMaxText(device: string, rbps: U64Val, wbps: U64Val): string
  {
    PairLine(device, "rbps=", rbps, "wbps=", wbps, "\n")
  }

  /** The scanf format "%s <k1>%lu <k2>%lu", with "%*s" when !store. */
  function PairFmt(store: bool, k1: string, k2: string): seq<Directive>
  {
    [Word(store), Ws, Lit(k1), Num(false, true), Ws] + [Lit(k2), Num(false, true)]
  }

  /** fscanf(fp, "%lu"): the number at the start of the text, after white
      space, if there is one. */
  function ScanULong(text: string): (r: Option<U64Val>)
    ensures r.Some? <==> Scan([Num(false, true)], text) == [Int(Strtoul(text).value)]
    ensures r.None? <==> Scan([Num(false, true)], text) == []
  {
    ScanNumAlone(false, text);
    var c := Strtoul(text);
    if c.consumed == 0 then None else Some(c.value)
  }

  // ---------------------------------------------------------------------------
  // Read-back of the written texts

  /** "%lu\n" reads back as the number written. */
  lemma DecimalLineReadBack(n: int, rest: string)
    requires 0 <= n < U64
    ensures ScanULong(DecimalLine(n) + rest) == Some(n)
  {
    assert DecimalLine(n) + rest == NatToString(n) + ("\n" + rest);
    StrtoulOfNatToString(n, "\n" + rest);
  }

  /** The format "%s %lu" reads cpu.max back: "max" or the quota, then the
      period. */
  lemma CpuMaxReadBack(quota: Long, period: Long)
    requires period >= 0
    ensures Scan([Word(true), Ws, Num(false, true)], CpuMaxText(quota, period))
         == [Text(if quota < 0 then "max" else NatToString(quota)), Int(period)]
  {
    var w := if quota < 0 then "max" else NatToString(quota);
    CpuMaxWord(quota, period, w);
    ScanWordNum(w, period, CpuMaxText(quota, period));
  }

  /** cpu.max is a word without blanks, a blank, the period and a newline. */
  lemma CpuMaxWord(quota: Long, period: Long, w: string)
    requires period >= 0 && w == if quota < 0 then "max" else NatToString(quota)
    ensures w != [] && forall i :: 0 <= i < |w| ==> !IsSpace(w[i])
    ensures CpuMaxText(quota, period) == w + (" " + NatToString(period) + "\n")
  {
    var p := NatToString(period);
    if quota < 0 {
      CpuMaxUnlimited(quota, period, p);
    } else {
      DigitsHaveNoSpace(w);
      CpuMaxQuota(quota, period, w, p);
    }
  }

  lemma CpuMaxUnlimited(quota: Long, period: Long, p: string)
    requires quota < 0 && period >= 0 && p == NatToString(period)
    ensures CpuMaxText(quota, period) == "max" + (" " + p + "\n")
  {
    assert CpuMaxText(quota, period) == "max " + p + "\n";
  }

  lemma CpuMaxQuota(quota: Long, period: Long, w: string, p: string)
    requires quota >= 0 && period >= 0 && w == NatToString(quota) && p == NatToString(period)
    ensures CpuMaxText(quota, period) == w + (" " + p + "\n")
  {
    assert CpuMaxText(quota, period) == w + " " + p + "\n";
  }

  lemma DigitsHaveNoSpace(w: string)
    requires AllDigits(w)
    ensures forall i :: 0 <= i < |w| ==> !IsSpace(w[i])
  {
  }

  /** "%s %lu" reads back a word without blanks, a blank and a number. */
  lemma ScanWordNum(w: string, n: nat, text: string)
    requires n < U64
    requires w != [] && forall i :: 0 <= i < |w| ==> !IsSpace(w[i])
    requires text == w + (" " + NatToString(n) + "\n")
    ensures Scan([Word(true), Ws, Num(false, true)], text) == [Text(w), Int(n)]
  {
    var d := NatToString(n);
    ApplyWordName(w, " " + d + "\n", true);
    ApplyWsBeforeDigits(d, "\n");
    ApplyNumToDigits(n, "\n");
    ScanThree(Word(true), Ws, Num(false, true), text, " " + d + "\n", d + "\n", "\n",
              [Text(w)], [], [Int(n)]);
    TwoValues(Text(w), Int(n));
  }

  lemma TwoValues<T>(a: T, b: T)
    ensures [a] + [] + [b] == [a, b]
  {
  }

  /** "%s <k1>%lu <k2>%lu" reads a PairLine back: the word (when stored) and
      the two numbers. */
  lemma ScanPairLine(store: bool, word: string, k1: string, a: U64Val, k2: string, b: U64Val, rest: string)
    requires word != [] && forall i :: 0 <= i < |word| ==> !IsSpace(word[i])
    requires k1 != [] && !IsSpace(k1[0]) && k2 != [] && !IsSpace(k2[0])
    requires rest == [] || !IsDigit(rest[0])
    ensures Scan(PairFmt(store, k1, k2), PairLine(word, k1, a, k2, b, rest))
         == (if store then [Text(word)] else []) + [Int(a), Int(b)]
  {
    var s6 := NatToString(b) + rest;
    var s5 := k2 + s6;
    var s4 := " " + s5;
    var s3 := NatToString(a) + s4;
    var s2 := k1 + s3;
    var s1 := " " + s2;
    var s0 := PairLine(word, k1, a, k2, b, rest);
    assert s0 == word + s1;
    var v0: seq<Field> := if store then [Text(word)] else [];
    ApplyWordName(word, s1, store);
    assert s2[0] == k1[0];
    ApplyWsBeforeWord(s2);
    assert k1 <= s2 && s2[|k1|..] == s3;
    assert Apply(Lit(k1), s2) == Some(Step([], s3));
    ApplyNumToDigits(a, s4);
    assert s5[0] == k2[0];
    ApplyWsBeforeWord(s5);
    ScanFive(Word(store), Ws, Lit(k1), Num(false, true), Ws, [Lit(k2), Num(false, true)],
             s0, s1, s2, s3, s4, s5, v0, [], [], [Int(a)], []);
    assert k2 <= s5 && s5[|k2|..] == s6;
    assert Apply(Lit(k2), s5) == Some(Step([], s6));
    ApplyNumToDigits(b, rest);
    ScanTwo(Lit(k2), Num(false, true), s5, s6, rest, [], [Int(b)]);
    PairValues(v0, Int(a), Int(b));
  }

  lemma PairValues<T>(v0: seq<T>, a: T, b: T)
    ensures v0 + [] + [] + [a] + [] + ([] + [b]) == v0 + [a, b]
  {
  }

  /** The format "%s rbps=%lu wbps=%lu" reads io.max back. */
  lemma IoMaxReadBack(device: string, rbps: U64Val, wbps: U64Val)
    requires device != [] && forall i :: 0 <= i < |device| ==> !IsSpace(device[i])
    ensures Scan(PairFmt(true, "rbps=", "wbps="), IoMaxText(device, rbps, wbps))
         == [Text(device), Int(rbps), Int(wbps)]
  {
    ScanPairLine(true, device, "rbps=", rbps, "wbps=", wbps, "\n");
  }

  // ---------------------------------------------------------------------------
  // Writing operations

  /** fopen(path, "w"), fprintf, fclose: -1 when the open fails, else 0. */
  method PutText(fs: FileSystem, path: string, text: string) returns (r: int)
    requires fs.Valid()
    modifies fs
    ensures fs.Valid()
    ensures r == 0 <==> old(fs.CanWrite(path))
    ensures r != 0 ==> r == -1 && unchanged(fs)
    ensures r == 0 ==> fs.files == old(fs.files)[path := text]
    ensures fs.dirs == old(fs.dirs) && fs.writable == old(fs.writable)
  {
    if !fs.CanWrite(path) {
      return -1;
    }
    fs.Overwrite(path, text);
    r := 0;
  }

  /** cgroup_delete: rmdir of an existing group's directory. */
  method Delete(fs: FileSystem, name: string, busy: bool) returns (r: int)
    requires fs.Valid()
    modifies fs
    ensures fs.Valid()
    ensures r == 0 <==> old(Exists(fs, name)) && !busy && NoSubdirs(old(fs.dirs), GroupPath(name))
    ensures r != 0 ==> r == -1 && unchanged(fs)
    ensures r == 0 ==>
      fs.dirs == old(fs.dirs) - {GroupPath(name)} &&
      fs.files == Pruned(old(fs.files), GroupPath(name)) &&
      fs.writable == Outside(old(fs.writable), GroupPath(name)) &&
      !Exists(fs, name)
  {
    if !Exists(fs, name) {
      return -1;
    }
    var ok := fs.Rmdir(GroupPath(name), busy);
    r := if ok then 0 else -1;
  }

  /** cgroup_add_process: "%d\n" into the group's cgroup.procs. */
  method AddProcess(fs: FileSystem, name: string, pid: Int32) returns (r: int)
    requires fs.Valid()
    modifies fs
    ensures fs.Valid()
    ensures r == 0 <==> old(Exists(fs, name)) && old(fs.CanWrite(ControlPath(name, "cgroup.procs")))
    ensures r != 0 ==> r == -1 && unchanged(fs)
    ensures r == 0 ==> fs.files == old(fs.files)[ControlPath(name, "cgroup.procs") := DecimalLine(pid)]
    ensures fs.dirs == old(fs.dirs) && fs.writable == old(fs.writable)
  {
    if !Exists(fs, name) {
      return -1;
    }
    r := PutText(fs, ControlPath(name, "cgroup.procs"), DecimalLine(pid));
  }

  /** cgroup_remove_process: "%d\n" into the root group's cgroup.procs; the
      group name is not looked at. */
  method RemoveProcess(fs: FileSystem, name: string, pid: Int32) returns (r: int)
    requires fs.Valid()
    modifies fs
    ensures fs.Valid()
    ensures r == 0 <==> old(fs.CanWrite(Join(Root, "cgroup.procs")))
    ensures r != 0 ==> r == -1 && unchanged(fs)
    ensures r == 0 ==> fs.files == old(fs.files)[Join(Root, "cgroup.procs") := DecimalLine(pid)]
    ensures fs.dirs == old(fs.dirs) && fs.writable == old(fs.writable)
  {
    r := PutText(fs, Join(Root, "cgroup.procs"), DecimalLine(pid));
  }

  /** cgroup_set_cpu_max. */
  method SetCpuMax(fs: FileSystem, name: string, quota: Long, period: Long) returns (r: int)
    requires fs.Valid()
    modifies fs
    ensures fs.Valid()
    ensures r == 0 <==> old(Exists(fs, name)) && old(fs.CanWrite(ControlPath(name, "cpu.max")))
    ensures r != 0 ==> r == -1 && unchanged(fs)
    ensures r == 0 ==> fs.files == old(fs.files)[ControlPath(name, "cpu.max") := CpuMaxText(quota, period)]
    ensures fs.dirs == old(fs.dirs) && fs.writable == old(fs.writable)
  {
    if !Exists(fs, name) {
      return -1;
    }
    r := PutText(fs, ControlPath(name, "cpu.max"), CpuMaxText(quota, period));
  }

  /** cgroup_set_cpu_weight: a weight outside [1, 10000] is refused before
      the file is opened. */
  method SetCpuWeight(fs: FileSystem, name: string, weight: Int32) returns (r: int)
    requires fs.Valid()
    modifies fs
    ensures fs.Valid()
    ensures r == 0 <==>
      old(Exists(fs, name)) && 1 <= weight <= 10000 && old(fs.CanWrite(ControlPath(name, "cpu.weight")))
    ensures r != 0 ==> r == -1 && unchanged(fs)
    ensures r == 0 ==> fs.files == old(fs.files)[ControlPath(name, "cpu.weight") := DecimalLine(weight)]
    ensures fs.dirs == old(fs.dirs) && fs.writable == old(fs.writable)
  {
    if !Exists(fs, name) {
      return -1;
    }
    if weight < 1 || weight > 10000 {
      return -1;
    }
    r := PutText(fs, ControlPath(name, "cpu.weight"), DecimalLine(weight));
  }

  /** cgroup_set_memory_high: "%lu\n" into memory.high. */
  method SetMemoryHigh(fs: FileSystem, name: string, bytes: U64Val) returns (r: int)
    requires fs.Valid()
    modifies fs
    ensures fs.Valid()
    ensures r == 0 <==> old(Exists(fs, name)) && old(fs.CanWrite(ControlPath(name, "memory.high")))
    ensures r != 0 ==> r == -1 && unchanged(fs)
    ensures r == 0 ==> fs.files == old(fs.files)[ControlPath(name, "memory.high") := DecimalLine(bytes)]
    ensures fs.dirs == old(fs.dirs) && fs.writable == old(fs.writable)
  {
    if !Exists(fs, name) {
      return -1;
    }
    r := PutText(fs, ControlPath(name, "memory.high"), DecimalLine(bytes));
  }

  /** cgroup_set_io_max. */
  method SetIoMax(fs: FileSystem, name: string, device: string, rbps: U64Val, wbps: U64Val) returns (r: int)
    requires fs.Valid()
    modifies fs
    ensures fs.Valid()
    ensures r == 0 <==> old(Exists(fs, name)) && old(fs.CanWrite(ControlPath(name, "io.max")))
    ensures r != 0 ==> r == -1 && unchanged(fs)
    ensures r == 0 ==> fs.files == old(fs.files)[ControlPath(name, "io.max") := IoMaxText(device, rbps, wbps)]
    ensures fs.dirs == old(fs.dirs) && fs.writable == old(fs.writable)
  {
    if !Exists(fs, name) {
      return -1;
    }
    r := PutText(fs, ControlPath(name, "io.max"), IoMaxText(device, rbps, wbps));
  }

  // ---------------------------------------------------------------------------
  // cpu.stat

  /** What parse_line_value_ull(line, key, ...) finds on one line: the
      number after the key when the line starts with it. */
  function KeyValue(key: string, line: string): (r: Option<U64Val>)
    ensures r.Some? <==> key <= line
  {
    var lv := ParseLineValue(line, key, 0);
    if lv.found == 1 then Some(lv.value) else None
  }

  function KeyValues(key: string, ls: seq<string>): (r: seq<Option<U64Val>>)
    ensures |r| == |ls|
  {
    seq(|ls|, i requires 0 <= i < |ls| => KeyValue(key, ls[i]))
  }

  /** The value of the first line that starts with the key. */
  function FirstKeyValue(key: string, ls: seq<string>): Option<U64Val>
  {
    FirstSome(KeyValues(key, ls))
  }

  /** The first line with the key decides; without one there is no value. */
  lemma FirstKeyValueFirst(key: string, ls: seq<string>)
    ensures FirstKeyValue(key, ls).None? <==> forall j :: 0 <= j < |ls| ==> KeyValue(key, ls[j]).None?
    ensures forall i :: 0 <= i < |ls| && KeyValue(key, ls[i]).Some? &&
                        (forall j :: 0 <= j < i ==> KeyValue(key, ls[j]).None?) ==>
                        FirstKeyValue(key, ls) == KeyValue(key, ls[i])
  {
    var xs := KeyValues(key, ls);
    assert forall j :: 0 <= j < |ls| ==> xs[j] == KeyValue(key, ls[j]);
    FirstSomeNone(xs);
    forall i | 0 <= i < |ls| && KeyValue(key, ls[i]).Some? && (forall j :: 0 <= j < i ==> KeyValue(key, ls[j]).None?)
      ensures FirstKeyValue(key, ls) == KeyValue(key, ls[i])
    {
      FirstSomeAt(xs, i);
    }
  }

  /** The usage cgroup_get_cpu_usage reports for the lines of cpu.stat. */
  function CpuUsage(ls: seq<string>): Option<U64Val>
  {
    FirstKeyValue("usage_usec", ls)
  }

  /** A cpu.stat whose first "usage_usec" line reads "usage_usec n" gives n. */
  lemma CpuUsageOfStat(before: seq<string>, n: U64Val, after: seq<string>)
    requires forall j :: 0 <= j < |before| ==> !("usage_usec" <= before[j])
    ensures CpuUsage(before + ["usage_usec " + NatToString(n)] + after) == Some(n)
  {
    var ls := before + ["usage_usec " + NatToString(n)] + after;
    var i := |before|;
    assert ls[i] == "usage_usec" + " " + NatToString(n) + "";
    ParseLineValueOfKeyLine("usage_usec", " ", n, "", 0);
    KeyValueOf("usage_usec", ls[i], 0);
    forall j | 0 <= j < i
      ensures KeyValue("usage_usec", ls[j]).None?
    {
      assert ls[j] == before[j];
    }
    FirstKeyValueFirst("usage_usec", ls);
  }

  /** parse_line_value's answer does not depend on the value the caller had,
      except that a line without the key leaves it alone. */
  lemma KeyValueOf(key: string, line: string, prior: nat)
    ensures var lv := ParseLineValue(line, key, prior);
      (lv.found == 1 ==> KeyValue(key, line) == Some(lv.value)) &&
      (lv.found != 1 ==> KeyValue(key, line).None?)
  {
  }

  /** cgroup_get_cpu_usage. */
  method GetCpuUsage(fs: FileSystem, name: string, usage0: U64Val) returns (r: int, usage: U64Val)
    ensures r == 0 || r == -1
    ensures !Exists(fs, name) || ControlPath(name, "cpu.stat") !in fs.files ==> r == -1 && usage == usage0
    ensures Exists(fs, name) && ControlPath(name, "cpu.stat") in fs.files ==>
      var u := CpuUsage(Lines(fs.files[ControlPath(name, "cpu.stat")]));
      (r == 0 <==> u.Some?) && (u.Some? ==> usage == u.value) && (u.None? ==> usage == usage0)
  {
    usage := usage0;
    if !Exists(fs, name) {
      return -1, usage;
    }
    var text := fs.Read(ControlPath(name, "cpu.stat"));
    if text.None? {
      return -1, usage;
    }
    var found: bool;
    found, usage := FindKeyValue(Lines(text.value), "usage_usec", usage);
    r := if found then 0 else -1;
  }

  /** The fgets loop of cgroup_get_cpu_usage: parse_line_value_ull on each
      line until one has the key. */
  method FindKeyValue(ls: seq<string>, key: string, value0: U64Val) returns (found: bool, value: U64Val)
    ensures found <==> FirstKeyValue(key, ls).Some?
    ensures found ==> value == FirstKeyValue(key, ls).value
    ensures !found ==> value == value0
  {
    var parse := line => KeyValue(key, line);
    ghost var xs := KeyValues(key, ls);
    assert forall j :: 0 <= j < |ls| ==> xs[j] == parse(ls[j]);
    found, value := FirstFound(ls, parse, value0);
    if found {
      ghost var i :| 0 <= i < |ls| && xs[i].Some? && value == xs[i].value && forall j :: 0 <= j < i ==> xs[j].None?;
      FirstSomeAt(xs, i);
    } else {
      FirstSomeNone(xs);
    }
  }

  /** A loop that stops at the first line f finds something in. */
  method FirstFound<T>(ls: seq<string>, f: string -> Option<T>, value0: T) returns (found: bool, value: T)
    ensures found <==> exists i :: 0 <= i < |ls| && f(ls[i]).Some?
    ensures found ==> exists i :: 0 <= i < |ls| && f(ls[i]).Some? && value == f(ls[i]).value &&
                                  forall j :: 0 <= j < i ==> f(ls[j]).None?
    ensures !found ==> value == value0
  {
    value := value0;
    found := false;
    var i := 0;
    while i < |ls|
      invariant 0 <= i <= |ls|
      invariant forall j :: 0 <= j < i ==> f(ls[j]).None?
      invariant !found && value == value0
    {
      var r := f(ls[i]);
      if r.Some? {
        value := r.value;
        found := true;
        break;
      }
      i := i + 1;
    }
  }

  // ---------------------------------------------------------------------------
  // memory.current

  /** cgroup_get_memory_usage: fscanf "%lu" must assign the value. */
  method GetMemoryUsage(fs: FileSystem, name: string, usage0: U64Val) returns (r: int, usage: U64Val)
    ensures r == 0 || r == -1
    ensures !Exists(fs, name) || ControlPath(name, "memory.current") !in fs.files ==> r == -1 && usage == usage0
    ensures Exists(fs, name) && ControlPath(name, "memory.current") in fs.files ==>
      var u := ScanULong(fs.files[ControlPath(name, "memory.current")]);
      (r == 0 <==> u.Some?) && (u.Some? ==> usage == u.value) && (u.None? ==> usage == usage0)
  {
    usage := usage0;
    if !Exists(fs, name) {
      return -1, usage;
    }
    var text := fs.Read(ControlPath(name, "memory.current"));
    if text.None? {
      return -1, usage;
    }
    var v := Scan([Num(false, true)], text.value);
    if |v| != 1 {
      return -1, usage;
    }
    assert ScanULong(text.value).Some?;
    usage := Strtoul(text.value).value;
    r := 0;
  }

  // ---------------------------------------------------------------------------
  // io.stat

  datatype IoBytes = IoBytes(read: U64Val, write: U64Val)

  /** "%*s rbytes=%llu wbytes=%llu" */
  const IoStatFmt: seq<Directive> := PairFmt(false, "rbytes=", "wbytes=")

  /** The scan of every line. */
  function IoScans(ls: seq<string>): (r: seq<seq<Field>>)
    ensures |r| == |ls|
  {
    seq(|ls|, i requires 0 <= i < |ls| => Scan(IoStatFmt, ls[i]))
  }

  /** The totals after adding the lines' scans to acc: a scan that assigned
      both numbers adds them (unsigned long long, so modulo 2^64), any other
      adds nothing. */
  function Totals(vs: seq<seq<Field>>, acc: IoBytes): IoBytes
  {
    if vs == [] then acc
    else
      Totals(vs[1..], AddScan(acc, vs[0]))
  }

  /** One line's contribution. */
  function AddScan(acc: IoBytes, v: seq<Field>): IoBytes
  {
    if |v| == 2 then IoBytes(Wrap(acc.read + NumAt(v, 0)), Wrap(acc.write + NumAt(v, 1))) else acc
  }

  lemma TotalsStep(vs: seq<seq<Field>>, i: nat, acc: IoBytes)
    requires i < |vs|
    ensures Totals(vs[i..], acc) == Totals(vs[i + 1..], AddScan(acc, vs[i]))
  {
    assert vs[i..][0] == vs[i] && vs[i..][1..] == vs[i + 1..];
  }

  /** The totals cgroup_get_io_stats reports for the lines of io.stat: both
      start at 0. */
  function IoTotals(ls: seq<string>): IoBytes
  {
    Totals(IoScans(ls), IoBytes(0, 0))
  }

  /** The exact sums of the first and of the second numbers of the scans
      that assigned both. */
  function FirstSum(vs: seq<seq<Field>>): int
  {
    if vs == [] then 0 else (if |vs[0]| == 2 then NumAt(vs[0], 0) else 0) + FirstSum(vs[1..])
  }

  function SecondSum(vs: seq<seq<Field>>): int
  {
    if vs == [] then 0 else (if |vs[0]| == 2 then NumAt(vs[0], 1) else 0) + SecondSum(vs[1..])
  }

  /** Adding up modulo 2^64 as the lines go by gives the exact sums reduced
      once at the end. */
  lemma {:induction false} TotalsAreSums(vs: seq<seq<Field>>, acc: IoBytes)
    ensures Totals(vs, acc) == IoBytes(Wrap(acc.read + FirstSum(vs)), Wrap(acc.write + SecondSum(vs)))
    decreases |vs|
  {
    if vs != [] {
      var v := vs[0];
      if |v| == 2 {
        var acc' := AddScan(acc, v);
        TotalsAreSums(vs[1..], acc');
        WrapAdd(acc.read + NumAt(v, 0), FirstSum(vs[1..]));
        WrapAdd(acc.write + NumAt(v, 1), SecondSum(vs[1..]));
      } else {
        TotalsAreSums(vs[1..], acc);
      }
    }
  }

  /** An io.stat line as the kernel writes it assigns its rbytes and wbytes. */
  lemma IoStatLineOf(device: string, rbytes: U64Val, wbytes: U64Val, rest: string)
    requires device != [] && forall i :: 0 <= i < |device| ==> !IsSpace(device[i])
    requires rest == [] || !IsDigit(rest[0])
    ensures Scan(IoStatFmt, PairLine(device, "rbytes=", rbytes, "wbytes=", wbytes, rest)) == [Int(rbytes), Int(wbytes)]
  {
    ScanPairLine(false, device, "rbytes=", rbytes, "wbytes=", wbytes, rest);
  }

  /** cgroup_get_io_stats. */
  method GetIoStats(fs: FileSystem, name: string, read0: U64Val, write0: U64Val)
    returns (r: int, readBytes: U64Val, writeBytes: U64Val)
    ensures r == 0 <==> Exists(fs, name) && ControlPath(name, "io.stat") in fs.files
    ensures r != 0 ==> r == -1 && readBytes == read0 && writeBytes == write0
    ensures r == 0 ==> IoBytes(readBytes, writeBytes) == IoTotals(Lines(fs.files[ControlPath(name, "io.stat")]))
  {
    readBytes, writeBytes := read0, write0;
    if !Exists(fs, name) {
      return -1, readBytes, writeBytes;
    }
    var text := fs.Read(ControlPath(name, "io.stat"));
    if text.None? {
      return -1, readBytes, writeBytes;
    }
    var ls := Lines(text.value);
    ghost var vs := IoScans(ls);
    readBytes, writeBytes := 0, 0;
    var i := 0;
    while i < |ls|
      invariant 0 <= i <= |ls|
      invariant Totals(vs, IoBytes(0, 0)) == Totals(vs[i..], IoBytes(readBytes, writeBytes))
    {
      var v := Scan(IoStatFmt, ls[i]);
      TotalsStep(vs, i, IoBytes(readBytes, writeBytes));
      assert vs[i] == v;
      var acc := AddScan(IoBytes(readBytes, writeBytes), v);
      readBytes, writeBytes := acc.read, acc.write;
      i := i + 1;
    }
    assert vs[i..] == [];
    r := 0;
  }
}
