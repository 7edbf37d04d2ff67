/** The cgroup manager: creating a group directory, moving a process into a
    group through the first control file that takes the pid, and listing
    the counter files of a group. It acts on the same FileSystem object as
    the cgroup-v2 functions. */
module CgroupManager {
  import opened Common
  import opened CgroupFs

  // ---------------------------------------------------------------------------
  // write_file

  /** open(path, O_WRONLY) then one write(2) of the whole text; `written` is
      what write returned (-1 on error). Only a write that took every byte
      counts as success. */
  method WriteFile(fs: FileSystem, path: string, data: string, written: int) returns (r: int)
    requires fs.Valid()
    modifies fs
    ensures fs.Valid()
    ensures r == 0 <==> old(fs.CanWrite(path)) && written == |data|
    ensures r != 0 ==> r == -1 && unchanged(fs)
    ensures r == 0 ==>
      fs.files == old(fs.files)[path := data] && fs.dirs == old(fs.dirs) && fs.writable == old(fs.writable)
  {
    if !fs.CanWrite(path) {
      return -1;
    }
    if written != |data| {
      return -1;
    }
    fs.Overwrite(path, data);
    r := 0;
  }

  // ---------------------------------------------------------------------------
  // cgroup_create

  /** mkdir of "/sys/fs/cgroup/<name>": 0 when it was made, 1 when something
      is there already, -1 for any other refusal. */
  method Create(fs: FileSystem, name: string, permitted: bool) returns (r: int)
    requires fs.Valid()
    modifies fs
    ensures fs.Valid()
    ensures var p := Join(Root, name);
      && (r == 0 <==> old(p !in fs.dirs && p !in fs.files) && permitted)
      && (r == 1 <==> old(p in fs.dirs || p in fs.files))
      && (r == -1 <==> old(p !in fs.dirs && p !in fs.files) && !permitted)
    ensures r == 0 ==> fs.IsDir(Join(Root, name)) && fs.dirs == old(fs.dirs) + {Join(Root, name)}
    ensures r == 0 ==>
      fs.files == old(fs.files) + ControlFiles(Join(Root, name), fs.controls) &&
      fs.writable == old(fs.writable) + ControlFiles(Join(Root, name), fs.controls).Keys
    ensures r != 0 ==> unchanged(fs)
  {
    var made := fs.Mkdir(Join(Root, name), permitted);
    match made
    case Made => r := 0;
    case AlreadyExists => r := 1;
    case Refused => r := -1;
  }

  // ---------------------------------------------------------------------------
  // cgroup_move_pid

  /** The files cgroup_move_pid tries, in order: the path as given, the path
      under /sys/fs/cgroup, and the cgroup-v1 "tasks" file there. */
  function Candidates(cgroupPath: string): (c: seq<string>)
    ensures |c| == 3
  {
    [Join(cgroupPath, "cgroup.procs"),
     Join(Join(Root, cgroupPath), "cgroup.procs"),
     Join(Join(Root, cgroupPath), "tasks")]
  }

  /** The first index whose flag is set, if any. */
  function FirstTrue(bs: seq<bool>): (r: Option<nat>)
    ensures r.Some? ==> r.value < |bs| && bs[r.value] && forall j :: 0 <= j < r.value ==> !bs[j]
    ensures r.None? ==> forall j :: 0 <= j < |bs| ==> !bs[j]
  {
    if bs == [] then None
    else if bs[0] then Some(0)
    else match FirstTrue(bs[1..])
      case None => None
      case Some(k) => Some(k + 1)
  }

  /** Which candidate takes the pid: the first one that passes access(W_OK)
      and whose write returns the full length. */
  function Taker(writable: set<string>, cands: seq<string>, data: string, written: seq<int>): Option<nat>
    requires |written| == |cands|
  {
    FirstTrue(seq(|cands|, k requires 0 <= k < |cands| => cands[k] in writable && written[k] == |data|))
  }

  /** Writes the pid as "%d", without a newline, to the first candidate that
      accepts it; `written` holds what each write would return. */
  method MovePid(fs: FileSystem, cgroupPath: string, pid: Int32, written: seq<int>) returns (r: int)
    requires fs.Valid()
    requires |written| == 3
    modifies fs
    ensures fs.Valid()
    ensures var t := Taker(old(fs.writable), Candidates(cgroupPath), IntToString(pid), written);
      && (r == 0 <==> t.Some?)
      && (r != 0 ==> r == -1 && unchanged(fs))
      && (t.Some? ==>
            fs.files == old(fs.files)[Candidates(cgroupPath)[t.value] := IntToString(pid)] &&
            fs.dirs == old(fs.dirs) && fs.writable == old(fs.writable))
  {
    var data := IntToString(pid);
    var cands := Candidates(cgroupPath);
    ghost var w := fs.writable;
    ghost var flags := seq(3, k requires 0 <= k < 3 => cands[k] in w && written[k] == |data|);
    assert Taker(w, cands, data, written) == FirstTrue(flags);
    var ret := -1;
    if fs.CanWrite(cands[0]) {
      ret := WriteFile(fs, cands[0], data, written[0]);
      if ret == 0 {
        assert flags[0];
        return 0;
      }
    }
    assert !flags[0];
    if fs.CanWrite(cands[1]) {
      ret := WriteFile(fs, cands[1], data, written[1]);
      if ret == 0 {
        assert flags[1] && FirstTrue(flags) == Some(1);
        return 0;
      }
    }
    assert !flags[1];
    if fs.CanWrite(cands[2]) {
      ret := WriteFile(fs, cands[2], data, written[2]);
      if ret == 0 {
        assert flags[2] && FirstTrue(flags) == Some(2);
        return 0;
      }
    }
    assert !flags[2];
    assert FirstTrue(flags) == None;
    r := -1;
  }

  // ---------------------------------------------------------------------------
  // cgroup_read_metrics

  /** A counter file to show and the label its heading carries. */
  datatype Probe = Probe(file: string, heading: string)

  const Probes: seq<Probe> := [
    Probe("cgroup.stat", "cgroup.stat"),
    Probe("cpu.stat", "cpu.stat"),
    Probe("memory.current", "memory.current"),
    Probe("memory.stat", "memory.stat"),
    Probe("io.stat", "io.stat"),
    Probe("cgroup.controllers", "controllers")]

  /** What one opened file adds to standard output: the heading, then the
      file copied line by line. */
  function Section(heading: string, path: string, text: string): (s: string)
    ensures |s| > 0
  {
    "--- " + heading + " (" + path + ") ---\n" + text
  }

  /** The output of one pass over the probes under dir. */
  function Report(files: map<string, string>, dir: string, ps: seq<Probe>): string
  {
    if ps == [] then ""
    else
      var p := Join(dir, ps[0].file);
      (if p in files then Section(ps[0].heading, p, files[p]) else "") + Report(files, dir, ps[1..])
  }

  /** Some probe file under dir opens. */
  predicate AnyOpens(files: map<string, string>, dir: string, ps: seq<Probe>)
  {
    exists i :: 0 <= i < |ps| && Join(dir, ps[i].file) in files
  }

  /** A pass prints nothing exactly when none of its files opens. */
  lemma {:induction false} ReportEmpty(files: map<string, string>, dir: string, ps: seq<Probe>)
    ensures Report(files, dir, ps) == "" <==> !AnyOpens(files, dir, ps)
  {
    if ps != [] {
      ReportEmpty(files, dir, ps[1..]);
      if AnyOpens(files, dir, ps[1..]) {
        var i :| 0 <= i < |ps[1..]| && Join(dir, ps[1..][i].file) in files;
        assert Join(dir, ps[i + 1].file) in files;
      }
      if AnyOpens(files, dir, ps) {
        var i :| 0 <= i < |ps| && Join(dir, ps[i].file) in files;
        if i > 0 {
          assert Join(dir, ps[1..][i - 1].file) in files;
        }
      }
    }
  }

  /** One probe loop: every file that opens is shown; `any` records whether
      one did. */
  method ProbePass(fs: FileSystem, dir: string, ps: seq<Probe>) returns (any: bool, out: string)
    ensures any <==> AnyOpens(fs.files, dir, ps)
    ensures out == Report(fs.files, dir, ps)
  {
    any := false;
    out := "";
    var i := 0;
    assert ps[0..] == ps;
    while i < |ps|
      invariant 0 <= i <= |ps|
      invariant Report(fs.files, dir, ps) == out + Report(fs.files, dir, ps[i..])
      invariant any <==> out != ""
    {
      var path := Join(dir, ps[i].file);
      ReportStep(fs.files, dir, ps, i, out, path);
      var f := fs.Read(path);
      if f.Some? {
        out := out + Section(ps[i].heading, path, f.value);
        any := true;
      }
      i := i + 1;
    }
    assert out + Report(fs.files, dir, ps[i..]) == out;
    ReportEmpty(fs.files, dir, ps);
  }

  /** The probe loop's invariant carries over the file at index i. */
  lemma ReportStep(files: map<string, string>, dir: string, ps: seq<Probe>, i: nat, out: string, p: string)
    requires i < |ps| && p == Join(dir, ps[i].file)
    requires Report(files, dir, ps) == out + Report(files, dir, ps[i..])
    ensures p in files ==>
      Report(files, dir, ps) == (out + Section(ps[i].heading, p, files[p])) + Report(files, dir, ps[i + 1..])
    ensures p !in files ==> Report(files, dir, ps) == out + Report(files, dir, ps[i + 1..])
  {
    SuffixStep(ps, i);
    if p in files {
      var sec, rest := Section(ps[i].heading, p, files[p]), Report(files, dir, ps[i + 1..]);
      assert out + (sec + rest) == (out + sec) + rest;
    } else {
      assert "" + Report(files, dir, ps[i + 1..]) == Report(files, dir, ps[i + 1..]);
    }
  }

  /** The first pass looks under the path as given; only when nothing opened
      there does a second pass look under /sys/fs/cgroup. -1 when neither
      pass found a file. */
  method ReadMetrics(fs: FileSystem, cgroupPath: string) returns (r: int, out: string)
    ensures var rooted := Join(Root, cgroupPath);
      && (r == 0 <==> AnyOpens(fs.files, cgroupPath, Probes) || AnyOpens(fs.files, rooted, Probes))
      && (r != 0 ==> r == -1)
      && (AnyOpens(fs.files, cgroupPath, Probes) ==> out == Report(fs.files, cgroupPath, Probes))
      && (!AnyOpens(fs.files, cgroupPath, Probes) ==> out == Report(fs.files, rooted, Probes))
  {
    var any;
    any, out := ProbePass(fs, cgroupPath, Probes);
    if !any {
      any, out := ProbePass(fs, Join(Root, cgroupPath), Probes);
    }
    if !any {
      return -1, out;
    }
    r := 0;
  }
}
