/** experiment_io_limit (src/experiment_io_limit.c): the write rate of a
    busy child measured from /proc/diskstats, first with no limit and then
    in a group whose io.max caps writes to limit_mbps. Each read_io_stats
    call sees one snapshot of /proc/diskstats (None when it does not open);
    the snapshots are inputs. */
module IoExperiment {
  import opened Common
  import opened Scanf
  import opened CgroupFs
  import opened CgroupV2
  import opened IoMonitor
  import opened Trial

  const GroupName: string := "io_limit_test"
  /** The device the limit is written for: major 8, minor 0. */
  const LimitDevice: string := "8:0"

  /** IOLimitResult. */
  datatype IOLimitResult = IOLimitResult(
    limitBps: U64Val, measuredBps: U64Val, slowdownPercent: real, durationSeconds: int)

  /** The record read_io_stats leaves behind: untouched when the file does
      not open, otherwise whatever the rows it scanned wrote into it, the
      matching row's values when one matched. */
  function Overwritten(file: Option<string>, device: string, st0: IOStats): IOStats
  {
    match file
    case None => st0
    case Some(content) => DiskFold(Scans(Lines(content)), device, st0).stats
  }

  /** read_io_stats into a record whose old contents matter on failure. */
  method Reread(file: Option<string>, device: string, st0: IOStats) returns (code: int, st: IOStats)
    ensures code == 0 <==> DiskRead(file, device).Some?
    ensures code == 0 ==> st == DiskRead(file, device).value
    ensures st == Overwritten(file, device, st0)
  {
    code, st := ReadIoStats(file, device, st0);
    if file.Some? {
      DiskFoldIndependent(Scans(Lines(file.value)), device, st0, UnsetIOStats);
    }
  }

  /** The device probe: sda; vda when sda's lookup fails; nvme0n1 when vda's
      fails too, whether or not that last lookup succeeds. The record holds
      what the probes left in it. */
  function Probe(probes: seq<Option<string>>, st0: IOStats): (IOStats, string)
    requires |probes| == 3
  {
    var s1 := Overwritten(probes[0], "sda", st0);
    if DiskRead(probes[0], "sda").Some? then (s1, "sda")
    else
      var s2 := Overwritten(probes[1], "vda", s1);
      if DiskRead(probes[1], "vda").Some? then (s2, "vda")
      else (Overwritten(probes[2], "nvme0n1", s2), "nvme0n1")
  }

  /** Which device the experiment measures, and the starting record when
      the lookup that chose it succeeded. */
  lemma ProbeChoice(probes: seq<Option<string>>, st0: IOStats)
    requires |probes| == 3
    ensures var (st, device) := Probe(probes, st0);
      && (device == "sda" <==> DiskRead(probes[0], "sda").Some?)
      && (device == "vda" <==> DiskRead(probes[0], "sda").None? && DiskRead(probes[1], "vda").Some?)
      && (device == "nvme0n1" <==> DiskRead(probes[0], "sda").None? && DiskRead(probes[1], "vda").None?)
      && (DiskRead(probes[2], "nvme0n1").Some? || device != "nvme0n1" ==>
            Some(st) == DiskRead(probes[if device == "sda" then 0 else if device == "vda" then 1 else 2], device))
  {
    var s1 := Overwritten(probes[0], "sda", st0);
    if DiskRead(probes[0], "sda").None? {
      var s2 := Overwritten(probes[1], "vda", s1);
      if DiskRead(probes[1], "vda").None? {
        if probes[2].Some? {
          DiskFoldIndependent(Scans(Lines(probes[2].value)), "nvme0n1", s2, UnsetIOStats);
        }
      } else {
        DiskFoldIndependent(Scans(Lines(probes[1].value)), "vda", s1, UnsetIOStats);
      }
    } else {
      DiskFoldIndependent(Scans(Lines(probes[0].value)), "sda", st0, UnsetIOStats);
    }
  }

  /** The bytes one sample adds: the sector delta times 512, in unsigned
      long long arithmetic. */
  function Written(prev: IOStats, curr: IOStats): U64Val
  {
    Wrap((curr.sectorsWritten - prev.sectorsWritten) * 512)
  }

  /** The byte total a phase reaches from `bytes` on: a successful reading
      adds its delta against the last successful one and becomes the new
      previous reading; a failed one adds nothing. */
  function Accumulate(prev: IOStats, readings: seq<Option<IOStats>>, bytes: U64Val): U64Val
    decreases |readings|
  {
    if readings == [] then bytes
    else if readings[0].None? then Accumulate(prev, readings[1..], bytes)
    else Accumulate(readings[0].value, readings[1..], Wrap(bytes + Written(prev, readings[0].value)))
  }

  /** The per-sample deltas telescope: a phase's total is 512 bytes per
      sector between the starting record and the last successful reading,
      modulo 2^64, however many readings failed in between. */
  lemma {:induction false} AccumulateTelescopes(prev: IOStats, readings: seq<Option<IOStats>>, bytes: U64Val)
    ensures Accumulate(prev, readings, bytes) ==
      Wrap(bytes + (LastReading(prev, readings).sectorsWritten - prev.sectorsWritten) * 512)
    decreases |readings|
  {
    if readings != [] {
      if readings[0].None? {
        AccumulateTelescopes(prev, readings[1..], bytes);
      } else {
        var c := readings[0].value;
        var b' := Wrap(bytes + Written(prev, c));
        AccumulateTelescopes(c, readings[1..], b');
        var last := LastReading(c, readings[1..]);
        assert Accumulate(prev, readings, bytes) == Accumulate(c, readings[1..], b');
        assert LastReading(prev, readings) == last;
        Telescope(bytes, prev, c, last);
      }
    }
  }

  /** Two wrapped sector deltas add up to the wrapped delta across both. */
  lemma Telescope(bytes: int, prev: IOStats, c: IOStats, last: IOStats)
    ensures Wrap(Wrap(bytes + Written(prev, c)) + (last.sectorsWritten - c.sectorsWritten) * 512)
         == Wrap(bytes + (last.sectorsWritten - prev.sectorsWritten) * 512)
  {
    var d1, d2 := (c.sectorsWritten - prev.sectorsWritten) * 512, (last.sectorsWritten - c.sectorsWritten) * 512;
    WrapAdd(d1, bytes);
    WrapAdd(bytes + d1, d2);
    assert bytes + d1 + d2 == bytes + (last.sectorsWritten - prev.sectorsWritten) * 512;
  }

  /** One phase: `duration` samples; only the successful ones add bytes and
      advance the previous reading. */
  method Phase(files: seq<Option<string>>, device: string, duration: Int32, prev0: IOStats)
    returns (bytes: U64Val, prev: IOStats)
    requires Iterations(duration) <= |files|
    ensures bytes == Accumulate(prev0, IoReadings(files[..Iterations(duration)], device), 0)
    ensures prev == LastReading(prev0, IoReadings(files[..Iterations(duration)], device))
  {
    ghost var readings := IoReadings(files[..Iterations(duration)], device);
    assert forall k :: 0 <= k < |readings| ==> readings[k] == DiskRead(files[k], device);
    bytes, prev := PhaseLoop(files, device, duration, prev0, readings);
  }

  /** The sampling loop of a phase, reading i being what the i-th
      read_io_stats call sees. */
  method PhaseLoop(files: seq<Option<string>>, device: string, duration: Int32, prev0: IOStats,
                   ghost readings: seq<Option<IOStats>>)
    returns (bytes: U64Val, prev: IOStats)
    requires Iterations(duration) <= |files| && |readings| == Iterations(duration)
    requires forall k :: 0 <= k < |readings| ==> readings[k] == DiskRead(files[k], device)
    ensures bytes == Accumulate(prev0, readings, 0)
    ensures prev == LastReading(prev0, readings)
  {
    bytes := 0;
    prev := prev0;
    var curr := prev0;
    var i := 0;
    assert readings[0..] == readings;
    while i < duration
      invariant 0 <= i <= |readings|
      invariant PhaseFrom(prev0, readings, i, prev, bytes)
    {
      var code;
      code, curr := ReadReading(files[i], device, curr, readings[i]);
      prev, bytes := Advance(code, curr, prev, bytes, prev0, readings, i);
      i := i + 1;
    }
    assert readings[i..] == [];
  }

  /** One read_io_stats call of the loop, whose outcome is the reading o. */
  method ReadReading(file: Option<string>, device: string, curr0: IOStats, ghost o: Option<IOStats>)
    returns (code: int, curr: IOStats)
    requires o == DiskRead(file, device)
    ensures code == 0 <==> o.Some?
    ensures code == 0 ==> curr == o.value
  {
    code, curr := ReadInto(file, device, curr0);
  }

  /** What a sample does with its reading: a successful one adds the bytes
      written since the previous reading and becomes the previous reading,
      which carries the phase from reading i to reading i + 1. */
  method Advance(code: int, curr: IOStats, prev0: IOStats, bytes0: U64Val,
                 ghost start: IOStats, ghost readings: seq<Option<IOStats>>, ghost i: nat)
    returns (prev: IOStats, bytes: U64Val)
    requires i < |readings| && (code == 0 <==> readings[i].Some?)
    requires code == 0 ==> curr == readings[i].value
    requires PhaseFrom(start, readings, i, prev0, bytes0)
    ensures PhaseFrom(start, readings, i + 1, prev, bytes)
  {
    PhaseStep(start, readings, i, prev0, bytes0, readings[i]);
    prev, bytes := prev0, bytes0;
    if code == 0 {
      var written := Written(prev, curr);
      bytes := Wrap(bytes + written);
      prev := curr;
    }
  }

  /** After i readings the phase has `bytes` and `prev`, and the remaining
      readings take it to the phase's totals. */
  predicate PhaseFrom(prev0: IOStats, readings: seq<Option<IOStats>>, i: nat, prev: IOStats, bytes: U64Val)
    requires i <= |readings|
  {
    Accumulate(prev0, readings, 0) == Accumulate(prev, readings[i..], bytes)
    && LastReading(prev0, readings) == LastReading(prev, readings[i..])
  }

  /** The invariant of PhaseLoop carries over reading i. */
  lemma PhaseStep(prev0: IOStats, readings: seq<Option<IOStats>>, i: nat, prev: IOStats, bytes: U64Val,
                  o: Option<IOStats>)
    requires i < |readings| && o == readings[i]
    requires PhaseFrom(prev0, readings, i, prev, bytes)
    ensures o.None? ==> PhaseFrom(prev0, readings, i + 1, prev, bytes)
    ensures o.Some? ==> PhaseFrom(prev0, readings, i + 1, o.value, Wrap(bytes + Written(prev, o.value)))
  {
    SuffixStep(readings, i);
  }

  /** bytes / (1024.0 * 1024.0 * duration): None for a zero duration, where
      C divides by zero. */
  function Rate(bytes: U64Val, duration: Int32): (mbps: Option<real>)
    ensures mbps.Some? <==> duration != 0
    ensures duration > 0 ==> mbps.value >= 0.0
  {
    if duration == 0 then None else Some(bytes as real / (MiB as real * duration as real))
  }

  /** The slowdown: 0 unless the baseline rate is positive. */
  function Slowdown(baseline: Option<real>, limited: Option<real>): real
  {
    if baseline.Some? && baseline.value > 0.0 && limited.Some? then
      (baseline.value - limited.value) / baseline.value * 100.0
    else 0.0
  }

  /** The slowdown lies in [0, 100] when the limited rate is no more than
      the baseline, is 100 when nothing was written under the limit, and
      is 0 whenever the baseline is not positive. */
  lemma SlowdownBounds(baseline: Option<real>, limited: Option<real>)
    ensures (baseline.None? || baseline.value <= 0.0) ==> Slowdown(baseline, limited) == 0.0
    ensures baseline.Some? && baseline.value > 0.0 && limited.Some? && 0.0 <= limited.value <= baseline.value ==>
      0.0 <= Slowdown(baseline, limited) <= 100.0
    ensures baseline.Some? && baseline.value > 0.0 && limited == Some(0.0) ==> Slowdown(baseline, limited) == 100.0
  {
    if baseline.Some? && baseline.value > 0.0 && limited.Some? && 0.0 <= limited.value <= baseline.value {
      var b, l := baseline.value, limited.value;
      assert (b - l) / b <= 1.0;
      assert (b - l) / b >= 0.0;
    }
  }

  /** (unsigned long)limited_mbps: the rate truncated to a whole number. */
  function Measured(mbps: Option<real>): (r: U64Val)
    ensures mbps.Some? && 0.0 <= mbps.value < U64 as real ==> r as real <= mbps.value < r as real + 1.0
  {
    if mbps.Some? && 0.0 <= mbps.value < U64 as real then mbps.value.Floor else 0
  }

  /** The result of a run that gets through: the limited phase starts from
      the record the lookup before it left, and the baseline phase from the
      one the device probe left. */
  function Outcome(limitMbps: U64Val, duration: Int32, probes: seq<Option<string>>,
                   baseline: seq<Option<string>>, start: Option<string>, limited: seq<Option<string>>,
                   st0: IOStats): IOLimitResult
    requires |probes| == 3
    requires Iterations(duration) <= |baseline| && Iterations(duration) <= |limited|
  {
    var n := Iterations(duration);
    var (first, device) := Probe(probes, st0);
    var base := IoReadings(baseline[..n], device);
    var begin := Overwritten(start, device, LastReading(first, base));
    var baseRate := Rate(Accumulate(first, base, 0), duration);
    var limRate := Rate(Accumulate(begin, IoReadings(limited[..n], device), 0), duration);
    IOLimitResult(MebiBytes(limitMbps), Measured(limRate), Slowdown(baseRate, limRate), duration)
  }

  /** The probe and the baseline phase. */
  method MeasureBaseline(probes: seq<Option<string>>, baseline: seq<Option<string>>, duration: Int32, st0: IOStats)
    returns (device: string, prev: IOStats, mbps: Option<real>)
    requires |probes| == 3
    requires Iterations(duration) <= |baseline|
    ensures var (first, d) := Probe(probes, st0);
      var base := IoReadings(baseline[..Iterations(duration)], d);
      && device == d
      && prev == LastReading(first, base)
      && mbps == Rate(Accumulate(first, base, 0), duration)
  {
    var code;
    device := "sda";
    code, prev := Reread(probes[0], device, st0);
    if code != 0 {
      device := "vda";
      code, prev := Reread(probes[1], device, prev);
      if code != 0 {
        device := "nvme0n1";
        code, prev := Reread(probes[2], device, prev);
      }
    }
    var bytes;
    bytes, prev := Phase(baseline, device, duration, prev);
    mbps := Rate(bytes, duration);
  }

  /** The lookup that starts the limited phase, and the phase. */
  method MeasureLimited(start: Option<string>, limited: seq<Option<string>>, device: string, duration: Int32,
                        prev0: IOStats)
    returns (mbps: Option<real>)
    requires Iterations(duration) <= |limited|
    ensures mbps ==
      Rate(Accumulate(Overwritten(start, device, prev0), IoReadings(limited[..Iterations(duration)], device), 0), duration)
  {
    var code, prev := Reread(start, device, prev0);
    var bytes;
    bytes, prev := Phase(limited, device, duration, prev);
    mbps := Rate(bytes, duration);
  }

  /** experiment_io_limit: -1 when the report file does not open, the group
      cannot be made or the limited child cannot be added; 0 otherwise,
      with the result filled in. A refused io.max write is only logged, and
      so is a failed lookup at the start of the limited phase, which leaves
      in the record what the scanned rows wrote. Every path after the group
      was made ends with cgroup_delete. */
  method Run(fs: FileSystem, limitMbps: U64Val, duration: Int32, reportOpens: bool, permitted: bool,
             probes: seq<Option<string>>, baseline: seq<Option<string>>, start: Option<string>,
             limited: seq<Option<string>>, pid: Int32, busy: bool, st0: IOStats, result0: IOLimitResult)
    returns (r: int, result: IOLimitResult)
    requires fs.Valid()
    requires |probes| == 3
    requires Iterations(duration) <= |baseline| && Iterations(duration) <= |limited|
    modifies fs
    ensures fs.Valid()
    ensures var created := reportOpens && old(Vacant(fs.dirs, fs.files, GroupName)) && permitted;
      && (r == 0 <==> created && old(AcceptsAfterCreate(fs.writable, fs.controls, GroupName, "cgroup.procs")))
      && (r != 0 ==> r == -1 && result == result0)
      && (!created ==> unchanged(fs))
      && (created ==> Restored(fs, old(fs.dirs), old(fs.files), old(fs.writable), GroupName, busy))
    ensures r == 0 ==> result == Outcome(limitMbps, duration, probes, baseline, start, limited, st0)
  {
    result := result0;
    if !reportOpens {
      return -1, result;
    }
    ghost var dirs0, files0, writable0 := fs.dirs, fs.files, fs.writable;
    var c := Prepare(fs, GroupName, permitted);
    if c != 0 {
      return -1, result;
    }
    var device, prev, baselineMbps := MeasureBaseline(probes, baseline, duration, st0);
    var limitBps := MebiBytes(limitMbps);
    ghost var before := fs.files;
    var s := SetIoMax(fs, GroupName, LimitDevice, 0, limitBps);
    if s == 0 {
      StagedWrite(fs, dirs0, files0, writable0, GroupName, before, "io.max", IoMaxText(LimitDevice, 0, limitBps));
    }
    before := fs.files;
    var a := AddProcess(fs, GroupName, pid);
    if a != 0 {
      Teardown(fs, GroupName, busy, dirs0, files0, writable0);
      return -1, result;
    }
    StagedWrite(fs, dirs0, files0, writable0, GroupName, before, "cgroup.procs", DecimalLine(pid));
    result := Conclude(limitMbps, duration, probes, baseline, start, limited, st0, device, prev, baselineMbps);
    Teardown(fs, GroupName, busy, dirs0, files0, writable0);
    r := 0;
  }

  /** The limited phase and the result fields, once the child is in the
      group: the phase starts from the record the baseline left. */
  method Conclude(limitMbps: U64Val, duration: Int32, probes: seq<Option<string>>,
                  baseline: seq<Option<string>>, start: Option<string>, limited: seq<Option<string>>,
                  st0: IOStats, device: string, prev: IOStats, baselineMbps: Option<real>)
    returns (result: IOLimitResult)
    requires |probes| == 3
    requires Iterations(duration) <= |baseline| && Iterations(duration) <= |limited|
    requires var (first, d) := Probe(probes, st0);
      var base := IoReadings(baseline[..Iterations(duration)], d);
      && device == d
      && prev == LastReading(first, base)
      && baselineMbps == Rate(Accumulate(first, base, 0), duration)
    ensures result == Outcome(limitMbps, duration, probes, baseline, start, limited, st0)
  {
    var limitedMbps := MeasureLimited(start, limited, device, duration, prev);
    var slowdown := 0.0;
    if baselineMbps.Some? && baselineMbps.value > 0.0 && limitedMbps.Some? {
      slowdown := (baselineMbps.value - limitedMbps.value) / baselineMbps.value * 100.0;
    }
    result := IOLimitResult(MebiBytes(limitMbps), Measured(limitedMbps), slowdown, duration);
  }
}
