/** experiment_cpu_throttling (src/experiment_cpu_throttling.c): the
    average CPU usage of a busy child over `duration` one-second samples,
    first with no limit and then in a group whose cpu.max allows
    throttle_percent of one CPU. read_cpu_stats and calculate_cpu_usage have
    no body in the repository, so each phase's per-sample usages are an
    input. An average of no samples is 0.0 / 0 in C, not a number: it is
    None here. */
module CpuExperiment {
  import opened Common
  import opened CgroupFs
  import opened CgroupV2
  import opened Trial

  const Period: int := 100000
  const GroupName: string := "cpu_throttle_test"

  /** CPUThrottleResult; the usages are None where C would hold NaN. */
  datatype CPUThrottleResult = CPUThrottleResult(
    throttledUsage: Option<real>, unthrottledUsage: Option<real>,
    throttlePercent: real, durationSeconds: int)

  /** period * throttle_percent / 100 with C's truncating division. */
  function Quota(throttlePercent: Int32): (q: Long)
    ensures q == 1000 * throttlePercent
  {
    CDiv(Period * throttlePercent, 100)
  }

  /** The cpu.max text the throttled phase asks for: a negative percentage
      becomes no limit at all, and 100 percent is a whole CPU per period. */
  lemma QuotaText(throttlePercent: Int32)
    ensures throttlePercent < 0 ==> CpuMaxText(Quota(throttlePercent), Period) == CpuMaxText(-1, Period)
    ensures throttlePercent >= 0 ==>
      CpuMaxText(Quota(throttlePercent), Period) == IntToString(1000 * throttlePercent) + " 100000\n"
    ensures throttlePercent == 100 ==> Quota(throttlePercent) == Period
  {
    var q := Quota(throttlePercent);
    PeriodText();
    if q >= 0 {
      assert CpuMaxText(q, Period) == IntToString(q) + " " + "100000" + "\n";
      assert IntToString(q) + " " + "100000" + "\n" == IntToString(q) + " 100000\n";
    }
  }

  /** The period prints as "100000". */
  lemma PeriodText()
    ensures IntToString(Period) == "100000"
  {
    assert NatToString(1) == "1";
    assert NatToString(10) == NatToString(1) + "0";
    assert NatToString(100) == NatToString(10) + "0";
    assert NatToString(1000) == NatToString(100) + "0";
    assert NatToString(10000) == NatToString(1000) + "0";
    assert NatToString(100000) == NatToString(10000) + "0";
  }

  function Sum(xs: seq<real>): real
  {
    if xs == [] then 0.0 else Sum(xs[..|xs| - 1]) + xs[|xs| - 1]
  }

  /** total / samples, with no guard for samples == 0. */
  function Average(xs: seq<real>): (a: Option<real>)
    ensures a.Some? <==> |xs| > 0
  {
    if |xs| == 0 then None else Some(Sum(xs) / |xs| as real)
  }

  lemma {:induction false} SumBounds(xs: seq<real>, lo: real, hi: real)
    requires forall j :: 0 <= j < |xs| ==> lo <= xs[j] <= hi
    ensures |xs| as real * lo <= Sum(xs) <= |xs| as real * hi
  {
    if xs != [] {
      SumBounds(xs[..|xs| - 1], lo, hi);
    }
  }

  /** An average lies between the least and the greatest sample. */
  lemma AverageBounds(xs: seq<real>, lo: real, hi: real)
    requires |xs| > 0
    requires forall j :: 0 <= j < |xs| ==> lo <= xs[j] <= hi
    ensures lo <= Average(xs).value <= hi
  {
    SumBounds(xs, lo, hi);
    var n := |xs| as real;
    assert Sum(xs) / n >= (n * lo) / n;
    assert Sum(xs) / n <= (n * hi) / n;
  }

  /** One phase: `duration` samples summed, then divided by their count. */
  method Phase(usages: seq<real>, duration: Int32) returns (average: Option<real>)
    requires Iterations(duration) <= |usages|
    ensures average == Average(usages[..Iterations(duration)])
  {
    var total := 0.0;
    var samples := 0;
    var i := 0;
    while i < duration
      invariant 0 <= i <= Iterations(duration)
      invariant samples == i
      invariant total == Sum(usages[..i])
    {
      assert usages[..i + 1][..i] == usages[..i];
      total := total + usages[i];
      samples := samples + 1;
      i := i + 1;
    }
    average := if samples == 0 then None else Some(total / samples as real);
  }

  /** The effective reduction printed in the summary. */
  function Reduction(result: CPUThrottleResult): (d: Option<real>)
    ensures d.Some? <==> result.unthrottledUsage.Some? && result.throttledUsage.Some?
    ensures d.Some? ==> result.unthrottledUsage.value == result.throttledUsage.value + d.value
  {
    if result.unthrottledUsage.Some? && result.throttledUsage.Some? then
      Some(result.unthrottledUsage.value - result.throttledUsage.value)
    else None
  }

  /** experiment_cpu_throttling: -1 when the report file does not open, the
      group cannot be made, cpu.max is refused or the throttled child
      cannot be added; 0 otherwise. The unthrottled average is stored as
      soon as the first phase ends, so it is there on the later failure
      paths too; the other fields are set only on success. Every path after
      the group was made ends with cgroup_delete. */
  method Run(fs: FileSystem, throttlePercent: Int32, duration: Int32, reportOpens: bool, permitted: bool,
             pid: Int32, baseline: seq<real>, throttled: seq<real>, busy: bool, result0: CPUThrottleResult)
    returns (r: int, result: CPUThrottleResult, reduction: Option<real>)
    requires fs.Valid()
    requires Iterations(duration) <= |baseline| && Iterations(duration) <= |throttled|
    modifies fs
    ensures fs.Valid()
    ensures var created := reportOpens && old(Vacant(fs.dirs, fs.files, GroupName)) && permitted;
      && (r == 0 <==> created && old(AcceptsAfterCreate(fs.writable, fs.controls, GroupName, "cpu.max")) &&
                      old(AcceptsAfterCreate(fs.writable, fs.controls, GroupName, "cgroup.procs")))
      && (r != 0 ==> r == -1)
      && (!created ==> unchanged(fs) && result == result0)
      && (created ==> Restored(fs, old(fs.dirs), old(fs.files), old(fs.writable), GroupName, busy))
      && (created && r != 0 ==>
            result == result0.(unthrottledUsage := Average(baseline[..Iterations(duration)])))
    ensures r == 0 ==>
      && result == CPUThrottleResult(
           Average(throttled[..Iterations(duration)]), Average(baseline[..Iterations(duration)]),
           throttlePercent as real, duration)
      && reduction == Reduction(result)
  {
    result := result0;
    reduction := None;
    if !reportOpens {
      return -1, result, reduction;
    }
    ghost var dirs0, files0, writable0 := fs.dirs, fs.files, fs.writable;
    var c := Prepare(fs, GroupName, permitted);
    if c != 0 {
      return -1, result, reduction;
    }
    r, result, reduction := Phases(fs, throttlePercent, duration, pid, baseline, throttled, busy, result,
                                   dirs0, files0, writable0);
  }

  /** The experiment once its group is there: the unthrottled phase, the
      cpu.max write, the move of the child into the group, the throttled
      phase, and cgroup_delete on every way out. */
  method Phases(fs: FileSystem, throttlePercent: Int32, duration: Int32, pid: Int32,
                baseline: seq<real>, throttled: seq<real>, busy: bool, result0: CPUThrottleResult,
                ghost dirs0: set<string>, ghost files0: map<string, string>, ghost writable0: set<string>)
    returns (r: int, result: CPUThrottleResult, reduction: Option<real>)
    requires fs.Valid()
    requires Staged(fs, dirs0, files0, writable0, GroupName) && Exists(fs, GroupName)
    requires forall file :: fs.CanWrite(ControlPath(GroupName, file)) <==>
      AcceptsAfterCreate(writable0, fs.controls, GroupName, file)
    requires Iterations(duration) <= |baseline| && Iterations(duration) <= |throttled|
    modifies fs
    ensures fs.Valid()
    ensures r == 0 <==> AcceptsAfterCreate(writable0, fs.controls, GroupName, "cpu.max") &&
                        AcceptsAfterCreate(writable0, fs.controls, GroupName, "cgroup.procs")
    ensures r != 0 ==> r == -1 && result == result0.(unthrottledUsage := Average(baseline[..Iterations(duration)]))
    ensures Restored(fs, dirs0, files0, writable0, GroupName, busy)
    ensures r == 0 ==>
      && result == CPUThrottleResult(
           Average(throttled[..Iterations(duration)]), Average(baseline[..Iterations(duration)]),
           throttlePercent as real, duration)
      && reduction == Reduction(result)
  {
    result := result0;
    reduction := None;
    var unthrottled := Phase(baseline, duration);
    result := result.(unthrottledUsage := unthrottled);
    var quota := Quota(throttlePercent);
    ghost var maxOk := AcceptsAfterCreate(writable0, fs.controls, GroupName, "cpu.max");
    ghost var procsOk := AcceptsAfterCreate(writable0, fs.controls, GroupName, "cgroup.procs");
    assert fs.CanWrite(ControlPath(GroupName, "cpu.max")) == maxOk;
    assert fs.CanWrite(ControlPath(GroupName, "cgroup.procs")) == procsOk;
    ghost var before := fs.files;
    var s := SetCpuMax(fs, GroupName, quota, Period);
    assert s == 0 <==> maxOk;
    if s != 0 {
      Teardown(fs, GroupName, busy, dirs0, files0, writable0);
      return -1, result, reduction;
    }
    StagedWrite(fs, dirs0, files0, writable0, GroupName, before, "cpu.max", CpuMaxText(quota, Period));
    before := fs.files;
    assert fs.CanWrite(ControlPath(GroupName, "cgroup.procs")) == procsOk && Exists(fs, GroupName);
    var a := AddProcess(fs, GroupName, pid);
    assert a == 0 <==> procsOk;
    if a != 0 {
      Teardown(fs, GroupName, busy, dirs0, files0, writable0);
      return -1, result, reduction;
    }
    StagedWrite(fs, dirs0, files0, writable0, GroupName, before, "cgroup.procs", DecimalLine(pid));
    var average := Phase(throttled, duration);
    result := result.(throttledUsage := average, throttlePercent := throttlePercent as real,
                      durationSeconds := duration);
    reduction := Reduction(result);
    Teardown(fs, GroupName, busy, dirs0, files0, writable0);
    r := 0;
  }
}
