/** experiment_memory_limit (src/experiment_memory_limit.c): a group with a
    memory limit, a child that tries to allocate 50 MB more than the limit,
    thirty one-second samples of the group's memory.current, and the way the
    child ended. The child, the clock and the memory counter are inputs: the
    counter readings are a sequence of optional values (None when
    cgroup_get_memory_usage fails) and the child a sequence of polls. */
module MemoryExperiment {
  import opened Common
  import opened CgroupFs
  import opened CgroupV2
  import opened Trial

  /** The number of one-second samples. */
  const Samples: nat := 30
  const GroupName: string := "memory_limit_test"

  /** MemoryLimitResult. */
  datatype MemoryLimitResult = MemoryLimitResult(
    limitBytes: U64Val, peakUsage: U64Val, oomOccurred: int, allocationCount: int)

  /** How the sampling loop saw the child end. */
  datatype Ending = StillRunning | OomKilled | AllocationFailed | Completed | Unclassified

  /** The child allocates limit_mb + 50 MB, past the limit unless the sum
      wraps. */
  function ChildTargetMb(limitMb: U64Val): (r: U64Val)
    ensures limitMb + 50 < U64 ==> r == limitMb + 50 && r > limitMb
  {
    Wrap(limitMb + 50)
  }

  /** What a reaped child's status means: a SIGKILL is the kernel's OOM
      killer, exit status 1 the child's own allocation failure, any other
      exit a run that completed; another signal, or a failed waitpid, is not
      classified. */
  function Classify(p: Poll): (e: Ending)
    requires !p.Running?
    ensures e == OomKilled <==> p == Signaled(SIGKILL)
    ensures e == AllocationFailed <==> p == Exited(1)
    ensures e == Completed <==> p.Exited? && p.code != 1
    ensures e != StillRunning
  {
    match p
    case Signaled(sig) => if sig == SIGKILL then OomKilled else Unclassified
    case Exited(code) => if code == 1 then AllocationFailed else Completed
    case WaitFailed => Unclassified
  }

  /** The usage in whole MB of a reading that succeeded. */
  function Mb(u: U64Val): nat
  {
    u / MiB
  }

  /** The peak and the ending the sampling loop reaches from `peak` on:
      each sample reads the counter, then polls the child, and the loop
      stops at the first poll that reaps it. */
  function Watch(usages: seq<Option<U64Val>>, polls: seq<Poll>, peak: nat): (nat, Ending)
    requires |usages| == |polls|
  {
    if polls == [] then (peak, StillRunning)
    else
      var peak' := if usages[0].Some? && Mb(usages[0].value) > peak then Mb(usages[0].value) else peak;
      if polls[0].Running? then Watch(usages[1..], polls[1..], peak') else (peak', Classify(polls[0]))
  }

  /** The number of samples the loop takes: up to and including the first
      poll that reaps the child. */
  function Taken(polls: seq<Poll>): (n: nat)
    ensures n <= |polls|
  {
    if polls == [] then 0
    else if polls[0].Running? then 1 + Taken(polls[1..])
    else 1
  }

  /** The peak is the largest MB value among the readings that succeeded in
      the samples taken (or the starting value, when none is larger); the
      readings that failed play no part. */
  lemma {:induction false} WatchPeak(usages: seq<Option<U64Val>>, polls: seq<Poll>, peak: nat)
    requires |usages| == |polls|
    ensures var p := Watch(usages, polls, peak).0;
      && p >= peak
      && (forall j :: 0 <= j < Taken(polls) && usages[j].Some? ==> Mb(usages[j].value) <= p)
      && (p == peak || exists j :: 0 <= j < Taken(polls) && usages[j].Some? && p == Mb(usages[j].value))
  {
    if polls != [] {
      var peak' := if usages[0].Some? && Mb(usages[0].value) > peak then Mb(usages[0].value) else peak;
      if polls[0].Running? {
        WatchPeak(usages[1..], polls[1..], peak');
        var p := Watch(usages, polls, peak).0;
        forall j | 0 <= j < Taken(polls) && usages[j].Some?
          ensures Mb(usages[j].value) <= p
        {
          if j > 0 {
            assert usages[1..][j - 1] == usages[j];
          }
        }
        if p != peak' {
          var j :| 0 <= j < Taken(polls[1..]) && usages[1..][j].Some? && p == Mb(usages[1..][j].value);
          assert usages[j + 1] == usages[1..][j];
        }
      }
    }
  }

  /** The loop ends with the child still running exactly when no poll
      reaped it; otherwise the ending is the classification of the first
      poll that did, and every earlier poll found it running. */
  lemma {:induction false} WatchEnding(usages: seq<Option<U64Val>>, polls: seq<Poll>, peak: nat)
    requires |usages| == |polls|
    ensures var e := Watch(usages, polls, peak).1;
      && (e == StillRunning <==> forall j :: 0 <= j < |polls| ==> polls[j].Running?)
      && (e != StillRunning ==>
            0 < Taken(polls) && !polls[Taken(polls) - 1].Running? &&
            e == Classify(polls[Taken(polls) - 1]) &&
            forall j :: 0 <= j < Taken(polls) - 1 ==> polls[j].Running?)
  {
    if polls != [] {
      var peak' := if usages[0].Some? && Mb(usages[0].value) > peak then Mb(usages[0].value) else peak;
      if polls[0].Running? {
        WatchEnding(usages[1..], polls[1..], peak');
        var e := Watch(usages, polls, peak).1;
        if forall j :: 0 <= j < |polls[1..]| ==> polls[1..][j].Running? {
          forall j | 0 <= j < |polls| ensures polls[j].Running? {
            if j > 0 {
              assert polls[j] == polls[1..][j - 1];
            }
          }
        } else {
          var k := Taken(polls[1..]) - 1;
          assert polls[k + 1] == polls[1..][k];
          forall j | 0 <= j < Taken(polls) - 1 ensures polls[j].Running? {
            if j > 0 {
              assert polls[j] == polls[1..][j - 1];
            }
          }
        }
      }
    }
  }

  /** The sampling loop: thirty samples at most; a reading that succeeds
      raises the peak when its MB value is larger, and the loop leaves as
      soon as waitpid reports the child. */
  method Monitor(usages: seq<Option<U64Val>>, polls: seq<Poll>) returns (peak: nat, ending: Ending)
    requires |usages| == Samples && |polls| == Samples
    ensures (peak, ending) == Watch(usages, polls, 0)
  {
    peak := 0;
    ending := StillRunning;
    var i := 0;
    while i < Samples
      invariant 0 <= i <= Samples
      invariant Watch(usages, polls, 0) == Watch(usages[i..], polls[i..], peak)
    {
      SuffixStep(usages, i);
      SuffixStep(polls, i);
      var u := usages[i];
      if u.Some? {
        var usageMb := u.value / MiB;
        if usageMb > peak {
          peak := usageMb;
        }
      }
      if !polls[i].Running? {
        ending := Classify(polls[i]);
        return;
      }
      i := i + 1;
    }
  }

  /** The result fields: the limit in bytes, the peak in bytes and in MB,
      and whether the OOM killer ended the child. */
  function Summary(limitMb: U64Val, peak: nat, ending: Ending): (r: MemoryLimitResult)
    ensures r.oomOccurred == 1 <==> ending == OomKilled
    ensures r.oomOccurred == 0 || r.oomOccurred == 1
    ensures r.limitBytes == MebiBytes(limitMb)
    ensures peak < U64 / MiB ==> r.peakUsage == peak * MiB
  {
    MemoryLimitResult(MebiBytes(limitMb), Wrap(peak * MiB), if ending == OomKilled then 1 else 0, ToInt32(peak))
  }

  /** The verdict printed in the report: the peak stays within 5 MB of the
      limit (limit_mb + 5 in unsigned long arithmetic). */
  function LimitEnforced(limitMb: U64Val, peak: nat): (b: bool)
    ensures limitMb + 5 < U64 ==> (b <==> peak <= limitMb + 5)
  {
    peak <= Wrap(limitMb + 5)
  }

  /** A peak taken from readings is a whole number of MB of a 64-bit
      counter, so scaling it back to bytes cannot wrap. */
  lemma PeakFits(usages: seq<Option<U64Val>>, polls: seq<Poll>)
    requires |usages| == |polls|
    ensures Watch(usages, polls, 0).0 < U64 / MiB
  {
    WatchPeak(usages, polls, 0);
    var p := Watch(usages, polls, 0).0;
    if p != 0 {
      var j :| 0 <= j < Taken(polls) && usages[j].Some? && p == Mb(usages[j].value);
    }
  }

  /** experiment_memory_limit: -1 when the report file does not open, when
      the group cannot be made, when the memory limit is refused (`setMaxCode`
      is what cgroup_set_memory_max returns) or when the child cannot be
      added; otherwise 0 with the result filled in. Once the group exists
      every path ends with cgroup_delete, which removes it unless `busy`
      (the kernel still counting a process in it) or a directory below it
      stops rmdir. */
  method Run(fs: FileSystem, limitMb: U64Val, reportOpens: bool, permitted: bool, setMaxCode: int,
             pid: Int32, usages: seq<Option<U64Val>>, polls: seq<Poll>, busy: bool,
             result0: MemoryLimitResult)
    returns (r: int, result: MemoryLimitResult, enforced: bool)
    requires fs.Valid()
    requires |usages| == Samples && |polls| == Samples
    modifies fs
    ensures fs.Valid()
    ensures var created := reportOpens && old(Vacant(fs.dirs, fs.files, GroupName)) && permitted;
      && (r == 0 <==> created && setMaxCode == 0 &&
                      old(AcceptsAfterCreate(fs.writable, fs.controls, GroupName, "cgroup.procs")))
      && (r != 0 ==> r == -1 && result == result0)
      && (!created ==> unchanged(fs))
      && (created ==> Restored(fs, old(fs.dirs), old(fs.files), old(fs.writable), GroupName, busy))
    ensures r == 0 ==>
      var w := Watch(usages, polls, 0);
      result == Summary(limitMb, w.0, w.1) && enforced == LimitEnforced(limitMb, w.0) &&
      result.peakUsage == w.0 * MiB
  {
    result := result0;
    enforced := false;
    if !reportOpens {
      return -1, result, enforced;
    }
    ghost var dirs0, files0, writable0 := fs.dirs, fs.files, fs.writable;
    var c := Prepare(fs, GroupName, permitted);
    if c != 0 {
      return -1, result, enforced;
    }
    var limitBytes := MebiBytes(limitMb);
    if setMaxCode != 0 {
      Teardown(fs, GroupName, busy, dirs0, files0, writable0);
      return -1, result, enforced;
    }
    ghost var before := fs.files;
    var a := AddProcess(fs, GroupName, pid);
    if a != 0 {
      Teardown(fs, GroupName, busy, dirs0, files0, writable0);
      return -1, result, enforced;
    }
    StagedWrite(fs, dirs0, files0, writable0, GroupName, before, "cgroup.procs", DecimalLine(pid));
    var peak, ending := Monitor(usages, polls);
    PeakFits(usages, polls);
    result := Summary(limitMb, peak, ending);
    enforced := LimitEnforced(limitMb, peak);
    Teardown(fs, GroupName, busy, dirs0, files0, writable0);
    r := 0;
  }
}
