/** src/experiments.c: the namespace isolation experiment, whose child runs
    in a new namespace made by clone(2), and save_experiment_results, which
    appends one experiment's result to a results file. The child's fate is
    seen through waitpid(WNOHANG) polls and kill(pid, 0) probes, both
    inputs, and the marker files the child leaves in /tmp are a set of
    paths. */
module Experiments {
  import opened Common
  import opened Trial
  import MemoryExperiment
  import CpuExperiment
  import IoExperiment

  // ---------------------------------------------------------------------------
  // experiment_namespace_isolation

  /** ns_types, indexed by the ns_type argument. */
  const NsNames: seq<string> := ["PID", "NET", "MNT", "UTS", "IPC", "USER"]

  const NetMarker: string := "/tmp/netns_test.txt"
  const MntMarker: string := "/tmp/mntns_test.txt"

  /** NamespaceResult; test_details holds at most 255 characters. */
  datatype NamespaceResult = NamespaceResult(namespaceType: int, isolationVerified: int, testDetails: string)

  /** The lines the monitoring loop writes. */
  datatype Sample = CompletedAt(k: nat) | RunningAt(k: nat) | TerminatedAt(k: nat)

  /** The monitoring lines from sample k on: a poll that reaps the child
      (or fails) ends the loop, and so does a kill(pid, 0) that finds the
      child gone. */
  function Samples(polls: seq<Poll>, alive: seq<bool>, k: nat): seq<Sample>
    requires |polls| == |alive|
  {
    if polls == [] then []
    else if !polls[0].Running? then [CompletedAt(k)]
    else if alive[0] then [RunningAt(k)] + Samples(polls[1..], alive[1..], k + 1)
    else [TerminatedAt(k)]
  }

  /** The loop numbers its samples from k on, writes "running" for all but
      possibly the last, and stops early only on a sample that saw the
      child reaped or gone. */
  lemma {:induction false} SamplesShape(polls: seq<Poll>, alive: seq<bool>, k: nat)
    requires |polls| == |alive|
    ensures var s := Samples(polls, alive, k);
      && |s| <= |polls|
      && (forall j :: 0 <= j < |s| ==> s[j].k == k + j)
      && (forall j :: 0 <= j < |s| - 1 ==> s[j].RunningAt? && polls[j].Running? && alive[j])
      && (|s| < |polls| ==> |s| > 0 && !s[|s| - 1].RunningAt?)
      && (|s| > 0 && s[|s| - 1].CompletedAt? <==> |s| > 0 && !polls[|s| - 1].Running?)
  {
    if polls != [] && polls[0].Running? && alive[0] {
      SamplesShape(polls[1..], alive[1..], k + 1);
      var s := Samples(polls, alive, k);
      var t := Samples(polls[1..], alive[1..], k + 1);
      assert s == [RunningAt(k)] + t;
      forall j | 0 <= j < |s| - 1 ensures s[j].RunningAt? && polls[j].Running? && alive[j] {
        if j > 0 {
          assert s[j] == t[j - 1] && polls[j] == polls[1..][j - 1] && alive[j] == alive[1..][j - 1];
        }
      }
      if |s| > 1 {
        assert polls[|s| - 1] == polls[1..][|t| - 1];
      }
    }
  }

  /** The monitoring loop: five one-second samples at most. */
  method MonitorChild(polls: seq<Poll>, alive: seq<bool>) returns (samples: seq<Sample>)
    requires |polls| == 5 && |alive| == 5
    ensures samples == Samples(polls, alive, 1)
  {
    samples := [];
    var i := 0;
    while i < 5
      invariant 0 <= i <= 5
      invariant Samples(polls, alive, 1) == samples + Samples(polls[i..], alive[i..], i + 1)
    {
      SuffixStep(polls, i);
      SuffixStep(alive, i);
      if !polls[i].Running? {
        samples := samples + [CompletedAt(i + 1)];
        return;
      }
      if alive[i] {
        samples := samples + [RunningAt(i + 1)];
      } else {
        samples := samples + [TerminatedAt(i + 1)];
        return;
      }
      i := i + 1;
    }
    assert polls[5..] == [];
  }

  /** Phase 3: PID, UTS, IPC and USER always pass; NET and MNT pass when the
      child left its marker file, which is then removed. */
  function Verify(nsType: nat, markers: set<string>): (bool, set<string>)
    requires nsType < 6
  {
    if nsType == 1 then
      if NetMarker in markers then (true, markers - {NetMarker}) else (false, markers)
    else if nsType == 2 then
      if MntMarker in markers then (true, markers - {MntMarker}) else (false, markers)
    else (true, markers)
  }

  /** Verification fails only for NET or MNT without its marker; it removes
      at most the one marker it looked for, and only when it passed. */
  lemma VerifyTable(nsType: nat, markers: set<string>)
    requires nsType < 6
    ensures var (passed, after) := Verify(nsType, markers);
      && (!passed <==> (nsType == 1 && NetMarker !in markers) || (nsType == 2 && MntMarker !in markers))
      && after <= markers
      && (!passed ==> after == markers)
      && markers - after <= {NetMarker, MntMarker}
      && (nsType != 1 && nsType != 2 ==> after == markers)
  {
  }

  /** "Tested <type> namespace - PASSED" or "- FAILED". */
  function Details(nsType: nat, passed: bool): (s: string)
    requires nsType < 6
    ensures |s| < 256
    ensures s == "Tested " + NsNames[nsType] + " namespace - " + (if passed then "PASSED" else "FAILED")
  {
    Truncate("Tested " + NsNames[nsType] + " namespace - " + (if passed then "PASSED" else "FAILED"), 255)
  }

  /** The details line records the verdict: it ends in "PASSED" exactly
      when the isolation was verified. */
  lemma DetailsVerdict(nsType: nat, passed: bool)
    requires nsType < 6
    ensures var s := Details(nsType, passed);
      |s| >= 6 && (s[|s| - 6..] == "PASSED" <==> passed)
  {
    var s := Details(nsType, passed);
    var tail := if passed then "PASSED" else "FAILED";
    assert s[|s| - 6..] == tail;
    if !passed {
      assert tail[0] != "PASSED"[0];
    }
  }

  /** experiment_namespace_isolation: -1 when the report file does not
      open, the type is outside [0, 6), the child's stack cannot be
      allocated or clone fails (`pid` negative, `error` its strerror text);
      only the clone failure writes the result, with the isolation not
      verified. Otherwise the child is watched, the verdict taken, the
      result written and 0 returned. */
  method Run(nsType: Int32, reportOpens: bool, stackAllocated: bool, pid: Int32, error: string,
             polls: seq<Poll>, alive: seq<bool>, markers: set<string>, result0: NamespaceResult)
    returns (r: int, result: NamespaceResult, markers': set<string>, samples: seq<Sample>)
    requires |polls| == 5 && |alive| == 5
    ensures r == 0 <==> reportOpens && 0 <= nsType < 6 && stackAllocated && pid >= 0
    ensures r != 0 ==> r == -1 && markers' == markers && samples == []
    ensures r != 0 && !(reportOpens && 0 <= nsType < 6 && stackAllocated) ==> result == result0
    ensures reportOpens && 0 <= nsType < 6 && stackAllocated && pid < 0 ==>
      result == NamespaceResult(nsType, 0, Truncate("Failed: " + error, 255))
    ensures r == 0 ==>
      var (passed, after) := Verify(nsType, markers);
      && samples == Samples(polls, alive, 1)
      && markers' == after
      && result == NamespaceResult(nsType, if passed then 1 else 0, Details(nsType, passed))
  {
    result := result0;
    markers' := markers;
    samples := [];
    if !reportOpens {
      return -1, result, markers', samples;
    }
    if nsType < 0 || nsType >= 6 {
      return -1, result, markers', samples;
    }
    if !stackAllocated {
      return -1, result, markers', samples;
    }
    if pid < 0 {
      result := NamespaceResult(nsType, 0, Truncate("Failed: " + error, 255));
      return -1, result, markers', samples;
    }
    samples := MonitorChild(polls, alive);
    var passed := false;
    if nsType == 0 {
      passed := true;
    } else if nsType == 1 {
      if NetMarker in markers' {
        passed := true;
        markers' := markers' - {NetMarker};
      }
    } else if nsType == 2 {
      if MntMarker in markers' {
        passed := true;
        markers' := markers' - {MntMarker};
      }
    } else if nsType == 3 {
      passed := true;
    } else {
      passed := true;
    }
    result := NamespaceResult(nsType, if passed then 1 else 0, Details(nsType, passed));
    r := 0;
  }

  // ---------------------------------------------------------------------------
  // save_experiment_results

  /** OverheadResult. */
  datatype OverheadResult = OverheadResult(
    overheadPercent: real, baselineDuration: real, monitoredDuration: real, samples: int)

  /** What the void *result points at. */
  datatype AnyResult =
    | Overhead(o: OverheadResult)
    | Throttle(c: CpuExperiment.CPUThrottleResult)
    | Memory(m: MemoryExperiment.MemoryLimitResult)
    | Io(i: IoExperiment.IOLimitResult)
    | Namespace(n: NamespaceResult)

  /** The tag a caller must pass with each kind of result. */
  function TagOf(result: AnyResult): (tag: int)
    ensures 1 <= tag <= 5
  {
    match result
    case Overhead(_) => 1
    case Throttle(_) => 2
    case Memory(_) => 3
    case Io(_) => 4
    case Namespace(_) => 5
  }

  /** The lines appended to the results file, by what they show; numbers
      that C prints with "%.2f" or "%.6f" are kept as reals. */
  datatype SavedLine =
    | Heading(timestamp: string, name: string)
    | Rule
    | OverheadLine(percent: real)
    | DurationsLine(baseline: real, monitored: real)
    | ThrottleLine(limitPercent: int)
    | UsagesLine(unthrottled: Option<real>, throttled: Option<real>)
    | MemoryLine(limitMb: nat, peakMb: nat)
    | OomLine(occurred: bool)
    | IoLine(limitMbps: nat, measuredMbps: nat)
    | SlowdownLine(slowdown: real)
    | TypeLine(nsType: int, verified: bool)
    | DetailsLine(details: string)
    | Blank

  /** (int) of a double: truncation toward zero. */
  function TruncateReal(x: real): (n: int)
    ensures x >= 0.0 ==> n as real <= x < n as real + 1.0
    ensures x < 0.0 ==> n as real - 1.0 < x <= n as real
  {
    if x >= 0.0 then x.Floor else -((-x).Floor)
  }

  /** The switch on result_type: two lines for each known tag, none for an
      unknown one. */
  function Body(tag: int, result: AnyResult): (ls: seq<SavedLine>)
    requires 1 <= tag <= 5 ==> tag == TagOf(result)
  {
    if tag == 1 then
      [OverheadLine(result.o.overheadPercent), DurationsLine(result.o.baselineDuration, result.o.monitoredDuration)]
    else if tag == 2 then
      [ThrottleLine(TruncateReal(result.c.throttlePercent)),
       UsagesLine(result.c.unthrottledUsage, result.c.throttledUsage)]
    else if tag == 3 then
      [MemoryLine(result.m.limitBytes / (1024 * 1024), result.m.peakUsage / (1024 * 1024)),
       OomLine(result.m.oomOccurred != 0)]
    else if tag == 4 then
      [IoLine(result.i.limitBps / (1024 * 1024), result.i.measuredBps), SlowdownLine(result.i.slowdownPercent)]
    else if tag == 5 then
      [TypeLine(result.n.namespaceType, result.n.isolationVerified != 0), DetailsLine(result.n.testDetails)]
    else []
  }

  /** save_experiment_results: nothing when the file does not open for
      appending; otherwise the heading, the rule, the body and a blank
      line. */
  function Saved(opens: bool, timestamp: string, name: string, tag: int, result: AnyResult): (ls: seq<SavedLine>)
    requires 1 <= tag <= 5 ==> tag == TagOf(result)
  {
    if opens then [Heading(timestamp, name), Rule] + Body(tag, result) + [Blank] else []
  }

  /** Every record starts with its heading and rule and ends with a blank
      line; a known tag adds two lines between them and an unknown tag
      none. */
  lemma SavedShape(opens: bool, timestamp: string, name: string, tag: int, result: AnyResult)
    requires 1 <= tag <= 5 ==> tag == TagOf(result)
    ensures var ls := Saved(opens, timestamp, name, tag, result);
      && (!opens <==> ls == [])
      && (opens && (tag < 1 || tag > 5) ==> ls == [Heading(timestamp, name), Rule, Blank])
      && (opens && 1 <= tag <= 5 ==>
            |ls| == 5 && ls[0] == Heading(timestamp, name) && ls[1] == Rule && ls[4] == Blank)
  {
  }

  /** A memory experiment's record shows the limit and the peak in the MB
      the experiment worked in: bytes divided back by 1 MiB give the
      numbers the experiment started from. */
  lemma SavedMemoryMb(limitMb: U64Val, peak: nat, ending: MemoryExperiment.Ending)
    requires limitMb < U64 / (1024 * 1024) && peak < U64 / (1024 * 1024)
    ensures var result := MemoryExperiment.Summary(limitMb, peak, ending);
      Body(3, Memory(result)) ==
        [MemoryLine(limitMb, peak), OomLine(ending == MemoryExperiment.OomKilled)]
  {
    var result := MemoryExperiment.Summary(limitMb, peak, ending);
    assert result.limitBytes == limitMb * (1024 * 1024);
    assert result.peakUsage == peak * (1024 * 1024);
  }

  /** An I/O experiment's record shows the limit in the MB/s it was given. */
  lemma SavedIoMbps(limitMbps: U64Val, result: IoExperiment.IOLimitResult)
    requires limitMbps < U64 / (1024 * 1024)
    requires result.limitBps == MebiBytes(limitMbps)
    ensures Body(4, Io(result)) ==
      [IoLine(limitMbps, result.measuredBps), SlowdownLine(result.slowdownPercent)]
  {
    assert result.limitBps == limitMbps * (1024 * 1024);
  }
}
