# resource-monitor in Dafny

A model of the Linux resource-monitoring toolkit "resource-monitor". The
toolkit reads process, memory, network and disk statistics from `/proc`,
drives cgroup-v2 controllers, groups processes by namespace, runs
resource-limit experiments, and profiles one process to CSV or JSON. The
model covers:

- the string helpers of `utils.c`;
- the monitors (`process_monitor.c`, `network_monitor.c`, `io_monitor.c`,
  `memory_monitor.c`);
- the per-process profiler (`resource_profiler.c`) and its Windows version
  (`resource_profiler_windows.c`);
- the cgroup-v2 controller (`cgroup_v2.c`) and the cgroup manager
  (`cgroup_manager.c`), over a file-system class (`CgroupFs.FileSystem`)
  whose directories and control files the methods change in place;
- the namespace analyzer (`namespace_analyzer.c`);
- the memory, CPU and I/O limit experiments, the namespace isolation
  experiment and the saving of results (`experiment_*.c`, `experiments.c`).

How the outside world enters the model:

- A kernel file is its text, or `None` when `fopen` fails. `fgets` reads it
  as the lines of `Common.Lines`.
- `sscanf` is an interpreter over format directives (module `Scanf`).
  `strtoul` and `strtol` are `Common.Strtoul` and `Common.Strtol`.
- Unsigned arithmetic wraps modulo 2^64 (`Common.Wrap`). C's integer
  division truncates (`Common.CDiv`). A double that C would compute as NaN
  or infinity is `None`.
- Clocks, `waitpid` polls, `kill(pid, 0)` probes, `fork`/`clone` results and
  the outcome of `rmdir` on a busy directory are inputs.
- Report text (`printf`, `fprintf`, logging) is kept only where it is the
  output of the operation (the profiler's rows, the CSV and JSON exports,
  the saved results). There it is a sequence of records, not formatted
  characters.

Loops of the source are `method`s with `while` loops, proved against a
function that states what the loop computes. `trim_string` works in place on
an `array<char>`. The cgroup file system is a class whose methods carry
`modifies` clauses.

## Model

| member | source | states |
|---|---|---|
| Utils.TrimString | src/utils.c:48-66 | a null buffer is left alone; otherwise, in place, the buffer's first characters become the trimmed string and are followed by a NUL |
| Utils.TrimInPlace | src/utils.c:51-65 | on a non-null buffer, the first characters become the trimmed string followed by a NUL; an all-blank string becomes empty |
| Utils.SkipLeading | src/utils.c:51-52 | the forward scan stops at the first character that is not white space, the terminator at the latest |
| Utils.SkipTrailing | src/utils.c:59-60 | the backward scan stops at the last character that is not white space |
| Utils.CutAndMove | src/utils.c:61-65 | the NUL goes right after the last character kept, and the kept characters end up at the front of the buffer in their order |
| Utils.TrimmedIsMiddle | src/utils.c:48-66 | the trimmed string is a middle slice with only white space outside it; its ends are not white space; it is empty exactly when the input is all white space |
| Utils.TrimmedIdempotent | src/utils.c:48-66 | trimming twice is trimming once |
| Utils.MoveToFront | src/utils.c:63-65 | the memmove copies the slice to the front and leaves the rest of the buffer unchanged |
| Utils.ParseLineValue | src/utils.c:68-86 | a match is reported exactly when the line starts with the key; no match leaves the value as it was; a match stores a value below 2^64 |
| Utils.SkipBeforeStrtoul | src/utils.c:71-72 | skipping the white space before strtoul does not change the number read |
| Utils.ParseLineValueOfKeyLine | src/utils.c:68-76 | on a line made of the key, padding, a number and a unit, parse_line_value reports a match and stores that number |
| Utils.CalculatePercentage | src/utils.c:99-102 | 0 for a zero total; otherwise the share times the total is 100 times the used amount; at most 100 when used does not exceed total |
| Utils.CalculateRate | src/utils.c:104-107 | 0 for a non-positive interval; otherwise the rate times the interval is the unsigned 64-bit difference of the counters; never negative |
| Utils.RateAfterCounterReset | src/utils.c:104-107 | a counter that went backwards gives the wrapped difference 2^64 - (previous - current), not a negative rate |
| Utils.ElapsedTime | src/utils.c:94-97 | the elapsed time is the difference of the two instants in seconds |
| Utils.ElapsedTimeAdds | src/utils.c:94-97 | elapsed times over consecutive intervals add up |
| Common.Wrap | src/resource_profiler.c:154-157 | unsigned long arithmetic: the result is below 2^64, differs from the exact value by a multiple of 2^64, and equals it when it is in range |
| Common.WrapAdd | src/resource_profiler.c:154-157 | wrapping an intermediate sum does not change the wrapped total |
| Common.WrapDiff | src/resource_profiler.c:154-157 | when one counter wrapped to the other plus d, their unsigned difference is exactly d |
| Common.ToLong | src/resource_profiler.c:124 | the (long) cast keeps values up to LONG_MAX, stays in the long range and wraps back to the same unsigned value |
| Common.ToInt32 | src/namespace_analyzer.c:68-70 | conversion to a 32-bit int keeps in-range values and otherwise differs by a multiple of 2^32 |
| Common.CDiv | src/experiment_cpu_throttling.c:83 | C division: the mathematical quotient for non-negative operands, and never negative when the signs agree |
| Common.MebiBytes | src/experiment_memory_limit.c:68 | a size in MiB converted to bytes in unsigned long arithmetic is the size times 2^20 when that does not wrap; the I/O limit (src/experiment_io_limit.c:110) is converted the same way |
| Common.AtLeastOne | src/resource_profiler.c:166 | a requested count is at least 1, and is kept when it is positive; the Windows profiler raises its sample count and its interval the same way (src/resource_profiler_windows.c:58, :64) |
| Common.Strtoul | src/resource_profiler.c:99 | the value is below 2^64; nothing consumed means value 0; never consumes more than the input |
| Common.Strtol | src/namespace_analyzer.c:68 | the value lies in the long range; nothing consumed means value 0 |
| Common.StrtoulAfterPad | src/utils.c:71-72 | leading white space before a number does not change what strtoul reads |
| Common.StrtoulOfNatToString | src/resource_profiler.c:99 | strtoul reads back a printed number and consumes exactly its digits |
| Common.StrtoulOfSpacedNat | src/resource_profiler.c:99 | the same after one leading blank, which is consumed too |
| Common.StrtoulAtNonNumeric | src/resource_profiler.c:100-104 | strtoul consumes nothing at a character that cannot start a number |
| Common.StrtolAtNonNumeric | src/resource_profiler.c:114-116 | strtol (and so a %d conversion) consumes nothing at a character that cannot start a number |
| Common.StrtolOfNatToString | src/namespace_analyzer.c:68-69 | strtol reads back a printed non-negative number |
| Common.DecimalValueOfNatToString | src/resource_profiler.c:99 | printing a number in decimal and reading its digits back gives the number |
| Common.IntToString | src/cgroup_v2.c:79 | a negative number prints as a minus sign followed by its magnitude; otherwise as its digits |
| Common.FirstLine | src/resource_profiler.c:73 | one fgets: nothing from an empty file; otherwise a line without newline that fits the buffer |
| Common.FirstLineOf | src/resource_profiler.c:73 | fgets returns a short first line whole |
| Common.LinesOfUnlines | src/resource_profiler.c:46 | the fgets loop returns the lines a file was made of |
| Common.IndexOf | src/resource_profiler.c:90 | strchr: the first position of the character, or the end when it is absent |
| Common.IndexOfAfter | src/resource_profiler.c:90 | strchr finds a character right after a prefix that does not contain it |
| Common.LastIndexOf | src/resource_profiler.c:177 | strrchr: absent exactly when the character does not occur; otherwise its last position |
| Common.FirstPrefix | src/memory_monitor.c:15-31 | the first key that is a prefix of the line, and no earlier key is |
| Common.PrefixExcludes | src/memory_monitor.c:15-31 | among prefix-free keys, at most one is a prefix of a line |
| Common.Truncate | src/experiments.c:93-94 | snprintf into a bounded buffer keeps a prefix of at most the given length, and the whole string when it fits |
| Common.SuccessesAppend | src/memory_monitor.c:49-55 | the successful samples of two runs of samples are those of each, in order |
| Common.SuccessesAll | src/memory_monitor.c:49-55 | every sample is kept exactly when every read succeeded |
| Common.DeltaRowsPairs | src/network_monitor.c:77-78 | one row per successful reading; the first pairs the initial reading with it and each later one pairs consecutive successful readings |
| Common.FirstSomeAt | src/cgroup_manager.c:83-118 | the first success is the one at the first index that succeeds |
| Common.FirstSomeNone | src/cgroup_manager.c:83-118 | no success exactly when every attempt fails; a success is one of the attempts |
| Scanf.ScanKeyIsScan | src/resource_profiler.c:47 | a "key: %llu" sscanf assigns its one value exactly when the keyed scan succeeds, and assigns nothing otherwise |
| Scanf.ScanKeyLine | src/resource_profiler.c:47 | on a line of key, padding, number and unit the keyed sscanf assigns that number |
| Scanf.ScanKeyMismatch | src/resource_profiler.c:47 | a line that differs from the key at some position assigns nothing |
| Scanf.ScanSpaced | src/resource_profiler.c:76 | a run of " %lu" directives over blank-separated numbers assigns exactly those numbers and continues after them |
| Scanf.ScanNumAlone | src/cgroup_v2.c:227 | a lone %lu or %ld assigns the strtoul or strtol value when any digit is consumed, and nothing otherwise |
| Scanf.ScanFails | src/resource_profiler.c:114-117 | once a directive fails, sscanf assigns nothing more |
| Scanf.ScanStep | src/resource_profiler.c:114-116 | sscanf runs directive by directive: the values of the first followed by those of the rest |
| Scanf.ApplyWordName | src/namespace_analyzer.c:13-20 | a %s directive takes the characters up to the next blank |
| Scanf.Assigned | src/resource_profiler.c:47-50 | a conversion that assigns sets the variable; one that does not leaves it as it was |
| ResourceProfiler.ReadCpuStatOfLine | src/resource_profiler.c:69-78 | a first line "cpu" followed by five numbers gives exactly those five counters |
| ResourceProfiler.ReadCpuStatNeedsCpuLine | src/resource_profiler.c:69-78 | a first line that does not start with "cpu" fails |
| ResourceProfiler.CollectFields | src/resource_profiler.c:94-108 | the field-collecting loop returns the numeric fields of the text, at most 64, skipping one character wherever strtoul reads nothing |
| ResourceProfiler.NumericFieldsOfSpaced | src/resource_profiler.c:94-108 | blank-separated numbers are collected exactly, up to the cap |
| ResourceProfiler.NumericFieldsSkipsLetter | src/resource_profiler.c:100-104 | the state letter is skipped without producing a field |
| ResourceProfiler.LetterStateUsesFallback | src/resource_profiler.c:113-125 | when the text starts with the state letter the sscanf assigns nothing, so all six counters come from the positional fallback |
| ResourceProfiler.AsWrittenReadsOtherFields | src/resource_profiler.c:117-125 | the positions as written read proc(5) fields 11, 13, 16, 17, 26 and 27, so utime differs from field 14 whenever fields 14 and 16 differ |
| ResourceProfiler.IntendedReadsNamedFields | src/resource_profiler.c:111 | the corrected positions read minflt, majflt, utime, stime, vsize and rss (proc(5) fields 10, 12, 14, 15, 23, 24) |
| ResourceProfiler.ApplyStatusLines | src/resource_profiler.c:136-145 | the loop over the status file applies its lines in order, each setting the first of Threads, voluntary, nonvoluntary or VmSwap it matches |
| ResourceProfiler.StatusFoldKeepsCounters | src/resource_profiler.c:136-145 | the status file never changes the six counters taken from the stat file |
| ResourceProfiler.StatusLineVmSwap | src/resource_profiler.c:142 | a "VmSwap: n kB" line sets the swap size to n and nothing else |
| ResourceProfiler.ReadProcStat | src/resource_profiler.c:81-147 | success exactly when the stat line has a ')' and at least 24 numbers follow; failure leaves the record unchanged; success gives the counters and then the status keys |
| ResourceProfiler.StatBodyOfLine | src/resource_profiler.c:86-92 | on a stat line "pid (comm) state fields" the parse starts at the state letter |
| ResourceProfiler.StatBodyAfterParen | src/resource_profiler.c:90-92 | the parse starts two characters after the first ')' |
| ResourceProfiler.ReadStatLine | src/resource_profiler.c:86-108 | on such a line the collected fields are exactly the numbers after the state |
| ResourceProfiler.ReadProcIo | src/resource_profiler.c:37-54 | fails exactly when the io file does not open, leaving the counters; otherwise applies every line in order |
| ResourceProfiler.IoFoldAppend | src/resource_profiler.c:46-51 | reading two parts of the file is reading the first and then the second |
| ResourceProfiler.IoLineSetsOwnCounter | src/resource_profiler.c:47-50 | a line sets at most the counter its key names, and only when its sscanf assigns |
| ResourceProfiler.IoLineOther | src/resource_profiler.c:47-50 | a line starting with neither 'r' nor 'w' changes no counter |
| ResourceProfiler.KeyValue | src/resource_profiler.c:47-50 | a "key: n" line is read back as n |
| ResourceProfiler.CountNetConns | src/resource_profiler.c:56-66 | the connection count of the socket table (0 when it does not open) |
| ResourceProfiler.NetConnsOfTable | src/resource_profiler.c:56-66 | a table of a header and k rows counts k connections |
| ResourceProfiler.CalcCpuPercent | src/resource_profiler.c:150-163 | between 0 and 100; 0 when a reading is missing or no CPU time passed; otherwise the unsigned tick deltas' share times 100, capped at 100 exactly when the process delta exceeds the CPU delta |
| ResourceProfiler.PercentOfTicks | src/resource_profiler.c:161-162 | the uncapped share exceeds 100 exactly when the process delta exceeds the CPU delta |
| ResourceProfiler.CpuPercentOfElapsedTicks | src/resource_profiler.c:150-163 | counters that advanced by dp and dc ticks, even across a wrap, give 100 * dp / dc |
| ResourceProfiler.EmitsJsonIffSuffix | src/resource_profiler.c:175-179 | JSON is emitted exactly when the output path ends in ".json" |
| ResourceProfiler.Rate | src/resource_profiler.c:221-223 | 0 on the first sample or a non-positive interval; otherwise the rate times the interval in seconds is the unsigned byte delta |
| ResourceProfiler.SampleRecord | src/resource_profiler.c:207-244 | the first record has zero CPU share and rates; the share lies in 0..100 and the rates are non-negative |
| ResourceProfiler.ReadSample | src/resource_profiler.c:196-244 | one loop iteration succeeds exactly when both /proc/stat and the process stat read; it then returns the readings and the row built from them |
| ResourceProfiler.TraceStep | src/resource_profiler.c:194-205 | a sample whose reads succeed contributes its readings and continues from them |
| ResourceProfiler.TraceStops | src/resource_profiler.c:196-205 | a failed read ends the run |
| ResourceProfiler.ProgressStops | src/resource_profiler.c:196-205 | when the loop stops at a failed sample, the rows written are those of the earlier samples |
| ResourceProfiler.ProgressDone | src/resource_profiler.c:194-255 | when the loop finishes, one row per sample has been written |
| ResourceProfiler.RpRun | src/resource_profiler.c:165-259 | -1 without output when the path does not open; otherwise JSON exactly for a ".json" path, 0 exactly when every sample read, one row per successful sample, each with its record and separator, and the closing bracket only for complete JSON |
| ProcessMonitor.GetProcessName | src/process_monitor.c:17-34 | no name when the comm file does not open or is empty; otherwise a name without newline that fits the buffer |
| ProcessMonitor.GetProcessNameIsPrefix | src/process_monitor.c:24-30 | the name is the comm file's first line, cut to the buffer, and a prefix of the file |
| ProcessMonitor.ProcAssign | src/process_monitor.c:53-55 | the fscanf stores name, state, utime, stime, threads, vsize and rss when all seven convert; it never touches pid or the percentages; nothing converted changes nothing |
| ProcessMonitor.ReadProcessStatsFields | src/process_monitor.c:53-79 | a successful read stores the seven converted fields, the name without its parentheses, and the memory share of rss pages when sysinfo succeeds |
| ProcessMonitor.FailedScanKeepsName | src/process_monitor.c:53-62 | a stat line on which only the name converts fails, but the name it assigned stays in the record and utime does not change |
| ProcessMonitor.UnparenCases | src/process_monitor.c:64-71 | a parenthesised name loses its parentheses; any other name is kept |
| ProcessMonitor.StripParens | src/process_monitor.c:64-71 | in place, the name buffer becomes the name without its parentheses |
| ProcessMonitor.ReadProcessStats | src/process_monitor.c:36-82 | 0 or -1; 0 exactly when the process exists, its stat file opens and seven fields convert; nothing changes when the file is missing; the pid is stored once the file opens; the CPU share is never touched |
| ProcessMonitor.ProcessCpuUsage | src/process_monitor.c:84-94 | 0 for a non-positive interval or clock rate; otherwise the share times the interval and the clock rate is 100 times the unsigned tick delta; never negative |
| ProcessMonitor.TotalTime | src/process_monitor.c:87 | the ticks used between the readings are the difference of the utime + stime sums modulo 2^64, however the sums themselves wrapped |
| ProcessMonitor.Share | src/process_monitor.c:92-93 | the share times the interval and the rate is 100 times the ticks |
| ProcessMonitor.CpuUsageNotClamped | src/process_monitor.c:84-94 | the share is not capped: 200 ticks in one second at 100 ticks per second give 200 percent |
| ProcessMonitor.LeadingOkStops | src/process_monitor.c:116-122 | every read before the count of leading successes succeeds, and the read at that count, if any, fails |
| ProcessMonitor.MonitorRowsStop | src/process_monitor.c:116-145 | the loop writes one row per read up to the first failed read, each for the monitored pid |
| ProcessMonitor.MonitorProcess | src/process_monitor.c:96-150 | -1 and no rows when the process is missing, the file does not open or the first read fails; otherwise 0 and the rows of the sampling loop from the first reading on |
| ProcessMonitor.ExportRowOf | src/process_monitor.c:159-163 | the exported vsize in KiB is the byte size rounded down; the rss in KiB, from the unsigned page product, stays below 2^64 / 1024 |
| ProcessMonitor.ExportCsv | src/process_monitor.c:152-169 | -1 and nothing when the file does not open; otherwise the header and one record per entry, in order |
| ProcessMonitor.ExportJson | src/process_monitor.c:171-195 | -1 and nothing when the file does not open; otherwise one object per entry, in order, each followed by a comma except the last |
| NetworkMonitor.ReadNetworkStats | src/network_monitor.c:5-53 | 0 exactly when the interface is found, with its counters; -1 leaves the record as it was |
| NetworkMonitor.HeadersSkipped | src/network_monitor.c:15-19 | the two header lines are never looked at; the lookup runs over the remaining lines |
| NetworkMonitor.NetLookupFirst | src/network_monitor.c:19-48 | the first matching line decides |
| NetworkMonitor.NetLookupNone | src/network_monitor.c:19-48 | the interface is missing exactly when no line matches; a result comes from one of the lines |
| NetworkMonitor.SkipBlanks | src/network_monitor.c:32-34 | strips the leading blanks and tabs of the name and nothing else |
| NetworkMonitor.SkipBlanksPad | src/network_monitor.c:32-34 | the padding before an interface name is removed exactly |
| NetworkMonitor.NetDevScan | src/network_monitor.c:26-30 | on "name: sixteen numbers" the sscanf assigns the name and the sixteen counters |
| NetworkMonitor.DevLineOfRow | src/network_monitor.c:26-45 | a padded row of the wanted interface yields its name and the rx and tx byte, packet, error and drop counters (columns 1-4 and 9-12); a row of another interface yields nothing |
| NetworkMonitor.MonitorNetwork | src/network_monitor.c:55-100 | -1 and no rows when the file does not open or the first read fails; otherwise one row per successful read, each against the previous successful reading |
| NetworkMonitor.NextRow | src/network_monitor.c:71-93 | after one pass the rows written, followed by the rows of the remaining reads, are still the rows of the whole run: a successful read adds its rate row and becomes the previous reading, a failed one adds nothing |
| NetworkMonitor.RatesTelescope | src/network_monitor.c:76-94 | with counters that only grow, the KiB rates of all rows add up to the total byte growth over 1024 |
| IoMonitor.DiskAssign | src/io_monitor.c:19-26 | every line's sscanf stores each of the eleven counters it converts, whatever the device, and never the name |
| IoMonitor.ReadIoStats | src/io_monitor.c:5-37 | -1 leaving the record when the file does not open; otherwise 0 exactly when a row names the device, and the record the scan left |
| IoMonitor.DiskFoldFound | src/io_monitor.c:15-33 | the first matching row gives the name and all eleven counters |
| IoMonitor.DiskFoldMissed | src/io_monitor.c:15-33 | when no row matches, each counter holds the last value a row converted for it and the name is unchanged |
| IoMonitor.MissLeavesCounters | src/io_monitor.c:19-28 | a full row of another device still overwrites every counter |
| IoMonitor.DiskFoldIndependent | src/io_monitor.c:15-33 | when a row matches, the result does not depend on the record passed in |
| IoMonitor.DiskScanOfRow | src/io_monitor.c:19-26 | on "major minor name eleven numbers" the sscanf assigns exactly those values |
| IoMonitor.RowMatches | src/io_monitor.c:19-29 | such a row converts fourteen values, matches exactly the device it names, and gives its name and counters |
| IoMonitor.IoRateHalfSectors | src/io_monitor.c:60-64 | without wrap-around the KiB rate is half the sector delta |
| IoMonitor.ReadInto | src/io_monitor.c:55 | one read of the loop succeeds exactly when the device is found, with its record |
| IoMonitor.MonitorIo | src/io_monitor.c:39-86 | -1 and no rows when the file does not open or the first read fails; otherwise one row per successful read, each against the previous successful reading |
| IoMonitor.NextRow | src/io_monitor.c:55-80 | after one pass the rows written, followed by the rows of the remaining reads, are still the rows of the whole run: a successful read adds its rate row and becomes the previous reading, a failed one adds nothing |
| MemoryMonitor.ReadMemoryStats | src/memory_monitor.c:5-41 | fails exactly when the file does not open, leaving the record; otherwise the record is rebuilt from zero by the file's lines |
| MemoryMonitor.ScanMemLines | src/memory_monitor.c:13-31 | the line loop gives the fold of the lines over a zeroed record |
| MemoryMonitor.MemKeysPrefixFree | src/memory_monitor.c:16-29 | no key is a prefix of another, so the order of the else-if chain does not matter |
| MemoryMonitor.MemLineField | src/memory_monitor.c:16-29 | a line sets a field exactly when it starts with that field's key and a number follows |
| MemoryMonitor.MemFoldField | src/memory_monitor.c:15-31 | each field holds the value of the last line that set it, else its prior value; the usage share is untouched |
| MemoryMonitor.LastValueUnset | src/memory_monitor.c:15-31 | a key that no line sets keeps its prior value |
| MemoryMonitor.LastValueLater | src/memory_monitor.c:15-31 | a later line with the key overrides earlier ones |
| MemoryMonitor.MemInfoFields | src/memory_monitor.c:13-31 | each field is the last value of its key in the file, 0 when absent |
| MemoryMonitor.Set | src/memory_monitor.c:17-29 | setting one field changes that field only |
| MemoryMonitor.WithUsage | src/memory_monitor.c:35-38 | the usage step changes none of the seven fields |
| MemoryMonitor.WithUsageValue | src/memory_monitor.c:35-38 | no share for a zero total; otherwise the percentage of the wrapped used amount; between 0 and 100 when available does not exceed total |
| MemoryMonitor.MemInfoUsage | src/memory_monitor.c:5-41 | the same for a record read from the file |
| MemoryMonitor.MonitorMemory | src/memory_monitor.c:43-78 | -1 and no rows when the file does not open; otherwise one row per iteration whose read succeeds |
| MemoryMonitor.MemRowsAreSuccesses | src/memory_monitor.c:49-65 | the rows are the records of the readable samples, in order |
| CgroupFs.Join | src/cgroup_v2.c:7-11 | the path is the directory, a slash and the name, so the name can be read back from it |
| CgroupFs.ControlFiles | src/cgroup_manager.c:67-73 | a new cgroup directory holds every controller file, each empty and inside it |
| CgroupFs.ControlFileAt | src/cgroup_manager.c:67-73 | a file of the new directory exists exactly for the controllers the kernel offers |
| CgroupFs.FileSystem.constructor | src/cgroup_v2.c:7-11 | the file system starts with the given directories, files and writable set |
| CgroupFs.FileSystem.Read | src/cgroup_v2.c:140-144 | opening for reading succeeds exactly for an existing file, and gives its text |
| CgroupFs.FileSystem.Overwrite | src/cgroup_v2.c:73-80 | writing a writable file replaces its text and changes nothing else |
| CgroupFs.FileSystem.Mkdir | src/cgroup_manager.c:71-80 | EEXIST exactly when the path exists; success exactly when it does not and creation is permitted, adding the directory with its controller files; otherwise nothing changes |
| CgroupFs.FileSystem.Rmdir | src/cgroup_v2.c:55 | removal succeeds exactly for an existing directory with no subdirectories that is not busy, and removes it with the files inside; otherwise nothing changes |
| CgroupFs.Pruned | src/cgroup_v2.c:55 | the files left after a removal are exactly those outside the directory, with their texts |
| CgroupFs.Outside | src/cgroup_v2.c:55 | the writable paths left after a removal are exactly those outside the directory |
| CgroupFs.PrunedAddInside | src/cgroup_v2.c:55 | files created inside a directory are gone again once it is removed |
| CgroupFs.PrunedWriteInside | src/cgroup_v2.c:55 | writes inside a directory leave no trace once it is removed |
| CgroupV2.Delete | src/cgroup_v2.c:47-62 | 0 exactly when the cgroup exists, is not busy and has no child groups; then it and its files are gone; -1 changes nothing |
| CgroupV2.AddProcess | src/cgroup_v2.c:64-84 | 0 exactly when the cgroup exists and its cgroup.procs is writable; then that file holds the pid and a newline; -1 changes nothing |
| CgroupV2.RemoveProcess | src/cgroup_v2.c:86-102 | 0 exactly when the root cgroup.procs is writable; then it holds the pid and a newline; the named cgroup is not consulted |
| CgroupV2.PutText | src/cgroup_v2.c:73-80 | fopen, fprintf and fclose: 0 exactly when the file is writable, and then it holds the text |
| CgroupV2.SetCpuMax | src/cgroup_v2.c:104-129 | 0 exactly when the cgroup exists and cpu.max is writable; then cpu.max holds "max period" for a negative quota and "quota period" otherwise |
| CgroupV2.CpuMaxReadBack | src/cgroup_v2.c:119-123 | the written cpu.max line reads back as the word "max" or the quota, then the period |
| CgroupV2.SetCpuWeight | src/cgroup_v2.c:160-185 | 0 exactly when the cgroup exists, the weight lies in 1..10000 and cpu.weight is writable; then it holds the weight |
| CgroupV2.SetMemoryHigh | src/cgroup_v2.c:236-256 | 0 exactly when the cgroup exists and memory.high is writable; then it holds the byte count |
| CgroupV2.DecimalLineReadBack | src/cgroup_v2.c:227-251 | a number written as a decimal line reads back by a %lu scan |
| CgroupV2.SetIoMax | src/cgroup_v2.c:258-279 | 0 exactly when the cgroup exists and io.max is writable; then it holds "device rbps=r wbps=w" |
| CgroupV2.IoMaxReadBack | src/cgroup_v2.c:273 | the io.max line reads back as the device and both limits |
| CgroupV2.KeyValue | src/cgroup_v2.c:150 | a cpu.stat line gives a value exactly when it starts with "usage_usec" |
| CgroupV2.KeyValueOf | src/cgroup_v2.c:150 | this agrees with parse_line_value_ull: same match, same value |
| CgroupV2.FirstKeyValueFirst | src/cgroup_v2.c:149-154 | no usage exactly when no line has the key; otherwise the first such line decides |
| CgroupV2.CpuUsageOfStat | src/cgroup_v2.c:131-158 | in a cpu.stat whose earlier lines lack the key, the "usage_usec n" line gives n |
| CgroupV2.FindKeyValue | src/cgroup_v2.c:149-154 | the search loop finds the first line with the key and its value, and leaves the value alone otherwise |
| CgroupV2.FirstFound | src/cgroup_v2.c:149-154 | the loop stops at the first line that gives a value; without one the value is unchanged |
| CgroupV2.GetCpuUsage | src/cgroup_v2.c:131-158 | -1 with the value unchanged when the cgroup or cpu.stat is missing; otherwise 0 exactly when some line gives usage_usec, with the first such value |
| CgroupV2.ScanULong | src/cgroup_v2.c:227 | the fscanf "%lu" assigns exactly when strtoul reads a number |
| CgroupV2.GetMemoryUsage | src/cgroup_v2.c:212-234 | -1 with the value unchanged when the cgroup or memory.current is missing or holds no number; otherwise 0 and that number |
| CgroupV2.IoStatLineOf | src/cgroup_v2.c:302 | an io.stat line "device rbytes=r wbytes=w" converts both numbers |
| CgroupV2.TotalsAreSums | src/cgroup_v2.c:297-306 | the totals are the unsigned 64-bit sums of rbytes and wbytes over the lines that convert both |
| CgroupV2.GetIoStats | src/cgroup_v2.c:281-310 | -1 with the totals unchanged when the cgroup or io.stat is missing; otherwise 0 and the totals over its lines, starting from zero |
| CgroupManager.WriteFile | src/cgroup_manager.c:15-21 | 0 exactly when the file opens for writing and the whole text is written; then the file holds it; -1 changes nothing |
| CgroupManager.Create | src/cgroup_manager.c:67-81 | 0 when the path is free and creation is permitted, adding the directory; 1 when the path exists; -1 otherwise; nothing changes unless 0 |
| CgroupManager.Candidates | src/cgroup_manager.c:88-110 | the three files tried in order: cgroup.procs under the path, under the root, and the v1 tasks file |
| CgroupManager.FirstTrue | src/cgroup_manager.c:89-115 | the first candidate whose attempt succeeds, none when all fail |
| CgroupManager.MovePid | src/cgroup_manager.c:83-118 | 0 exactly when some candidate is writable and takes the whole pid; the first such file then holds the pid; -1 changes nothing |
| CgroupManager.ProbePass | src/cgroup_manager.c:37-46 | one pass over the six probe files reports whether any opened and the sections of those that did |
| CgroupManager.ReportEmpty | src/cgroup_manager.c:37-46 | a pass prints nothing exactly when no probe file opens |
| CgroupManager.ReadMetrics | src/cgroup_manager.c:23-65 | 0 exactly when a probe file opens under the path or under the root; the root is tried only when the path gives nothing |
| NamespaceAnalyzer.ReadNsLink | src/namespace_analyzer.c:13-20 | a target exactly when the link exists; it is a prefix of the link cut to the buffer, and the whole link when it fits |
| NamespaceAnalyzer.Compare | src/namespace_analyzer.c:35-50 | 0 exactly when, for every one of the seven namespace kinds, both processes show the same link (or both are unavailable); 1 otherwise |
| NamespaceAnalyzer.CompareKinds | src/namespace_analyzer.c:39-48 | the loop over any list of kinds reports 0 exactly when every kind agrees |
| NamespaceAnalyzer.Accept | src/namespace_analyzer.c:65-71 | an entry is kept only when it is a directory whose whole name is a number and whose namespace link reads; its id fits the buffer |
| NamespaceAnalyzer.AcceptPidDir | src/namespace_analyzer.c:65-81 | a numeric directory with a readable link is kept as the pair of its link and its pid |
| NamespaceAnalyzer.AcceptSkipsWords | src/namespace_analyzer.c:68-69 | a name that does not start with a number is skipped |
| NamespaceAnalyzer.KeptPrefix | src/namespace_analyzer.c:65-82 | the pairs kept from the first entries are a prefix of those kept from all |
| NamespaceAnalyzer.Room | src/namespace_analyzer.c:72-77 | the array holds every pair unless a doubling is refused, and then the count stops at that capacity |
| NamespaceAnalyzer.RoomAll | src/namespace_analyzer.c:72-77 | when no doubling up to the needed size is refused, every pair is kept |
| NamespaceAnalyzer.Collect | src/namespace_analyzer.c:65-82 | the readdir loop keeps the accepted pairs in directory order, up to the first refused realloc |
| NamespaceAnalyzer.CollectWith | src/namespace_analyzer.c:65-82 | the same loop for any acceptance test |
| NamespaceAnalyzer.StrBeforeIrreflexive | src/namespace_analyzer.c:92 | strcmp order: no id sorts before itself |
| NamespaceAnalyzer.StrBeforeTotal | src/namespace_analyzer.c:92 | any two different ids are ordered one way or the other |
| NamespaceAnalyzer.StrBeforeTransitive | src/namespace_analyzer.c:92 | the order is transitive |
| NamespaceAnalyzer.Insert | src/namespace_analyzer.c:89-96 | inserting into a sorted list keeps it sorted and adds exactly that pair |
| NamespaceAnalyzer.Sort | src/namespace_analyzer.c:89-96 | the qsort result is ordered by id and then pid, and is a permutation of its input |
| NamespaceAnalyzer.GroupSorted | src/namespace_analyzer.c:97-108 | the printing loop lists every pair once, in order: the leading pairs whose id is empty (the initial current id) as bare pids before any heading, and the rest in lines of consecutive pairs with the same, non-empty first id |
| NamespaceAnalyzer.PrintPair | src/namespace_analyzer.c:100-106 | one step opens a new line exactly when the id differs from the current one ("" before the first heading); otherwise it extends the current line, or, before any heading, adds a bare pid |
| NamespaceAnalyzer.GroupsIncrease | src/namespace_analyzer.c:97-108 | over a sorted list, each group's id sorts after the one before it |
| NamespaceAnalyzer.GroupsDistinct | src/namespace_analyzer.c:97-108 | over a sorted list, every id heads exactly one group |
| NamespaceAnalyzer.MapByType | src/namespace_analyzer.c:53-111 | -1 exactly when /proc or the array cannot be had; otherwise exactly the kept pairs, sorted: those with an empty id as bare pids ahead of every heading, and one line per other id, each id non-empty and on one line only |
| Trial.Iterations | src/experiment_cpu_throttling.c:62 | a loop "for i < duration" runs duration times, and not at all for a non-positive duration |
| Trial.Prepare | src/experiment_memory_limit.c:61-65 | cgroup_create at the start of an experiment: success exactly when the group's path is free and creation is permitted; then the group exists, its control files take writes, and nothing outside it changed; otherwise nothing changed |
| Trial.StagedWrite | src/experiment_memory_limit.c:69-87 | a write to one of the group's control files leaves everything outside the group as it was |
| Trial.Teardown | src/experiment_memory_limit.c:152 | cgroup_delete at the end: the file system is back to its state before the experiment when the group can be removed, and otherwise still holds the group |
| MemoryExperiment.ChildTargetMb | src/experiment_memory_limit.c:77-82 | the child tries to allocate 50 MiB more than the limit |
| MemoryExperiment.Classify | src/experiment_memory_limit.c:117-128 | a child ended by SIGKILL was OOM-killed; exit status 1 is an allocation failure; any other exit is completion |
| MemoryExperiment.Taken | src/experiment_memory_limit.c:103-131 | the number of samples taken before the loop ends |
| MemoryExperiment.WatchPeak | src/experiment_memory_limit.c:103-114 | the peak is the largest usage in whole MiB among the samples taken (or the start value when none reads) |
| MemoryExperiment.WatchEnding | src/experiment_memory_limit.c:116-130 | the child is still running exactly when every poll says so; otherwise the loop stopped at the first poll that reaped it and its status decides the ending |
| MemoryExperiment.Monitor | src/experiment_memory_limit.c:103-131 | the thirty-sample loop computes the peak and the ending |
| MemoryExperiment.PeakFits | src/experiment_memory_limit.c:108-113 | the peak in MiB always converts back to bytes without wrapping |
| MemoryExperiment.Summary | src/experiment_memory_limit.c:139-142 | the result records the byte limit, the peak in bytes and OOM exactly for a SIGKILL ending |
| MemoryExperiment.LimitEnforced | src/experiment_memory_limit.c:148-149 | the limit counts as enforced exactly when the peak is within 5 MiB of it |
| MemoryExperiment.Run | src/experiment_memory_limit.c:49-157 | 0 exactly when the report opens, the group is created, memory.max is set and the child joins the group; the cgroup file system ends as it began when the group can be removed; on success the result is the summary of the watch loop |
| CpuExperiment.Quota | src/experiment_cpu_throttling.c:82-83 | the quota is 1000 microseconds per percent of the 100000-microsecond period |
| CpuExperiment.QuotaText | src/experiment_cpu_throttling.c:82-85 | cpu.max gets "max 100000" for a negative percentage and "quota 100000" otherwise; 100 percent is a quota of one full period |
| CpuExperiment.Average | src/experiment_cpu_throttling.c:73 | an average exists exactly when there is a sample (0/0 has none) |
| CpuExperiment.SumBounds | src/experiment_cpu_throttling.c:59-70 | a sum of samples within bounds lies between count times the bounds |
| CpuExperiment.AverageBounds | src/experiment_cpu_throttling.c:59-73 | the average of samples within bounds lies within the bounds |
| CpuExperiment.Phase | src/experiment_cpu_throttling.c:59-73 | a sampling phase averages the first duration samples |
| CpuExperiment.Reduction | src/experiment_cpu_throttling.c:136-137 | the reduction exists when both averages do, and the unthrottled average is the throttled one plus the reduction |
| CpuExperiment.Run | src/experiment_cpu_throttling.c:19-145 | 0 exactly when the report opens, the group is created and cpu.max and cgroup.procs take writes; the cgroup file system ends as it began when the group can be removed; a failure after the baseline keeps the baseline average; success records both averages, the limit and the duration |
| CpuExperiment.Phases | src/experiment_cpu_throttling.c:56-145 | the baseline average is kept in every case; 0 exactly when cpu.max and cgroup.procs take writes; the cgroup file system ends as it began when the group can be removed; success records both averages, the limit and the duration, and the reduction |
| CpuExperiment.PeriodText | src/experiment_cpu_throttling.c:82 | the period of 100000 microseconds is written as the six characters "100000" |
| IoExperiment.ProbeChoice | src/experiment_io_limit.c:61-70 | the device is sda when sda reads, else vda when vda reads, else nvme0n1; the record comes from the chosen device's read |
| IoExperiment.Reread | src/experiment_io_limit.c:115-117 | a read succeeds exactly when the device is found; a failed read still leaves the counters the scan wrote |
| IoExperiment.AccumulateTelescopes | src/experiment_io_limit.c:80-94 | the bytes added up over a phase are the written-sector growth from the first to the last successful reading, times 512, modulo 2^64 |
| IoExperiment.Phase | src/experiment_io_limit.c:82-94 | a sampling loop adds the bytes of each successful read and moves the previous reading forward |
| IoExperiment.PhaseLoop | src/experiment_io_limit.c:82-94 | the loop ends with the unsigned byte total of the successful reads, each against the one before it, and with the last successful reading as the previous one |
| IoExperiment.ReadReading | src/experiment_io_limit.c:85 | 0 exactly when the disk file yields a reading for the device, and then the record holds that reading |
| IoExperiment.Advance | src/experiment_io_limit.c:85-92 | one pass keeps the loop invariant: the bytes so far plus what the remaining reads add make the phase total, and the last successful reading stays the same |
| IoExperiment.Rate | src/experiment_io_limit.c:99 | a rate exists exactly for a non-zero duration, and is non-negative for a positive one |
| IoExperiment.SlowdownBounds | src/experiment_io_limit.c:157-160 | no slowdown without a positive baseline; between 0 and 100 when the limited rate lies between 0 and the baseline; 100 when nothing was written under the limit |
| IoExperiment.Measured | src/experiment_io_limit.c:163 | the measured rate is the limited rate truncated to a whole number |
| IoExperiment.MeasureBaseline | src/experiment_io_limit.c:60-100 | the baseline phase picks the device, then yields the last reading and the rate of the accumulated bytes |
| IoExperiment.MeasureLimited | src/experiment_io_limit.c:115-156 | the limited phase starts from a fresh read (or what it left) and yields the rate of its accumulated bytes |
| IoExperiment.Run | src/experiment_io_limit.c:36-181 | 0 exactly when the report opens, the group is created and the child joins it (a failed io.max only logs); the cgroup file system ends as it began when the group can be removed; success gives the result of both phases |
| IoExperiment.Conclude | src/experiment_io_limit.c:152-166 | the result is the outcome of the experiment: the limit in bytes per second, the limited rate, the slowdown against a positive baseline, and the duration |
| Experiments.SamplesShape | src/experiments.c:108-123 | sample numbers count up from 1; every sample but the last saw the child running; the loop ends early only on a reaped or vanished child |
| Experiments.MonitorChild | src/experiments.c:108-123 | the five-poll monitoring loop yields those samples |
| Experiments.VerifyTable | src/experiments.c:134-157 | verification fails exactly for NET or MNT without their marker file; only a passing NET or MNT check removes its marker |
| Experiments.Details | src/experiments.c:159-163 | the details read "Tested <type> namespace - PASSED/FAILED" and fit the 256-byte buffer |
| Experiments.DetailsVerdict | src/experiments.c:159-163 | the details end in "PASSED" exactly when verification passed |
| Experiments.Run | src/experiments.c:47-175 | 0 exactly when the report opens, the type is valid, the stack is allocated and clone succeeds; a clone failure records "Failed: <error>"; success records the type, the verdict and the details |
| Experiments.TagOf | src/experiments.c:191-226 | each kind of result has its tag from 1 to 5 |
| Experiments.TruncateReal | src/experiments.c:201 | (int) of a double rounds toward zero |
| Experiments.SavedShape | src/experiments.c:177-231 | nothing is appended when the file does not open; otherwise a heading, a rule, two lines for a known tag (none for an unknown one) and a blank line |
| Experiments.SavedMemoryMb | src/experiments.c:206-211 | a memory result saves the limit and peak back in MiB and whether OOM occurred |
| Experiments.SavedIoMbps | src/experiments.c:213-218 | an I/O result saves the limit back in MiB per second, the measured rate and the slowdown |
| ProfilerWindows.FileTimeMs | src/resource_profiler_windows.c:43-44 | a FILETIME in 100-nanosecond units becomes whole milliseconds, rounded down |
| ProfilerWindows.ProcessMetrics | src/resource_profiler_windows.c:21-53 | metrics exactly when the process opens and both queries succeed; then the user and kernel times in ms and the working sets |
| ProfilerWindows.CalcCpuPercent | src/resource_profiler_windows.c:55-61 | between 0 and 100; 0 without both readings; otherwise the unsigned CPU-time delta as a share of the interval, capped at 100 exactly when the delta reaches the interval |
| ProfilerWindows.ShareOfInterval | src/resource_profiler_windows.c:59-60 | the uncapped share reaches 100 exactly when the delta reaches the interval |
| ProfilerWindows.CpuPercentOfUsage | src/resource_profiler_windows.c:55-61 | times that advanced by d ms within the interval, even across a wrap, give 100 * d / interval |
| ProfilerWindows.CpuDeltaOfUsage | src/resource_profiler_windows.c:57 | when the sums advanced by d ms, even across a wrap, the unsigned difference of the sums is d |
| ProfilerWindows.RowOf | src/resource_profiler_windows.c:92-98 | the first row has zero CPU share |
| ProfilerWindows.EmitTrace | src/resource_profiler_windows.c:81-107 | the sampling loop writes one row per sample up to the first failed query; it completes exactly when every query succeeds; each row pairs its reading with the previous one |
| ProfilerWindows.EmitLoop | src/resource_profiler_windows.c:78-107 | the loop with its prev, curr and first variables computes those rows |
| ProfilerWindows.Rows | src/resource_profiler_windows.c:81-107 | no more rows than samples, each from a successful query |
| ProfilerWindows.RowsTrace | src/resource_profiler_windows.c:81-107 | the rows stop at the first failed query, the run completes exactly when none fails, and row j pairs reading j with reading j - 1 |
| ProfilerWindows.RowsColumns | src/resource_profiler_windows.c:90-98 | each row holds its clock in ms, the pid, the times and working sets of its reading, and the CPU share against the previous reading (0 for the first) |
| ProfilerWindows.RpRun | src/resource_profiler_windows.c:63-111 | -1 without rows when the path does not open; otherwise 0 exactly when every sample is queried, with the rows of the loop for the pid as a DWORD |

## Left out

- Report text: `printf`, `fprintf`, `log_info`/`log_error` output and `%.2f` formatting are not modelled; where text is the result of an operation (profiler rows, CSV/JSON exports, saved results) the model produces records rather than characters.
- `fork`, `clone`, `waitpid`, `kill`, `sleep`/`usleep`/`Sleep`, `clock_gettime`, `sysinfo`, `getpagesize`, `sysconf`, `readdir`, `readlink` and the Windows process APIs are inputs (sequences of poll results, readings and clocks), because their effects are outside the program.
- `read_file_content`, `safe_fopen`, `ensure_directory`, `get_timestamp` and `process_exists` are inputs: the model sees only whether a file opens and what it holds.
- `cgroup_set_memory_max` has no body in the repository (the implementation in src/cgroup_v2.c:187-210 is commented out); the memory experiment takes its return code as an input and no write to `memory.max` is modelled.
- `read_cpu_stats` and `calculate_cpu_usage` are only declared (include/monitors.h:69-70); the CPU experiment takes the per-sample usages as inputs.
- The workload bodies `memory_allocator`, `cpu_intensive_work`, `io_intensive_work` and `child_function` are timing loops and system calls; only their exit status and the markers they leave enter the model.
- `print_experiment_summary` and `namespace_list_for_pid` only print and are not modelled.
- The uninitialised `status` after a failed `waitpid` in the memory experiment is not modelled: that poll ends the watch as an unclassified ending (neither OOM, allocation failure nor success).
- Doubles are `real`; NaN and infinity are `None`, and the `(unsigned long)` cast of a NaN rate is modelled as 0.
- `fgets` splitting of lines longer than its buffer is not modelled: every line is read whole.
- `snprintf` truncation of paths at 256 or 512 bytes is not modelled: paths are joined in full.
- Control files of a new cgroup directory are created empty and writable by `Mkdir`; a short `fwrite` is an input (`written`), and whether `rmdir` finds the directory busy is an input.
- When the output path is absent the profiler writes to stdout; the model produces the same rows either way.
- NamespaceAnalyzer.Sort: orders pairs by nsid and then pid as the comparator intends; the overflow of `a->pid - b->pid` for pids far apart is not modelled, and `qsort`'s instability is irrelevant because equal keys are equal pairs.
- ResourceProfiler.CollectFields: keeps the 64-slot fields buffer as a sequence rather than an array.
- ResourceProfiler.ReadProcStat and ResourceProfiler.RpRun take the fallback positions as a parameter, so that both the positions as written and the intended ones can be stated (see Findings).
- `cgroup_exists`, `cgroup_is_v2_available` and `cgroup_get_full_path` are the directory test and `CgroupFs.Join` that guard each operation.
- src/experiment_overhead.c, src/monitor_tui.c, src/cpu_monitor.c, src/main.c, the `*_main.c` drivers and the Windows stubs of the namespace analyzer and cgroup manager are not part of this model: they time busy loops, draw menus, parse arguments or only print.

## Findings

| source | as written | input that shows it | evidently intended | confidence | as-written member | corrected member |
|---|---|---|---|---|---|---|
| src/resource_profiler.c:117-125 | the fallback reads `fields[7]`, `[9]`, `[12]`, `[13]`, `[22]`, `[23]`, which are proc(5) fields 11, 13, 16, 17, 26 and 27 (cminflt, cmajflt, cutime, cstime, startcode, endcode); the `sscanf` before it assigns nothing for a letter state (ResourceProfiler.LetterStateUsesFallback), so the fallback always decides | any stat line whose fields 14 and 16 differ: the reported utime is cutime | fields 10, 12, 14, 15, 23 and 24 (indexes 6, 8, 10, 11, 19, 20) | not executed | ResourceProfiler.AsWrittenReadsOtherFields | ResourceProfiler.IntendedReadsNamedFields |
