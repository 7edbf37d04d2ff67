/** The string and arithmetic helpers every monitor shares: whitespace
    trimming in place, "Key: value" line parsing, and the percentage, rate and
    elapsed-time formulas. */
module Utils {
  import opened Common

  // ---------------------------------------------------------------------------
  // trim_string

  /** Length of the trailing run of whitespace. */
  function TrailSpaceRun(s: string): (n: nat)
    ensures n <= |s|
    ensures forall i :: |s| - n <= i < |s| ==> IsSpace(s[i])
    ensures n < |s| ==> !IsSpace(s[|s| - n - 1])
  {
    if s == [] || !IsSpace(s[|s| - 1]) then 0 else 1 + TrailSpaceRun(s[..|s| - 1])
  }

  /** The string without its leading and trailing whitespace. */
  function Trimmed(s: string): string
  {
    var i := SpaceRun(s);
    if i == |s| then [] else s[i..|s| - TrailSpaceRun(s)]
  }

  /** What trimming promises: the result is a middle piece of the input, what
      was cut off on either side is whitespace, and the piece itself neither
      starts nor ends with whitespace (so an all-whitespace input becomes
      empty). */
  lemma TrimmedIsMiddle(s: string)
    ensures exists i, j :: (0 <= i <= j <= |s| && Trimmed(s) == s[i..j]
      && (forall k :: 0 <= k < i ==> IsSpace(s[k]))
      && (forall k :: j <= k < |s| ==> IsSpace(s[k])))
    ensures Trimmed(s) != [] ==> !IsSpace(Trimmed(s)[0]) && !IsSpace(Trimmed(s)[|Trimmed(s)| - 1])
    ensures (forall k :: 0 <= k < |s| ==> IsSpace(s[k])) <==> Trimmed(s) == []
  {
    var i := SpaceRun(s);
    if i == |s| {
      assert Trimmed(s) == s[i..i];
    } else {
      var t := TrailSpaceRun(s);
      assert !IsSpace(s[i]);
      assert Trimmed(s) == s[i..|s| - t];
    }
  }

  /** Trimming twice trims nothing more. */
  lemma TrimmedIdempotent(s: string)
    ensures Trimmed(Trimmed(s)) == Trimmed(s)
  {
    TrimmedIsMiddle(s);
    var r := Trimmed(s);
    if r != [] {
      assert SpaceRun(r) == 0;
      assert TrailSpaceRun(r) == 0;
      assert r[0..|r|] == r;
    }
  }

  /** trim_string on a NUL-terminated buffer: the string is a[..n] and a[n] is
      its terminator. Leading whitespace is skipped, the string is cut after
      its last non-whitespace character, and the rest is moved to the front.
      Returns the new string length; a null buffer is left alone. */
  method TrimString(a: array?<char>, n: nat) returns (m: nat)
    requires a != null ==> n < a.Length && a[n] == '\0'
    requires a != null ==> forall k :: 0 <= k < n ==> a[k] != '\0'
    modifies a
    ensures a == null ==> m == 0
    ensures a != null ==> m < a.Length && a[m] == '\0'
    ensures a != null ==> a[..m] == Trimmed(old(a[..n]))
  {
    if a == null {
      return 0;
    }
    m := TrimInPlace(a, n);
  }

  /** The body of trim_string past its null check. */
  method TrimInPlace(a: array<char>, n: nat) returns (m: nat)
    requires n < a.Length && a[n] == '\0'
    requires forall k :: 0 <= k < n ==> a[k] != '\0'
    modifies a
    ensures m < a.Length && a[m] == '\0'
    ensures a[..m] == Trimmed(old(a[..n]))
  {
    ghost var s := a[..n];
    var start := SkipLeading(a, n);
    if start == n {
      a[0] := '\0';
      return 0;
    }
    var end := SkipTrailing(a, n, start);
    TrimmedBetween(s, start, end);
    var stop := end + 1;
    SliceOfPrefix(a[..], s, n, start, stop);
    m := CutAndMove(a, n, start, end);
  }

  /** The `while (isspace(*start))` scan: the terminator is not white
      space, so it stops at n at the latest. */
  method SkipLeading(a: array<char>, n: nat) returns (start: nat)
    requires n <= a.Length
    ensures start == SpaceRun(a[..n])
  {
    start := 0;
    while start < n && IsSpace(a[start])
      invariant start <= n
      invariant forall k :: 0 <= k < start ==> IsSpace(a[..n][k])
    {
      start := start + 1;
    }
    SpaceRunIs(a[..n], start);
  }

  /** The backward scan from the last character, which stops at the first
      character that is not white space, start at the earliest. */
  method SkipTrailing(a: array<char>, n: nat, start: nat) returns (end: nat)
    requires start < n <= a.Length && !IsSpace(a[start])
    ensures start <= end < n && n - 1 - end == TrailSpaceRun(a[..n])
  {
    end := n - 1;
    while end > start && IsSpace(a[end])
      invariant start <= end < n
      invariant forall k :: end < k < n ==> IsSpace(a[..n][k])
    {
      end := end - 1;
    }
    TrailSpaceRunIs(a[..n], n - 1 - end);
  }

  /** A slice inside a prefix equal to s is the same slice of s. */
  lemma SliceOfPrefix<T>(x: seq<T>, s: seq<T>, n: nat, i: nat, j: nat)
    requires n <= |x| && x[..n] == s && i <= j <= n
    ensures x[i..j] == s[i..j]
  {
    assert forall k :: i <= k < j ==> x[k] == x[..n][k];
  }

  /** Between the first and the last non-whitespace character lies the
      trimmed string. */
  lemma TrimmedBetween(s: string, start: nat, end: nat)
    requires start == SpaceRun(s) && start <= end < |s|
    requires |s| - 1 - end == TrailSpaceRun(s)
    ensures Trimmed(s) == s[start..end + 1]
  {
    var stop := |s| - TrailSpaceRun(s);
    assert stop == end + 1;
    assert Trimmed(s) == s[start..stop];
  }

  /** The tail of trim_string: the terminator goes after the last character
      kept, and the kept characters move to the front. */
  method CutAndMove(a: array<char>, n: nat, start: nat, end: nat) returns (m: nat)
    requires start <= end < n < a.Length
    modifies a
    ensures m == end + 1 - start && m < a.Length && a[m] == '\0'
    ensures a[..m] == old(a[start..end + 1])
  {
    m := end + 1 - start;
    ghost var kept := a[start..end + 1];
    a[end + 1] := '\0';
    ghost var cut := a[..];
    assert cut[start..end + 1] == kept;
    if start != 0 {
      MoveToFront(a, start, m + 1);
      assert a[..m] == cut[start..end + 1];
    } else {
      assert a[..m] == cut[..end + 1];
    }
  }

  /** The memmove of trim_string: a[start..start + len] is copied to the
      front of the buffer, first byte first. */
  method MoveToFront(a: array<char>, start: nat, len: nat)
    requires start + len <= a.Length
    modifies a
    ensures a[..len] == old(a[start..start + len])
    ensures a[len..] == old(a[len..])
  {
    ghost var before := a[..];
    var i := 0;
    while i < len
      invariant i <= len
      invariant forall k :: 0 <= k < i ==> a[k] == before[start + k]
      invariant forall k :: i <= k < a.Length ==> a[k] == before[k]
    {
      a[i] := a[start + i];
      i := i + 1;
    }
  }

  /** A whitespace run that stops at a non-whitespace character or at the end
      is the one SpaceRun measures. */
  lemma {:induction false} SpaceRunIs(s: string, k: nat)
    requires k <= |s|
    requires forall i :: 0 <= i < k ==> IsSpace(s[i])
    requires k < |s| ==> !IsSpace(s[k])
    ensures SpaceRun(s) == k
    decreases k
  {
    if k > 0 {
      SpaceRunIs(s[1..], k - 1);
    }
  }

  lemma {:induction false} TrailSpaceRunIs(s: string, k: nat)
    requires k <= |s|
    requires forall i :: |s| - k <= i < |s| ==> IsSpace(s[i])
    requires k < |s| ==> !IsSpace(s[|s| - k - 1])
    ensures TrailSpaceRun(s) == k
    decreases k
  {
    if k > 0 {
      TrailSpaceRunIs(s[..|s| - 1], k - 1);
    }
  }

  // ---------------------------------------------------------------------------
  // parse_line_value / parse_line_value_ull

  /** The return code and the value after a parse_line_value call: 1 and the
      number after the key when the line starts with the key, otherwise 0 and
      the value the caller had. */
  datatype LineValue = LineValue(found: int, value: nat)

  /** parse_line_value and parse_line_value_ull: "long" and "long long" are
      both 64 bits wide, so the two are the same function here. */
  function ParseLineValue(line: string, key: string, value: nat): (r: LineValue)
    ensures r.found == 1 || r.found == 0
    ensures r.found == 1 <==> key <= line
    ensures r.found == 0 ==> r.value == value
    ensures r.found == 1 ==> r.value < U64
  {
    if key <= line then
      var v := line[|key|..];
      LineValue(1, Strtoul(v[SpaceRun(v)..]).value)
    else LineValue(0, value)
  }

  /** The explicit whitespace skip before strtoul changes nothing: strtoul
      skips the same whitespace itself. */
  lemma SkipBeforeStrtoul(v: string)
    ensures Strtoul(v[SpaceRun(v)..]).value == Strtoul(v).value
  {
    var k := SpaceRun(v);
    var pad, w := v[..k], v[k..];
    SpaceRunSplit(v, k, pad, w);
    StrtoulAfterPad(pad, w);
    assert Strtoul(pad + w) == Strtoul(v);
  }

  /** The text is its leading white space, then a text that does not start
      with white space. */
  lemma SpaceRunSplit(v: string, k: nat, pad: string, w: string)
    requires k == SpaceRun(v) && pad == v[..k] && w == v[k..]
    ensures v == pad + w
    ensures forall i :: 0 <= i < |pad| ==> IsSpace(pad[i])
    ensures w == [] || !IsSpace(w[0])
  {
    if w != [] { assert w[0] == v[k]; }
  }

  /** A /proc/meminfo style line "Key:   n kB" gives n back. */
  lemma ParseLineValueOfKeyLine(key: string, pad: string, n: nat, unit: string, oldValue: nat)
    requires n < U64
    requires forall i :: 0 <= i < |pad| ==> IsSpace(pad[i])
    requires unit == [] || !IsDigit(unit[0])
    ensures ParseLineValue(key + pad + NatToString(n) + unit, key, oldValue) == LineValue(1, n)
  {
    var line := key + pad + NatToString(n) + unit;
    var v := line[|key|..];
    KeyLineSplit(key, pad, NatToString(n), unit);
    SkipBeforeStrtoul(v);
    assert Strtoul(v).value == n by {
      var t := NatToString(n) + unit;
      assert t[0] == NatToString(n)[0];
      StrtoulAfterPad(pad, t);
      StrtoulOfNatToString(n, unit);
    }
  }

  lemma KeyLineSplit(key: string, pad: string, ds: string, unit: string)
    ensures key <= key + pad + ds + unit
    ensures (key + pad + ds + unit)[|key|..] == pad + (ds + unit)
  {
    assert key + pad + ds + unit == key + (pad + (ds + unit));
  }

  // ---------------------------------------------------------------------------
  // Arithmetic

  /** calculate_percentage: used as a percentage of total, 0 for a zero total. */
  function CalculatePercentage(used: nat, total: nat): (r: real)
    ensures total == 0 ==> r == 0.0
    ensures total > 0 ==> r * total as real == 100.0 * used as real
    ensures used <= total ==> 0.0 <= r <= 100.0
  {
    if total == 0 then 0.0 else (100.0 * used as real) / total as real
  }

  /** calculate_rate: the counter difference per unit of time, 0 when no time
      passed. The difference is taken in unsigned 64-bit arithmetic, so a
      counter that went backwards yields a huge rate. */
  function CalculateRate(current: U64Val, previous: U64Val, timeDiff: real): (r: real)
    ensures timeDiff <= 0.0 ==> r == 0.0
    ensures timeDiff > 0.0 ==> r * timeDiff == Wrap(current - previous) as real
    ensures r >= 0.0
  {
    if timeDiff <= 0.0 then 0.0 else Wrap(current - previous) as real / timeDiff
  }

  /** A counter that went backwards by d yields the rate of 2^64 - d: the
      subtraction has no wrap-around guard. */
  lemma RateAfterCounterReset(current: U64Val, previous: U64Val, timeDiff: real)
    requires current < previous && timeDiff > 0.0
    ensures CalculateRate(current, previous, timeDiff) * timeDiff
         == (U64 - (previous - current)) as real
  {
    assert Wrap(current - previous) == U64 - (previous - current);
  }

  /** A clock reading: seconds and nanoseconds, as in struct timespec. */
  datatype TimeSpec = TimeSpec(sec: int, nsec: int)

  /** The instant a timespec denotes, in seconds. */
  function Seconds(t: TimeSpec): real
  {
    t.sec as real + t.nsec as real / 1000000000.0
  }

  /** get_elapsed_time: whole-second difference plus nanosecond difference. */
  function ElapsedTime(start: TimeSpec, end: TimeSpec): (r: real)
    ensures r == Seconds(end) - Seconds(start)
  {
    (end.sec - start.sec) as real + (end.nsec - start.nsec) as real / 1000000000.0
  }

  /** Elapsed times add up along three instants. */
  lemma ElapsedTimeAdds(a: TimeSpec, b: TimeSpec, c: TimeSpec)
    ensures ElapsedTime(a, c) == ElapsedTime(a, b) + ElapsedTime(b, c)
  {
  }
}
