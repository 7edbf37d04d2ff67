/** Shared vocabulary of the model: result wrappers, the C integer widths the
    sources compute in, the C character classes, and the C library's decimal
    conversions (strtoul, strtol, printf "%d"/"%lu") stated over strings. */
module Common {

  datatype Option<+T> = None | Some(value: T)

  /** The C convention of the sources: 0 on success, -1 on failure. */
  datatype Status = Ok | Fail

  /** 2^64: the modulus of unsigned long and unsigned long long on LP64 Linux. */
  const U64: nat := 0x1_0000_0000_0000_0000
  /** One MiB in bytes. */
  const MiB: nat := 1024 * 1024
  const ULongMax: nat := U64 - 1
  /** The range of a 64-bit signed long. */
  const LongMax: int := 0x7FFF_FFFF_FFFF_FFFF
  const LongMin: int := -0x8000_0000_0000_0000

  type U64Val = x: nat | x < U64

  /** C's int (pid_t included) and long on LP64 Linux. */
  type Int32 = x: int | -0x8000_0000 <= x <= 0x7FFF_FFFF
  type Long = x: int | LongMin <= x <= LongMax

  /** A cast to a 32-bit int ((int)x, (pid_t)x): the value modulo 2^32, read
      as two's complement. */
  function ToInt32(x: int): (r: Int32)
    ensures (r - x) % 0x1_0000_0000 == 0
    ensures -0x8000_0000 <= x <= 0x7FFF_FFFF ==> r == x
  {
    var m := x % 0x1_0000_0000;
    if m >= 0x8000_0000 then m - 0x1_0000_0000 else m
  }

  /** Unsigned 64-bit wrap-around, as C computes +, - and * on unsigned long. */
  function Wrap(x: int): (r: U64Val)
    ensures 0 <= x < U64 ==> r == x
    ensures exists k :: x == r + k * U64
  {
    var r := x % U64;
    assert x == r + (x / U64) * U64;
    r
  }

  /** Reducing a running sum at every step or once at the end agrees. */
  lemma WrapAdd(x: int, y: int)
    ensures Wrap(Wrap(x) + y) == Wrap(x + y)
  {
    var k := x / U64;
    assert x == Wrap(x) + k * U64;
    assert Wrap(x) + y == (x + y) - k * U64;
    assert ((x + y) - k * U64) % U64 == (x + y) % U64;
  }

  /** Conversion of an unsigned long to a signed long (two's complement). */
  function ToLong(x: U64Val): (r: int)
    ensures LongMin <= r <= LongMax
    ensures x <= LongMax ==> r == x
    ensures Wrap(r) == x
  {
    if x <= LongMax then x else x - U64
  }

  /** An unsigned difference recovers the amount a counter advanced by, even
      when the counter wrapped around in between. */
  lemma WrapDiff(a: int, b: int, d: int)
    requires 0 <= d < U64
    requires Wrap(a) == Wrap(b + d)
    ensures Wrap(a - b) == d
  {
    var ka := a / U64;
    var kb := (b + d) / U64;
    assert a == Wrap(a) + ka * U64;
    assert b + d == Wrap(b + d) + kb * U64;
    assert a - b == d + (ka - kb) * U64;
  }

  /** C's integer division, which truncates toward zero (Dafny's is Euclidean). */
  function CDiv(a: int, b: int): (q: int)
    requires b != 0
    ensures 0 <= a && 0 < b ==> q == a / b
    ensures (a < 0) == (b < 0) ==> q >= 0
  {
    var na := if a < 0 then -a else a;
    var nb := if b < 0 then -b else b;
    DivNonneg(na, nb);
    var m := na / nb;
    if (a < 0) == (b < 0) then m else -m
  }

  /** Kept apart so the division stays out of CDiv's own proof. */
  lemma DivNonneg(n: int, d: int)
    requires 0 <= n && 0 < d
    ensures 0 <= n / d
  {
  }

  // ---------------------------------------------------------------------------
  // Character classes (the "C" locale of <ctype.h>)

  /** isspace: space, \t, \n, \v, \f, \r. */
  predicate IsSpace(c: char) { c == ' ' || ('\t' <= c <= '\r') }

  predicate IsDigit(c: char) { '0' <= c <= '9' }

  function DigitOf(c: char): (d: nat)
    requires IsDigit(c)
    ensures d < 10
  {
    (c as int - '0' as int) as nat
  }

  function DigitChar(d: nat): (c: char)
    requires d < 10
    ensures IsDigit(c) && DigitOf(c) == d
  {
    ((d + '0' as int) as char)
  }

  /** Length of the leading run of whitespace. */
  function SpaceRun(s: string): (n: nat)
    ensures n <= |s|
    ensures forall i :: 0 <= i < n ==> IsSpace(s[i])
    ensures n < |s| ==> !IsSpace(s[n])
  {
    if s == [] || !IsSpace(s[0]) then 0 else 1 + SpaceRun(s[1..])
  }

  /** Length of the leading run of decimal digits. */
  function DigitRun(s: string): (n: nat)
    ensures n <= |s|
    ensures forall i :: 0 <= i < n ==> IsDigit(s[i])
    ensures n < |s| ==> !IsDigit(s[n])
  {
    if s == [] || !IsDigit(s[0]) then 0 else 1 + DigitRun(s[1..])
  }

  predicate AllDigits(s: string) { forall i :: 0 <= i < |s| ==> IsDigit(s[i]) }

  /** The number a run of decimal digits denotes (most significant first). */
  function DecimalValue(ds: string): nat
    requires AllDigits(ds)
  {
    if ds == [] then 0 else DecimalValue(ds[..|ds| - 1]) * 10 + DigitOf(ds[|ds| - 1])
  }

  // ---------------------------------------------------------------------------
  // strtoul / strtol with base 10

  /** The outcome of a strtoul/strtol call: the value and how many characters
      the end pointer moved past the start (0 when no digits were found,
      in which case C leaves the end pointer at the start). */
  datatype Conv = Conv(value: int, consumed: nat)

  /** Length of an optional leading sign. */
  function SignLen(t: string): (k: nat)
    ensures k <= 1 && k <= |t|
  {
    if t != [] && (t[0] == '+' || t[0] == '-') then 1 else 0
  }

  /** An optional sign, then decimal digits, at the very start of t, read as
      strtoul reads them after its whitespace skip: an overflowing magnitude
      gives ULONG_MAX, and a '-' negates modulo 2^64. */
  function ParseUnsigned(t: string): (c: Conv)
    ensures c.consumed <= |t|
    ensures 0 <= c.value < U64
    ensures c.consumed == 0 ==> c.value == 0
  {
    var sg := SignLen(t);
    var d := DigitRun(t[sg..]);
    if d == 0 then Conv(0, 0)
    else
      var mag := DecimalValue(t[sg..][..d]);
      var v := if mag >= U64 then ULongMax
               else if sg == 1 && t[0] == '-' then (U64 - mag) % U64
               else mag;
      Conv(v, sg + d)
  }

  /** The same for strtol: the value saturates at LONG_MIN and LONG_MAX. */
  function ParseSigned(t: string): (c: Conv)
    ensures c.consumed <= |t|
    ensures LongMin <= c.value <= LongMax
    ensures c.consumed == 0 ==> c.value == 0
  {
    var sg := SignLen(t);
    var d := DigitRun(t[sg..]);
    if d == 0 then Conv(0, 0)
    else
      var mag: int := DecimalValue(t[sg..][..d]);
      var v := if sg == 1 && t[0] == '-' then (if mag > -LongMin then LongMin else -mag)
               else if mag > LongMax then LongMax
               else mag;
      Conv(v, sg + d)
  }

  /** strtoul(s, &end, 10): skips whitespace, then reads a signed number;
      the end pointer stays at the start when no digits follow. */
  function Strtoul(s: string): (c: Conv)
    ensures c.consumed <= |s|
    ensures 0 <= c.value < U64
    ensures c.consumed == 0 ==> c.value == 0
  {
    var ws := SpaceRun(s);
    var c := ParseUnsigned(s[ws..]);
    if c.consumed == 0 then Conv(0, 0) else Conv(c.value, ws + c.consumed)
  }

  /** strtol(s, &end, 10): as strtoul, saturating at LONG_MIN/LONG_MAX. */
  function Strtol(s: string): (c: Conv)
    ensures c.consumed <= |s|
    ensures LongMin <= c.value <= LongMax
    ensures c.consumed == 0 ==> c.value == 0
  {
    var ws := SpaceRun(s);
    var c := ParseSigned(s[ws..]);
    if c.consumed == 0 then Conv(0, 0) else Conv(c.value, ws + c.consumed)
  }

  /** A whitespace prefix is exactly what SpaceRun measures when a
      non-whitespace character follows it. */
  lemma {:induction false} SpaceRunOfPad(pad: string, t: string)
    requires forall i :: 0 <= i < |pad| ==> IsSpace(pad[i])
    requires t == [] || !IsSpace(t[0])
    ensures SpaceRun(pad + t) == |pad|
    decreases |pad|
  {
    if pad == [] {
      assert pad + t == t;
    } else {
      assert (pad + t)[1..] == pad[1..] + t;
      SpaceRunOfPad(pad[1..], t);
    }
  }

  /** Whitespace in front of a number does not change what strtoul reads. */
  lemma StrtoulAfterPad(pad: string, t: string)
    requires forall i :: 0 <= i < |pad| ==> IsSpace(pad[i])
    requires t == [] || !IsSpace(t[0])
    ensures Strtoul(pad + t).value == Strtoul(t).value
  {
    SpaceRunOfPad(pad, t);
    assert (pad + t)[|pad|..] == t;
    assert SpaceRun(t) == 0;
    assert t[0..] == t;
  }

  // ---------------------------------------------------------------------------
  // printf "%lu" / "%d"

  /** Decimal text of a natural number, without leading zeros. */
  function NatToString(n: nat): (s: string)
    ensures |s| > 0 && AllDigits(s)
    decreases n
  {
    if n < 10 then [DigitChar(n)] else NatToString(n / 10) + [DigitChar(n % 10)]
  }

  /** Decimal text of an integer: a '-' for negative values. */
  function IntToString(i: int): (s: string)
    ensures |s| > 0
    ensures i >= 0 ==> s == NatToString(i)
    ensures i < 0 ==> s == "-" + NatToString(-i)
  {
    if i >= 0 then NatToString(i) else "-" + NatToString(-i)
  }

  lemma {:induction false} DecimalValueOfNatToString(n: nat)
    ensures DecimalValue(NatToString(n)) == n
    decreases n
  {
    var s := NatToString(n);
    if n >= 10 {
      DecimalValueOfNatToString(n / 10);
      assert s[..|s| - 1] == NatToString(n / 10);
    }
  }

  lemma {:induction false} DigitRunOfDigitsThen(ds: string, rest: string)
    requires AllDigits(ds)
    requires rest == [] || !IsDigit(rest[0])
    ensures DigitRun(ds + rest) == |ds|
    decreases |ds|
  {
    if ds != [] {
      DigitRunOfDigitsThen(ds[1..], rest);
      assert (ds + rest)[1..] == ds[1..] + rest;
    } else {
      assert ds + rest == rest;
    }
  }

  /** Round trip: strtoul reads back exactly what "%lu" wrote, and its end
      pointer stops right after the digits. */
  lemma StrtoulOfNatToString(n: nat, rest: string)
    requires n < U64
    requires rest == [] || !IsDigit(rest[0])
    ensures Strtoul(NatToString(n) + rest) == Conv(n, |NatToString(n)|)
  {
    var ds := NatToString(n);
    var s := ds + rest;
    assert s[0] == ds[0];
    assert SpaceRun(s) == 0;
    assert s[0..] == s;
    ParseUnsignedOfDigits(n, rest);
  }

  /** strtoul over " n" reads n and stops after its digits. */
  lemma StrtoulOfSpacedNat(n: nat, rest: string)
    requires n < U64
    requires rest == [] || !IsDigit(rest[0])
    ensures Strtoul(" " + NatToString(n) + rest) == Conv(n, 1 + |NatToString(n)|)
  {
    var ds := NatToString(n);
    var s := " " + ds + rest;
    assert s[1] == ds[0];
    SpaceRunOfPad(" ", ds + rest);
    assert s == " " + (ds + rest) && s[1..] == ds + rest;
    ParseUnsignedOfDigits(n, rest);
  }

  /** A character that is neither whitespace, a sign nor a digit stops
      strtoul at once: the end pointer does not move. */
  lemma StrtoulAtNonNumeric(s: string)
    requires s != [] && !IsSpace(s[0]) && !IsDigit(s[0]) && s[0] != '+' && s[0] != '-'
    ensures Strtoul(s).consumed == 0
  {
    assert SpaceRun(s) == 0;
    assert s[0..] == s;
  }

  /** The same for strtol. */
  lemma StrtolAtNonNumeric(s: string)
    requires s != [] && !IsSpace(s[0]) && !IsDigit(s[0]) && s[0] != '+' && s[0] != '-'
    ensures Strtol(s).consumed == 0
  {
    assert SpaceRun(s) == 0;
    assert s[0..] == s;
  }

  /** strtol reads back a whole "%d" text of a non-negative long. */
  lemma StrtolOfNatToString(n: nat)
    requires n <= LongMax
    ensures Strtol(NatToString(n)) == Conv(n, |NatToString(n)|)
  {
    var ds := NatToString(n);
    assert SpaceRun(ds) == 0;
    assert ds[0..] == ds;
    assert SignLen(ds) == 0;
    DigitRunOfDigitsThen(ds, []);
    assert ds + [] == ds;
    assert ds[..|ds|] == ds;
    DecimalValueOfNatToString(n);
  }

  lemma ParseUnsignedOfDigits(n: nat, rest: string)
    requires n < U64
    requires rest == [] || !IsDigit(rest[0])
    ensures ParseUnsigned(NatToString(n) + rest) == Conv(n, |NatToString(n)|)
  {
    var ds := NatToString(n);
    var s := ds + rest;
    assert s[0] == ds[0];
    assert SignLen(s) == 0;
    assert s[0..] == s;
    DigitRunOfDigitsThen(ds, rest);
    assert s[..|ds|] == ds;
    DecimalValueOfNatToString(n);
  }

  // ---------------------------------------------------------------------------
  // Text files as lines

  /** Index of the first occurrence of c in s, or |s| if there is none. */
  function IndexOf(s: string, c: char): (k: nat)
    ensures k <= |s|
    ensures k < |s| ==> s[k] == c
    ensures forall i :: 0 <= i < k ==> s[i] != c
  {
    if s == [] then 0 else if s[0] == c then 0 else 1 + IndexOf(s[1..], c)
  }

  /** The lines that successive fgets calls return, each without its newline;
      a final line without a newline still counts. */
  function Lines(s: string): (ls: seq<string>)
    ensures forall i :: 0 <= i < |ls| ==> '\n' !in ls[i]
    decreases |s|
  {
    if s == [] then []
    else
      var k := IndexOf(s, '\n');
      if k == |s| then [s] else [s[..k]] + Lines(s[k + 1..])
  }

  /** What the first fgets call into a buffer of size bytes returns, without
      its newline: None for an empty file, else at most size - 1 characters of
      the first line. */
  function FirstLine(content: string, size: nat): (r: Option<string>)
    requires size > 0
    ensures r.None? <==> content == []
    ensures r.Some? ==> |r.value| < size && '\n' !in r.value
  {
    var ls := Lines(content);
    if ls == [] then None else Some(Truncate(ls[0], size - 1))
  }

  /** A short first line comes back whole. */
  lemma FirstLineOf(l: string, others: string, size: nat)
    requires '\n' !in l && |l| < size
    ensures FirstLine(l + "\n" + others, size) == Some(l)
  {
    var s := l + "\n" + others;
    assert s == l + ("\n" + others);
    IndexOfAfter(l, "\n" + others, '\n');
    assert s[..|l|] == l;
  }

  /** The text a writer produces by printing each line followed by "\n". */
  function Unlines(ls: seq<string>): string
  {
    if ls == [] then [] else ls[0] + "\n" + Unlines(ls[1..])
  }

  /** Splitting text written line by line gives the lines back. */
  lemma {:induction false} LinesOfUnlines(ls: seq<string>)
    requires forall i :: 0 <= i < |ls| ==> '\n' !in ls[i]
    ensures Lines(Unlines(ls)) == ls
  {
    if ls != [] {
      var tail := ls[1..];
      var rest := Unlines(tail);
      LinesStep(Unlines(ls), ls[0], rest);
      LinesOfUnlines(tail);
    }
  }

  /** A first line followed by its newline splits off as the first line. */
  lemma LinesStep(s: string, l: string, rest: string)
    requires '\n' !in l && s == l + ("\n" + rest)
    ensures Lines(s) == [l] + Lines(rest)
  {
    IndexOfAfter(l, "\n" + rest, '\n');
    assert s[..|l|] == l;
    assert s[|l| + 1..] == rest;
  }

  /** The first c is found where it first occurs. */
  lemma {:induction false} IndexOfAfter(l: string, r: string, c: char)
    requires c !in l
    requires r != [] && r[0] == c
    ensures IndexOf(l + r, c) == |l|
    decreases |l|
  {
    if l != [] {
      assert (l + r)[1..] == l[1..] + r;
      IndexOfAfter(l[1..], r, c);
    } else {
      assert l + r == r;
    }
  }

  /** The first key of the list that starts s, as an if-else chain of
      strncmp(s, key, strlen(key)) == 0 tests finds it; |keys| if none does. */
  function FirstPrefix(keys: seq<string>, s: string): (k: nat)
    ensures k <= |keys|
    ensures k < |keys| ==> keys[k] <= s
    ensures forall j :: 0 <= j < k ==> !(keys[j] <= s)
  {
    if keys == [] then 0
    else if keys[0] <= s then 0
    else 1 + FirstPrefix(keys[1..], s)
  }

  /** No key of the list is a prefix of another. */
  predicate PrefixFree(keys: seq<string>)
  {
    forall a, b :: 0 <= a < |keys| && 0 <= b < |keys| && a != b ==> !(keys[a] <= keys[b])
  }

  /** In a prefix-free list, at most one key starts a given string. */
  lemma PrefixExcludes(keys: seq<string>, s: string, a: nat, b: nat)
    requires PrefixFree(keys)
    requires a < |keys| && b < |keys| && a != b
    requires keys[a] <= s
    ensures !(keys[b] <= s)
  {
    var ka, kb := keys[a], keys[b];
    if |ka| <= |kb| {
      assert exists i :: 0 <= i < |ka| && ka[i] != kb[i];
      var i :| 0 <= i < |ka| && ka[i] != kb[i];
      assert kb[i] != s[i];
    } else {
      assert exists i :: 0 <= i < |kb| && kb[i] != ka[i];
      var i :| 0 <= i < |kb| && kb[i] != ka[i];
      assert kb[i] != s[i];
    }
  }

  /** strrchr: the index of the last c in s, None when s has none. */
  function LastIndexOf(s: string, c: char): (r: Option<nat>)
    ensures r.None? <==> c !in s
    ensures r.Some? ==> r.value < |s| && s[r.value] == c
    ensures r.Some? ==> forall j :: r.value < j < |s| ==> s[j] != c
  {
    if s == [] then None
    else if s[|s| - 1] == c then Some(|s| - 1)
    else
      assert s == s[..|s| - 1] + [s[|s| - 1]];
      LastIndexOf(s[..|s| - 1], c)
  }

  /** The first n characters of s, or all of s when it is shorter (a copy into
      a buffer of n+1 bytes that always keeps room for the terminator). */
  function Truncate(s: string, n: nat): (r: string)
    ensures |r| <= n && r <= s
    ensures |s| <= n ==> r == s
  {
    if |s| <= n then s else s[..n]
  }

  // ---------------------------------------------------------------------------
  // Sampling loops that skip failed reads

  /** The readings that succeeded, in order. */
  function Successes<T>(xs: seq<Option<T>>): (r: seq<T>)
    ensures |r| <= |xs|
    ensures forall i :: 0 <= i < |r| ==> Some(r[i]) in xs
  {
    if xs == [] then []
    else
      var rest := Successes(xs[1..]);
      if xs[0].Some? then [xs[0].value] + rest else rest
  }

  /** Successes distributes over concatenation. */
  lemma {:induction false} SuccessesAppend<T>(a: seq<Option<T>>, b: seq<Option<T>>)
    ensures Successes(a + b) == Successes(a) + Successes(b)
    decreases |a|
  {
    if a == [] {
      assert a + b == b;
    } else {
      assert (a + b)[1..] == a[1..] + b;
      SuccessesAppend(a[1..], b);
    }
  }

  /** Every reading succeeded exactly when none was lost. */
  lemma {:induction false} SuccessesAll<T>(xs: seq<Option<T>>)
    ensures |Successes(xs)| == |xs| <==> forall i :: 0 <= i < |xs| ==> xs[i].Some?
    decreases |xs|
  {
    if xs != [] {
      SuccessesAll(xs[1..]);
      assert forall i :: 1 <= i < |xs| ==> xs[i] == xs[1..][i - 1];
    }
  }

  /** x * 1024 * 1024 in unsigned long arithmetic: a size in MiB in bytes. */
  function MebiBytes(x: U64Val): (r: U64Val)
    ensures x < U64 / MiB ==> r == x * MiB
  {
    Wrap(x * MiB)
  }

  /** A count or interval the caller asked for, raised to 1 when it is not
      positive. */
  function AtLeastOne(x: int): (n: nat)
    ensures n >= 1 && (x >= 1 ==> n == x)
  {
    if x <= 0 then 1 else x
  }

  /** The rows a monitoring loop writes: each successful reading against the
      last successful one before it (prev to start with); a failed reading
      writes nothing and leaves the previous reading in place. */
  function DeltaRows<T, R>(prev: T, readings: seq<Option<T>>, row: (T, T) -> R): seq<R>
  {
    if readings == [] then []
    else if readings[0].None? then DeltaRows(prev, readings[1..], row)
    else [row(prev, readings[0].value)] + DeltaRows(readings[0].value, readings[1..], row)
  }

  /** The rows written after i readings, followed by the rows the remaining
      readings add, make up the rows of the whole run. */
  ghost predicate RowsFrom<T, R>(first: T, readings: seq<Option<T>>, row: (T, T) -> R, i: nat,
                           prev: T, rows: seq<R>)
  {
    i <= |readings|
    && DeltaRows(first, readings, row) == rows + DeltaRows(prev, readings[i..], row)
  }

  lemma RowsFromStart<T, R>(first: T, readings: seq<Option<T>>, row: (T, T) -> R)
    ensures RowsFrom(first, readings, row, 0, first, [])
  {
    assert readings[0..] == readings;
  }

  lemma RowsFromEnd<T, R>(first: T, readings: seq<Option<T>>, row: (T, T) -> R, i: nat,
                          prev: T, rows: seq<R>)
    requires i == |readings| && RowsFrom(first, readings, row, i, prev, rows)
    ensures rows == DeltaRows(first, readings, row)
  {
    assert readings[i..] == [];
  }

  /** Reading i either adds its row and becomes the previous reading, or
      adds nothing. */
  lemma RowsStep<T, R>(first: T, readings: seq<Option<T>>, row: (T, T) -> R, i: nat, next: nat,
                       prev: T, rows: seq<R>, o: Option<T>)
    requires i < |readings| && next == i + 1 && o == readings[i]
    requires RowsFrom(first, readings, row, i, prev, rows)
    ensures o.None? ==> RowsFrom(first, readings, row, next, prev, rows)
    ensures o.Some? ==> RowsFrom(first, readings, row, next, o.value, rows + [row(prev, o.value)])
  {
    SuffixStep(readings, i);
    if o.Some? {
      var tail := DeltaRows(o.value, readings[next..], row);
      assert DeltaRows(prev, readings[i..], row) == [row(prev, o.value)] + tail;
      assert rows + ([row(prev, o.value)] + tail) == (rows + [row(prev, o.value)]) + tail;
    }
  }

  /** The reading the loop holds as previous after the readings. */
  function LastReading<T>(prev: T, readings: seq<Option<T>>): T
  {
    if readings == [] then prev
    else LastReading(if readings[0].Some? then readings[0].value else prev, readings[1..])
  }

  /** One row per successful reading; the first compares the first
      successful reading with prev, and row k any later one with successful
      reading k - 1. */
  lemma {:induction false} DeltaRowsPairs<T, R>(prev: T, readings: seq<Option<T>>, row: (T, T) -> R)
    ensures |DeltaRows(prev, readings, row)| == |Successes(readings)|
    ensures |Successes(readings)| > 0 ==>
      DeltaRows(prev, readings, row)[0] == row(prev, Successes(readings)[0])
    ensures forall k {:trigger DeltaRows(prev, readings, row)[k]} :: 1 <= k < |Successes(readings)| ==>
      DeltaRows(prev, readings, row)[k] == row(Successes(readings)[k - 1], Successes(readings)[k])
    decreases |readings|
  {
    if readings != [] {
      var s, d := Successes(readings), DeltaRows(prev, readings, row);
      var t := Successes(readings[1..]);
      if readings[0].None? {
        DeltaRowsPairs(prev, readings[1..], row);
        assert s == t;
        assert d == DeltaRows(prev, readings[1..], row);
      } else {
        var c := readings[0].value;
        DeltaRowsPairs(c, readings[1..], row);
        var e := DeltaRows(c, readings[1..], row);
        assert s == [c] + t;
        assert d == [row(prev, c)] + e;
        forall k | 1 <= k < |s|
          ensures d[k] == row(s[k - 1], s[k])
        {
          assert d[k] == e[k - 1];
          if k == 1 {
            assert e[0] == row(c, t[0]);
          } else {
            assert e[k - 1] == row(t[k - 2], t[k - 1]);
          }
        }
      }
    }
  }

  // ---------------------------------------------------------------------------
  // Scans that stop at the first match

  /** The first value present, scanning from the front. */
  function FirstSome<T>(xs: seq<Option<T>>): Option<T>
  {
    if xs == [] then None else if xs[0].Some? then xs[0] else FirstSome(xs[1..])
  }

  /** A value present after none is the first one found. */
  lemma {:induction false} FirstSomeAt<T>(xs: seq<Option<T>>, i: nat)
    requires i < |xs| && xs[i].Some?
    requires forall j :: 0 <= j < i ==> xs[j].None?
    ensures FirstSome(xs) == xs[i]
    decreases i
  {
    if i > 0 {
      FirstSomeAt(xs[1..], i - 1);
    }
  }

  /** Nothing is found exactly when nothing is present, and what is found is
      present somewhere. */
  lemma {:induction false} FirstSomeNone<T>(xs: seq<Option<T>>)
    ensures FirstSome(xs).None? <==> forall j :: 0 <= j < |xs| ==> xs[j].None?
    ensures FirstSome(xs).Some? ==> exists j :: 0 <= j < |xs| && FirstSome(xs) == xs[j]
    decreases |xs|
  {
    if xs != [] {
      FirstSomeNone(xs[1..]);
      if xs[0].None? {
        forall j | 0 <= j < |xs[1..]|
          ensures xs[1..][j] == xs[j + 1]
        {
        }
        if FirstSome(xs).Some? {
          var j :| 0 <= j < |xs[1..]| && FirstSome(xs[1..]) == xs[1..][j];
          assert FirstSome(xs) == xs[j + 1];
        }
      }
    }
  }

  /** The suffix from i starts with s[i], and dropping it leaves the suffix
      from i + 1. */
  lemma SuffixStep<T>(s: seq<T>, i: nat)
    requires i < |s|
    ensures s[i..][0] == s[i] && s[i..][1..] == s[i + 1..]
  {
  }
}
