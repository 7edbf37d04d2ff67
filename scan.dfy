/** A model of sscanf over the directives the sources' format strings use.
    The result is the sequence of values assigned, so its length is the count
    sscanf returns. Input failure before the first conversion (EOF, -1) is
    merged with a count of 0: every caller compares the count with a positive
    threshold, where the two are alike. */
module Scanf {
  import opened Common

  /** One directive of a scanf format string. */
  datatype Directive =
    | Ws                              // white space in the format: skips any amount, even none
    | Lit(text: string)               // ordinary characters: must match the input exactly
    | Num(signed: bool, store: bool)  // %d %ld (signed) or %u %lu %llu; %*d etc. when !store
    | Word(store: bool)               // %s, %*s: skips white space, reads a non-empty word
    | Char(store: bool)               // %c: the next character, white space included
    | Until(stop: char, store: bool)  // %[^c]: a non-empty run of characters other than c

  datatype Field = Int(n: int) | Text(s: string)

  /** How many directives of the format assign a value. */
  function Stores(fmt: seq<Directive>): nat
  {
    if fmt == [] then 0
    else
      (match fmt[0]
       case Ws => 0
       case Lit(_) => 0
       case Num(_, st) => if st then 1 else 0
       case Word(st) => if st then 1 else 0
       case Char(st) => if st then 1 else 0
       case Until(_, st) => if st then 1 else 0)
      + Stores(fmt[1..])
  }

  /** Length of the leading run of non-white-space characters. */
  function WordRun(s: string): (n: nat)
    ensures n <= |s|
    ensures forall i :: 0 <= i < n ==> !IsSpace(s[i])
    ensures n < |s| ==> IsSpace(s[n])
  {
    if s == [] || IsSpace(s[0]) then 0 else 1 + WordRun(s[1..])
  }

  /** One directive applied to the input: the values it assigns and the input
      left after it, or None when the input does not match. */
  datatype Step = Step(values: seq<Field>, rest: string)

  function Apply(d: Directive, s: string): Option<Step>
  {
    match d
    case Ws => Some(Step([], s[SpaceRun(s)..]))
    case Lit(t) => if t <= s then Some(Step([], s[|t|..])) else None
    case Num(signed, st) =>
      var c := if signed then Strtol(s) else Strtoul(s);
      if c.consumed == 0 then None
      else Some(Step(if st then [Int(c.value)] else [], s[c.consumed..]))
    case Word(st) =>
      var ws := SpaceRun(s);
      var n := WordRun(s[ws..]);
      if n == 0 then None
      else Some(Step(if st then [Text(s[ws..ws + n])] else [], s[ws + n..]))
    case Char(st) =>
      if s == [] then None
      else Some(Step(if st then [Text([s[0]])] else [], s[1..]))
    case Until(stop, st) =>
      var n := IndexOf(s, stop);
      if n == 0 then None
      else Some(Step(if st then [Text(s[..n])] else [], s[n..]))
  }

  /** The values sscanf(s, fmt, ...) assigns, in order; scanning stops at the
      first directive that does not match. */
  function Scan(fmt: seq<Directive>, s: string): seq<Field>
    decreases |fmt|
  {
    if fmt == [] then []
    else
      match Apply(fmt[0], s)
      case None => []
      case Some(st) => st.values + Scan(fmt[1..], st.rest)
  }

  /** The number a scan assigned at position i. */
  function NumAt(v: seq<Field>, i: nat): int
    requires i < |v|
  {
    match v[i]
    case Int(n) => n
    case Text(_) => 0
  }

  /** The text a scan assigned at position i. */
  function TextAt(v: seq<Field>, i: nat): string
    requires i < |v|
  {
    match v[i]
    case Int(_) => ""
    case Text(s) => s
  }

  /** True when every value a scan assigned is a number. */
  predicate AllInts(r: seq<Field>) { forall i :: 0 <= i < |r| ==> r[i].Int? }

  /** " %lu" repeated k times. */
  function Nums(k: nat): seq<Directive>
  {
    if k == 0 then [] else [Ws, Num(false, true)] + Nums(k - 1)
  }

  /** The text " n1 n2 ... nk", as printf(" %lu", ...) writes it. */
  function Spaced(ns: seq<U64Val>): string
  {
    if ns == [] then "" else " " + NatToString(ns[0]) + Spaced(ns[1..])
  }

  function Ints(ns: seq<U64Val>): (r: seq<Field>)
    ensures |r| == |ns| && AllInts(r)
    ensures forall i :: 0 <= i < |ns| ==> r[i] == Int(ns[i])
  {
    if ns == [] then [] else [Int(ns[0])] + Ints(ns[1..])
  }

  /** Round trip: " %lu" directives read back the numbers that " %lu" wrote,
      and scanning goes on right after them. */
  lemma {:induction false} ScanSpaced(ns: seq<U64Val>, tail: seq<Directive>, rest: string)
    requires rest == [] || !IsDigit(rest[0])
    ensures Scan(Nums(|ns|) + tail, Spaced(ns) + rest) == Ints(ns) + Scan(tail, rest)
    decreases |ns|
  {
    if ns == [] {
      assert Nums(0) + tail == tail;
      assert Spaced(ns) + rest == rest;
    } else {
      var t := ns[1..];
      assert |t| == |ns| - 1;
      ScanSpaced(t, tail, rest);
      ScanSpacedStep(ns, tail, rest);
    }
  }

  /** One number more in front of a scan that is already known to work. */
  lemma ScanSpacedStep(ns: seq<U64Val>, tail: seq<Directive>, rest: string)
    requires ns != []
    requires rest == [] || !IsDigit(rest[0])
    requires Scan(Nums(|ns| - 1) + tail, Spaced(ns[1..]) + rest) == Ints(ns[1..]) + Scan(tail, rest)
    ensures Scan(Nums(|ns|) + tail, Spaced(ns) + rest) == Ints(ns) + Scan(tail, rest)
  {
    var after := Spaced(ns[1..]) + rest;
    var fmt2 := Nums(|ns| - 1) + tail;
    SpacedThenNonDigit(ns[1..], rest);
    NumsCons(|ns|, tail);
    SpacedCons(ns, rest);
    ScanOneSpaced(ns[0], fmt2, after);
    assert Ints(ns) == [Int(ns[0])] + Ints(ns[1..]);
    ConcatAssoc([Int(ns[0])], Ints(ns[1..]), Scan(tail, rest));
  }

  lemma NumsCons(k: nat, tail: seq<Directive>)
    requires k > 0
    ensures Nums(k) + tail == [Ws, Num(false, true)] + (Nums(k - 1) + tail)
  {
  }

  /** The text after " %lu" output does not start with a digit. */
  lemma SpacedThenNonDigit(ns: seq<U64Val>, rest: string)
    requires rest == [] || !IsDigit(rest[0])
    ensures Spaced(ns) + rest == [] || !IsDigit((Spaced(ns) + rest)[0])
  {
    if ns != [] {
      assert (Spaced(ns) + rest)[0] == ' ';
    } else {
      assert Spaced(ns) + rest == rest;
    }
  }

  /** " %lu" output starts with its blank. */
  lemma SpacedStartsWithBlank(ns: seq<U64Val>)
    ensures Spaced(ns) == [] || Spaced(ns)[0] == ' '
  {
  }

  lemma SpacedCons(ns: seq<U64Val>, rest: string)
    requires ns != []
    ensures Spaced(ns) + rest == " " + NatToString(ns[0]) + (Spaced(ns[1..]) + rest)
  {
  }

  lemma ConcatAssoc<T>(a: seq<T>, b: seq<T>, c: seq<T>)
    ensures a + (b + c) == (a + b) + c
  {
  }

  lemma ScanOneSpaced(n: nat, fmt: seq<Directive>, after: string)
    requires n < U64
    requires after == [] || !IsDigit(after[0])
    ensures Scan([Ws, Num(false, true)] + fmt, " " + NatToString(n) + after)
         == [Int(n)] + Scan(fmt, after)
  {
    var d := NatToString(n);
    ScanNumThen(n, fmt, after);
    ApplyWsBeforeDigits(d, after);
    assert [Ws, Num(false, true)] + fmt == [Ws] + ([Num(false, true)] + fmt);
    ScanWsThen([Ws, Num(false, true)] + fmt, [Num(false, true)] + fmt, " " + d + after, d + after);
  }

  lemma ScanNumThen(n: nat, fmt: seq<Directive>, after: string)
    requires n < U64
    requires after == [] || !IsDigit(after[0])
    ensures Scan([Num(false, true)] + fmt, NatToString(n) + after) == [Int(n)] + Scan(fmt, after)
  {
    ApplyNumToDigits(n, after);
    ScanStep(Num(false, true), fmt, NatToString(n) + after, Step([Int(n)], after));
  }

  lemma ScanWsThen(all: seq<Directive>, fmt: seq<Directive>, s: string, t: string)
    requires all == [Ws] + fmt && Apply(Ws, s) == Some(Step([], t))
    ensures Scan(all, s) == Scan(fmt, t)
  {
    ScanStep(Ws, fmt, s, Step([], t));
    assert [] + Scan(fmt, t) == Scan(fmt, t);
  }

  /** Scanning goes directive by directive. */
  lemma ScanStep(d: Directive, fmt: seq<Directive>, s: string, st: Step)
    requires Apply(d, s) == Some(st)
    ensures Scan([d] + fmt, s) == st.values + Scan(fmt, st.rest)
  {
    assert ([d] + fmt)[0] == d && ([d] + fmt)[1..] == fmt;
  }

  lemma ApplyWsBeforeDigits(d: string, after: string)
    requires d != [] && IsDigit(d[0])
    ensures Apply(Ws, " " + d + after) == Some(Step([], d + after))
  {
    assert SpaceRun(d + after) == 0 by { assert (d + after)[0] == d[0]; }
    assert (" " + d + after)[1..] == d + after;
  }

  lemma ApplyNumToDigits(n: nat, after: string)
    requires n < U64
    requires after == [] || !IsDigit(after[0])
    ensures Apply(Num(false, true), NatToString(n) + after) == Some(Step([Int(n)], after))
  {
    StrtoulOfNatToString(n, after);
    assert (NatToString(n) + after)[|NatToString(n)|..] == after;
  }

  /** sscanf(line, "<key> %lu") or "<key> %d" with one target, as an optional
      value: the key must match, blanks are skipped, and a number must
      follow. */
  function ScanKey(key: string, signed: bool, line: string): Option<int>
  {
    if key <= line then
      var t := line[|key|..];
      var u := t[SpaceRun(t)..];
      var c := if signed then Strtol(u) else Strtoul(u);
      if c.consumed == 0 then None else Some(c.value)
    else None
  }

  /** The target of a scan: the value it assigned, else what it held. */
  function Assigned(o: Option<int>, prior: int): (v: int)
    ensures o.Some? ==> v == o.value
    ensures o.None? ==> v == prior
  {
    if o.Some? then o.value else prior
  }

  /** A line that differs from the key at some position assigns nothing. */
  lemma ScanKeyMismatch(key: string, signed: bool, line: string, i: nat)
    requires i < |key| && i < |line| && key[i] != line[i]
    ensures ScanKey(key, signed, line) == None
  {
  }

  /** ScanKey is the scan of the three directives: it assigns one value
      exactly when ScanKey has one, and the same value. */
  lemma ScanKeyIsScan(key: string, signed: bool, line: string)
    ensures var v := Scan([Lit(key), Ws, Num(signed, true)], line);
      (|v| == 1 <==> ScanKey(key, signed, line).Some?)
      && (|v| == 1 ==> v[0] == Int(ScanKey(key, signed, line).value))
      && (|v| != 1 ==> v == [])
  {
    var num := Num(signed, true);
    assert [Lit(key), Ws, num] == [Lit(key)] + [Ws, num];
    assert [Ws, num] == [Ws] + [num];
    if key <= line {
      var t := line[|key|..];
      var u := t[SpaceRun(t)..];
      ScanStep(Lit(key), [Ws, num], line, Step([], t));
      ScanStep(Ws, [num], t, Step([], u));
      ScanNumAlone(signed, u);
    } else {
      ScanFails(Lit(key), [Ws, num], line);
    }
  }

  lemma ScanNumAlone(signed: bool, u: string)
    ensures var c := if signed then Strtol(u) else Strtoul(u);
      Scan([Num(signed, true)], u) == if c.consumed == 0 then [] else [Int(c.value)]
  {
    var num := Num(signed, true);
    assert [num] == [num] + [];
    var c := if signed then Strtol(u) else Strtoul(u);
    if c.consumed == 0 {
      ScanFails(num, [], u);
    } else {
      ScanStep(num, [], u, Step([Int(c.value)], u[c.consumed..]));
    }
  }

  /** A directive that does not match ends the scan. */
  lemma ScanFails(d: Directive, fmt: seq<Directive>, s: string)
    requires Apply(d, s).None?
    ensures Scan([d] + fmt, s) == []
  {
    assert ([d] + fmt)[0] == d;
  }

  /** "<key> %lu" reads the number after the key and its blanks. */
  lemma ScanKeyLine(key: string, pad: string, n: nat, unit: string)
    requires n < U64
    requires forall i :: 0 <= i < |pad| ==> IsSpace(pad[i])
    requires unit == [] || !IsDigit(unit[0])
    ensures ScanKey(key, false, key + pad + NatToString(n) + unit) == Some(n)
  {
    var ds := NatToString(n);
    KeyLineParts(key, pad, ds, unit);
    assert (ds + unit)[0] == ds[0];
    SpaceRunOfPad(pad, ds + unit);
    StrtoulOfNatToString(n, unit);
  }

  lemma KeyLineParts(key: string, pad: string, ds: string, unit: string)
    ensures key <= key + pad + ds + unit
    ensures (key + pad + ds + unit)[|key|..] == pad + (ds + unit)
    ensures (pad + (ds + unit))[|pad|..] == ds + unit
  {
    assert key + pad + ds + unit == key + (pad + (ds + unit));
  }

  /** Five directives that each match, one after the other. */
  lemma ScanFive(d0: Directive, d1: Directive, d2: Directive, d3: Directive, d4: Directive,
                 tail: seq<Directive>, s0: string, s1: string, s2: string, s3: string, s4: string, s5: string,
                 v0: seq<Field>, v1: seq<Field>, v2: seq<Field>, v3: seq<Field>, v4: seq<Field>)
    requires Apply(d0, s0) == Some(Step(v0, s1)) && Apply(d1, s1) == Some(Step(v1, s2))
    requires Apply(d2, s2) == Some(Step(v2, s3)) && Apply(d3, s3) == Some(Step(v3, s4))
    requires Apply(d4, s4) == Some(Step(v4, s5))
    ensures Scan([d0, d1, d2, d3, d4] + tail, s0) == v0 + v1 + v2 + v3 + v4 + Scan(tail, s5)
  {
    var f4 := [d4] + tail;
    var f3 := [d3] + f4;
    var f2 := [d2] + f3;
    var f1 := [d1] + f2;
    FiveParts(d0, d1, d2, d3, d4, tail);
    ScanStep(d4, tail, s4, Step(v4, s5));
    ScanStep(d3, f4, s3, Step(v3, s4));
    ScanStep(d2, f3, s2, Step(v2, s3));
    ScanStep(d1, f2, s1, Step(v1, s2));
    ScanStep(d0, f1, s0, Step(v0, s1));
    FiveValues(v0, v1, v2, v3, v4, Scan(tail, s5));
  }

  /** Two directives that each match, and nothing after them. */
  lemma ScanTwo(d0: Directive, d1: Directive, s0: string, s1: string, s2: string, v0: seq<Field>, v1: seq<Field>)
    requires Apply(d0, s0) == Some(Step(v0, s1)) && Apply(d1, s1) == Some(Step(v1, s2))
    ensures Scan([d0, d1], s0) == v0 + v1
  {
    assert [d0, d1] == [d0] + ([d1] + []);
    ScanStep(d1, [], s1, Step(v1, s2));
    ScanStep(d0, [d1] + [], s0, Step(v0, s1));
    assert v0 + (v1 + []) == v0 + v1;
  }

  /** Three directives that each match, one after the other, and nothing after them. */
  lemma ScanThree(d0: Directive, d1: Directive, d2: Directive, s0: string, s1: string, s2: string, s3: string,
                  v0: seq<Field>, v1: seq<Field>, v2: seq<Field>)
    requires Apply(d0, s0) == Some(Step(v0, s1)) && Apply(d1, s1) == Some(Step(v1, s2))
    requires Apply(d2, s2) == Some(Step(v2, s3))
    ensures Scan([d0, d1, d2], s0) == v0 + v1 + v2
  {
    ThreeParts(d0, d1, d2);
    ScanStep(d2, [], s2, Step(v2, s3));
    ScanStep(d1, [d2] + [], s1, Step(v1, s2));
    ScanStep(d0, [d1] + ([d2] + []), s0, Step(v0, s1));
    ThreeSums(v0, v1, v2);
  }

  lemma TwoParts<T>(d0: T, d1: T, tail: seq<T>)
    ensures [d0, d1] + tail == [d0] + ([d1] + tail)
  {
  }

  lemma ThreeParts<T>(d0: T, d1: T, d2: T)
    ensures [d0, d1, d2] == [d0] + ([d1] + ([d2] + []))
  {
  }

  lemma ThreeSums<T>(v0: seq<T>, v1: seq<T>, v2: seq<T>)
    ensures v0 + (v1 + (v2 + [])) == v0 + v1 + v2
  {
  }

  lemma FiveParts<T>(d0: T, d1: T, d2: T, d3: T, d4: T, tail: seq<T>)
    ensures [d0, d1, d2, d3, d4] + tail == [d0] + ([d1] + ([d2] + ([d3] + ([d4] + tail))))
  {
  }

  lemma FiveValues<T>(v0: seq<T>, v1: seq<T>, v2: seq<T>, v3: seq<T>, v4: seq<T>, r: seq<T>)
    ensures v0 + (v1 + (v2 + (v3 + (v4 + r)))) == v0 + v1 + v2 + v3 + v4 + r
  {
  }

  /** %lu reads a blank-led number and stops after its digits. */
  lemma ApplyNumSpaced(n: U64Val, after: string)
    requires after != [] && !IsDigit(after[0])
    ensures Apply(Num(false, true), " " + NatToString(n) + after) == Some(Step([Int(n)], after))
  {
    StrtoulOfSpacedNat(n, after);
    assert (" " + NatToString(n) + after)[1 + |NatToString(n)|..] == after;
  }

  /** White space in the format skips one blank before a word. */
  lemma ApplyWsBeforeWord(t: string)
    requires t != [] && !IsSpace(t[0])
    ensures Apply(Ws, " " + t) == Some(Step([], t))
  {
    SpaceRunOfPad(" ", t);
    assert (" " + t)[1..] == t;
  }

  /** %s (or %*s) reads a word up to the blank after it. */
  lemma ApplyWordName(name: string, after: string, store: bool)
    requires name != [] && forall i :: 0 <= i < |name| ==> !IsSpace(name[i])
    requires after != [] && after[0] == ' '
    ensures Apply(Word(store), name + after) == Some(Step(if store then [Text(name)] else [], after))
  {
    var s := name + after;
    assert s[0] == name[0];
    assert s[0..] == s;
    WordRunOfName(name, after);
    assert s[..|name|] == name && s[|name|..] == after;
  }

  lemma {:induction false} WordRunOfName(name: string, after: string)
    requires forall i :: 0 <= i < |name| ==> !IsSpace(name[i])
    requires after != [] && after[0] == ' '
    ensures WordRun(name + after) == |name|
    decreases |name|
  {
    if name == [] {
      assert name + after == after;
    } else {
      assert (name + after)[1..] == name[1..] + after;
      WordRunOfName(name[1..], after);
    }
  }
}
