/** The namespace analyzer: comparing the namespaces of two processes, and
    grouping the processes of /proc by the namespace of one kind they are
    in. The links under /proc/<pid>/ns/ and the entries of /proc are
    inputs. */
module NamespaceAnalyzer {
  import opened Common

  /** ns_types: the namespace kinds, in the order they are compared. */
  const NsTypes: seq<string> := ["mnt", "pid", "net", "ipc", "uts", "user", "cgroup"]

  /** The links readlink(2) can read: the target of /proc/<pid>/ns/<kind>
      for each (pid, kind) whose link is readable. */
  type Links = map<(int, string), string>

  /** The size of the buffers read_ns_link fills. */
  const LinkBuffer: nat := 128

  // ---------------------------------------------------------------------------
  // read_ns_link

  /** readlink(path, out, outlen - 1) then a terminator at the returned
      length: the target cut to outlen - 1 characters, or None when the link
      cannot be read. */
  function ReadNsLink(links: Links, pid: int, kind: string, outlen: nat): (r: Option<string>)
    requires outlen >= 1
    ensures r.Some? <==> (pid, kind) in links
    ensures r.Some? ==> |r.value| <= outlen - 1 && r.value <= links[(pid, kind)]
    ensures r.Some? && |links[(pid, kind)]| < outlen ==> r.value == links[(pid, kind)]
  {
    if (pid, kind) in links then Some(Truncate(links[(pid, kind)], outlen - 1)) else None
  }

  // ---------------------------------------------------------------------------
  // namespace_compare

  const Unavailable: string := "(unavailable)"

  /** What namespace_compare compares for one process and kind: the link, or
      "(unavailable)" when it cannot be read. */
  function LinkOr(links: Links, pid: int, kind: string): string
  {
    match ReadNsLink(links, pid, kind, LinkBuffer)
    case None => Unavailable
    case Some(s) => s
  }

  /** 0 when the two processes show the same text for every kind, 1 when
      some kind differs. */
  method Compare(links: Links, pid1: Int32, pid2: Int32) returns (r: int)
    ensures r == 0 || r == 1
    ensures r == 0 <==> forall i :: 0 <= i < |NsTypes| ==> LinkOr(links, pid1, NsTypes[i]) == LinkOr(links, pid2, NsTypes[i])
  {
    r := CompareKinds(links, pid1, pid2, NsTypes);
  }

  /** The loop of namespace_compare over a list of kinds. */
  method CompareKinds(links: Links, pid1: int, pid2: int, kinds: seq<string>) returns (r: int)
    ensures r == 0 || r == 1
    ensures r == 0 <==> forall i :: 0 <= i < |kinds| ==> LinkOr(links, pid1, kinds[i]) == LinkOr(links, pid2, kinds[i])
  {
    var identical := true;
    var i := 0;
    while i < |kinds|
      invariant 0 <= i <= |kinds|
      invariant identical <==> forall j :: 0 <= j < i ==> LinkOr(links, pid1, kinds[j]) == LinkOr(links, pid2, kinds[j])
    {
      var a := ReadNsLink(links, pid1, kinds[i], LinkBuffer);
      var textA := if a.Some? then a.value else Unavailable;
      var b := ReadNsLink(links, pid2, kinds[i], LinkBuffer);
      var textB := if b.Some? then b.value else Unavailable;
      if textA != textB {
        identical := false;
      }
      i := i + 1;
    }
    r := if identical then 0 else 1;
  }

  // ---------------------------------------------------------------------------
  // namespace_map_by_type: collecting (nsid, pid) pairs

  /** An entry readdir(3) returns for /proc. */
  datatype Entry = Entry(name: string, isDir: bool)

  /** A collected pair: the namespace id (the link text) and the pid. */
  datatype Pair = Pair(nsid: string, pid: Int32)

  /** The pair an entry contributes: only a directory whose whole name
      strtol reads as a number, and whose link of the given kind is
      readable. The long is cast to a 32-bit pid. */
  function Accept(links: Links, kind: string, e: Entry): (r: Option<Pair>)
    ensures r.Some? ==> e.isDir && Strtol(e.name).consumed == |e.name|
    ensures r.Some? ==> |r.value.nsid| < LinkBuffer && (r.value.pid, kind) in links
  {
    if !e.isDir then None
    else
      var c := Strtol(e.name);
      if c.consumed != |e.name| then None
      else
        var pid := ToInt32(c.value);
        match ReadNsLink(links, pid, kind, LinkBuffer)
        case None => None
        case Some(id) => Some(Pair(Truncate(id, LinkBuffer - 1), pid))
  }

  /** The directory of a running process, named by its pid, is collected
      with its link text. */
  lemma AcceptPidDir(links: Links, kind: string, pid: nat)
    requires pid <= 0x7FFF_FFFF && (pid, kind) in links
    requires |links[(pid, kind)]| < LinkBuffer
    ensures Accept(links, kind, Entry(NatToString(pid), true)) == Some(Pair(links[(pid, kind)], pid))
  {
    StrtolOfNatToString(pid);
  }

  /** A name starting with anything but blank, sign or digit ("self", ".",
      "sys") is skipped. */
  lemma AcceptSkipsWords(links: Links, kind: string, e: Entry)
    requires e.name != [] && !IsSpace(e.name[0]) && !IsDigit(e.name[0]) && e.name[0] != '+' && e.name[0] != '-'
    ensures Accept(links, kind, e).None?
  {
    StrtolAtNonNumeric(e.name);
  }

  /** The pairs of all accepted entries, in readdir order. */
  function Accepted(links: Links, kind: string, es: seq<Entry>): (r: seq<Pair>)
    ensures |r| <= |es|
  {
    Kept(Acceptor(links, kind), es)
  }

  function Acceptor(links: Links, kind: string): Entry -> Option<Pair>
  {
    e => Accept(links, kind, e)
  }

  /** The values f yields over es, in order. */
  function Kept<E, P>(f: E -> Option<P>, es: seq<E>): (r: seq<P>)
    ensures |r| <= |es|
  {
    if es == [] then []
    else Kept(f, es[..|es| - 1]) + (match f(es[|es| - 1]) case None => [] case Some(p) => [p])
  }

  /** What an earlier part of the listing yields is a prefix of what the
      whole yields. */
  lemma {:induction false} KeptPrefix<E, P>(f: E -> Option<P>, es: seq<E>, i: nat)
    requires i <= |es|
    ensures Kept(f, es[..i]) <= Kept(f, es)
    decreases |es| - i
  {
    if i < |es| {
      KeptPrefix(f, es[..|es| - 1], i);
      assert es[..|es| - 1][..i] == es[..i];
    } else {
      assert es[..i] == es;
    }
  }

  /** The number of pairs kept when the array starts with room for cap
      pairs, doubles whenever it is full and another pair comes, and stops
      collecting when realloc refuses the new size. */
  function Room(cap: nat, total: nat, refused: set<nat>): (k: nat)
    requires cap > 0
    ensures k <= total
    ensures k < total ==> 2 * k in refused
    decreases total - cap
  {
    if total <= cap then total
    else if 2 * cap in refused then cap
    else Room(2 * cap, total, refused)
  }

  /** With no refused size, every accepted pair is kept. */
  lemma {:induction false} RoomAll(cap: nat, total: nat, refused: set<nat>)
    requires cap > 0
    requires forall c :: c in refused ==> c > 2 * total
    ensures Room(cap, total, refused) == total
    decreases total - cap
  {
    if total > cap {
      RoomAll(2 * cap, total, refused);
    }
  }

  /** The readdir loop: the accepted pairs in order, up to where realloc
      refused to grow the array; those already collected are kept. */
  method Collect(entries: seq<Entry>, links: Links, kind: string, refused: set<nat>) returns (pairs: seq<Pair>)
    ensures pairs == Accepted(links, kind, entries)[..Room(4096, |Accepted(links, kind, entries)|, refused)]
  {
    pairs := CollectWith(entries, Acceptor(links, kind), refused);
  }

  /** The loop itself, for any test of an entry. */
  method CollectWith<E, P>(entries: seq<E>, f: E -> Option<P>, refused: set<nat>) returns (pairs: seq<P>)
    ensures pairs == Kept(f, entries)[..Room(4096, |Kept(f, entries)|, refused)]
  {
    ghost var all := Kept(f, entries);
    var cap: nat := 4096;
    pairs := [];
    var i := 0;
    while i < |entries|
      invariant 0 <= i <= |entries|
      invariant pairs == Kept(f, entries[..i])
      invariant 0 < cap && |pairs| <= cap
      invariant Room(4096, |all|, refused) == Room(cap, |all|, refused)
    {
      var p := f(entries[i]);
      assert entries[..i + 1][..i] == entries[..i];
      if p.Some? {
        KeptPrefix(f, entries, i + 1);
        if |pairs| >= cap {
          if 2 * cap in refused {
            KeptPrefix(f, entries, i);
            return;
          }
          cap := 2 * cap;
        }
        pairs := pairs + [p.value];
      }
      i := i + 1;
    }
    assert entries[..i] == entries;
  }

  // ---------------------------------------------------------------------------
  // The qsort comparator

  /** strcmp(a, b) < 0: the first differing character is smaller, or a is a
      proper prefix of b. */
  predicate StrBefore(a: string, b: string)
    decreases |a|
  {
    if a == [] then b != []
    else if b == [] then false
    else if a[0] != b[0] then a[0] < b[0]
    else StrBefore(a[1..], b[1..])
  }

  lemma {:induction false} StrBeforeIrreflexive(a: string)
    ensures !StrBefore(a, a)
    decreases |a|
  {
    if a != [] {
      StrBeforeIrreflexive(a[1..]);
    }
  }

  lemma {:induction false} StrBeforeTotal(a: string, b: string)
    ensures a == b || StrBefore(a, b) || StrBefore(b, a)
    decreases |a|
  {
    if a != [] && b != [] && a[0] == b[0] {
      StrBeforeTotal(a[1..], b[1..]);
      if a[1..] == b[1..] {
        assert a == [a[0]] + a[1..] && b == [b[0]] + b[1..];
      }
    }
  }

  lemma {:induction false} StrBeforeTransitive(a: string, b: string, c: string)
    requires StrBefore(a, b) && StrBefore(b, c)
    ensures StrBefore(a, c)
    decreases |a|
  {
    if a != [] && b != [] && c != [] && a[0] == b[0] && b[0] == c[0] {
      StrBeforeTransitive(a[1..], b[1..], c[1..]);
    }
  }

  /** The comparator's order: by namespace id, then by pid. */
  predicate PairLe(a: Pair, b: Pair)
  {
    StrBefore(a.nsid, b.nsid) || (a.nsid == b.nsid && a.pid <= b.pid)
  }

  predicate Sorted(ps: seq<Pair>)
  {
    forall i :: 0 < i < |ps| ==> PairLe(ps[i - 1], ps[i])
  }

  /** x placed before the first pair it does not follow. */
  function Insert(x: Pair, s: seq<Pair>): (r: seq<Pair>)
    requires Sorted(s)
    ensures Sorted(r) && multiset(r) == multiset(s) + multiset{x}
    ensures r != [] && (r[0] == x || (s != [] && r[0] == s[0]))
  {
    if s == [] then [x]
    else if PairLe(x, s[0]) then [x] + s
    else
      StrBeforeTotal(x.nsid, s[0].nsid);
      var t := Insert(x, s[1..]);
      assert s == [s[0]] + s[1..];
      [s[0]] + t
  }

  /** The array after qsort with the comparator: sorted, and the same pairs. */
  function Sort(ps: seq<Pair>): (r: seq<Pair>)
    ensures Sorted(r) && multiset(r) == multiset(ps)
  {
    if ps == [] then []
    else
      assert ps == [ps[0]] + ps[1..];
      Insert(ps[0], Sort(ps[1..]))
  }

  // ---------------------------------------------------------------------------
  // Printing grouped

  /** One printed line: a namespace id and the pids after it. */
  datatype Group = Group(nsid: string, pids: seq<Int32>)

  function Members(g: Group): (r: seq<Pair>)
    ensures |r| == |g.pids|
  {
    seq(|g.pids|, i requires 0 <= i < |g.pids| => Pair(g.nsid, g.pids[i]))
  }

  /** The pairs the lines list, in print order. */
  function Expand(gs: seq<Group>): seq<Pair>
  {
    if gs == [] then [] else Expand(gs[..|gs| - 1]) + Members(gs[|gs| - 1])
  }

  /** Every line has a pid, and neighbouring lines differ in their id. */
  predicate WellGrouped(gs: seq<Group>)
  {
    (forall i :: 0 <= i < |gs| ==> gs[i].pids != []) &&
    (forall i :: 0 < i < |gs| ==> gs[i - 1].nsid != gs[i].nsid)
  }

  lemma ExpandAppend(gs: seq<Group>, g: Group)
    ensures Expand(gs + [g]) == Expand(gs) + Members(g)
  {
    assert (gs + [g])[..|gs|] == gs;
  }

  lemma MembersAppend(g: Group, pid: Int32)
    ensures Members(Group(g.nsid, g.pids + [pid])) == Members(g) + [Pair(g.nsid, pid)]
  {
  }

  lemma WellGroupedAppend(gs: seq<Group>, g: Group)
    requires WellGrouped(gs) && g.pids != []
    requires gs != [] ==> gs[|gs| - 1].nsid != g.nsid
    ensures WellGrouped(gs + [g])
  {
  }

  lemma WellGroupedExtend(front: seq<Group>, last: Group, pid: Int32)
    requires WellGrouped(front + [last])
    ensures WellGrouped(front + [Group(last.nsid, last.pids + [pid])])
  {
    var gs, hs := front + [last], front + [Group(last.nsid, last.pids + [pid])];
    assert forall i :: 0 <= i < |front| ==> hs[i] == gs[i];
  }

  /** The pairs in print order: the pids printed before the first heading,
      which carry the initial current id "", and then the lines. */
  function Listed(lead: seq<Int32>, gs: seq<Group>): seq<Pair>
  {
    Members(Group("", lead)) + Expand(gs)
  }

  /** The print loop: a heading starts a new line exactly when the id
      differs from the current one, which is "" to begin with, so pairs
      with an empty id at the front are printed as bare pids (lead) ahead
      of the first heading, with no line break between them. Every pair is
      listed once, in order. */
  method GroupSorted(ps: seq<Pair>) returns (lead: seq<Int32>, groups: seq<Group>)
    ensures WellGrouped(groups) && Listed(lead, groups) == ps
    ensures groups != [] ==> groups[0].nsid != ""
  {
    var cur := "";
    lead, groups := [], [];
    var i := 0;
    while i < |ps|
      invariant 0 <= i <= |ps|
      invariant WellGrouped(groups) && Listed(lead, groups) == ps[..i]
      invariant groups == [] ==> cur == ""
      invariant groups != [] ==> cur == groups[|groups| - 1].nsid && groups[0].nsid != ""
    {
      assert ps[..i + 1] == ps[..i] + [ps[i]];
      lead, groups, cur := PrintPair(lead, groups, cur, ps[i]);
      i := i + 1;
    }
    assert ps[..i] == ps;
  }

  /** One step of the print loop: a pair whose id differs from the current
      one starts a line under its heading; any other is added to the current
      line, or printed bare before any heading while there is none. */
  method PrintPair(lead: seq<Int32>, groups: seq<Group>, cur: string, p: Pair)
    returns (lead': seq<Int32>, groups': seq<Group>, cur': string)
    requires WellGrouped(groups)
    requires groups == [] ==> cur == ""
    requires groups != [] ==> cur == groups[|groups| - 1].nsid && groups[0].nsid != ""
    ensures WellGrouped(groups') && Listed(lead', groups') == Listed(lead, groups) + [p]
    ensures groups' == [] ==> cur' == ""
    ensures groups' != [] ==> cur' == groups'[|groups'| - 1].nsid && groups'[0].nsid != ""
    ensures |groups'| == if p.nsid != cur then |groups| + 1 else |groups|
    ensures lead' == if groups == [] && p.nsid == cur then lead + [p.pid] else lead
  {
    lead', cur' := lead, cur;
    if p.nsid != cur {
      cur' := p.nsid;
      ExpandAppend(groups, Group(cur', [p.pid]));
      WellGroupedAppend(groups, Group(cur', [p.pid]));
      groups' := groups + [Group(cur', [p.pid])];
    } else if groups == [] {
      MembersAppend(Group("", lead), p.pid);
      lead' := lead + [p.pid];
      groups' := groups;
    } else {
      var front, last := groups[..|groups| - 1], groups[|groups| - 1];
      assert groups == front + [last];
      ExpandAppend(front, last);
      MembersAppend(last, p.pid);
      ExpandAppend(front, Group(last.nsid, last.pids + [p.pid]));
      WellGroupedExtend(front, last, p.pid);
      groups' := front + [Group(last.nsid, last.pids + [p.pid])];
    }
  }

  /** The last listed pair carries the id of the last line. */
  lemma ExpandLast(gs: seq<Group>)
    requires gs != [] && gs[|gs| - 1].pids != []
    ensures Expand(gs) != [] && Expand(gs)[|Expand(gs)| - 1].nsid == gs[|gs| - 1].nsid
  {
  }

  /** Lines printed from a sorted array have strictly increasing ids. */
  lemma {:induction false} GroupsIncrease(gs: seq<Group>)
    requires WellGrouped(gs) && Sorted(Expand(gs))
    ensures forall i :: 0 < i < |gs| ==> StrBefore(gs[i - 1].nsid, gs[i].nsid)
  {
    if |gs| > 1 {
      var front, last := gs[..|gs| - 1], gs[|gs| - 1];
      assert gs == front + [last];
      var e := Expand(front);
      assert Expand(gs) == e + Members(last);
      assert Sorted(e) by {
        forall i | 0 < i < |e|
          ensures PairLe(e[i - 1], e[i])
        {
          assert e[i - 1] == Expand(gs)[i - 1] && e[i] == Expand(gs)[i];
        }
      }
      assert WellGrouped(front);
      GroupsIncrease(front);
      ExpandLast(front);
      var k := |e|;
      assert Expand(gs)[k - 1] == e[k - 1] && Expand(gs)[k] == Members(last)[0];
      assert PairLe(e[k - 1], Members(last)[0]);
      assert front[|front| - 1] == gs[|gs| - 2];
    }
  }

  /** Hence no id is printed on two lines. */
  lemma {:induction false} GroupsDistinct(gs: seq<Group>)
    requires WellGrouped(gs) && Sorted(Expand(gs))
    ensures forall i, j :: 0 <= i < j < |gs| ==> StrBefore(gs[i].nsid, gs[j].nsid)
  {
    GroupsIncrease(gs);
    forall i, j | 0 <= i < j < |gs|
      ensures StrBefore(gs[i].nsid, gs[j].nsid)
    {
      var k := i + 1;
      while k < j
        invariant i < k <= j
        invariant StrBefore(gs[i].nsid, gs[k].nsid)
      {
        StrBeforeTransitive(gs[i].nsid, gs[k].nsid, gs[k + 1].nsid);
        k := k + 1;
      }
    }
  }

  /** namespace_map_by_type: -1 when /proc cannot be opened or the first
      array cannot be allocated; otherwise 0 and what is printed: the kept
      pairs sorted, those with an empty id as bare pids ahead of every
      heading, and every other id on one line only (nothing when no pair was
      collected). */
  method MapByType(procOpens: bool, arrayAllocated: bool, entries: seq<Entry>, links: Links, kind: string,
                   refused: set<nat>)
    returns (r: int, lead: seq<Int32>, groups: seq<Group>)
    ensures r == -1 <==> !procOpens || !arrayAllocated
    ensures r != -1 ==> r == 0
    ensures r == -1 ==> lead == [] && groups == []
    ensures r == 0 ==>
      var all := Accepted(links, kind, entries);
      var kept := all[..Room(4096, |all|, refused)];
      && WellGrouped(groups)
      && Sorted(Listed(lead, groups))
      && multiset(Listed(lead, groups)) == multiset(kept)
      && (forall i :: 0 <= i < |groups| ==> groups[i].nsid != "")
      && forall i, j :: 0 <= i < j < |groups| ==> groups[i].nsid != groups[j].nsid
  {
    lead, groups := [], [];
    if !procOpens || !arrayAllocated {
      return -1, lead, groups;
    }
    var pairs := Collect(entries, links, kind, refused);
    if |pairs| == 0 {
      return 0, lead, groups;
    }
    var sorted := Sort(pairs);
    lead, groups := GroupSorted(sorted);
    SortedSuffix(Members(Group("", lead)), Expand(groups));
    GroupsDistinct(groups);
    forall i, j | 0 <= i < j < |groups|
      ensures groups[i].nsid != groups[j].nsid
    {
      StrBeforeIrreflexive(groups[i].nsid);
    }
    forall i | 0 < i < |groups|
      ensures groups[i].nsid != ""
    {
      NothingBeforeEmpty(groups[0].nsid);
    }
    r := 0;
  }

  /** A sorted list stays sorted without its front. */
  lemma SortedSuffix(a: seq<Pair>, b: seq<Pair>)
    requires Sorted(a + b)
    ensures Sorted(b)
  {
    forall i | 0 < i < |b|
      ensures PairLe(b[i - 1], b[i])
    {
      assert b[i - 1] == (a + b)[|a| + i - 1] && b[i] == (a + b)[|a| + i];
    }
  }

  /** The empty id sorts before every other. */
  lemma NothingBeforeEmpty(a: string)
    ensures !StrBefore(a, "")
  {
  }
}
