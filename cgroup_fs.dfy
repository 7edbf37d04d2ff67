/** The part of the file system the cgroup controller works on: which paths
    are directories, the text each file holds and which files open for
    writing. The cgroup-v2 functions and the cgroup manager both act on one
    FileSystem object, the way the C code acts on the one kernel file
    system. */
module CgroupFs {
  import opened Common

  /** CGROUP_BASE_PATH and CGROUP_ROOT: where cgroup v2 is mounted. */
  const Root: string := "/sys/fs/cgroup"

  /** The path "<dir>/<name>", as snprintf("%s/%s") builds it. */
  function Join(dir: string, name: string): (p: string)
    ensures |p| == |dir| + 1 + |name|
    ensures dir + "/" <= p && p[|dir| + 1..] == name
  {
    dir + "/" + name
  }

  /** True when q lies inside the directory dir. */
  predicate Inside(dir: string, q: string)
  {
    dir + "/" <= q
  }

  /** The files the kernel puts into a new directory dir, each empty. */
  function ControlFiles(dir: string, names: set<string>): (m: map<string, string>)
    ensures forall c :: c in names ==> Join(dir, c) in m
    ensures forall q :: q in m ==> Inside(dir, q) && m[q] == ""
  {
    map q | q in ControlPaths(dir, names) :: ""
  }

  function ControlPaths(dir: string, names: set<string>): set<string>
  {
    set c | c in names :: Join(dir, c)
  }

  /** What mkdir(2) reports, as far as the callers tell the errors apart. */
  datatype MkdirResult = Made | AlreadyExists | Refused

  class FileSystem {
    /** The paths that are directories. */
    var dirs: set<string>
    /** The regular files, each with the text a read of it returns; writing
        a file replaces its text. */
    var files: map<string, string>
    /** The files that open for writing; the others are read-only. */
    var writable: set<string>
    /** The control files the kernel creates in every new cgroup directory;
        they all accept writes. */
    const controls: set<string>

    /** Only existing files can be opened for writing: none of the calls
        modelled here creates a regular file. */
    ghost predicate Valid()
      reads this
    {
      writable <= files.Keys
    }

    constructor(dirs0: set<string>, files0: map<string, string>, writable0: set<string>, controls0: set<string>)
      requires writable0 <= files0.Keys
      ensures Valid()
      ensures dirs == dirs0 && files == files0 && writable == writable0 && controls == controls0
    {
      dirs := dirs0;
      files := files0;
      writable := writable0;
      controls := controls0;
    }

    /** stat(2) succeeds and reports a directory. */
    predicate IsDir(p: string)
      reads this
    {
      p in dirs
    }

    /** fopen(p, "w"), open(p, O_WRONLY) and access(p, W_OK) succeed. */
    predicate CanWrite(p: string)
      reads this
    {
      p in writable
    }

    /** The text of p when fopen(p, "r") succeeds. */
    function Read(p: string): (r: Option<string>)
      reads this
      ensures r.Some? <==> p in files
      ensures r.Some? ==> r.value == files[p]
    {
      if p in files then Some(files[p]) else None
    }

    /** Writing text to a file opened for writing replaces its contents. */
    method Overwrite(p: string, text: string)
      requires Valid() && CanWrite(p)
      modifies this
      ensures Valid()
      ensures files == old(files)[p := text]
      ensures dirs == old(dirs) && writable == old(writable)
    {
      files := files[p := text];
    }

    /** mkdir(2): EEXIST when anything is at p already; otherwise the
        directory appears with the kernel's control files in it, unless the
        kernel refuses for another reason (permission, a missing parent),
        which `permitted` stands for. */
    method Mkdir(p: string, permitted: bool) returns (r: MkdirResult)
      requires Valid()
      modifies this
      ensures Valid()
      ensures r == AlreadyExists <==> old(p in dirs || p in files)
      ensures r == Made <==> old(p !in dirs && p !in files) && permitted
      ensures r == Made ==>
        dirs == old(dirs) + {p} &&
        files == old(files) + ControlFiles(p, controls) &&
        writable == old(writable) + ControlFiles(p, controls).Keys
      ensures r != Made ==> unchanged(this)
    {
      if p in dirs || p in files {
        r := AlreadyExists;
      } else if !permitted {
        r := Refused;
      } else {
        var added := ControlFiles(p, controls);
        dirs := dirs + {p};
        files := files + added;
        writable := writable + added.Keys;
        r := Made;
      }
    }

    /** rmdir(2) of a cgroup: it fails unless p is a directory with no
        directory below it and no process in it (`busy` stands for the
        latter); on success the directory and its control files are gone. */
    method Rmdir(p: string, busy: bool) returns (ok: bool)
      requires Valid()
      modifies this
      ensures Valid()
      ensures ok <==> old(p in dirs) && !busy && NoSubdirs(old(dirs), p)
      ensures ok ==>
        dirs == old(dirs) - {p} &&
        files == Pruned(old(files), p) &&
        writable == Outside(old(writable), p)
      ensures !ok ==> unchanged(this)
    {
      ok := p in dirs && !busy && NoSubdirs(dirs, p);
      if ok {
        dirs := dirs - {p};
        files := Pruned(files, p);
        writable := Outside(writable, p);
      }
    }
  }

  /** No directory of ds lies inside p. */
  predicate NoSubdirs(ds: set<string>, p: string)
  {
    forall q :: q in ds ==> !Inside(p, q)
  }

  /** The files that remain once the directory dir is gone. */
  function Pruned(m: map<string, string>, dir: string): (r: map<string, string>)
    ensures forall q :: q in r <==> q in m && !Inside(dir, q)
    ensures forall q :: q in r ==> r[q] == m[q]
  {
    map q | q in m && !Inside(dir, q) :: m[q]
  }

  /** The paths of s that do not lie inside dir. */
  function Outside(s: set<string>, dir: string): (r: set<string>)
    ensures forall q :: q in r <==> q in s && !Inside(dir, q)
  {
    set q | q in s && !Inside(dir, q)
  }

  /** A directory's own control files are exactly the names given: the path
      "<dir>/<c>" names one of them only when c is one of the names. */
  lemma ControlFileAt(dir: string, names: set<string>, c: string)
    ensures Join(dir, c) in ControlFiles(dir, names) <==> c in names
  {
    if Join(dir, c) in ControlFiles(dir, names) {
      var c' :| c' in names && Join(dir, c') == Join(dir, c);
      assert c' == Join(dir, c')[|dir| + 1..];
    }
  }

  /** Files added inside dir are gone again once dir is removed. */
  lemma PrunedAddInside(m: map<string, string>, extra: map<string, string>, dir: string)
    requires forall q :: q in extra ==> Inside(dir, q)
    ensures Pruned(m + extra, dir) == Pruned(m, dir)
  {
  }

  /** Writing a file inside dir does not change what remains without dir. */
  lemma PrunedWriteInside(m: map<string, string>, dir: string, q: string, text: string)
    requires Inside(dir, q)
    ensures Pruned(m[q := text], dir) == Pruned(m, dir)
  {
  }

  /** A directory does not lie inside itself. */
  lemma NotInsideSelf(dir: string)
    ensures !Inside(dir, dir)
  {
    assert |dir + "/"| > |dir|;
  }
}
