/** What the three cgroup experiments share: the child process they fork,
    seen only through what waitpid(WNOHANG) reports, and the life of the
    experiment's group, which is created at the start and removed on every
    path that follows a successful creation. */
module Trial {
  import opened Common
  import opened CgroupFs
  import opened CgroupV2
  import CgroupManager

  /** One waitpid(pid, &status, WNOHANG) on the child: 0 while it runs, its
      exit status or terminating signal once reaped, or an error. */
  datatype Poll = Running | Exited(code: int) | Signaled(sig: int) | WaitFailed

  const SIGKILL: int := 9

  /** How often `for (int i = 0; i < duration; i++)` runs: not at all when
      duration is not positive. */
  function Iterations(duration: Int32): (n: nat)
    ensures duration > 0 ==> n == duration
    ensures duration <= 0 ==> n == 0
  {
    if duration > 0 then duration else 0
  }

  /** Nothing is at "/sys/fs/cgroup/<name>" yet, so mkdir can make it. */
  predicate Vacant(dirs: set<string>, files: map<string, string>, name: string)
  {
    GroupPath(name) !in dirs && GroupPath(name) !in files
  }

  /** Whether a control file of a group made by mkdir opens for writing: it
      does when the kernel put it there, or when it was writable before. */
  predicate AcceptsAfterCreate(writable: set<string>, controls: set<string>, name: string, file: string)
  {
    ControlPath(name, file) in writable || file in controls
  }

  /** The group directory was added to dirs0, and outside it the files and
      writable paths are those of the state before it was made. */
  ghost predicate Staged(fs: FileSystem, dirs0: set<string>, files0: map<string, string>,
                         writable0: set<string>, name: string)
    reads fs
  {
    && GroupPath(name) !in dirs0
    && fs.dirs == dirs0 + {GroupPath(name)}
    && Pruned(fs.files, GroupPath(name)) == Pruned(files0, GroupPath(name))
    && Outside(fs.writable, GroupPath(name)) == Outside(writable0, GroupPath(name))
  }

  /** rmdir can remove the group: no process holds it and no directory lies
      below it. */
  predicate Removable(dirs0: set<string>, name: string, busy: bool)
  {
    !busy && NoSubdirs(dirs0, GroupPath(name))
  }

  /** The state after the cleanup: the group and everything in it are gone
      when rmdir can remove it; otherwise it stays as it was. */
  ghost predicate Restored(fs: FileSystem, dirs0: set<string>, files0: map<string, string>,
                           writable0: set<string>, name: string, busy: bool)
    reads fs
  {
    if Removable(dirs0, name, busy) then
      && fs.dirs == dirs0
      && fs.files == Pruned(files0, GroupPath(name))
      && fs.writable == Outside(writable0, GroupPath(name))
      && !Exists(fs, name)
    else
      Staged(fs, dirs0, files0, writable0, name) && Exists(fs, name)
  }

  /** cgroup_create at the start of an experiment: a non-zero result, 1 for
      a group that is there already included, makes the caller give up with
      nothing changed. On success the group exists and its control files
      take writes as AcceptsAfterCreate says. */
  method Prepare(fs: FileSystem, name: string, permitted: bool) returns (r: int)
    requires fs.Valid()
    modifies fs
    ensures fs.Valid()
    ensures r == 0 <==> old(Vacant(fs.dirs, fs.files, name)) && permitted
    ensures r != 0 ==> unchanged(fs)
    ensures r == 0 ==> Staged(fs, old(fs.dirs), old(fs.files), old(fs.writable), name) && Exists(fs, name)
    ensures r == 0 ==> forall file :: fs.CanWrite(ControlPath(name, file)) <==>
      AcceptsAfterCreate(old(fs.writable), fs.controls, name, file)
  {
    ghost var files0 := fs.files;
    ghost var writable0 := fs.writable;
    r := CgroupManager.Create(fs, name, permitted);
    if r == 0 {
      var p := GroupPath(name);
      PrunedAddInside(files0, ControlFiles(p, fs.controls), p);
      assert Outside(fs.writable, p) == Outside(writable0, p);
      forall file
        ensures fs.CanWrite(ControlPath(name, file)) <==> AcceptsAfterCreate(writable0, fs.controls, name, file)
      {
        ControlFileAt(p, fs.controls, file);
      }
    }
  }

  /** A write into one of the group's control files keeps the staged state. */
  lemma StagedWrite(fs: FileSystem, dirs0: set<string>, files0: map<string, string>,
                    writable0: set<string>, name: string, before: map<string, string>, file: string, text: string)
    requires fs.files == before[ControlPath(name, file) := text]
    requires Pruned(before, GroupPath(name)) == Pruned(files0, GroupPath(name))
    ensures Pruned(fs.files, GroupPath(name)) == Pruned(files0, GroupPath(name))
  {
    PrunedWriteInside(before, GroupPath(name), ControlPath(name, file), text);
  }

  /** cgroup_delete at the end of an experiment, or on its way out after a
      failure; its result is not looked at. */
  method Teardown(fs: FileSystem, name: string, busy: bool,
                  ghost dirs0: set<string>, ghost files0: map<string, string>, ghost writable0: set<string>)
    requires fs.Valid()
    requires Staged(fs, dirs0, files0, writable0, name)
    modifies fs
    ensures fs.Valid()
    ensures Restored(fs, dirs0, files0, writable0, name, busy)
  {
    var p := GroupPath(name);
    NotInsideSelf(p);
    assert NoSubdirs(fs.dirs, p) <==> NoSubdirs(dirs0, p);
    var r := Delete(fs, name, busy);
  }
}
