/** The part of the filesystem the program touches, reduced to its effect: a
    map from paths to file contents, a set of directories, and the paths where
    the operating system refuses an operation. */
module FileStore {

  datatype Option<T> = None | Some(value: T)

  type Path = string
  type Bytes = seq<bv8>

  /** What os.Stat reports for a path: it is there, it does not exist, or the
      call failed for another reason (permissions, I/O). */
  datatype StatResult = Present | Absent | StatFailed

  /** A snapshot of the filesystem. statFails: paths whose stat fails with an
      error other than "does not exist"; readOnly: paths where creating a
      directory or writing a file fails; unreadable: files that cannot be read. */
  datatype Disk = Disk(files: map<Path, Bytes>, dirs: set<Path>,
                       statFails: set<Path>, readOnly: set<Path>, unreadable: set<Path>)

  function StatOf(d: Disk, p: Path): StatResult {
    if p in d.statFails then StatFailed
    else if p in d.files || p in d.dirs then Present
    else Absent
  }

  /** os.Mkdir succeeds when nothing is at the path and the path may be created. */
  predicate CanMkdir(d: Disk, p: Path) {
    p !in d.readOnly && p !in d.files && p !in d.dirs
  }

  function MkdirOf(d: Disk, p: Path): Disk {
    if CanMkdir(d, p) then d.(dirs := d.dirs + {p}) else d
  }

  /** Reading succeeds for a regular file that may be read, and yields all of it. */
  function ReadOf(d: Disk, p: Path): Option<Bytes> {
    if p in d.files && p !in d.unreadable then Some(d.files[p]) else None
  }

  /** Writing succeeds unless the path may not be written or is a directory;
      it replaces the whole file. */
  predicate CanWrite(d: Disk, p: Path) {
    p !in d.readOnly && p !in d.dirs
  }

  function WriteOf(d: Disk, p: Path, data: Bytes): Disk {
    if CanWrite(d, p) then d.(files := d.files[p := data]) else d
  }

  /** The live filesystem: files and directories change as the program runs;
      which operations the system refuses does not. */
  class FileSystem {
    var files: map<Path, Bytes>
    var dirs: set<Path>
    const statFails: set<Path>
    const readOnly: set<Path>
    const unreadable: set<Path>

    function Snapshot(): Disk
      reads this
    {
      Disk(files, dirs, statFails, readOnly, unreadable)
    }

    constructor (d: Disk)
      ensures Snapshot() == d
    {
      files, dirs := d.files, d.dirs;
      statFails, readOnly, unreadable := d.statFails, d.readOnly, d.unreadable;
    }

    /** The program's exists helper over os.Stat: (true, no error) when stat
        succeeds, (false, no error) when the path does not exist, and (true,
        error) on any other stat failure. */
    method Exists(path: Path) returns (exist: bool, err: bool)
      ensures !err ==> (exist <==> StatOf(Snapshot(), path) == Present)
      ensures err <==> StatOf(Snapshot(), path) == StatFailed
      ensures err ==> exist
    {
      var st := StatOf(Snapshot(), path);
      if st == Present {
        return true, false;
      }
      if st == Absent {
        return false, false;
      }
      return true, true;
    }

    method Mkdir(path: Path) returns (ok: bool)
      modifies this
      ensures ok == CanMkdir(old(Snapshot()), path)
      ensures Snapshot() == MkdirOf(old(Snapshot()), path)
    {
      ok := CanMkdir(Snapshot(), path);
      if ok {
        dirs := dirs + {path};
      }
    }

    method ReadFile(path: Path) returns (data: Option<Bytes>)
      ensures data.Some? <==> path in files && path !in unreadable
      ensures data.Some? ==> data.value == files[path]
      ensures data == ReadOf(Snapshot(), path)
    {
      if path in files && path !in unreadable {
        return Some(files[path]);
      }
      return None;
    }

    method WriteFile(path: Path, data: Bytes) returns (ok: bool)
      modifies this
      ensures ok == CanWrite(old(Snapshot()), path)
      ensures Snapshot() == WriteOf(old(Snapshot()), path, data)
      ensures ok ==> files == old(files)[path := data]
    {
      ok := CanWrite(Snapshot(), path);
      if ok {
        files := files[path := data];
      }
    }
  }
}
