/**
 * An abstract view of the operating-system calls the store makes
 * (`os.Stat`, `os.MkdirAll`, `os.OpenFile`, `(*os.File).Close` and
 * `(*os.File).WriteString`). The disk is a set of directories and a map
 * from file path to file text; every call is also recorded in a ghost
 * trace so that the order of the calls can be stated.
 */
module OsModel {

  import opened Wrappers

  /** An open file, identified by the path it was opened with (`(*os.File).Name()`). */
  datatype Handle = Handle(name: string)

  /** One system call as the store issues it, with its outcome where it has one. */
  datatype Op =
    | Stat(path: string, ok: bool)
    | MkdirAll(path: string, ok: bool)
    | OpenFile(path: string, ok: bool)
    | Close(path: string)
    | Write(path: string, data: string)

  datatype Disk = Disk(dirs: set<string>, files: map<string, string>)

  /** The text of the file at `p`; a file that does not exist reads as empty. */
  function Content(d: Disk, p: string): string
  {
    if p in d.files then d.files[p] else ""
  }

  /** The disk after a successful `MkdirAll(p)`. */
  function WithDir(d: Disk, p: string): (r: Disk)
    ensures r.dirs == d.dirs + {p} && r.files == d.files
  {
    d.(dirs := d.dirs + {p})
  }

  /** The disk after a successful `OpenFile(p, O_RDWR|O_CREATE|O_APPEND)`: the file exists, its text is kept. */
  function Created(d: Disk, p: string): (r: Disk)
    ensures p in r.files && r.dirs == d.dirs
    ensures forall q :: Content(r, q) == Content(d, q)
  {
    if p in d.files then d else d.(files := d.files[p := ""])
  }

  /** The disk after appending `data` to the file at `p`. */
  function Appended(d: Disk, p: string, data: string): (r: Disk)
    ensures r.dirs == d.dirs && p in r.files
    ensures Content(r, p) == Content(d, p) + data
    ensures forall q :: q != p ==> Content(r, q) == Content(d, q)
  {
    d.(files := d.files[p := Content(d, p) + data])
  }

  /** The operating system as the store sees it. Failures of `MkdirAll` and `OpenFile` are inputs. */
  class Os {
    var disk: Disk
    ghost var trace: seq<Op>

    constructor (d: Disk)
      ensures disk == d && trace == []
    {
      disk := d;
      trace := [];
    }

    /** `os.Stat(path)` succeeds exactly when the directory exists. */
    method Stat(path: string) returns (ok: bool)
      modifies this
      ensures ok <==> path in old(disk).dirs
      ensures disk == old(disk) && trace == old(trace) + [Op.Stat(path, ok)]
    {
      ok := path in disk.dirs;
      trace := trace + [Op.Stat(path, ok)];
    }

    /** `os.MkdirAll(path, 0777)`; `succeed` decides whether the call fails. */
    method MkdirAll(path: string, succeed: bool) returns (ok: bool)
      modifies this
      ensures ok == succeed
      ensures disk == if ok then WithDir(old(disk), path) else old(disk)
      ensures trace == old(trace) + [Op.MkdirAll(path, ok)]
    {
      ok := succeed;
      if ok {
        disk := WithDir(disk, path);
      }
      trace := trace + [Op.MkdirAll(path, ok)];
    }

    /** `os.OpenFile(path, O_RDWR|O_CREATE|O_APPEND, 0666)`; `succeed` decides whether the call fails. */
    method OpenFile(path: string, succeed: bool) returns (f: Option<Handle>)
      modifies this
      ensures f == if succeed then Some(Handle(path)) else None
      ensures disk == if succeed then Created(old(disk), path) else old(disk)
      ensures trace == old(trace) + [Op.OpenFile(path, succeed)]
    {
      if succeed {
        f := Some(Handle(path));
        disk := Created(disk, path);
      } else {
        f := None;
      }
      trace := trace + [Op.OpenFile(path, succeed)];
    }

    /** `(*os.File).Close()` on an open handle. */
    method Close(f: Handle)
      modifies this
      ensures disk == old(disk) && trace == old(trace) + [Op.Close(f.name)]
    {
      trace := trace + [Op.Close(f.name)];
    }

    /** `(*os.File).WriteString(data)` in append mode. */
    method WriteString(f: Handle, data: string)
      modifies this
      ensures disk == Appended(old(disk), f.name, data)
      ensures trace == old(trace) + [Op.Write(f.name, data)]
    {
      disk := Appended(disk, f.name, data);
      trace := trace + [Op.Write(f.name, data)];
    }
  }
}
