/**
 * `FileSystemDataStore`: an append-only store that keeps at most one file
 * open, named `<YYYY-MM-DD>.csv` inside a fixed directory, and rolls over to
 * a new file when the calendar date changes.
 *
 * `StoreStep` is the reference definition of one `store` call: the new
 * values of the two mutable fields, the system calls made (in order), the
 * disk afterwards and whether the line was written. The class method
 * `FileSystemDataStore.Store` is proved to behave exactly like it.
 */
module Store {

  import opened Wrappers
  import opened OsModel

  /**
   * What one `store` call observes of the outside world: the local calendar
   * date (`time.Now().Format("2006-01-02")`) and whether `os.MkdirAll` and
   * `os.OpenFile` would succeed if called.
   */
  datatype Env = Env(today: string, mkdirOk: bool, openOk: bool)

  /** The name of the file for a date: `<date>.csv`. */
  function DayFile(today: string): string
  {
    today + ".csv"
  }

  /** The path `storeDir + "/" + name` that the store opens. */
  function PathIn(dir: string, name: string): string
  {
    dir + "/" + name
  }

  /** The two fields `store` updates: `storeFile` (nil is `None`) and `todayStr`. */
  datatype StoreFields = StoreFields(storeFile: Option<Handle>, todayStr: string)

  /** The fields of a freshly built store. */
  const Initial := StoreFields(None, "")

  /**
   * The store invariant: an open handle was opened for the file named
   * `todayStr` in the store directory, so `todayStr` is then not empty.
   */
  predicate Inv(dir: string, f: StoreFields)
  {
    f.storeFile.Some? ==> f.todayStr != "" && f.storeFile.value == Handle(PathIn(dir, f.todayStr))
  }

  /** No usable handle survives the rollover check, so `store` must check the directory and open a file. */
  predicate MustOpen(f: StoreFields, env: Env)
  {
    f.storeFile.None? || f.todayStr != DayFile(env.today)
  }

  datatype StepResult = StepResult(fields: StoreFields, ops: seq<Op>, disk: Disk, stored: bool)

  /**
   * The rollover check: when `todayStr` is set and is not the file name for
   * the new date, the handle (if any) is closed and dropped. Gives the handle
   * kept and the close made.
   */
  function RolloverCheck(f: StoreFields, name: string): (Option<Handle>, seq<Op>)
  {
    if f.todayStr != "" && f.todayStr != name then
      (None, if f.storeFile.Some? then [Close(f.storeFile.value.name)] else [])
    else
      (f.storeFile, [])
  }

  /**
   * Lines 71-86 of `store` when no handle is open: stat the directory,
   * create it if missing, record the new file name, then open the file.
   * `stored` here says whether a handle is open afterwards.
   */
  function OpenStep(dir: string, todayStr: string, disk: Disk, env: Env): StepResult
  {
    var statOk := dir in disk.dirs;
    if !statOk && !env.mkdirOk then
      StepResult(StoreFields(None, todayStr), [Stat(dir, false), MkdirAll(dir, false)], disk, false)
    else
      var made := if statOk then [Stat(dir, true)] else [Stat(dir, false), MkdirAll(dir, true)];
      var ready := if statOk then disk else WithDir(disk, dir);
      var name := DayFile(env.today);
      var path := PathIn(dir, name);
      if !env.openOk then
        StepResult(StoreFields(None, name), made + [OpenFile(path, false)], ready, false)
      else
        StepResult(StoreFields(Some(Handle(path)), name), made + [OpenFile(path, true)], Created(ready, path), true)
  }

  /**
   * One call `store(str)` on a store in directory `dir` with fields `f`, on
   * disk `disk`, in environment `env`.
   */
  function StoreStep(dir: string, f: StoreFields, disk: Disk, env: Env, str: string): (r: StepResult)
    requires Inv(dir, f)
    ensures Inv(dir, r.fields)
    ensures r.stored <==> r.fields.storeFile.Some?
    ensures r.stored ==> r.fields.todayStr == DayFile(env.today)
  {
    var checked := RolloverCheck(f, DayFile(env.today));
    var file := checked.0;
    var closing := checked.1;
    var held := if file.Some? then StepResult(f, [], disk, true) else OpenStep(dir, f.todayStr, disk, env);
    if held.fields.storeFile.Some? then
      var name := held.fields.storeFile.value.name;
      var data := str + "\n";
      StepResult(held.fields, closing + held.ops + [Write(name, data)], Appended(held.disk, name, data), true)
    else
      StepResult(held.fields, closing + held.ops, held.disk, false)
  }

  /**
   * Every call makes at least one system call; the write, if any, is the
   * last one, goes to the file for this call's date, and carries the line
   * and a newline. No other call of the step writes.
   */
  lemma StoreWritesLast(dir: string, f: StoreFields, disk: Disk, env: Env, str: string)
    requires Inv(dir, f)
    ensures var r := StoreStep(dir, f, disk, env, str);
      && |r.ops| > 0 && (r.stored <==> r.ops[|r.ops| - 1].Write?)
      && (r.stored ==> r.ops[|r.ops| - 1] == Write(PathIn(dir, DayFile(env.today)), str + "\n"))
      && (forall i :: 0 <= i < |r.ops| - 1 ==> !r.ops[i].Write?)
  {
  }

  /**
   * When the line is written: exactly when the handle survives the rollover
   * check, or when the directory exists or is created and today's file opens.
   */
  lemma StoreWritesWhen(dir: string, f: StoreFields, disk: Disk, env: Env, str: string)
    requires Inv(dir, f)
    ensures StoreStep(dir, f, disk, env, str).stored
        <==> !MustOpen(f, env) || ((dir in disk.dirs || env.mkdirOk) && env.openOk)
  {
  }

  /**
   * Successful write: the line and a newline are appended to the file for
   * the date of this call, and no other file's text changes; a dropped line
   * changes no file's text.
   */
  lemma StoreWritesTodaysFile(dir: string, f: StoreFields, disk: Disk, env: Env, str: string, p: string)
    requires Inv(dir, f)
    ensures var r := StoreStep(dir, f, disk, env, str);
      Content(r.disk, p) == Content(disk, p) + (if r.stored && p == PathIn(dir, DayFile(env.today)) then str + "\n" else "")
  {
  }

  /**
   * Rollover: when `todayStr` is set and differs from the new date, the open
   * handle is closed first, nothing else is closed, and any open comes after it.
   */
  lemma StoreRollover(dir: string, f: StoreFields, disk: Disk, env: Env, str: string)
    requires Inv(dir, f)
    requires f.todayStr != "" && f.todayStr != DayFile(env.today)
    ensures var r := StoreStep(dir, f, disk, env, str);
      && (f.storeFile.Some? ==> r.ops[0] == Close(PathIn(dir, f.todayStr)))
      && (forall i :: 0 <= i < |r.ops| && r.ops[i].Close? ==> i == 0 && f.storeFile.Some?)
      && (forall i :: 0 <= i < |r.ops| && r.ops[i].OpenFile? ==> 0 < i && r.ops[i].path == PathIn(dir, DayFile(env.today)))
  {
  }

  /** Same-day reuse: with a handle open for today's file, only the write happens. */
  lemma StoreSameDayReuse(dir: string, f: StoreFields, disk: Disk, env: Env, str: string)
    requires Inv(dir, f)
    requires f.storeFile.Some? && f.todayStr == DayFile(env.today)
    ensures var r := StoreStep(dir, f, disk, env, str);
      && r.ops == [Write(PathIn(dir, DayFile(env.today)), str + "\n")]
      && r.fields == f && r.stored
  {
  }

  /** The directory part of `OpenStep`: `MkdirAll` follows exactly a `Stat` that found the directory missing. */
  lemma OpenStepDirectory(dir: string, todayStr: string, disk: Disk, env: Env)
    ensures var r := OpenStep(dir, todayStr, disk, env);
      && (MkdirAll(dir, env.mkdirOk) in r.ops <==> Stat(dir, false) in r.ops)
      && MkdirAll(dir, !env.mkdirOk) !in r.ops
      && (forall ok :: Stat(dir, ok) in r.ops ==> ok == (dir in disk.dirs))
      && (MkdirAll(dir, true) in r.ops ==> dir in r.disk.dirs)
  {
  }

  /**
   * Directory creation: `MkdirAll` is called exactly when `Stat` was called
   * and reported the directory missing.
   */
  lemma StoreDirectoryCreation(dir: string, f: StoreFields, disk: Disk, env: Env, str: string)
    requires Inv(dir, f)
    ensures var r := StoreStep(dir, f, disk, env, str);
      && (MkdirAll(dir, env.mkdirOk) in r.ops <==> Stat(dir, false) in r.ops)
      && MkdirAll(dir, !env.mkdirOk) !in r.ops
      && (forall ok :: Stat(dir, ok) in r.ops ==> ok == (dir in disk.dirs))
      && (MkdirAll(dir, true) in r.ops ==> dir in r.disk.dirs)
  {
    var r := StoreStep(dir, f, disk, env, str);
    var checked := RolloverCheck(f, DayFile(env.today));
    assert forall op :: op in checked.1 ==> op.Close?;
    if checked.0.Some? {
      assert forall op :: op in r.ops ==> op.Close? || op.Write?;
    } else {
      var held := OpenStep(dir, f.todayStr, disk, env);
      OpenStepDirectory(dir, f.todayStr, disk, env);
      assert r.ops == checked.1 + held.ops || r.ops == checked.1 + held.ops + [Write(PathIn(dir, DayFile(env.today)), str + "\n")];
      assert r.disk.dirs == held.disk.dirs;
    }
  }

  /**
   * Mkdir failure: the line is dropped, no file is open, `todayStr` and the
   * disk are untouched, and the next call, whatever its date, checks the
   * directory again before anything else.
   */
  lemma StoreMkdirFailure(dir: string, f: StoreFields, disk: Disk, env: Env, str: string, env2: Env, str2: string)
    requires Inv(dir, f)
    requires MustOpen(f, env) && dir !in disk.dirs && !env.mkdirOk
    ensures var r := StoreStep(dir, f, disk, env, str);
      && MkdirAll(dir, false) in r.ops
      && !r.stored && r.fields == StoreFields(None, f.todayStr) && r.disk == disk
      && StoreStep(dir, r.fields, r.disk, env2, str2).ops[..2] == [Stat(dir, false), MkdirAll(dir, env2.mkdirOk)]
  {
  }

  /**
   * Open failure: the line is dropped and no file is open, but `todayStr`
   * already names today's file; the next call on the same date closes
   * nothing, finds the directory, and retries the open.
   */
  lemma StoreOpenFailure(dir: string, f: StoreFields, disk: Disk, env: Env, str: string, env2: Env, str2: string)
    requires Inv(dir, f)
    requires MustOpen(f, env) && (dir in disk.dirs || env.mkdirOk) && !env.openOk
    requires env2.today == env.today
    ensures var r := StoreStep(dir, f, disk, env, str);
      && OpenFile(PathIn(dir, DayFile(env.today)), false) in r.ops
      && !r.stored && r.fields == StoreFields(None, DayFile(env.today))
      && var path := PathIn(dir, DayFile(env.today));
         StoreStep(dir, r.fields, r.disk, env2, str2).ops[..2] == [Stat(dir, true), OpenFile(path, env2.openOk)]
  {
  }

  /**
   * Missing directory on a fresh store: the first call with both system
   * calls succeeding creates the directory and a non-empty file for today.
   */
  lemma StoreCreatesDirectory(dir: string, disk: Disk, env: Env, str: string)
    requires dir !in disk.dirs && env.mkdirOk && env.openOk
    ensures var r := StoreStep(dir, Initial, disk, env, str);
      && dir in r.disk.dirs && r.stored
      && |Content(r.disk, PathIn(dir, DayFile(env.today)))| > 0
  {
  }

  /** The `FileSystemDataStore` object: a fixed directory and the two fields `store` updates. */
  class FileSystemDataStore {
    const storeDir: string
    var storeFile: Option<Handle>
    var todayStr: string
    /** Every line handed to `store`, in call order: what a `DataStore` caller sees. */
    ghost var received: seq<string>

    function Fields(): StoreFields
      reads this
    {
      StoreFields(storeFile, todayStr)
    }

    predicate Valid()
      reads this
    {
      Inv(storeDir, Fields())
    }

    constructor (dir: string)
      ensures storeDir == dir && Fields() == Initial && received == []
      ensures Valid()
    {
      storeDir := dir;
      storeFile := None;
      todayStr := "";
      received := [];
    }

    /** Lines 67-70 of `store`: close and drop the handle when the date has moved on. */
    method DropStaleHandle(name: string, os: Os)
      requires Valid()
      modifies this`storeFile, os
      ensures Valid() && todayStr == old(todayStr) && os.disk == old(os.disk)
      ensures var checked := RolloverCheck(old(Fields()), name);
        storeFile == checked.0 && os.trace == old(os.trace) + checked.1
    {
      if todayStr != "" && todayStr != name {
        if storeFile.Some? {
          os.Close(storeFile.value);
        }
        storeFile := None;
      }
    }

    /** Lines 71-86 of `store`, reached with no handle open. */
    method OpenTodaysFile(name: string, env: Env, os: Os)
      requires Valid() && storeFile.None? && name == DayFile(env.today)
      modifies this, os
      ensures Valid() && received == old(received)
      ensures var r := OpenStep(storeDir, old(todayStr), old(os.disk), env);
        && Fields() == r.fields
        && os.disk == r.disk
        && os.trace == old(os.trace) + r.ops
    {
      var statOk := os.Stat(storeDir);
      if !statOk {
        var made := os.MkdirAll(storeDir, env.mkdirOk);
        if !made {
          return;
        }
      }
      todayStr := name;
      var file := os.OpenFile(PathIn(storeDir, name), env.openOk);
      if file.None? {
        return;
      }
      storeFile := file;
    }

    /** `store(str)`: write `str` and a newline to today's file, rolling over and opening as needed. */
    method Store(str: string, env: Env, os: Os)
      requires Valid()
      modifies this, os
      ensures Valid() && received == old(received) + [str]
      ensures var r := StoreStep(storeDir, old(Fields()), old(os.disk), env, str);
        && Fields() == r.fields
        && os.disk == r.disk
        && os.trace == old(os.trace) + r.ops
    {
      received := received + [str];
      var name := DayFile(env.today);
      DropStaleHandle(name, os);
      if storeFile.None? {
        OpenTodaysFile(name, env, os);
        if storeFile.None? {
          return;
        }
      }
      os.WriteString(storeFile.value, str + "\n");
    }
  }
}
