/**
 * `supplyGridEyeCallback`: decode one supplied message and hand the store
 * one line per reading, in order. Decoding (`proto.Unmarshal`) is a partial
 * function given as a parameter; the store calls go to the one
 * `DataStore` implementation, `FileSystemDataStore`.
 */
module Callback {

  import opened Wrappers
  import opened OsModel
  import opened Store
  import opened StoreHistory
  import opened Format

  /** The raw bytes of a supply's content (`sp.Cdata.Entity`). */
  type Bytes = seq<bv8>

  /** The lines a message yields: none when it did not decode, otherwise one per reading. */
  function MessageLines(decoded: Option<GridEye>, fmt: Renderers): seq<string>
  {
    match decoded
    case None => []
    case Some(ge) => EventLines(ge, fmt)
  }

  /** The store calls for `lines`, the k-th observing environment `io(k)`. */
  function CallsFor(lines: seq<string>, io: nat -> Env): (r: seq<Call>)
    ensures |r| == |lines|
    ensures forall k :: 0 <= k < |lines| ==> r[k] == Call(io(k), lines[k])
  {
    seq(|lines|, k requires 0 <= k < |lines| => Call(io(k), lines[k]))
  }

  /** Extending a prefix by one element. */
  lemma PrefixSnoc<T>(s: seq<T>, i: nat)
    requires i <= |s|
    ensures i < |s| ==> s[..i + 1] == s[..i] + [s[i]]
    ensures s[..|s|] == s
  {
  }

  lemma ConcatAssoc<T>(a: seq<T>, b: seq<T>, c: seq<T>)
    ensures (a + b) + c == a + (b + c)
  {
  }

  lemma CallsForSnoc(lines: seq<string>, io: nat -> Env, i: nat)
    requires i < |lines|
    ensures CallsFor(lines[..i + 1], io) == CallsFor(lines[..i], io) + [Call(io(i), lines[i])]
  {
  }

  /** One store call, extending the run of the calls made so far by one. */
  method StoreNext(ds: FileSystemDataStore, os: Os, line: string, env: Env,
                   ghost f0: StoreFields, ghost disk0: Disk, ghost trace0: seq<Op>, ghost calls: seq<Call>)
    requires ds.Valid() && Inv(ds.storeDir, f0)
    requires ds.Fields() == Run(ds.storeDir, f0, disk0, calls).fields
    requires os.disk == Run(ds.storeDir, f0, disk0, calls).disk
    requires os.trace == trace0 + Run(ds.storeDir, f0, disk0, calls).ops
    modifies ds, os
    ensures ds.Valid() && ds.received == old(ds.received) + [line]
    ensures ds.Fields() == Run(ds.storeDir, f0, disk0, calls + [Call(env, line)]).fields
    ensures os.disk == Run(ds.storeDir, f0, disk0, calls + [Call(env, line)]).disk
    ensures os.trace == trace0 + Run(ds.storeDir, f0, disk0, calls + [Call(env, line)]).ops
  {
    RunSnoc(ds.storeDir, f0, disk0, calls, Call(env, line));
    ghost var prev := Run(ds.storeDir, f0, disk0, calls);
    ghost var step := StoreStep(ds.storeDir, prev.fields, prev.disk, env, line);
    ds.Store(line, env, os);
    assert os.trace == (trace0 + prev.ops) + step.ops;
    ConcatAssoc(trace0, prev.ops, step.ops);
  }

  /**
   * Handle one supply: if the content decodes, build the header prefix once
   * and call `store` once per reading, in `Data` order. `io(k)` is what the
   * k-th store call of this message observes (date and I/O outcomes).
   */
  method SupplyGridEyeCallback(ds: FileSystemDataStore, os: Os, entity: Bytes,
                               unmarshal: Bytes -> Option<GridEye>, fmt: Renderers, io: nat -> Env)
    requires ds.Valid()
    modifies ds, os
    ensures ds.Valid()
    ensures unmarshal(entity).None? ==> unchanged(ds, os)
    ensures var lines := MessageLines(unmarshal(entity), fmt);
      && ds.received == old(ds.received) + lines
      && var run := Run(ds.storeDir, old(ds.Fields()), old(os.disk), CallsFor(lines, io));
         && ds.Fields() == run.fields && os.disk == run.disk
         && os.trace == old(os.trace) + run.ops
  {
    var decoded := unmarshal(entity);
    if decoded.Some? {
      var ge := decoded.value;
      var ld := HeaderLine(ge, fmt);
      ghost var lines := EventLines(ge, fmt);
      ghost var f0, disk0, trace0 := ds.Fields(), os.disk, os.trace;
      ghost var calls: seq<Call> := [];
      for i := 0 to |ge.data|
        invariant ds.Valid()
        invariant ds.received == old(ds.received) + lines[..i]
        invariant calls == CallsFor(lines[..i], io)
        invariant ds.Fields() == Run(ds.storeDir, f0, disk0, calls).fields
        invariant os.disk == Run(ds.storeDir, f0, disk0, calls).disk
        invariant os.trace == trace0 + Run(ds.storeDir, f0, disk0, calls).ops
      {
        var line := ReadingLine(ld, ge.data[i], fmt);
        assert line == lines[i];
        StoreNext(ds, os, line, io(i), f0, disk0, trace0, calls);
        calls := calls + [Call(io(i), line)];
        PrefixSnoc(lines, i);
        CallsForSnoc(lines, io, i);
      }
      PrefixSnoc(lines, |lines|);
    }
  }

  /**
   * Fan-out: a decoded event with N readings gives exactly N lines, the k-th
   * being the shared header fields followed by reading k's fields; with
   * comma-free text it splits back into those thirteen fields.
   */
  lemma FanOut(ge: GridEye, fmt: Renderers, k: nat)
    requires k < |ge.data|
    ensures |MessageLines(Some(ge), fmt)| == |ge.data|
    ensures MessageLines(Some(ge), fmt)[k] == Join(Comma, HeaderFields(ge, fmt) + ReadingFields(ge.data[k], fmt))
    ensures TextFieldsClean(ge, ge.data[k], fmt) ==>
      Split(MessageLines(Some(ge), fmt)[k]) == HeaderFields(ge, fmt) + ReadingFields(ge.data[k], fmt)
  {
    LineIsJoinedFields(ge, ge.data[k], fmt);
    if TextFieldsClean(ge, ge.data[k], fmt) {
      LineSplitsIntoFields(ge, ge.data[k], fmt);
    }
  }

  // ----- a worked example -----

  const ExampleEvent := GridEye(Timestamp(1704103200, 0), "d1", "h1", "L", "m", "i", 1,
    [Reading(Timestamp(1704103201, 0), "t", "r1", 1, [1.0, 2.0], [])])

  /** Timestamp and number texts as the Go library prints the example's values. */
  const ExampleRenderers := Renderers(
    (t: Timestamp) => if t.seconds == 1704103200 then "2024-01-01T10:00:00Z" else "2024-01-01T10:00:01Z",
    (x: real) => if x == 1.0 then "1" else "2")

  lemma ExampleNumbers()
    ensures RenderNumbers([1.0, 2.0], ExampleRenderers.number) == "[1 2]"
    ensures RenderNumbers([], ExampleRenderers.number) == "[]"
  {
    var texts := seq(2, k requires 0 <= k < 2 => ExampleRenderers.number([1.0, 2.0][k]));
    assert texts == ["1", "2"];
    assert texts[1..] == ["2"];
    assert Join(' ', texts) == "1" + [' '] + "2";
    assert RenderNumbers([1.0, 2.0], ExampleRenderers.number) == "[" + Join(' ', texts) + "]";
    assert RenderNumbers([], ExampleRenderers.number) == "[" + Join(' ', []) + "]";
  }

  /** The thirteen fields of the example's one line, as the Go program prints them. */
  const ExampleFields := ["2024-01-01T10:00:00Z", "d1", "h1", "L", "m", "i", "1",
                          "2024-01-01T10:00:01Z", "t", "r1", "1", "[1 2]", "[]"]

  /**
   * The example event yields one line: the comma-join of the header fields
   * and then the reading's fields, which splits back into those fields.
   */
  lemma ExampleLine()
    ensures var lines := MessageLines(Some(ExampleEvent), ExampleRenderers);
      |lines| == 1 && lines[0] == Join(Comma, ExampleFields) && Split(lines[0]) == ExampleFields
  {
    var fmt := ExampleRenderers;
    var rd := ExampleEvent.data[0];
    assert FormatInt(1) == "1";
    ExampleNumbers();
    assert HeaderFields(ExampleEvent, fmt) + ReadingFields(rd, fmt) == ExampleFields;
    assert TextFieldsClean(ExampleEvent, rd, fmt);
    FanOut(ExampleEvent, fmt, 0);
  }

  /**
   * A line stored on 2024-01-01 by a fresh store whose directory `store`
   * is missing creates the directory and `store/2024-01-01.csv` holding
   * exactly that line.
   */
  lemma ExampleFile(line: string)
    ensures var run := Run("store", Initial, Disk({}, map[]), [Call(Env("2024-01-01", true, true), line)]);
      && run.stored == [true]
      && "store" in run.disk.dirs
      && Content(run.disk, "store/2024-01-01.csv") == line + "\n"
  {
    var env := Env("2024-01-01", true, true);
    assert [Call(env, line)][..0] == [];
    assert PathIn("store", DayFile("2024-01-01")) == "store/2024-01-01.csv";
    StoreWritesTodaysFile("store", Initial, Disk({}, map[]), env, line, "store/2024-01-01.csv");
  }
}
