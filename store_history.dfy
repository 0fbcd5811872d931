/**
 * Many `store` calls in a row. `Run` folds `StoreStep` over a sequence of
 * calls; the lemmas show that each day's file receives exactly the lines
 * stored on that day, once each and in call order, whatever rollovers and
 * failures happen in between.
 */
module StoreHistory {

  import opened OsModel
  import opened Store

  /** One `store(line)` call together with the environment it observed. */
  datatype Call = Call(env: Env, line: string)

  datatype RunResult = RunResult(fields: StoreFields, disk: Disk, ops: seq<Op>, stored: seq<bool>)

  /**
   * The calls in order, from fields `f` and disk `disk`: the system calls
   * they make, in order, and `stored[i]`, whether call `i` wrote its line.
   */
  function Run(dir: string, f: StoreFields, disk: Disk, calls: seq<Call>): (r: RunResult)
    requires Inv(dir, f)
    ensures Inv(dir, r.fields) && |r.stored| == |calls|
    decreases |calls|
  {
    if calls == [] then RunResult(f, disk, [], [])
    else
      var prev := Run(dir, f, disk, calls[..|calls| - 1]);
      var last := calls[|calls| - 1];
      var s := StoreStep(dir, prev.fields, prev.disk, last.env, last.line);
      RunResult(s.fields, s.disk, prev.ops + s.ops, prev.stored + [s.stored])
  }

  /** One more call extends a run by one `StoreStep`. */
  lemma RunSnoc(dir: string, f: StoreFields, disk: Disk, calls: seq<Call>, c: Call)
    requires Inv(dir, f)
    ensures var prev := Run(dir, f, disk, calls);
      var s := StoreStep(dir, prev.fields, prev.disk, c.env, c.line);
      Run(dir, f, disk, calls + [c]) == RunResult(s.fields, s.disk, prev.ops + s.ops, prev.stored + [s.stored])
  {
    assert (calls + [c])[..|calls|] == calls;
  }

  /** The text that the stored calls among `calls` put into the file at path `p`, in call order. */
  function Landed(dir: string, calls: seq<Call>, stored: seq<bool>, p: string): string
    requires |stored| == |calls|
    decreases |calls|
  {
    if calls == [] then ""
    else
      var n := |calls| - 1;
      Landed(dir, calls[..n], stored[..n], p)
        + (if stored[n] && PathIn(dir, DayFile(calls[n].env.today)) == p then calls[n].line + "\n" else "")
  }

  /** The lines, each with its newline, of the stored calls made on date `day`, in call order. */
  function DayLines(calls: seq<Call>, stored: seq<bool>, day: string): string
    requires |stored| == |calls|
    decreases |calls|
  {
    if calls == [] then ""
    else
      var n := |calls| - 1;
      DayLines(calls[..n], stored[..n], day) + (if stored[n] && calls[n].env.today == day then calls[n].line + "\n" else "")
  }

  /** Every file's text grows by exactly the lines that stored calls wrote to it. */
  lemma {:induction false} RunAppendsLanded(dir: string, f: StoreFields, disk: Disk, calls: seq<Call>, p: string)
    requires Inv(dir, f)
    ensures var r := Run(dir, f, disk, calls);
      Content(r.disk, p) == Content(disk, p) + Landed(dir, calls, r.stored, p)
  {
    if calls != [] {
      var n := |calls| - 1;
      var prev := Run(dir, f, disk, calls[..n]);
      RunAppendsLanded(dir, f, disk, calls[..n], p);
      StoreWritesTodaysFile(dir, prev.fields, prev.disk, calls[n].env, calls[n].line, p);
      var s := StoreStep(dir, prev.fields, prev.disk, calls[n].env, calls[n].line);
      var r := Run(dir, f, disk, calls);
      assert r.disk == s.disk && r.stored == prev.stored + [s.stored];
      assert r.stored[..n] == prev.stored && r.stored[n] == s.stored;
    }
  }

  /** Different dates name different files in the same directory. */
  lemma DayPathsDistinct(dir: string, d1: string, d2: string)
    requires d1 != d2
    ensures PathIn(dir, DayFile(d1)) != PathIn(dir, DayFile(d2))
  {
    var p1, p2 := PathIn(dir, DayFile(d1)), PathIn(dir, DayFile(d2));
    if |d1| == |d2| {
      var k :| 0 <= k < |d1| && d1[k] != d2[k];
      assert p1[|dir| + 1 + k] == d1[k];
      assert p2[|dir| + 1 + k] == d2[k];
    } else {
      assert |p1| != |p2|;
    }
  }

  /** The file for a date receives the lines stored on that date and no others. */
  lemma {:induction false} LandedIsDayLines(dir: string, calls: seq<Call>, stored: seq<bool>, day: string)
    requires |stored| == |calls|
    ensures Landed(dir, calls, stored, PathIn(dir, DayFile(day))) == DayLines(calls, stored, day)
  {
    if calls != [] {
      var n := |calls| - 1;
      LandedIsDayLines(dir, calls[..n], stored[..n], day);
      if calls[n].env.today != day {
        DayPathsDistinct(dir, calls[n].env.today, day);
      }
    }
  }

  /**
   * Rollover boundary: after any sequence of calls, the file for date `day`
   * holds its old text followed by exactly the lines stored on `day`.
   */
  lemma RunKeepsDaysApart(dir: string, f: StoreFields, disk: Disk, calls: seq<Call>, day: string)
    requires Inv(dir, f)
    ensures var r := Run(dir, f, disk, calls);
      var p := PathIn(dir, DayFile(day));
      Content(r.disk, p) == Content(disk, p) + DayLines(calls, r.stored, day)
  {
    var r := Run(dir, f, disk, calls);
    RunAppendsLanded(dir, f, disk, calls, PathIn(dir, DayFile(day)));
    LandedIsDayLines(dir, calls, r.stored, day);
  }

  /** A call whose directory check and open both succeed writes its line, whatever came before. */
  lemma {:induction false} RunStoresAll(dir: string, f: StoreFields, disk: Disk, calls: seq<Call>)
    requires Inv(dir, f)
    requires forall i :: 0 <= i < |calls| ==> calls[i].env.mkdirOk && calls[i].env.openOk
    ensures forall i :: 0 <= i < |calls| ==> Run(dir, f, disk, calls).stored[i]
    decreases |calls|
  {
    if calls != [] {
      var n := |calls| - 1;
      var prev := Run(dir, f, disk, calls[..n]);
      RunStoresAll(dir, f, disk, calls[..n]);
      StoreWritesWhen(dir, prev.fields, prev.disk, calls[n].env, calls[n].line);
    }
  }

  /**
   * No line is lost across a rollover: when every directory check and open
   * succeeds, the file for date `day` receives every line stored on `day`,
   * once each and in call order, and nothing else.
   */
  lemma RunKeepsEveryLine(dir: string, f: StoreFields, disk: Disk, calls: seq<Call>, day: string)
    requires Inv(dir, f)
    requires forall i :: 0 <= i < |calls| ==> calls[i].env.mkdirOk && calls[i].env.openOk
    ensures var r := Run(dir, f, disk, calls);
      var p := PathIn(dir, DayFile(day));
      Content(r.disk, p) == Content(disk, p) + DayLines(calls, seq(|calls|, i => true), day)
  {
    var r := Run(dir, f, disk, calls);
    RunStoresAll(dir, f, disk, calls);
    assert r.stored == seq(|calls|, i => true);
    RunKeepsDaysApart(dir, f, disk, calls, day);
  }
}
