/** Collection runs, the time windows they leave behind, and the sample query over such a window. */
module Runs {
  import opened Text
  import opened Events
  import opened Ordering

  datatype Run = Run(id: int, device: string, startedAt: int, finishedAt: Option<int>, status: string,
                     ponsOK: int, ponsError: int, onusSampled: int, durationMS: Option<int>, error: string)

  /** Times are nanoseconds and 0 is the zero time. Empty strings and zeros select everything. */
  datatype Query = Query(device: string, serial: string, board: int, pon: int, onu: int, status: string,
                         from: int, to: int, limit: int, runID: int, latestRun: bool, resolvedRunID: int)

  const DAY: int := 24 * 3600 * 1_000_000_000

  function GetRun(runs: seq<Run>, device: string, id: int): Option<Run> {
    if runs == [] then None
    else if runs[0].id == id && (device == "" || runs[0].device == device) then Some(runs[0])
    else GetRun(runs[1..], device, id)
  }

  function LatestRun(runs: seq<Run>, device: string): Option<Run> {
    if runs == [] then None
    else if device == "" || runs[|runs| - 1].device == device then Some(runs[|runs| - 1])
    else LatestRun(runs[..|runs| - 1], device)
  }

  /** None is the not-found error. */
  function ApplyRunWindow(runs: seq<Run>, q: Query, now: int): Option<Query> {
    if q.runID == 0 && !q.latestRun then Some(q)
    else
      match if q.latestRun then LatestRun(runs, q.device) else GetRun(runs, q.device, q.runID)
      case None => None
      case Some(run) =>
        Some(q.(from := run.startedAt, to := if run.finishedAt.Some? then run.finishedAt.value else now,
                resolvedRunID := run.id, limit := if q.limit <= 0 then 2000 else q.limit))
  }

  function SampleWindow(q: Query, now: int): (int, int) {
    var to := if q.to == 0 then now else q.to;
    var from := if q.from == 0 then to - DAY else q.from;
    (from, to)
  }

  predicate MatchSample(s: Sample, q: Query, now: int) {
    var (from, to) := SampleWindow(q, now);
    && (q.device == "" || s.device == q.device)
    && (q.serial == "" || s.serial == q.serial)
    && (q.board == 0 || s.board == q.board)
    && (q.pon == 0 || s.pon == q.pon)
    && (q.onu == 0 || s.onu == q.onu)
    && (q.status == "" || EqualFold(s.status, q.status))
    && from <= s.time <= to
  }

  function Selected(samples: seq<Sample>, q: Query, now: int): seq<Sample> {
    if samples == [] then []
    else
      var before := Selected(samples[..|samples| - 1], q, now);
      if MatchSample(samples[|samples| - 1], q, now) then before + [samples[|samples| - 1]] else before
  }

  predicate Newer(a: Sample, b: Sample) {
    a.time > b.time
  }

  /** The newest samples a list may return: newest first, ties in any order, cut at the limit. */
  ghost predicate NewestFirst(out: seq<Sample>, selected: seq<Sample>, limit: int) {
    exists all :: Ordered(Newer, all) && multiset(all) == multiset(selected)
                  && out == if limit < |all| && 0 <= limit then all[..limit] else all
  }

  // ----- what sequential poller runs leave in a store -----

  /** One finished run, whether its final row reached the store, and the samples stored while it was going on. */
  datatype Record = Record(run: Run, closed: bool, inserted: seq<Sample>)

  /** A run as it was first stored. */
  function Opened(run: Run): Run {
    Run(run.id, run.device, run.startedAt, None, "running", 0, 0, 0, None, "")
  }

  /** The row the store is left with: a run whose final write failed stays marked running. */
  function Row(r: Record): Run {
    if r.closed then r.run else Opened(r.run)
  }

  function Inserted(history: seq<Record>): seq<Sample> {
    if history == [] then [] else Inserted(history[..|history| - 1]) + history[|history| - 1].inserted
  }

  /** The run is finished, and each of its samples carries its device and a time inside it. */
  predicate Finished(r: Record) {
    && r.run.finishedAt.Some?
    && 0 < r.run.startedAt < r.run.finishedAt.value
    && forall i :: 0 <= i < |r.inserted| ==>
         r.inserted[i].device == r.run.device && r.run.startedAt < r.inserted[i].time < r.run.finishedAt.value
  }

  /** One run is over before the other starts, so their windows are disjoint. */
  predicate Precedes(a: Record, b: Record) {
    a.run.finishedAt.Some? && a.run.finishedAt.value < b.run.startedAt
  }

  ghost predicate Sequential(history: seq<Record>) {
    && (forall i :: 0 <= i < |history| ==> Finished(history[i]))
    && (forall i, j :: 0 <= i < j < |history| ==> Precedes(history[i], history[j]))
  }

  /** A store whose runs and samples come from runs made one after the other, numbered in that order, the
      clock now at `now`. */
  ghost predicate Recorded(history: seq<Record>, runs: seq<Run>, samples: seq<Sample>, nextRun: int, now: int) {
    && |runs| == |history| == nextRun
    && samples == Inserted(history)
    && 0 <= now
    && Sequential(history)
    && (forall i :: 0 <= i < |history| ==> runs[i] == Row(history[i]) && history[i].run.id == i + 1)
    && (forall i :: 0 <= i < |history| ==> history[i].run.finishedAt.Some? && history[i].run.finishedAt.value <= now)
  }

  predicate AllOf(device: string, q: Query) {
    && (q.device == "" || q.device == device)
    && q.serial == "" && q.board == 0 && q.pon == 0 && q.onu == 0 && q.status == ""
  }

  lemma {:induction false} SelectedConcat(a: seq<Sample>, b: seq<Sample>, q: Query, now: int)
    ensures Selected(a + b, q, now) == Selected(a, q, now) + Selected(b, q, now)
  {
    if b == [] {
      assert a + b == a;
    } else {
      assert (a + b)[..|a + b| - 1] == a + b[..|b| - 1];
      SelectedConcat(a, b[..|b| - 1], q, now);
    }
  }

  lemma {:induction false} SelectedAll(list: seq<Sample>, q: Query, now: int)
    requires forall i :: 0 <= i < |list| ==> MatchSample(list[i], q, now)
    ensures Selected(list, q, now) == list
  {
    if list != [] {
      SelectedAll(list[..|list| - 1], q, now);
      assert list == list[..|list| - 1] + [list[|list| - 1]];
    }
  }

  lemma {:induction false} SelectedNone(list: seq<Sample>, q: Query, now: int)
    requires forall i :: 0 <= i < |list| ==> !MatchSample(list[i], q, now)
    ensures Selected(list, q, now) == []
  {
    if list != [] {
      SelectedNone(list[..|list| - 1], q, now);
    }
  }

  /** A query window that is exactly one record's. */
  predicate WindowOf(r: Record, q: Query) {
    Finished(r) && AllOf(r.run.device, q) && q.from == r.run.startedAt && q.to == r.run.finishedAt.value
  }

  lemma {:induction false} OwnWindow(r: Record, q: Query, now: int)
    requires WindowOf(r, q)
    ensures Selected(r.inserted, q, now) == r.inserted
  {
    SelectedAll(r.inserted, q, now);
  }

  lemma {:induction false} OtherWindow(r: Record, other: Record, q: Query, now: int)
    requires WindowOf(r, q) && Finished(other) && (Precedes(r, other) || Precedes(other, r))
    ensures Selected(other.inserted, q, now) == []
  {
    SelectedNone(other.inserted, q, now);
  }

  lemma {:induction false} NothingInserted(q: Query, now: int)
    ensures Selected(Inserted([]), q, now) == []
  {
  }

  lemma {:induction false} InsertedStep(history: seq<Record>, n: nat)
    requires n < |history|
    ensures Inserted(history[..n + 1]) == Inserted(history[..n]) + history[n].inserted
  {
    assert history[..n + 1][..n] == history[..n];
  }

  /** The window of run i selects from the first n runs exactly what run i inserted. */
  lemma {:induction false} WindowSelects(history: seq<Record>, n: nat, i: nat, q: Query, now: int)
    requires n <= |history| && i < |history| && Sequential(history) && WindowOf(history[i], q)
    ensures Selected(Inserted(history[..n]), q, now) == if i < n then history[i].inserted else []
  {
    NothingInserted(q, now);
    hide WindowOf, Finished, Precedes, Inserted, Selected;
    if n == 0 {
      assert history[..0] == [];
    } else {
      WindowSelects(history, n - 1, i, q, now);
      InsertedStep(history, n - 1);
      var r := history[n - 1];
      SelectedConcat(Inserted(history[..n - 1]), r.inserted, q, now);
      if i == n - 1 {
        OwnWindow(r, q, now);
        assert [] + r.inserted == r.inserted;
      } else {
        assert Precedes(history[i], r) || Precedes(r, history[i]);
        OtherWindow(history[i], r, q, now);
        assert Selected(Inserted(history[..n - 1]), q, now) + [] == Selected(Inserted(history[..n - 1]), q, now);
      }
    }
  }

  lemma {:induction false} GetRunAt(runs: seq<Run>, device: string, i: nat)
    requires i < |runs| && (device == "" || runs[i].device == device)
    requires forall k :: 0 <= k < |runs| ==> (runs[k].id == runs[i].id <==> k == i)
    ensures GetRun(runs, device, runs[i].id) == Some(runs[i])
  {
    if i > 0 {
      assert runs[0].id != runs[i].id;
      forall k | 0 <= k < |runs[1..]| ensures runs[1..][k].id == runs[1..][i - 1].id <==> k == i - 1 {
        assert runs[1..][k] == runs[k + 1];
      }
      GetRunAt(runs[1..], device, i - 1);
    }
  }

  /** The samples of the runs from the i-th on, of one device or of all. */
  function InsertedSince(history: seq<Record>, i: nat, device: string): seq<Sample>
    decreases |history|
  {
    if |history| <= i then []
    else
      var r := history[|history| - 1];
      InsertedSince(history[..|history| - 1], i, device)
        + if device == "" || r.run.device == device then r.inserted else []
  }

  /** What a window open until now takes of one run's samples. */
  lemma {:induction false} OpenPart(r: Record, other: Record, q: Query, now: int)
    requires Finished(r) && Finished(other) && q.from == r.run.startedAt && q.to == now && AllOf(r.run.device, q)
    requires other == r || Precedes(other, r) || Precedes(r, other)
    requires other.run.finishedAt.Some? && other.run.finishedAt.value <= now
    ensures Selected(other.inserted, q, now) ==
            if (other == r || Precedes(r, other))
              && (q.device == "" || other.run.device == q.device) then other.inserted else []
  {
    if (other == r || Precedes(r, other)) && (q.device == "" || other.run.device == q.device) {
      SelectedAll(other.inserted, q, now);
    } else {
      SelectedNone(other.inserted, q, now);
    }
  }

  /** The window of a run left open selects that run's samples and all later ones. */
  lemma {:induction false} OpenWindowSelects(history: seq<Record>, n: nat, i: nat, q: Query, now: int)
    requires n <= |history| && i < |history| && Sequential(history) && AllOf(history[i].run.device, q)
    requires forall k :: 0 <= k < |history| ==>
             history[k].run.finishedAt.Some? && history[k].run.finishedAt.value <= now
    requires q.from == history[i].run.startedAt && q.to == now
    ensures Selected(Inserted(history[..n]), q, now) == InsertedSince(history[..n], i, q.device)
  {
    NothingInserted(q, now);
    hide AllOf, Finished, Precedes, Inserted, Selected, InsertedSince;
    SinceStep(history, if n > 0 then n - 1 else 0, i, q.device);
    if n == 0 {
      NothingSince(history, i, q.device);
      assert history[..0] == [];
    } else {
      OpenWindowSelects(history, n - 1, i, q, now);
      InsertedStep(history, n - 1);
      SelectedConcat(Inserted(history[..n - 1]), history[n - 1].inserted, q, now);
      if n - 1 < i {
        assert Precedes(history[n - 1], history[i]);
        PrecedesOneWay(history[n - 1], history[i]);
        OpenPart(history[i], history[n - 1], q, now);
        NothingSince(history[..n], i, q.device);
        NothingSince(history[..n - 1], i, q.device);
      } else {
        assert n - 1 == i || Precedes(history[i], history[n - 1]);
        OpenPart(history[i], history[n - 1], q, now);
      }
    }
  }

  lemma {:induction false} PrecedesOneWay(a: Record, b: Record)
    requires Finished(a) && Finished(b) && Precedes(a, b)
    ensures !Precedes(b, a) && a != b
  {
  }

  lemma {:induction false} NothingSince(history: seq<Record>, i: nat, device: string)
    ensures |history| <= i ==> InsertedSince(history, i, device) == []
    ensures InsertedSince([], i, device) == []
  {
  }

  lemma {:induction false} SinceStep(history: seq<Record>, n: nat, i: nat, device: string)
    ensures i <= n < |history| ==>
              InsertedSince(history[..n + 1], i, device) ==
              InsertedSince(history[..n], i, device)
                + if device == "" || history[n].run.device == device then history[n].inserted else []
  {
    if i <= n < |history| {
      assert history[..n + 1][..n] == history[..n];
    }
  }

  /** What follows a run in an open window. */
  lemma {:induction false} SinceOwn(history: seq<Record>, i: nat, device: string)
    requires i < |history| && (device == "" || history[i].run.device == device)
    ensures InsertedSince(history, i, device) == history[i].inserted + InsertedSince(history, i + 1, device)
  {
    var n := |history| - 1;
    var front, r := history[..n], history[n];
    if i == n {
      assert InsertedSince(front, i, device) == [] && InsertedSince(history, i + 1, device) == [];
    } else {
      SinceOwn(front, i, device);
      var own, later := r.inserted, InsertedSince(front, i + 1, device);
      var added := if device == "" || r.run.device == device then own else [];
      assert history[i].inserted + (later + added) == history[i].inserted + later + added;
    }
  }

  /** Main result: asking for the samples of any run by its id, with its device or without one, resolves to that run
      and selects the samples it inserted, and no others exactly when its final row reached the store or no later
      run stored anything the query would select. */
  lemma {:induction false} RunQueryRecoversRunIff(history: seq<Record>, runs: seq<Run>, samples: seq<Sample>,
                                                  nextRun: int, now: int, i: nat, q: Query)
    requires Recorded(history, runs, samples, nextRun, now) && i < |history|
    requires AllOf(history[i].run.device, q) && q.runID == history[i].run.id && !q.latestRun
    ensures var w := ApplyRunWindow(runs, q, now);
            && w.Some? && w.value.resolvedRunID == i + 1
            && (Selected(samples, w.value, now) == history[i].inserted <==>
                history[i].closed || InsertedSince(history, i + 1, q.device) == [])
  {
    GetRunAt(runs, q.device, i);
    var w := ApplyRunWindow(runs, q, now).value;
    assert history[..|history|] == history;
    if history[i].closed {
      WindowSelects(history, |history|, i, w, now);
    } else {
      OpenWindowSelects(history, |history|, i, w, now);
      SinceOwn(history, i, q.device);
      var own, later := history[i].inserted, InsertedSince(history, i + 1, q.device);
      assert own + [] == own;
      assert own + later == own ==> |later| == 0;
    }
  }

  lemma {:induction false} LatestRunAt(runs: seq<Run>, device: string, i: nat)
    requires i < |runs| && (device == "" || runs[i].device == device)
    requires forall k :: i < k < |runs| ==> device != "" && runs[k].device != device
    ensures LatestRun(runs, device) == Some(runs[i])
  {
    if i < |runs| - 1 {
      assert runs[|runs| - 1].device != device;
      LatestRunAt(runs[..|runs| - 1], device, i);
    }
  }

  /** A run left open, with the samples given, and a later finished one. */
  function LeftOpen(device: string): Record {
    Record(Run(1, device, 1, Some(3), "error", 0, 0, 0, None, ""), false, [])
  }

  function FinishedLater(device: string, s: Sample): Record {
    Record(Run(2, device, 4, Some(6), "ok", 1, 0, 1, None, ""), true, [s])
  }

  /** A run that was left open before one that stored a sample: the query for it lists that sample. */
  lemma {:induction false} OpenRunSelectsLater(device: string, s: Sample, q: Query)
    requires s.device == device && s.time == 5 && device != ""
    requires AllOf(device, q) && q.runID == 1 && !q.latestRun
    ensures var history := [LeftOpen(device), FinishedLater(device, s)];
            var runs, samples := [Row(history[0]), Row(history[1])], Inserted(history);
            && Recorded(history, runs, samples, 2, 7)
            && ApplyRunWindow(runs, q, 7).Some?
            && Selected(samples, ApplyRunWindow(runs, q, 7).value, 7) != history[0].inserted
  {
    var a, b := LeftOpen(device), FinishedLater(device, s);
    var history := [a, b];
    assert history[..1] == [a] && [a][..0] == [] && [b][..0] == [];
    assert Inserted([a]) == Inserted([a][..0]) + [] == [];
    assert Inserted(history) == Inserted(history[..1]) + [s] == [s];
    assert InsertedSince([a], 1, q.device) == [];
    assert InsertedSince(history, 1, q.device) == [s];
    assert Precedes(history[0], history[1]);
    RunQueryRecoversRunIff(history, [Row(a), Row(b)], Inserted(history), 2, 7, 0, q);
  }

  lemma {:induction false} OthersSince(history: seq<Record>, i: nat, device: string)
    requires i < |history| ==> device != ""
    requires forall k :: i <= k < |history| ==> history[k].run.device != device
    ensures InsertedSince(history, i, device) == []
    decreases |history|
  {
    if i < |history| {
      OthersSince(history[..|history| - 1], i, device);
    }
  }

  /** The latest-run query gives the samples of the device's last run, whether or not its final row was stored. */
  lemma {:induction false} LatestQueryRecoversLastRun(history: seq<Record>, runs: seq<Run>, samples: seq<Sample>,
                                                      nextRun: int, now: int, i: nat, q: Query)
    requires Recorded(history, runs, samples, nextRun, now) && i < |history|
    requires AllOf(history[i].run.device, q) && q.latestRun
    requires forall k :: i < k < |history| ==> q.device != "" && history[k].run.device != q.device
    ensures var w := ApplyRunWindow(runs, q, now);
            w.Some? && w.value.resolvedRunID == i + 1 && Selected(samples, w.value, now) == history[i].inserted
  {
    LatestRunAt(runs, q.device, i);
    var w := ApplyRunWindow(runs, q, now).value;
    assert history[..|history|] == history;
    if history[i].closed {
      WindowSelects(history, |history|, i, w, now);
    } else {
      OpenWindowSelects(history, |history|, i, w, now);
      SinceOwn(history, i, q.device);
      assert i + 1 < |history| ==> history[i + 1].run.device != q.device;
      OthersSince(history, i + 1, q.device);
      assert history[i].inserted + [] == history[i].inserted;
    }
  }

  /** Finishing one more run keeps the store recorded. */
  lemma {:induction false} RecordedExtends(history: seq<Record>, runs: seq<Run>, samples: seq<Sample>, nextRun: int,
                                           was: int, r: Record, now: int)
    requires Recorded(history, runs, samples, nextRun, was)
    requires Finished(r) && was < r.run.startedAt && r.run.finishedAt.value <= now && r.run.id == nextRun + 1
    ensures Recorded(history + [r], runs + [Row(r)], samples + r.inserted, nextRun + 1, now)
  {
    assert (history + [r])[..|history|] == history;
  }
}
