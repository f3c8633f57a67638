/** The query's report against the aggregate over all samples, scope by scope. */
module DuplicateAgreement {
  import opened Text
  import opened Events
  import opened Runs
  import opened Ordering
  import opened Duplicates
  import opened DuplicateQuery

  // ----- groups and rows -----

  predicate Trimmed(samples: seq<Sample>) {
    forall i :: 0 <= i < |samples| ==> TrimSpace(samples[i].serial) == samples[i].serial
  }

  lemma {:induction false} WindowIsLatest(t: int, latest: Run)
    requires ValidLatest(latest)
    ensures InWindow(t, latest) <==> InLatestRun(t, latest)
  {
  }

  lemma {:induction false} GroupIsOf(samples: seq<Sample>, device: string, latest: Run, k: Key)
    requires Trimmed(samples) && device != ""
    ensures Group(samples, device, latest, "history", k) == Of(samples, device, k)
  {
    if samples != [] {
      GroupIsOf(samples[..|samples| - 1], device, latest, k);
    }
  }

  ghost predicate HasLatest(of: seq<Sample>, latest: Run) {
    exists i :: 0 <= i < |of| && InLatestRun(of[i].time, latest)
  }

  lemma {:induction false} OneMoreLatest(of: seq<Sample>, s: Sample, latest: Run)
    ensures HasLatest(of + [s], latest) <==> HasLatest(of, latest) || InLatestRun(s.time, latest)
  {
    var all := of + [s];
    assert all[|of|] == s;
    if HasLatest(of, latest) {
      var i :| 0 <= i < |of| && InLatestRun(of[i].time, latest);
      assert InLatestRun(all[i].time, latest);
    }
  }

  lemma {:induction false} SelectsCurrent(s: Sample, device: string, latest: Run, k: Key)
    requires device != "" && ValidLatest(latest) && TrimSpace(s.serial) == s.serial
    ensures Selects(s, device, latest, "current", k) <==>
            Counted(s, device) && KeyOf(s) == k && InLatestRun(s.time, latest)
    ensures Selects(s, device, latest, "current", k) ==> InWindow(s.time, latest)
  {
    hide TrimSpace;
    WindowIsLatest(s.time, latest);
  }

  lemma {:induction false} CurrentGroup(samples: seq<Sample>, device: string, latest: Run, k: Key)
    requires Trimmed(samples) && device != "" && ValidLatest(latest)
    ensures var g := Group(samples, device, latest, "current", k);
            && (g != [] <==> HasLatest(Of(samples, device, k), latest))
            && (forall i :: 0 <= i < |g| ==> InWindow(g[i].time, latest))
  {
    hide TrimSpace, Selects, Counted, KeyOf, InLatestRun, InWindow, HasLatest;
    if samples == [] {
      NoneLatest(latest);
    } else {
      var before, s := samples[..|samples| - 1], samples[|samples| - 1];
      CurrentGroup(before, device, latest, k);
      SelectsCurrent(s, device, latest, k);
      OneMoreLatest(Of(before, device, k), s, latest);
    }
  }

  lemma {:induction false} NoneLatest(latest: Run)
    ensures !HasLatest([], latest)
  {
  }

  // ----- scope current -----

  /** The pre-filtered rows are the rows of the full table that lie in the latest run. */
  lemma {:induction false} CurrentRows(samples: seq<Sample>, device: string, latest: Run, pos: map<Key, Position>,
                                       serial: string)
    requires Trimmed(samples) && device != "" && ValidLatest(latest)
    requires PosTable(samples, device, latest, "current", pos)
    ensures KeysOf(pos, serial) == CurrentKeys(pos, serial) == CurrentKeys(Acc(samples, device, latest), serial)
  {
    hide TrimSpace;
    var acc := Acc(samples, device, latest);
    forall k ensures k in KeysOf(pos, serial) <==> k in CurrentKeys(acc, serial) {
      CurrentGroup(samples, device, latest, k);
      RowsAreExact(samples, device, latest, k);
    }
    forall k | k in KeysOf(pos, serial) ensures k in CurrentKeys(pos, serial) {
      CurrentGroup(samples, device, latest, k);
      var g := Group(samples, device, latest, "current", k);
      assert InWindow(g[0].time, latest);
    }
  }

  /** Dropping single-position serials keeps all keys of the others. */
  lemma {:induction false} PickedKeys(pos: map<Key, Position>, serial: string)
    ensures KeysOf(Picked(pos), serial) == if Having(pos, serial) then KeysOf(pos, serial) else {}
    ensures CurrentKeys(Picked(pos), serial) == if Having(pos, serial) then CurrentKeys(pos, serial) else {}
  {
  }

  /** The part of an entry that scope current promises. */
  function Brief(d: DuplicateSerial): DuplicateSerial {
    DuplicateSerial("", d.serial, "", d.currentCount, 0, [])
  }

  function Briefs(list: seq<DuplicateSerial>): (r: seq<DuplicateSerial>)
    ensures |r| == |list| && forall i :: 0 <= i < |list| ==> r[i] == Brief(list[i])
  {
    if list == [] then [] else Briefs(list[..|list| - 1]) + [Brief(list[|list| - 1])]
  }

  lemma {:induction false} EntryCount(acc: map<Key, Position>, device: string, d: DuplicateSerial)
    requires ItemOf(acc, device, d)
    ensures d.currentCount == |CurrentKeys(acc, d.serial)|
  {
  }

  lemma {:induction false} BriefsIn(a: map<Key, Position>, b: map<Key, Position>, device: string, latest: Run,
                                    scope: string, x: DuplicateList, y: DuplicateList)
    requires Assembled(a, device, latest, scope, x) && Assembled(b, device, latest, scope, y)
    requires forall serial :: Kept(a, x.scope, serial) ==>
             Kept(b, x.scope, serial) && |CurrentKeys(a, serial)| == |CurrentKeys(b, serial)|
    ensures forall e :: e in Briefs(x.serials) ==> e in Briefs(y.serials)
  {
    hide ItemOf, Kept, CurrentKeys, SerialBefore, EffectiveScope;
    forall e | e in Briefs(x.serials) ensures e in Briefs(y.serials) {
      var i :| 0 <= i < |x.serials| && Briefs(x.serials)[i] == e;
      var d := x.serials[i];
      assert d in x.serials && Kept(a, x.scope, d.serial);
      var f :| f in y.serials && f.serial == d.serial;
      var j :| 0 <= j < |y.serials| && y.serials[j] == f;
      EntryCount(a, device, d);
      EntryCount(b, device, f);
      assert Briefs(y.serials)[j] == Brief(f) == e;
    }
  }

  lemma {:induction false} BriefsIncrease(list: seq<DuplicateSerial>)
    requires Increasing(SerialBefore, list)
    ensures Increasing(SerialBefore, Briefs(list))
  {
  }

  /** The current side of one serial is the same before and after filtering. */
  lemma {:induction false} SameCurrent(samples: seq<Sample>, device: string, latest: Run, pos: map<Key, Position>,
                                       serial: string)
    requires Trimmed(samples) && device != "" && ValidLatest(latest)
             && PosTable(samples, device, latest, "current", pos)
    ensures var acc := Acc(samples, device, latest);
            && (Kept(acc, "current", serial) <==> Kept(Picked(pos), "current", serial))
            && (Kept(acc, "current", serial) ==> |CurrentKeys(acc, serial)| == |CurrentKeys(Picked(pos), serial)|)
  {
    hide Acc, PosTable, KeysOf, CurrentKeys, Picked;
    CurrentRows(samples, device, latest, pos, serial);
    PickedKeys(pos, serial);
  }

  lemma {:induction false} SameHeader(a: map<Key, Position>, b: map<Key, Position>, device: string, latest: Run,
                                      scope: string, x: DuplicateList, y: DuplicateList)
    requires Assembled(a, device, latest, scope, x) && Assembled(b, device, latest, scope, y)
    ensures (x.scope, x.runID, x.from, x.to) == (y.scope, y.runID, y.from, y.to) && x.scope == EffectiveScope(scope)
    ensures x.count == |x.serials| && y.count == |y.serials|
    ensures Increasing(SerialBefore, x.serials) && Increasing(SerialBefore, y.serials)
  {
    hide Kept, ItemOf;
  }

  /** Reports over rows with the same current sides are the same up to what scope current promises. */
  lemma {:induction false} SameBriefs(a: map<Key, Position>, b: map<Key, Position>, device: string, latest: Run,
                                      scope: string, x: DuplicateList, y: DuplicateList)
    requires EffectiveScope(scope) == "current"
    requires Assembled(a, device, latest, scope, x) && Assembled(b, device, latest, scope, y)
    requires forall serial :: Kept(a, "current", serial) <==> Kept(b, "current", serial)
    requires forall serial :: Kept(a, "current", serial) ==> |CurrentKeys(a, serial)| == |CurrentKeys(b, serial)|
    ensures (x.scope, x.runID, x.from, x.to, x.count) == (y.scope, y.runID, y.from, y.to, y.count)
    ensures Briefs(x.serials) == Briefs(y.serials)
  {
    hide Assembled, Kept, CurrentKeys, SerialBefore, EffectiveScope;
    SameHeader(a, b, device, latest, scope, x, y);
    BriefsIn(a, b, device, latest, scope, x, y);
    BriefsIn(b, a, device, latest, scope, y, x);
    BriefsIncrease(x.serials);
    BriefsIncrease(y.serials);
    SerialBeforeOrder();
    IncreasingUnique(SerialBefore, Briefs(x.serials), Briefs(y.serials));
  }

  /** Main result, scope current: the filtered query lists the same serials, in the same order, with the same
      current counts, under the same header as the aggregate over all history. */
  lemma {:induction false} CurrentScopeAgrees(samples: seq<Sample>, device: string, latest: Run, scope: string,
                                              full: DuplicateList, r: DuplicateList)
    requires Trimmed(samples) && device != "" && ValidLatest(latest) && EffectiveScope(scope) == "current"
    requires Assembled(Acc(samples, device, latest), device, latest, scope, full)
    requires QueryReport(samples, device, latest, scope, r)
    ensures (r.scope, r.runID, r.from, r.to, r.count) == (full.scope, full.runID, full.from, full.to, full.count)
    ensures Briefs(r.serials) == Briefs(full.serials)
  {
    hide Trimmed, PosTable, Kept, CurrentKeys, Picked, Acc, EffectiveScope, ItemOf;
    var acc := Acc(samples, device, latest);
    if latest.id == 0 {
      NothingCurrent(samples, device, latest);
      FirstListed(full.serials);
    } else {
      hide Assembled;
      var pos :| PosTable(samples, device, latest, "current", pos) && Assembled(Picked(pos), device, latest, scope, r);
      forall serial ensures Kept(Picked(pos), "current", serial) <==> Kept(acc, "current", serial)
                    ensures Kept(Picked(pos), "current", serial) ==>
                            |CurrentKeys(Picked(pos), serial)| == |CurrentKeys(acc, serial)| {
        SameCurrent(samples, device, latest, pos, serial);
      }
      SameBriefs(Picked(pos), acc, device, latest, scope, r, full);
    }
  }

  lemma {:induction false} FirstListed(list: seq<DuplicateSerial>)
    ensures list == [] || list[0] in list
  {
  }

  lemma {:induction false} NothingCurrent(samples: seq<Sample>, device: string, latest: Run)
    requires latest.id == 0
    ensures forall serial :: !Kept(Acc(samples, device, latest), "current", serial)
  {
    forall serial ensures CurrentKeys(Acc(samples, device, latest), serial) == {} {
      forall k | k in Acc(samples, device, latest) ensures !Acc(samples, device, latest)[k].inLatest {
        RowsAreExact(samples, device, latest, k);
      }
    }
  }

  // ----- scope history -----

  /** At each position all sample times are positive and differ. */
  ghost predicate DistinctTimes(samples: seq<Sample>, device: string) {
    forall k :: DistinctPositive(Of(samples, device, k))
  }

  ghost predicate DistinctPositive(of: seq<Sample>) {
    && (forall i :: 0 <= i < |of| ==> of[i].time > 0)
    && (forall i, j :: 0 <= i < j < |of| ==> of[i].time != of[j].time)
  }

  lemma {:induction false} SameRow(p: Position, q: Position, of: seq<Sample>, latest: Run)
    requires ValidLatest(latest) && of != [] && DistinctPositive(of)
    requires Describes(p, of, latest) && Aggregates(q, of, latest)
    requires p.board == q.board && p.pon == q.pon && p.onu == q.onu
    ensures p == q
  {
    assert of[0].time <= p.lastSeen;
    var i :| 0 <= i < |of| && FirstMax(p, of, i);
    var j :| 0 <= j < |of| && of[j].time == q.lastSeen && of[j].status == q.status;
    var l :| 0 <= l < |of| && of[l].time == q.lastSeen && of[l].name == q.name;
    assert of[i].time <= q.lastSeen && of[j].time <= p.lastSeen;
    assert i == j == l;
    forall n | 0 <= n < |of| ensures InWindow(of[n].time, latest) <==> InLatestRun(of[n].time, latest) {
      WindowIsLatest(of[n].time, latest);
    }
  }

  lemma {:induction false} HistoryRows(samples: seq<Sample>, device: string, latest: Run, pos: map<Key, Position>)
    requires Trimmed(samples) && device != "" && ValidLatest(latest) && DistinctTimes(samples, device)
    requires PosTable(samples, device, latest, "history", pos)
    ensures pos == Acc(samples, device, latest)
  {
    hide TrimSpace, Aggregates, Describes, DistinctPositive;
    var acc := Acc(samples, device, latest);
    forall k ensures k in pos <==> k in acc
             ensures k in pos ==> pos[k] == acc[k] {
      GroupIsOf(samples, device, latest, k);
      RowsAreExact(samples, device, latest, k);
      assert DistinctPositive(Of(samples, device, k));
      if k in pos && k in acc {
        SameRow(acc[k], pos[k], Of(samples, device, k), latest);
      }
    }
  }

  /** Dropping serials with one position does not change a history report. */
  lemma {:induction false} PickedAssembles(acc: map<Key, Position>, device: string, latest: Run, scope: string,
                                           r: DuplicateList)
    requires EffectiveScope(scope) == "history" && Assembled(acc, device, latest, scope, r)
    ensures Assembled(Picked(acc), device, latest, scope, r)
  {
    forall serial ensures Kept(acc, "history", serial) <==> Kept(Picked(acc), "history", serial) {
      PickedKeys(acc, serial);
      CurrentIsFewer(acc, serial);
    }
    forall d | d in r.serials ensures ItemOf(Picked(acc), device, d) {
      PickedKeys(acc, d.serial);
      assert KeysOf(Picked(acc), d.serial) == KeysOf(acc, d.serial);
      forall k | k in KeysOf(acc, d.serial) ensures k in Picked(acc) && Picked(acc)[k] == acc[k] {
        assert k in KeysOf(Picked(acc), d.serial);
      }
    }
  }

  lemma {:induction false} CurrentIsFewer(acc: map<Key, Position>, serial: string)
    ensures |CurrentKeys(acc, serial)| <= |KeysOf(acc, serial)|
  {
    var current, every := CurrentKeys(acc, serial), KeysOf(acc, serial);
    assert every == current + (every - current);
  }

  /** Main result, scope history: with distinct times per position the two whole reports are equal. */
  lemma {:induction false} HistoryScopeAgrees(samples: seq<Sample>, device: string, latest: Run, scope: string,
                                              full: DuplicateList, r: DuplicateList)
    requires Trimmed(samples) && device != "" && ValidLatest(latest) && EffectiveScope(scope) == "history"
             && DistinctTimes(samples, device)
    requires Assembled(Acc(samples, device, latest), device, latest, scope, full)
    requires QueryReport(samples, device, latest, scope, r)
    ensures r == full
  {
    var acc := Acc(samples, device, latest);
    var pos :| PosTable(samples, device, latest, "history", pos) && Assembled(Picked(pos), device, latest, scope, r);
    HistoryRows(samples, device, latest, pos);
    PickedAssembles(acc, device, latest, scope, full);
    ReportUnique(Picked(acc), device, latest, scope, r, full);
  }
}
