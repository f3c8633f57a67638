/** Serials observed at more than one provisioned position: the report, and the query that computes it. */
module Duplicates {
  import opened Text
  import opened Events
  import opened Runs
  import opened Ordering

  datatype Key = Key(serial: string, board: int, pon: int, onu: int)

  datatype Position = Position(board: int, pon: int, onu: int, name: string, status: string,
                               lastSeen: int, samples: nat, inLatest: bool)

  datatype PosRow = PosRow(serial: string, pos: Position)

  datatype DuplicateSerial = DuplicateSerial(device: string, serial: string, name: string,
                                             currentCount: nat, positionCount: nat, positions: seq<Position>)

  datatype DuplicateList = DuplicateList(scope: string, runID: int, from: int, to: int, count: nat,
                                         serials: seq<DuplicateSerial>)

  const NO_RUN := Run(0, "", 0, None, "", 0, 0, 0, None, "")

  function NormalizeScope(scope: string): string {
    var s := Lower(TrimSpace(scope));
    if s == "" || s == "current" then "current" else if s == "history" then "history" else ""
  }

  /** An unknown scope falls back to current. */
  function EffectiveScope(scope: string): string {
    if NormalizeScope(scope) == "history" then "history" else "current"
  }

  // ----- latest finished run -----

  predicate Eligible(run: Run, device: string) {
    (device == "" || run.device == device) && run.finishedAt.Some? && run.status != "running"
  }

  /** The eligible run with the greatest id. */
  ghost predicate IsLatestFinished(runs: seq<Run>, device: string, best: Run) {
    if best == NO_RUN then forall i :: 0 <= i < |runs| ==> !Eligible(runs[i], device)
    else
      && best in runs && Eligible(best, device)
      && forall i :: 0 <= i < |runs| && Eligible(runs[i], device) ==> runs[i].id <= best.id
  }

  /** A scan in which id 0 stands for no run yet. */
  function BestRun(runs: seq<Run>, device: string): Run {
    if runs == [] then NO_RUN
    else
      var best, run := BestRun(runs[..|runs| - 1], device), runs[|runs| - 1];
      if Eligible(run, device) && (best.id == 0 || run.id > best.id) then run else best
  }

  predicate NumberedRuns(runs: seq<Run>) {
    forall i :: 0 <= i < |runs| ==> runs[i].id != 0
  }

  lemma {:induction false} BestIsLatest(runs: seq<Run>, device: string)
    requires NumberedRuns(runs)
    ensures IsLatestFinished(runs, device, BestRun(runs, device))
  {
    if runs != [] {
      BestIsLatest(runs[..|runs| - 1], device);
      assert runs == runs[..|runs| - 1] + [runs[|runs| - 1]];
      assert BestRun(runs[..|runs| - 1], device) == NO_RUN || BestRun(runs[..|runs| - 1], device) in runs;
    }
  }

  /** The scan finds the eligible run with the greatest id as long as no run has the id that stands for none. */
  method LatestFinishedRun(runs: seq<Run>, device: string) returns (best: Run)
    ensures best == BestRun(runs, device)
    ensures NumberedRuns(runs) ==> IsLatestFinished(runs, device, best)
  {
    best := NO_RUN;
    for n := 0 to |runs|
      invariant best == BestRun(runs[..n], device)
    {
      assert runs[..n + 1][..n] == runs[..n];
      var run := runs[n];
      if device != "" && run.device != device {
        continue;
      }
      if run.finishedAt == None || run.status == "running" {
        continue;
      }
      if best.id == 0 || run.id > best.id {
        best := run;
      }
    }
    assert runs[..|runs|] == runs;
    if NumberedRuns(runs) {
      BestIsLatest(runs, device);
    }
  }

  /** With such a run the scan starts over. */
  lemma {:induction false} ZeroIdStartsOver(a: Run, b: Run)
    requires Eligible(a, a.device) && Eligible(b, a.device) && a.id == 0 && b.id < 0
    ensures BestRun([a, b], a.device) == b && !IsLatestFinished([a, b], a.device, b)
  {
    assert [a, b][..1] == [a] && [a][..0] == [];
    assert BestRun([a][..0], a.device) == NO_RUN;
    assert BestRun([a], a.device) == a;
    assert BestRun([a, b], a.device) == b;
    assert [a, b][0] == a;
  }

  predicate InLatestRun(observed: int, latest: Run) {
    && latest.id != 0 && latest.startedAt != 0
    && latest.startedAt <= observed
    && (latest.finishedAt.Some? ==> observed <= latest.finishedAt.value)
  }

  // ----- one row per position -----

  function KeyOf(s: Sample): Key {
    Key(TrimSpace(s.serial), s.board, s.pon, s.onu)
  }

  predicate Counted(s: Sample, device: string) {
    TrimSpace(s.serial) != "" && (device == "" || s.device == device)
  }

  function Tally(row: Position, s: Sample, latest: Run): Position {
    var counted := row.(samples := row.samples + 1, inLatest := row.inLatest || InLatestRun(s.time, latest));
    if s.time > row.lastSeen then counted.(lastSeen := s.time, status := s.status, name := s.name) else counted
  }

  function PositionAt(acc: map<Key, Position>, k: Key): Position {
    if k in acc then acc[k] else Position(k.board, k.pon, k.onu, "", "", 0, 0, false)
  }

  function Acc(samples: seq<Sample>, device: string, latest: Run): (acc: map<Key, Position>)
    ensures Keyed(acc)
  {
    if samples == [] then map[]
    else
      var s := samples[|samples| - 1];
      var before := Acc(samples[..|samples| - 1], device, latest);
      if Counted(s, device) then before[KeyOf(s) := Tally(PositionAt(before, KeyOf(s)), s, latest)] else before
  }

  /** Every row sits at its own position and has been seen. */
  predicate Keyed(acc: map<Key, Position>) {
    forall k :: k in acc ==> k.serial != "" && acc[k].board == k.board && acc[k].pon == k.pon && acc[k].onu == k.onu
  }

  // ----- the assembled report -----

  function KeysOf(acc: map<Key, Position>, serial: string): set<Key> {
    set k | k in acc && k.serial == serial
  }

  function CurrentKeys(acc: map<Key, Position>, serial: string): set<Key> {
    set k | k in acc && k.serial == serial && acc[k].inLatest
  }

  predicate PosBefore(a: Position, b: Position) {
    if a.inLatest != b.inLatest then a.inLatest
    else if a.lastSeen != b.lastSeen then a.lastSeen > b.lastSeen
    else if a.board != b.board then a.board < b.board
    else if a.pon != b.pon then a.pon < b.pon
    else a.onu < b.onu
  }

  predicate SerialBefore(a: DuplicateSerial, b: DuplicateSerial) {
    if a.currentCount != b.currentCount then a.currentCount > b.currentCount else StrLess(a.serial, b.serial)
  }

  predicate Kept(acc: map<Key, Position>, scope: string, serial: string) {
    if scope == "current" then |CurrentKeys(acc, serial)| > 1 else |KeysOf(acc, serial)| > 1
  }

  /** A report entry holds exactly the positions of its serial, in display order, with their counts. */
  ghost predicate ItemOf(acc: map<Key, Position>, device: string, d: DuplicateSerial) {
    && d.device == device
    && d.positions != []
    && Increasing(PosBefore, d.positions)
    && (forall p :: p in d.positions <==> exists k :: k in KeysOf(acc, d.serial) && acc[k] == p)
    && d.positionCount == |KeysOf(acc, d.serial)|
    && d.currentCount == |CurrentKeys(acc, d.serial)|
    && d.name == d.positions[0].name
  }

  /** What the report is, said without any order of iteration. */
  ghost predicate Assembled(acc: map<Key, Position>, device: string, latest: Run, scope: string, r: DuplicateList) {
    && r.scope == EffectiveScope(scope)
    && r.runID == latest.id
    && r.from == (if latest.id != 0 then latest.startedAt else 0)
    && r.to == (if latest.id != 0 && latest.finishedAt.Some? then latest.finishedAt.value else 0)
    && r.count == |r.serials|
    && Increasing(SerialBefore, r.serials)
    && (forall d :: d in r.serials ==> ItemOf(acc, device, d) && Kept(acc, r.scope, d.serial))
    && (forall serial :: Kept(acc, r.scope, serial) ==> exists d :: d in r.serials && d.serial == serial)
  }

  // ----- what the reader of a report sees -----

  /** The positions of an entry: those of the latest run first, as many as the entry counts as current; in either group
      the most recently seen first, and at the same time by board, PON and ONU. The entry is named after the first. */
  predicate EntryDisplayed(d: DuplicateSerial) {
    && d.positions != [] && d.name == d.positions[0].name && d.positionCount == |d.positions|
    && (forall i :: 0 <= i < |d.positions| ==> (d.positions[i].inLatest <==> i < d.currentCount))
    && (forall i, j :: 0 <= i < j < |d.positions| && d.positions[i].inLatest == d.positions[j].inLatest ==>
          var p, q := d.positions[i], d.positions[j];
          && p.lastSeen >= q.lastSeen
          && (p.lastSeen == q.lastSeen ==>
                p.board < q.board || (p.board == q.board && (p.pon < q.pon || (p.pon == q.pon && p.onu < q.onu)))))
  }

  /** The entries: each with at least two positions, in the latest run for the current scope, the most current positions
      first, and with as many by serial. */
  predicate Displayed(r: DuplicateList) {
    && r.count == |r.serials|
    && (forall k :: 0 <= k < |r.serials| ==> EntryDisplayed(r.serials[k]))
    && (forall k :: 0 <= k < |r.serials| ==>
          if r.scope == "current" then r.serials[k].currentCount >= 2 else r.serials[k].positionCount >= 2)
    && (forall k, l :: 0 <= k < l < |r.serials| ==>
          var a, b := r.serials[k], r.serials[l];
          && a.currentCount >= b.currentCount
          && (a.currentCount == b.currentCount ==> StrLess(a.serial, b.serial)))
  }

  lemma {:induction false} LatestFirst(ps: seq<Position>)
    requires forall i, j :: 0 <= i < j < |ps| && ps[j].inLatest ==> ps[i].inLatest
    ensures forall i :: 0 <= i < |ps| ==> (ps[i].inLatest <==> i < |LatestOnly(ps)|)
    ensures |LatestOnly(ps)| <= |ps|
  {
    if ps != [] {
      LatestFirst(ps[..|ps| - 1]);
    }
  }

  lemma {:induction false} ItemDisplayed(acc: map<Key, Position>, device: string, d: DuplicateSerial)
    requires Keyed(acc) && ItemOf(acc, device, d)
    ensures EntryDisplayed(d)
  {
    var ps := d.positions;
    forall i, j | 0 <= i < j < |ps| ensures PosBefore(ps[i], ps[j]) {
    }
    CountKeys(acc, d.serial, ps, KeysOf(acc, d.serial));
    LatestFromPositions(ps);
    forall p ensures p in LatestOnly(ps) <==> exists k :: k in CurrentKeys(acc, d.serial) && acc[k] == p {
      if p in LatestOnly(ps) {
        var k :| k in KeysOf(acc, d.serial) && acc[k] == p;
        assert k in CurrentKeys(acc, d.serial);
      }
    }
    CountKeys(acc, d.serial, LatestOnly(ps), CurrentKeys(acc, d.serial));
    LatestFirst(ps);
  }

  lemma {:induction false} ReportDisplayed(acc: map<Key, Position>, device: string, latest: Run, scope: string,
                                           r: DuplicateList)
    requires Keyed(acc) && Assembled(acc, device, latest, scope, r)
    ensures Displayed(r)
  {
    hide EntryDisplayed, StrLess, KeysOf, CurrentKeys;
    forall k | 0 <= k < |r.serials|
      ensures EntryDisplayed(r.serials[k])
      ensures if r.scope == "current" then r.serials[k].currentCount >= 2 else r.serials[k].positionCount >= 2
    {
      assert r.serials[k] in r.serials;
      ItemDisplayed(acc, device, r.serials[k]);
    }
    forall k, l | 0 <= k < l < |r.serials| ensures SerialBefore(r.serials[k], r.serials[l]) {
    }
  }

  // ----- orders -----

  lemma {:induction false} PosBeforeOrder()
    ensures StrictWeakOrder(PosBefore)
  {
  }

  lemma {:induction false} SerialBeforeOrder()
    ensures StrictWeakOrder(SerialBefore)
  {
    forall a: DuplicateSerial ensures !SerialBefore(a, a) {
      StrLessIrreflexive(a.serial);
    }
    forall a: DuplicateSerial, b: DuplicateSerial, c: DuplicateSerial | SerialBefore(a, b) && SerialBefore(b, c)
      ensures SerialBefore(a, c) {
      StrictStrings(a.serial, b.serial, c.serial);
    }
    forall a: DuplicateSerial, b: DuplicateSerial, c: DuplicateSerial | !SerialBefore(a, b) && !SerialBefore(b, c)
      ensures !SerialBefore(a, c) {
      StrictStrings(a.serial, b.serial, c.serial);
    }
  }

  // ----- the report is determined by the rows -----

  lemma {:induction false} ItemUnique(acc: map<Key, Position>, device: string, a: DuplicateSerial, b: DuplicateSerial)
    requires ItemOf(acc, device, a) && ItemOf(acc, device, b) && a.serial == b.serial
    ensures a == b
  {
    PosBeforeOrder();
    forall p ensures p in a.positions <==> p in b.positions {
    }
    IncreasingUnique(PosBefore, a.positions, b.positions);
  }

  /** Main result: the report does not depend on any iteration order, since whatever was assembled from the
      same rows is the same list. */
  lemma {:induction false} ReportUnique(acc: map<Key, Position>, device: string, latest: Run, scope: string,
                                        a: DuplicateList, b: DuplicateList)
    requires Assembled(acc, device, latest, scope, a) && Assembled(acc, device, latest, scope, b)
    ensures a == b
  {
    SerialBeforeOrder();
    ListedIn(acc, device, latest, scope, a, b);
    ListedIn(acc, device, latest, scope, b, a);
    IncreasingUnique(SerialBefore, a.serials, b.serials);
  }

  lemma {:induction false} ListedIn(acc: map<Key, Position>, device: string, latest: Run, scope: string,
                                    a: DuplicateList, b: DuplicateList)
    requires Assembled(acc, device, latest, scope, a) && Assembled(acc, device, latest, scope, b)
    ensures forall d :: d in a.serials ==> d in b.serials
  {
    forall d | d in a.serials ensures d in b.serials {
      var e :| e in b.serials && e.serial == d.serial;
      ItemUnique(acc, device, d, e);
    }
  }

  // ----- what the rows mean -----

  /** The counted samples of one position. */
  function Of(samples: seq<Sample>, device: string, k: Key): seq<Sample> {
    if samples == [] then []
    else
      var s := samples[|samples| - 1];
      var before := Of(samples[..|samples| - 1], device, k);
      if Counted(s, device) && KeyOf(s) == k then before + [s] else before
  }

  /** Row `p` describes the samples `of`: their number, whether one lies in the latest run, their greatest
      time, and the status and name of the first sample with that time. */
  ghost predicate Describes(p: Position, of: seq<Sample>, latest: Run) {
    && p.samples == |of|
    && (p.inLatest <==> exists i :: 0 <= i < |of| && InLatestRun(of[i].time, latest))
    && 0 <= p.lastSeen
    && (forall i :: 0 <= i < |of| ==> of[i].time <= p.lastSeen)
    && (p.lastSeen > 0 ==> exists i :: 0 <= i < |of| && FirstMax(p, of, i))
    && (p.lastSeen == 0 ==> p.status == "" && p.name == "")
  }

  ghost predicate FirstMax(p: Position, of: seq<Sample>, i: int)
    requires 0 <= i < |of|
  {
    && of[i].time == p.lastSeen && of[i].status == p.status && of[i].name == p.name
    && forall j :: 0 <= j < i ==> of[j].time < of[i].time
  }

  lemma {:induction false} TallyDescribes(p: Position, of: seq<Sample>, latest: Run, s: Sample)
    requires Describes(p, of, latest)
    ensures Describes(Tally(p, s, latest), of + [s], latest)
  {
    var q, all := Tally(p, s, latest), of + [s];
    assert all[|of|] == s;
    if exists i :: 0 <= i < |of| && InLatestRun(of[i].time, latest) {
      var i :| 0 <= i < |of| && InLatestRun(of[i].time, latest);
      assert InLatestRun(all[i].time, latest);
    }
    if s.time > p.lastSeen {
      assert FirstMax(q, all, |of|);
    } else if q.lastSeen > 0 {
      var i :| 0 <= i < |of| && FirstMax(p, of, i);
      assert FirstMax(q, all, i);
    }
  }

  /** Main result: the rows are exactly the counted samples' positions, each described exactly. */
  lemma {:induction false} RowsAreExact(samples: seq<Sample>, device: string, latest: Run, k: Key)
    ensures var acc, of := Acc(samples, device, latest), Of(samples, device, k);
            && (k in acc <==> of != [])
            && Describes(PositionAt(acc, k), of, latest)
  {
    if samples != [] {
      var before, s := samples[..|samples| - 1], samples[|samples| - 1];
      RowsAreExact(before, device, latest, k);
      if Counted(s, device) && KeyOf(s) == k {
        TallyDescribes(PositionAt(Acc(before, device, latest), k), Of(before, device, k), latest, s);
      }
    }
  }

  function CountedSamples(samples: seq<Sample>, device: string): nat {
    if samples == [] then 0
    else CountedSamples(samples[..|samples| - 1], device) + (if Counted(samples[|samples| - 1], device) then 1 else 0)
  }

  ghost function SumOver(keys: set<Key>, acc: map<Key, Position>): nat
    requires keys <= acc.Keys
  {
    if keys == {} then 0
    else
      var k :| k in keys;
      acc[k].samples + SumOver(keys - {k}, acc)
  }

  lemma {:induction false} SumSplit(keys: set<Key>, acc: map<Key, Position>, k: Key)
    requires keys <= acc.Keys && k in keys
    ensures SumOver(keys, acc) == acc[k].samples + SumOver(keys - {k}, acc)
  {
    var j :| j in keys && SumOver(keys, acc) == acc[j].samples + SumOver(keys - {j}, acc);
    if j != k {
      SumSplit(keys - {j}, acc, k);
      SumSplit(keys - {k}, acc, j);
      assert keys - {j} - {k} == keys - {k} - {j};
    }
  }

  lemma {:induction false} SumSame(keys: set<Key>, a: map<Key, Position>, b: map<Key, Position>)
    requires keys <= a.Keys && keys <= b.Keys && forall k :: k in keys ==> a[k] == b[k]
    ensures SumOver(keys, a) == SumOver(keys, b)
  {
    if keys != {} {
      var k :| k in keys;
      SumSplit(keys, a, k);
      SumSplit(keys, b, k);
      SumSame(keys - {k}, a, b);
    }
  }

  /** Conservation: the per-position counts sum to the number of counted samples. */
  lemma {:induction false} SamplesConserved(samples: seq<Sample>, device: string, latest: Run)
    ensures SumOver(Acc(samples, device, latest).Keys, Acc(samples, device, latest)) == CountedSamples(samples, device)
  {
    if samples != [] {
      var before, s := samples[..|samples| - 1], samples[|samples| - 1];
      SamplesConserved(before, device, latest);
      var a, b := Acc(before, device, latest), Acc(samples, device, latest);
      if Counted(s, device) {
        var k := KeyOf(s);
        SumSplit(b.Keys, b, k);
        SumSame(b.Keys - {k}, a, b);
        if k in a {
          SumSplit(a.Keys, a, k);
          assert a.Keys - {k} == b.Keys - {k};
        } else {
          assert b.Keys - {k} == a.Keys;
        }
      }
    }
  }

  // ----- the loops -----

  function RowOf(acc: map<Key, Position>, k: Key): PosRow
    requires k in acc
  {
    PosRow(k.serial, acc[k])
  }

  /** The rows of some keys, in some order of iteration. */
  ghost predicate Lists(acc: map<Key, Position>, keys: set<Key>, rows: seq<PosRow>)
    requires keys <= acc.Keys
  {
    && NoDuplicates(rows)
    && (forall k :: k in keys ==> RowOf(acc, k) in rows)
    && (forall row :: row in rows ==> exists k :: k in keys && RowOf(acc, k) == row)
  }

  lemma {:induction false} ListsOneMore(acc: map<Key, Position>, keys: set<Key>, rows: seq<PosRow>, k: Key)
    requires Keyed(acc) && keys <= acc.Keys && Lists(acc, keys, rows) && k in acc && k !in keys
    ensures Lists(acc, keys + {k}, rows + [RowOf(acc, k)])
  {
    var row := RowOf(acc, k);
    assert forall j :: j in keys ==> RowOf(acc, j) != row;
    assert row !in rows;
    forall r | r in rows + [row] ensures exists j :: j in keys + {k} && RowOf(acc, j) == r {
      if r in rows {
        var j :| j in keys && RowOf(acc, j) == r;
        assert j in keys + {k};
      } else {
        assert k in keys + {k};
      }
    }
  }

  method AccumulateRows(deviceID: string, samples: seq<Sample>, latest: Run) returns (rows: seq<PosRow>)
    ensures Lists(Acc(samples, deviceID, latest), Acc(samples, deviceID, latest).Keys, rows)
  {
    hide TrimSpace, InLatestRun, Keyed;
    var acc: map<Key, Position> := map[];
    for n := 0 to |samples|
      invariant acc == Acc(samples[..n], deviceID, latest)
    {
      var sample := samples[n];
      assert samples[..n + 1][..n] == samples[..n];
      var serial := TrimSpace(sample.serial);
      if serial == "" || (deviceID != "" && sample.device != deviceID) {
        continue;
      }
      var k := Key(serial, sample.board, sample.pon, sample.onu);
      var row := if k in acc then acc[k] else Position(sample.board, sample.pon, sample.onu, "", "", 0, 0, false);
      row := row.(samples := row.samples + 1);
      if sample.time > row.lastSeen {
        row := row.(lastSeen := sample.time, status := sample.status, name := sample.name);
      }
      if InLatestRun(sample.time, latest) {
        row := row.(inLatest := true);
      }
      acc := acc[k := row];
    }
    assert samples[..|samples|] == samples;
    rows := ListRows(acc);
  }

  /** Ranging over the map, in no particular order. */
  method ListRows(acc: map<Key, Position>) returns (rows: seq<PosRow>)
    requires Keyed(acc)
    ensures Lists(acc, acc.Keys, rows)
  {
    rows := [];
    var todo := acc.Keys;
    while todo != {}
      invariant todo <= acc.Keys
      invariant Lists(acc, acc.Keys - todo, rows)
      decreases todo
    {
      var k :| k in todo;
      ListsOneMore(acc, acc.Keys - todo, rows, k);
      rows := rows + [PosRow(k.serial, acc[k])];
      assert acc.Keys - (todo - {k}) == acc.Keys - todo + {k};
      todo := todo - {k};
    }
    assert acc.Keys - {} == acc.Keys;
  }

  function PositionsOf(rows: seq<PosRow>, serial: string): seq<Position> {
    if rows == [] then []
    else
      var row := rows[|rows| - 1];
      var before := PositionsOf(rows[..|rows| - 1], serial);
      if row.serial == serial then before + [row.pos] else before
  }

  function LatestOnly(ps: seq<Position>): seq<Position> {
    if ps == [] then []
    else
      var before := LatestOnly(ps[..|ps| - 1]);
      if ps[|ps| - 1].inLatest then before + [ps[|ps| - 1]] else before
  }

  lemma {:induction false} PositionsFromRows(rows: seq<PosRow>, serial: string)
    ensures forall p :: p in PositionsOf(rows, serial) <==> PosRow(serial, p) in rows
    ensures NoDuplicates(rows) ==> NoDuplicates(PositionsOf(rows, serial))
  {
    if rows != [] {
      var rest := rows[..|rows| - 1];
      PositionsFromRows(rest, serial);
      assert rows == rest + [rows[|rows| - 1]];
    }
  }

  lemma {:induction false} LatestFromPositions(ps: seq<Position>)
    ensures forall p :: p in LatestOnly(ps) <==> p in ps && p.inLatest
    ensures NoDuplicates(ps) ==> NoDuplicates(LatestOnly(ps))
  {
    if ps != [] {
      var rest := ps[..|ps| - 1];
      LatestFromPositions(rest);
      assert ps == rest + [ps[|ps| - 1]];
    }
  }

  function KeyAt(serial: string, p: Position): Key {
    Key(serial, p.board, p.pon, p.onu)
  }

  function KeysAt(serial: string, ps: seq<Position>): (keys: seq<Key>)
    ensures |keys| == |ps| && forall i :: 0 <= i < |ps| ==> keys[i] == KeyAt(serial, ps[i])
  {
    if ps == [] then [] else KeysAt(serial, ps[..|ps| - 1]) + [KeyAt(serial, ps[|ps| - 1])]
  }

  /** Distinct positions of one serial are told apart by their keys, so counting them counts keys. */
  lemma {:induction false} CountKeys(acc: map<Key, Position>, serial: string, ps: seq<Position>, keys: set<Key>)
    requires Keyed(acc) && keys <= KeysOf(acc, serial) && NoDuplicates(ps)
    requires forall p :: p in ps <==> exists k :: k in keys && acc[k] == p
    ensures |ps| == |keys|
  {
    var seen := KeysAt(serial, ps);
    forall i | 0 <= i < |ps| ensures seen[i] in keys && acc[seen[i]] == ps[i] {
      assert ps[i] in ps;
      var k :| k in keys && acc[k] == ps[i];
      assert k == seen[i];
    }
    forall k ensures k in seen <==> k in keys {
      if k in keys {
        assert acc[k] in ps;
        var i :| 0 <= i < |ps| && ps[i] == acc[k];
        assert seen[i] == k;
      }
    }
    SetSize(seen, keys);
  }

  lemma {:induction false} PositionsExact(acc: map<Key, Position>, rows: seq<PosRow>, serial: string)
    requires Keyed(acc) && Lists(acc, acc.Keys, rows)
    ensures var ps := PositionsOf(rows, serial);
            && NoDuplicates(ps)
            && (forall p :: p in ps <==> exists k :: k in KeysOf(acc, serial) && acc[k] == p)
            && |ps| == |KeysOf(acc, serial)|
            && |LatestOnly(ps)| == |CurrentKeys(acc, serial)|
  {
    var ps := PositionsOf(rows, serial);
    PositionsFromRows(rows, serial);
    LatestFromPositions(ps);
    forall p ensures p in ps <==> exists k :: k in KeysOf(acc, serial) && acc[k] == p {
      if p in ps {
        var k :| k in acc.Keys && RowOf(acc, k) == PosRow(serial, p);
        assert k in KeysOf(acc, serial);
      }
      if k :| k in KeysOf(acc, serial) && acc[k] == p {
        assert RowOf(acc, k) in rows;
      }
    }
    CountKeys(acc, serial, ps, KeysOf(acc, serial));
    forall p ensures p in LatestOnly(ps) <==> exists k :: k in CurrentKeys(acc, serial) && acc[k] == p {
      if p in LatestOnly(ps) {
        var k :| k in KeysOf(acc, serial) && acc[k] == p;
        assert k in CurrentKeys(acc, serial);
      }
    }
    CountKeys(acc, serial, LatestOnly(ps), CurrentKeys(acc, serial));
  }

  /** Sorting the positions of one serial gives its report entry. */
  lemma {:induction false} SortedItem(acc: map<Key, Position>, device: string, rows: seq<PosRow>, serial: string,
                                      sorted: seq<Position>)
    requires Keyed(acc) && Lists(acc, acc.Keys, rows) && PositionsOf(rows, serial) != []
    requires Ordered(PosBefore, sorted) && multiset(sorted) == multiset(PositionsOf(rows, serial))
    ensures sorted != []
    ensures var ps := PositionsOf(rows, serial);
            ItemOf(acc, device, DuplicateSerial(device, serial, sorted[0].name, |LatestOnly(ps)|, |ps|, sorted))
  {
    var ps := PositionsOf(rows, serial);
    PositionsExact(acc, rows, serial);
    NoDuplicatesPermuted(ps, sorted);
    assert |sorted| == |multiset(sorted)| == |ps|;
    forall p ensures p in sorted <==> p in ps {
      assert p in sorted <==> p in multiset(sorted);
    }
    forall i, j | 0 <= i < j < |sorted| ensures PosBefore(sorted[i], sorted[j]) || PosBefore(sorted[j], sorted[i]) {
      assert sorted[i] in ps && sorted[j] in ps;
      var k :| k in KeysOf(acc, serial) && acc[k] == sorted[i];
      var l :| l in KeysOf(acc, serial) && acc[l] == sorted[j];
      assert k != l;
    }
    OrderedSeparated(PosBefore, sorted);
  }

  method GroupBySerial(deviceID: string, rows: seq<PosRow>) returns (bySerial: map<string, DuplicateSerial>)
    ensures forall s :: s in bySerial <==> PositionsOf(rows, s) != []
    ensures forall s :: s in bySerial ==>
              bySerial[s] == DuplicateSerial(deviceID, s, "", |LatestOnly(PositionsOf(rows, s))|, 0,
                                             PositionsOf(rows, s))
  {
    bySerial := map[];
    for n := 0 to |rows|
      invariant forall s :: s in bySerial <==> PositionsOf(rows[..n], s) != []
      invariant forall s :: s in bySerial ==>
                  bySerial[s] == DuplicateSerial(deviceID, s, "", |LatestOnly(PositionsOf(rows[..n], s))|, 0,
                                                 PositionsOf(rows[..n], s))
    {
      var row := rows[n];
      assert rows[..n + 1][..n] == rows[..n];
      var item := if row.serial in bySerial then bySerial[row.serial]
        else DuplicateSerial(deviceID, row.serial, "", 0, 0, []);
      ghost var before := item.positions;
      item := item.(positions := item.positions + [row.pos]);
      if row.pos.inLatest {
        item := item.(currentCount := item.currentCount + 1);
      }
      assert (before + [row.pos])[..|before|] == before;
      bySerial := bySerial[row.serial := item];
    }
    assert rows[..|rows|] == rows;
  }

  ghost predicate DistinctSerials(list: seq<DuplicateSerial>) {
    forall i, j :: 0 <= i < j < |list| ==> list[i].serial != list[j].serial
  }

  /** The kept entries of the serials visited so far. */
  ghost predicate KeptItems(acc: map<Key, Position>, device: string, scope: string, done: set<string>,
                            list: seq<DuplicateSerial>) {
    && DistinctSerials(list)
    && (forall d :: d in list ==> d.serial in done && ItemOf(acc, device, d) && Kept(acc, scope, d.serial))
    && (forall serial :: serial in done && Kept(acc, scope, serial) ==> exists d :: d in list && d.serial == serial)
  }

  lemma {:induction false} KeepOne(acc: map<Key, Position>, device: string, scope: string, done: set<string>,
                                   list: seq<DuplicateSerial>, d: DuplicateSerial)
    requires KeptItems(acc, device, scope, done, list) && ItemOf(acc, device, d) && d.serial !in done
    ensures KeptItems(acc, device, scope, done + {d.serial}, if Kept(acc, scope, d.serial) then list + [d] else list)
  {
    if Kept(acc, scope, d.serial) {
      var all := list + [d];
      assert all[|list|] == d;
      forall serial | serial in done + {d.serial} && Kept(acc, scope, serial)
        ensures exists e :: e in all && e.serial == serial {
        if serial != d.serial {
          var e :| e in list && e.serial == serial;
          assert e in all;
        }
      }
    }
  }

  /** Counts, sorts and names one serial's entry, and decides whether it is listed. */
  method FinishItem(ghost acc: map<Key, Position>, deviceID: string, scope: string, ghost rows: seq<PosRow>,
                    was: DuplicateSerial)
    returns (item: DuplicateSerial, keep: bool)
    requires Keyed(acc) && Lists(acc, acc.Keys, rows) && PositionsOf(rows, was.serial) != []
    requires was == DuplicateSerial(deviceID, was.serial, "", |LatestOnly(PositionsOf(rows, was.serial))|, 0,
                                    PositionsOf(rows, was.serial))
    ensures ItemOf(acc, deviceID, item) && item.serial == was.serial && keep == Kept(acc, scope, was.serial)
  {
    hide PosBefore, Lists, PositionsOf, LatestOnly, KeysOf, CurrentKeys;
    item := was.(positionCount := |was.positions|);
    PosBeforeOrder();
    var sorted := SortSlice(PosBefore, item.positions);
    SortedItem(acc, deviceID, rows, was.serial, sorted);
    item := item.(positions := sorted, name := sorted[0].name);
    keep := item.positionCount > 1;
    if scope == "current" {
      keep := item.currentCount > 1;
    }
  }

  method KeepItems(ghost acc: map<Key, Position>, deviceID: string, scope: string, ghost rows: seq<PosRow>,
                   bySerial: map<string, DuplicateSerial>)
    returns (serials: seq<DuplicateSerial>)
    requires Keyed(acc) && Lists(acc, acc.Keys, rows)
    requires forall s :: s in bySerial <==> PositionsOf(rows, s) != []
    requires forall s :: s in bySerial ==>
               bySerial[s] == DuplicateSerial(deviceID, s, "", |LatestOnly(PositionsOf(rows, s))|, 0,
                                              PositionsOf(rows, s))
    ensures KeptItems(acc, deviceID, scope, bySerial.Keys, serials)
  {
    NothingKept(acc, deviceID, scope);
    hide Keyed, Lists, PositionsOf, LatestOnly, ItemOf, Kept, KeptItems;
    serials := [];
    var todo := bySerial.Keys;
    assert bySerial.Keys - todo == {};
    while todo != {}
      invariant todo <= bySerial.Keys
      invariant KeptItems(acc, deviceID, scope, bySerial.Keys - todo, serials)
      decreases todo
    {
      var serial :| serial in todo;
      var item, keep := FinishItem(acc, deviceID, scope, rows, bySerial[serial]);
      KeepOne(acc, deviceID, scope, bySerial.Keys - todo, serials, item);
      if keep {
        serials := serials + [item];
      }
      assert bySerial.Keys - (todo - {serial}) == bySerial.Keys - todo + {serial};
      todo := todo - {serial};
    }
    assert bySerial.Keys - {} == bySerial.Keys;
  }

  lemma {:induction false} NothingKept(acc: map<Key, Position>, device: string, scope: string)
    ensures KeptItems(acc, device, scope, {}, [])
  {
  }

  method AssembleDuplicateSerials(deviceID: string, latest: Run, scope: string, rows: seq<PosRow>,
                                  ghost acc: map<Key, Position>)
    returns (out: DuplicateList)
    requires Keyed(acc) && Lists(acc, acc.Keys, rows)
    ensures Assembled(acc, deviceID, latest, scope, out) && Displayed(out)
  {
    hide Displayed;
    var eff := NormalizeScope(scope);
    if eff == "" {
      eff := "current";
    }
    out := DuplicateList(eff, 0, 0, 0, 0, []);
    if latest.id != 0 {
      out := out.(runID := latest.id, from := latest.startedAt);
      if latest.finishedAt.Some? {
        out := out.(to := latest.finishedAt.value);
      }
    }
    var bySerial := GroupBySerial(deviceID, rows);
    var serials := KeepItems(acc, deviceID, eff, rows, bySerial);
    SerialBeforeOrder();
    var sorted := SortSlice(SerialBefore, serials);
    SortedSerials(acc, deviceID, eff, rows, bySerial.Keys, serials, sorted);
    out := out.(serials := sorted, count := |sorted|);
    ReportDisplayed(acc, deviceID, latest, scope, out);
  }

  lemma {:induction false} SortedSerials(acc: map<Key, Position>, device: string, scope: string, rows: seq<PosRow>,
                                         done: set<string>, list: seq<DuplicateSerial>, sorted: seq<DuplicateSerial>)
    requires Keyed(acc) && Lists(acc, acc.Keys, rows)
    requires (forall s :: s in done <==> PositionsOf(rows, s) != []) && KeptItems(acc, device, scope, done, list)
    requires Ordered(SerialBefore, sorted) && multiset(sorted) == multiset(list)
    ensures Increasing(SerialBefore, sorted)
    ensures forall d :: d in sorted ==> ItemOf(acc, device, d) && Kept(acc, scope, d.serial)
    ensures forall serial :: Kept(acc, scope, serial) ==> exists d :: d in sorted && d.serial == serial
  {
    hide ItemOf, Kept, PositionsOf, StrLess;
    forall d ensures d in sorted <==> d in list {
      assert d in sorted <==> d in multiset(sorted);
    }
    NoDuplicatesPermuted(list, sorted);
    forall i, j | 0 <= i < j < |sorted|
      ensures SerialBefore(sorted[i], sorted[j]) || SerialBefore(sorted[j], sorted[i]) {
      assert sorted[i] in list && sorted[j] in list;
      var k :| 0 <= k < |list| && list[k] == sorted[i];
      var l :| 0 <= l < |list| && list[l] == sorted[j];
      assert k != l;
      SerialsCompare(sorted[i], sorted[j]);
    }
    OrderedSeparated(SerialBefore, sorted);
    forall serial | Kept(acc, scope, serial) ensures exists d :: d in sorted && d.serial == serial {
      PositionsExact(acc, rows, serial);
      KeptIsSeen(acc, scope, serial);
      var d :| d in list && d.serial == serial;
      assert d in sorted;
    }
  }

  lemma {:induction false} SerialsCompare(a: DuplicateSerial, b: DuplicateSerial)
    requires a.serial != b.serial
    ensures SerialBefore(a, b) || SerialBefore(b, a)
  {
    StrLessTotal(a.serial, b.serial);
  }

  lemma {:induction false} KeptIsSeen(acc: map<Key, Position>, scope: string, serial: string)
    requires Kept(acc, scope, serial)
    ensures KeysOf(acc, serial) != {}
  {
    if scope == "current" {
      var k :| k in CurrentKeys(acc, serial);
      assert k in KeysOf(acc, serial);
    }
  }

  /** The whole report: rows exact, assembly determined. */
  method BuildDuplicateSerials(deviceID: string, samples: seq<Sample>, latest: Run, scope: string)
    returns (out: DuplicateList)
    ensures Assembled(Acc(samples, deviceID, latest), deviceID, latest, scope, out) && Displayed(out)
  {
    hide Displayed;
    var rows := AccumulateRows(deviceID, samples, latest);
    out := AssembleDuplicateSerials(deviceID, latest, scope, rows, Acc(samples, deviceID, latest));
  }
}
