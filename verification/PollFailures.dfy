/** The durable store writes a poll by separate statements, each of which can fail. What a failed poll leaves behind,
    and what a run with failed polls amounts to. */
module PollFailures {
  import opened Text
  import opened Events
  import opened Transitions
  import opened Tables
  import opened StoreAgreement
  import opened UnreadOnus
  import opened Ordering

  /** Where a poll's writes stop. A statement that is not issued, for want of anything to write, cannot fail. */
  datatype Stop =
    | Never
    | AtQuery(done: nat)
    | AtStatusInsert
    | AtEthInsert
    | AtPortRow(done: nat)
    | AtSampleInsert
    | AtOnuRow(done: nat)

  /** The port rows of a batch in the order they are written. */
  function PortWrites(list: seq<Sample>): seq<(Sample, EthPort)> {
    if list == [] then []
    else PortWrites(list[..|list| - 1]) + SampleWrites(list[|list| - 1], list[|list| - 1].ethPorts)
  }

  function SampleWrites(s: Sample, ports: seq<EthPort>): (r: seq<(Sample, EthPort)>)
    ensures |r| == |ports| && forall i :: 0 <= i < |r| ==> r[i] == (s, ports[i])
  {
    if ports == [] then [] else SampleWrites(s, ports[..|ports| - 1]) + [(s, ports[|ports| - 1])]
  }

  function PutAll(ports: map<(string, string, int), PortState>,
                  writes: seq<(Sample, EthPort)>): map<(string, string, int), PortState> {
    if writes == [] then ports
    else PutPort(PutAll(ports, writes[..|writes| - 1]), writes[|writes| - 1].0, writes[|writes| - 1].1)
  }

  /** The samples that have a row in the ONU table. */
  function Readable(list: seq<Sample>): seq<Sample> {
    if list == [] then []
    else
      var before := Readable(list[..|list| - 1]);
      if Blank(list[|list| - 1].serial) then before else before + [list[|list| - 1]]
  }

  /** Whether a statement that is issued count times reaches the one that fails. */
  predicate Reaches(done: nat, count: nat) {
    done < count
  }

  /** The store after recording a batch's transitions, and whether a statement failed. The states of the ONUs are asked
      for once, the ports once for each sample. */
  function RecordStopped(db: Db, batch: seq<Sample>, stop: Stop): (Db, bool) {
    if batch == [] then (db, false)
    else
      var status, eth := StatusBatch(db.onus, batch[0].device, batch), EthBatch(db.ports, batch);
      var logged := db.(statusLog := db.statusLog + status);
      var writes := PortWrites(PadAll(batch));
      match stop
      case AtQuery(n) => if Reaches(n, |batch| + 1) then (db, true) else (RecordBatch(db, batch), false)
      case AtStatusInsert => if status != [] then (db, true) else (RecordBatch(db, batch), false)
      case AtEthInsert => if eth != [] then (logged, true) else (RecordBatch(db, batch), false)
      case AtPortRow(n) =>
        if Reaches(n, |writes|) then (logged.(ethLog := db.ethLog + eth, ports := PutAll(db.ports, writes[..n])), true)
        else (RecordBatch(db, batch), false)
      case _ => (RecordBatch(db, batch), false)
  }

  /** The store after the statements of one poll up to the stop, and whether one failed. */
  function PollStopped(db: Db, batch: seq<Sample>, stop: Stop): (Db, bool) {
    var (recorded, failed) := RecordStopped(db, batch, stop);
    var padded := PadAll(batch);
    if failed || batch == [] then (recorded, failed)
    else
      match stop
      case AtSampleInsert => (recorded, true)
      case AtOnuRow(n) =>
        if Reaches(n, |Readable(padded)|) then
          (recorded.(samples := db.samples + PadAll(padded), onus := UpsertOnus(db.onus, Readable(padded)[..n])), true)
        else (PollBatch(db, batch), false)
      case _ => (PollBatch(db, batch), false)
  }

  lemma {:induction false} PutAllConcat(ports: map<(string, string, int), PortState>, a: seq<(Sample, EthPort)>,
                                        b: seq<(Sample, EthPort)>)
    ensures PutAll(ports, a + b) == PutAll(PutAll(ports, a), b)
  {
    hide PutPort;
    if b == [] {
      assert a + b == a;
    } else {
      assert (a + b)[..|a + b| - 1] == a + b[..|b| - 1];
      PutAllConcat(ports, a, b[..|b| - 1]);
    }
  }

  lemma {:induction false} SampleWritesPut(ports: map<(string, string, int), PortState>, s: Sample, list: seq<EthPort>)
    ensures PutAll(ports, SampleWrites(s, list)) == UpsertPorts(ports, s, list)
  {
    hide PutPort;
    if list != [] {
      var front := SampleWrites(s, list[..|list| - 1]);
      SampleWritesPut(ports, s, list[..|list| - 1]);
      assert SampleWrites(s, list)[..|front|] == front;
    }
  }

  /** All row writes together are the upsert of the batch. */
  lemma {:induction false} WritesPut(ports: map<(string, string, int), PortState>, list: seq<Sample>)
    ensures PutAll(ports, PortWrites(list)) == UpsertEthState(ports, list)
  {
    hide PutPort;
    if list != [] {
      var front, s := list[..|list| - 1], list[|list| - 1];
      WritesPut(ports, front);
      PutAllConcat(ports, PortWrites(front), SampleWrites(s, s.ethPorts));
      SampleWritesPut(UpsertEthState(ports, front), s, s.ethPorts);
    }
  }

  lemma {:induction false} ReadablePut(onus: map<(string, string), OnuState>, list: seq<Sample>)
    ensures UpsertOnus(onus, Readable(list)) == UpsertOnus(onus, list)
  {
    hide UpsertRow, Blank;
    if list != [] {
      var before := Readable(list[..|list| - 1]);
      ReadablePut(onus, list[..|list| - 1]);
      assert (before + [list[|list| - 1]])[..|before|] == before;
    }
  }

  /** A poll that did not fail is a whole poll. */
  lemma {:induction false} UnfailedIsWhole(db: Db, batch: seq<Sample>, stop: Stop)
    ensures !PollStopped(db, batch, stop).1 ==> PollStopped(db, batch, stop).0 == PollBatch(db, batch)
  {
    EmptyPoll(db);
    hide PollBatch;
  }

  /** What the failed poll and its repeat have logged together. */
  lemma {:induction false} RepeatLogs(db: Db, batch: seq<Sample>, stop: Stop)
    requires PollStopped(db, batch, stop).1
    ensures batch != [] && !stop.Never?
    ensures var next, changes := PollStopped(db, batch, stop).0, StatusBatch(db.onus, batch[0].device, batch);
            && PollBatch(next, batch).statusLog == next.statusLog + StatusBatch(next.onus, batch[0].device, batch)
            && PollBatch(db, batch).statusLog == db.statusLog + changes
            && (stop.AtQuery? || stop.AtStatusInsert? ==> next.statusLog == db.statusLog && next.onus == db.onus)
            && (!stop.AtQuery? && !stop.AtStatusInsert? ==> next.statusLog == db.statusLog + changes)
            && (stop.AtOnuRow? ==>
                && stop.done < |Readable(PadAll(batch))|
                && next.onus == UpsertOnus(db.onus, Readable(PadAll(batch))[..stop.done]))
            && (!stop.AtOnuRow? ==> next.onus == db.onus)
  {
    hide StatusBatch, EthBatch, PadAll, UpsertEthState, UpsertOnus, PortWrites, Readable, PutAll;
    match stop
    case AtPortRow(n) =>
    case _ =>
  }

  /** A poll that fails after its status changes were logged, and before any ONU row is written, logs all of them again
      when it is repeated: the rows they are compared with are still the old ones. */
  lemma {:induction false} RetryLogsAgain(db: Db, batch: seq<Sample>, stop: Stop)
    requires stop.AtEthInsert? || stop.AtPortRow? || stop.AtSampleInsert? || stop == AtOnuRow(0)
    requires PollStopped(db, batch, stop).1
    ensures batch != []
    ensures var changes := StatusBatch(db.onus, batch[0].device, batch);
            && PollStopped(db, batch, stop).0.statusLog == db.statusLog + changes
            && PollBatch(PollStopped(db, batch, stop).0, batch).statusLog == db.statusLog + changes + changes
  {
    RepeatLogs(db, batch, stop);
    assert UpsertOnus(db.onus, Readable(PadAll(batch))[..0]) == db.onus;
    hide PollStopped, PollBatch, StatusBatch, UpsertOnus, Readable, PadAll;
  }

  // ----- when a repeat is harmless -----

  /** The samples whose status changes a poll has logged without writing their ONU rows. */
  function Unwritten(batch: seq<Sample>, stop: Stop): seq<Sample> {
    var readable := Readable(PadAll(batch));
    match stop
    case AtEthInsert => readable
    case AtPortRow(_) => readable
    case AtSampleInsert => readable
    case AtOnuRow(n) => if Reaches(n, |readable|) then readable[n..] else []
    case _ => []
  }

  ghost predicate Unchanged(onus: map<(string, string), OnuState>, device: string, list: seq<Sample>) {
    forall s :: s in list ==> !StatusChanged(RowAt(onus, device, s.serial), s)
  }

  lemma {:induction false} QuietBatch(onus: map<(string, string), OnuState>, device: string, batch: seq<Sample>)
    ensures StatusBatch(onus, device, batch) == [] <==> Unchanged(onus, device, Readable(PadAll(batch)))
  {
    hide Padded, RowAt;
    if batch != [] {
      var front, s := batch[..|batch| - 1], Padded(batch[|batch| - 1]);
      QuietBatch(onus, device, front);
      PadAllInit(batch);
      var before := Readable(PadAll(front));
      if Blank(s.serial) {
        assert Readable(PadAll(batch)) == before;
      } else {
        assert Readable(PadAll(batch)) == before + [s];
        assert forall t :: t in before + [s] <==> t in before || t == s;
      }
    }
  }

  lemma {:induction false} ReadableAt(list: seq<Sample>, i: nat)
    requires i < |Readable(list)|
    ensures Readable(list)[i] in list && !Blank(Readable(list)[i].serial)
  {
    var n := |list| - 1;
    if Blank(list[n].serial) || i < |Readable(list)| - 1 {
      ReadableAt(list[..n], i);
    }
  }

  lemma {:induction false} ReadableTwo(list: seq<Sample>, i: nat, j: nat)
    requires i < j < |Readable(list)|
    ensures exists k, l :: 0 <= k < l < |list| && list[k] == Readable(list)[i] && list[l] == Readable(list)[j]
  {
    hide Blank;
    var n := |list| - 1;
    if !Blank(list[n].serial) && j == |Readable(list)| - 1 {
      ReadableAt(list[..n], i);
      var k :| 0 <= k < n && list[..n][k] == Readable(list)[i];
      assert list[k] == Readable(list)[i] && list[n] == Readable(list)[j];
    } else {
      ReadableTwo(list[..n], i, j);
      var k, l :| 0 <= k < l < n && list[..n][k] == Readable(list[..n])[i] && list[..n][l] == Readable(list[..n])[j];
      assert list[k] == Readable(list)[i] && list[l] == Readable(list)[j];
    }
  }

  /** Samples of one device with ONU rows of their own. */
  ghost predicate OwnRows(list: seq<Sample>, device: string) {
    && (forall i :: 0 <= i < |list| ==> list[i].device == device && !Blank(list[i].serial))
    && (forall i, j :: 0 <= i < j < |list| ==> list[i].serial != list[j].serial)
  }

  lemma {:induction false} ReadableRows(batch: seq<Sample>)
    requires Polled(batch) && batch != []
    ensures OwnRows(Readable(PadAll(batch)), batch[0].device)
  {
    hide Padded, ValidDevice;
    var padded := PadAll(batch);
    var r := Readable(padded);
    forall i | 0 <= i < |batch| ensures padded[i].device == batch[0].device && padded[i].serial == batch[i].serial {
      PaddedIdempotent(batch[i]);
    }
    forall i | 0 <= i < |r| ensures r[i].device == batch[0].device && !Blank(r[i].serial) {
      ReadableAt(padded, i);
      var k :| 0 <= k < |padded| && padded[k] == r[i];
    }
    forall i, j | 0 <= i < j < |r| ensures r[i].serial != r[j].serial {
      ReadableTwo(padded, i, j);
      NamedSerial(r[i].serial);
      var k, l :| 0 <= k < l < |padded| && padded[k] == r[i] && padded[l] == r[j];
      assert batch[k].serial != batch[l].serial;
    }
  }

  /** The first n rows written hold their samples' statuses, the others are as before. */
  lemma {:induction false} RowsWritten(onus: map<(string, string), OnuState>, list: seq<Sample>, device: string, n: nat,
                                       i: nat)
    requires OwnRows(list, device) && n <= |list| && i < |list|
    ensures var row := RowAt(UpsertOnus(onus, list[..n]), device, list[i].serial);
            if i < n then row.serial == list[i].serial && row.status == list[i].status
            else row == RowAt(onus, device, list[i].serial)
    decreases n
  {
    hide Blank;
    if n > 0 {
      assert list[..n][..n - 1] == list[..n - 1];
      RowsWritten(onus, list, device, n - 1, i);
      UpsertOnuAt(UpsertOnus(onus, list[..n - 1]), list[n - 1], device, list[i].serial);
    }
  }

  lemma {:induction false} WrittenUnchanged(row: OnuState, s: Sample)
    requires row.serial == s.serial && row.status == s.status && !Blank(s.serial)
    ensures !StatusChanged(row, s)
  {
    NamedSerial(s.serial);
    SameFold(s.status);
  }

  /** After the first n rows were written, what would still change is what would have changed among the others. */
  lemma {:induction false} RestUnchanged(onus: map<(string, string), OnuState>, list: seq<Sample>, device: string,
                                         n: nat)
    requires OwnRows(list, device) && n <= |list|
    ensures Unchanged(UpsertOnus(onus, list[..n]), device, list) <==> Unchanged(onus, device, list[n..])
  {
    hide StatusChanged, UpsertOnus, RowAt;
    var after := UpsertOnus(onus, list[..n]);
    forall i | 0 <= i < |list|
      ensures StatusChanged(RowAt(after, device, list[i].serial), list[i]) <==>
              n <= i && StatusChanged(RowAt(onus, device, list[i].serial), list[i])
    {
      RowsWritten(onus, list, device, n, i);
      if i < n {
        WrittenUnchanged(RowAt(after, device, list[i].serial), list[i]);
      }
    }
    if Unchanged(onus, device, list[n..]) {
      forall s | s in list ensures !StatusChanged(RowAt(after, device, s.serial), s) {
        var i :| 0 <= i < |list| && list[i] == s;
        assert n <= i ==> list[n..][i - n] == s;
      }
    }
    if Unchanged(after, device, list) {
      forall s | s in list[n..] ensures !StatusChanged(RowAt(onus, device, s.serial), s) {
        var i :| 0 <= i < |list[n..]| && list[n..][i] == s;
        assert list[n + i] == s;
      }
    }
  }

  lemma {:induction false} SameLog(log: seq<StatusEvent>, a: seq<StatusEvent>, b: seq<StatusEvent>)
    ensures log + a + b == log + a <==> b == []
  {
    assert |log + a + b| == |log + a| + |b|;
  }

  /** Main result: repeating a failed poll leaves the status log as one whole poll would have left it exactly when no
      sample whose change was logged, and whose row was not written, has another status than its row. */
  lemma {:induction false} RepeatHarmlessIff(db: Db, batch: seq<Sample>, stop: Stop)
    requires PollStopped(db, batch, stop).1 && Polled(batch)
    ensures batch != []
    ensures PollBatch(PollStopped(db, batch, stop).0, batch).statusLog == PollBatch(db, batch).statusLog <==>
            Unchanged(db.onus, batch[0].device, Unwritten(batch, stop))
  {
    hide StatusBatch, PollStopped, PollBatch, Polled, PadAll, Readable, UpsertOnus, Unchanged;
    RepeatLogs(db, batch, stop);
    var next, device := PollStopped(db, batch, stop).0, batch[0].device;
    var readable := Readable(PadAll(batch));
    SameLog(db.statusLog, StatusBatch(db.onus, device, batch), StatusBatch(next.onus, device, batch));
    QuietBatch(next.onus, device, batch);
    if stop.AtOnuRow? {
      ReadableRows(batch);
      RestUnchanged(db.onus, readable, device, stop.done);
    } else if stop.AtQuery? || stop.AtStatusInsert? {
      assert Unchanged(db.onus, device, []) by {
        NothingChanged(db.onus, device);
      }
    }
  }

  lemma {:induction false} NothingChanged(onus: map<(string, string), OnuState>, device: string)
    ensures Unchanged(onus, device, [])
  {
  }

  // ----- the writes, row by row -----

  lemma {:induction false} WritesInit(list: seq<Sample>, i: nat)
    requires i < |list|
    ensures PortWrites(list[..i + 1]) == PortWrites(list[..i]) + SampleWrites(list[i], list[i].ethPorts)
  {
    assert list[..i + 1][..i] == list[..i];
  }

  lemma {:induction false} WritesPrefix(list: seq<Sample>, i: nat)
    requires i <= |list|
    ensures |PortWrites(list[..i])| <= |PortWrites(list)|
    ensures PortWrites(list)[..|PortWrites(list[..i])|] == PortWrites(list[..i])
    decreases |list|
  {
    if i == |list| {
      assert list[..i] == list;
    } else {
      var front := list[..|list| - 1];
      assert front[..i] == list[..i];
      WritesPrefix(front, i);
    }
  }

  /** The next row to write, after i samples and j ports of the next one. */
  lemma {:induction false} NextWrite(ports: map<(string, string, int), PortState>, list: seq<Sample>, i: nat, j: nat)
    requires i < |list| && j < |list[i].ethPorts|
    ensures var n := |PortWrites(list[..i])| + j;
            && n < |PortWrites(list)|
            && PortWrites(list)[n] == (list[i], list[i].ethPorts[j])
            && PutAll(ports, PortWrites(list)[..n + 1]) ==
              PutPort(PutAll(ports, PortWrites(list)[..n]), list[i], list[i].ethPorts[j])
  {
    hide PutPort;
    WritesInit(list, i);
    WritesPrefix(list, i + 1);
    var n := |PortWrites(list[..i])| + j;
    assert PortWrites(list)[n] == PortWrites(list[..i + 1])[n];
    assert PortWrites(list)[..n + 1][..n] == PortWrites(list)[..n];
  }

  lemma {:induction false} ReadableInit(list: seq<Sample>, i: nat)
    requires i < |list|
    ensures Readable(list[..i + 1]) == Readable(list[..i]) + if Blank(list[i].serial) then [] else [list[i]]
  {
    assert list[..i + 1][..i] == list[..i];
  }

  lemma {:induction false} ReadablePrefix(list: seq<Sample>, i: nat)
    requires i <= |list|
    ensures |Readable(list[..i])| <= |Readable(list)| && Readable(list)[..|Readable(list[..i])|] == Readable(list[..i])
    decreases |list|
  {
    if i == |list| {
      assert list[..i] == list;
    } else {
      var front := list[..|list| - 1];
      assert front[..i] == list[..i];
      ReadablePrefix(front, i);
    }
  }

  // ----- runs in which polls fail before an ONU row is written -----

  function PollRun(run: seq<(seq<Sample>, Stop)>): Db {
    if run == [] then EMPTY_DB else PollStopped(PollRun(run[..|run| - 1]), run[|run| - 1].0, run[|run| - 1].1).0
  }

  predicate Failed(run: seq<(seq<Sample>, Stop)>)
    requires run != []
  {
    PollStopped(PollRun(run[..|run| - 1]), run[|run| - 1].0, run[|run| - 1].1).1
  }

  /** The batches that were stored. */
  function Stored(run: seq<(seq<Sample>, Stop)>): seq<seq<Sample>> {
    if run == [] then [] else Stored(run[..|run| - 1]) + if Failed(run) then [] else [run[|run| - 1].0]
  }

  /** The status events that a failed poll has logged. */
  function Extra(db: Db, batch: seq<Sample>, stop: Stop): seq<StatusEvent> {
    if batch != [] && PollStopped(db, batch, stop).1
      && (stop.AtEthInsert? || stop.AtPortRow? || stop.AtSampleInsert?) then
      StatusBatch(db.onus, batch[0].device, batch)
    else []
  }

  /** How many of one ONU's status events were logged by failed polls. */
  function Stray(run: seq<(seq<Sample>, Stop)>, device: string, serial: string): nat {
    if run == [] then 0
    else
      var extra := Extra(PollRun(run[..|run| - 1]), run[|run| - 1].0, run[|run| - 1].1);
      Stray(run[..|run| - 1], device, serial) + |StatusOf(extra, device, serial)|
  }

  predicate NoOnuRow(run: seq<(seq<Sample>, Stop)>) {
    forall i :: 0 <= i < |run| ==> !run[i].1.AtOnuRow?
  }

  predicate NoPortRow(run: seq<(seq<Sample>, Stop)>) {
    forall i :: 0 <= i < |run| ==> !run[i].1.AtPortRow? && !run[i].1.AtSampleInsert? && !run[i].1.AtOnuRow?
  }

  lemma {:induction false} StoppedTables(db: Db, batch: seq<Sample>, stop: Stop)
    requires !stop.AtOnuRow?
    ensures var (next, failed) := PollStopped(db, batch, stop);
            && (!failed ==> next == PollBatch(db, batch) && Extra(db, batch, stop) == [])
            && (failed ==> next.onus == db.onus && next.samples == db.samples)
            && (failed ==> next.statusLog == db.statusLog + Extra(db, batch, stop))
            && (failed && !stop.AtPortRow? && !stop.AtSampleInsert? ==>
                next.ports == db.ports && next.ethLog == db.ethLog)
  {
    hide StatusBatch, EthBatch, PadAll, UpsertEthState, UpsertOnus, PortWrites, PollBatch, Readable, PutAll;
    EmptyPoll(db);
    assert db.statusLog + [] == db.statusLog;
    if batch != [] {
      match stop
      case AtPortRow(n) =>
      case _ =>
    }
  }

  lemma {:induction false} EmptyPoll(db: Db)
    ensures PollBatch(db, []) == db
  {
    assert db.samples + [] == db.samples;
  }

  /** A poll adds the same to two stores that hold the same ONU rows. */
  lemma {:induction false} PollAdds(a: Db, b: Db, batch: seq<Sample>) returns (added: seq<StatusEvent>)
    requires a.onus == b.onus && a.samples == b.samples
    ensures var na, nb := PollBatch(a, batch), PollBatch(b, batch);
            && na.onus == nb.onus && na.samples == nb.samples
            && na.statusLog == a.statusLog + added && nb.statusLog == b.statusLog + added
            && (a.ports == b.ports && a.ethLog == b.ethLog ==> na.ports == nb.ports && na.ethLog == nb.ethLog)
  {
    hide StatusBatch, EthBatch, PadAll, UpsertEthState, UpsertOnus;
    if batch == [] {
      added := [];
      assert a.statusLog + [] == a.statusLog && b.statusLog + [] == b.statusLog;
    } else {
      added := StatusBatch(a.onus, batch[0].device, batch);
    }
  }

  lemma {:induction false} NoStatus(device: string, serial: string)
    ensures StatusOf([], device, serial) == []
  {
  }

  /** Main result: over every run in which failed polls stop before an ONU row is written, the durable store holds the
      ONU rows and the samples of the stored polls alone. Of each ONU's status events it holds those of the stored
      polls, in their order, and among them as many more as failed polls logged for it. */
  lemma {:induction false} FailedPollsOnlyLog(run: seq<(seq<Sample>, Stop)>, device: string, serial: string)
    requires NoOnuRow(run)
    ensures var db, clean := PollRun(run), PollAll(Stored(run));
            && db.onus == clean.onus && db.samples == clean.samples
            && |StatusOf(db.statusLog, device, serial)| ==
              |StatusOf(clean.statusLog, device, serial)| + Stray(run, device, serial)
            && Within(StatusOf(clean.statusLog, device, serial), StatusOf(db.statusLog, device, serial))
            && (Stray(run, device, serial) == 0 ==>
                StatusOf(db.statusLog, device, serial) == StatusOf(clean.statusLog, device, serial))
            && (NoPortRow(run) ==> db.ports == clean.ports && db.ethLog == clean.ethLog)
  {
    hide PollBatch, StatusBatch, PollStopped, Extra, StatusOf;
    NoStatus(device, serial);
    if run != [] {
      var front, last := run[..|run| - 1], run[|run| - 1];
      FailedPollsOnlyLog(front, device, serial);
      var db, clean := PollRun(front), PollAll(Stored(front));
      assert !run[|run| - 1].1.AtOnuRow?;
      StoppedTables(db, last.0, last.1);
      var extra := Extra(db, last.0, last.1);
      StatusOfAppend(db.statusLog, extra, device, serial);
      if Failed(run) {
        var logged := StatusOf(db.statusLog, device, serial);
        assert StatusOf(extra, device, serial) == [] ==> logged + StatusOf(extra, device, serial) == logged;
        WithinMore(StatusOf(clean.statusLog, device, serial), logged, StatusOf(extra, device, serial));
        assert Stored(front) + [] == Stored(front);
      } else {
        var added := PollAdds(db, clean, last.0);
        StatusOfAppend(db.statusLog, added, device, serial);
        StatusOfAppend(clean.statusLog, added, device, serial);
        WithinBoth(StatusOf(clean.statusLog, device, serial), StatusOf(db.statusLog, device, serial),
                   StatusOf(added, device, serial));
        assert (Stored(front) + [last.0])[..|Stored(front)|] == Stored(front);
      }
    }
  }
}
