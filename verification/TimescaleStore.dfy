/** The durable store, its tables held in fields and updated statement by statement. */
module TimescaleStore {
  import opened Text
  import opened Events
  import opened Transitions
  import opened Tables
  import opened Backfill
  import opened Ordering
  import opened StoreAgreement
  import opened PollFailures
  import opened BackfillResult
  import StoredRows
  import Unauth

  class Timescale {
    var onus: map<(string, string), OnuState>
    var ethState: map<(string, string, int), PortState>
    var statusEvents: seq<StatusEvent>
    var ethEvents: seq<EthEvent>
    var samples: seq<Sample>
    var unauth: Unauth.UnauthDb

    ghost function View(): Db
      reads this
    {
      Db(onus, ethState, statusEvents, ethEvents, samples)
    }

    constructor ()
      ensures View() == EMPTY_DB && unauth == Unauth.NO_ROWS
    {
      onus, ethState := map[], map[];
      statusEvents, ethEvents, samples := [], [], [];
      unauth := Unauth.NO_ROWS;
    }

    /** ListONUStates indexed by serial. */
    function StatesBySerial(device: string): map<string, OnuState>
      reads this`onus
    {
      map k | k in onus && k.0 == device :: k.1 := onus[k]
    }

    /** One statement for each port; the one after the given number of rows fails, if there are that many. */
    method UpsertEthState(list: seq<Sample>, stop: Option<nat>) returns (failed: bool)
      modifies this`ethState
      ensures var writes := PortWrites(list);
              && failed == (stop.Some? && Reaches(stop.value, |writes|))
              && ethState == PutAll(old(ethState), if failed then writes[..stop.value] else writes)
      ensures !failed ==> ethState == Tables.UpsertEthState(old(ethState), list)
    {
      hide PortWrites, PutAll, Tables.UpsertEthState;
      ghost var writes := PortWrites(list);
      var n := 0;
      NothingPut(ethState);
      for i := 0 to |list|
        invariant n == |PortWrites(list[..i])| && n <= |writes| && (stop.Some? ==> n <= stop.value)
        invariant ethState == PutAll(old(ethState), writes[..n])
      {
        var sample := list[i];
        var ports := sample.ethPorts;
        ghost var first := n;
        for j := 0 to |ports|
          invariant n == first + j <= |writes| && (stop.Some? ==> n <= stop.value)
          invariant ethState == PutAll(old(ethState), writes[..n])
        {
          NextWrite(old(ethState), list, i, j);
          if stop == Some(n) {
            return true;
          }
          var key := (sample.device, sample.serial, ports[j].port);
          ethState := ethState[key :=
                               UpsertPort(if key in ethState then Some(ethState[key]) else None, sample, ports[j])];
          n := n + 1;
        }
        WritesInit(list, i);
      }
      assert list[..|list|] == list && writes[..|writes|] == writes;
      WritesPut(old(ethState), list);
      failed := false;
    }

    /** ListEthState, and its rows indexed by port in the order the query returns them. */
    method PortsByIndex(device: string, serial: string) returns (prev: map<int, PortState>)
      ensures prev == EthPrev(ethState, device, serial)
    {
      hide EthPrev, RowLater;
      var keys: seq<(string, string, int)> := [];
      var todo := ethState.Keys;
      while todo != {}
        invariant todo <= ethState.Keys
        invariant forall k :: k in keys <==> k in ethState && k !in todo && Asked(k, device, serial)
        decreases todo
      {
        var k :| k in todo;
        if Asked(k, device, serial) {
          keys := keys + [k];
        }
        todo := todo - {k};
      }
      RowOrder();
      var rows := SortSlice(RowLater, keys);
      SameElements(keys, rows);
      prev := map[];
      for i := 0 to |rows|
        invariant forall k :: k in rows ==> k in ethState
        invariant prev == Indexed(ethState, rows[..i])
      {
        assert rows[..i + 1][..i] == rows[..i];
        prev := prev[rows[i].2 := ethState[rows[i]]];
      }
      assert rows[..|rows|] == rows;
      IndexedRows(ethState, device, serial, rows);
    }

    /** The events of one padded sample against the current tables. */
    method SampleEvents(device: string, sample: Sample) returns (status: seq<StatusEvent>, eth: seq<EthEvent>)
      ensures status == StatusEventsFrom(RowAt(onus, device, sample.serial), sample, "poller")
      ensures eth == EthEventsOf(EthPrev(ethState, sample.device, sample.serial), sample, sample.ethPorts, "poller")
    {
      hide EthEventsOf, EthPrev;
      var bySerial := StatesBySerial(device);
      var prev := if sample.serial in bySerial then bySerial[sample.serial] else NO_ONU;
      status := [];
      if StatusChanged(prev, sample) {
        status := [StatusEventFrom(prev, sample, "poller")];
      }
      var ports := PortsByIndex(sample.device, sample.serial);
      eth := EthEventsFrom(ports, sample, "poller");
    }

    /** Pads the caller's batch in place and derives all events from the tables before the batch. The query after the
        given number of queries fails, if there are that many. */
    method DeriveBatch(batch: array<Sample>, stop: Option<nat>)
      returns (failed: bool, status: seq<StatusEvent>, eth: seq<EthEvent>)
      requires batch.Length > 0
      modifies batch
      ensures failed == (stop.Some? && Reaches(stop.value, batch.Length + 1))
      ensures PaddedUpTo(batch[..], old(batch[..]), if failed then stop.value else batch.Length)
      ensures !failed ==> status == StatusBatch(onus, old(batch[0].device), old(batch[..]))
      ensures !failed ==> eth == EthBatch(ethState, old(batch[..]))
    {
      hide Padded, StatusEventsFrom, EthEventsOf, PadAll, RowAt, EthPrev, StatusBatch, EthBatch;
      ghost var raw := batch[..];
      var device := batch[0].device;
      status, eth := [], [];
      if stop == Some(0) {
        return true, status, eth;
      }
      assert raw[..0] == [];
      NoEvents(onus, ethState, device);
      for i := 0 to batch.Length
        invariant unchanged(this)
        invariant stop.Some? ==> i < stop.value
        invariant PaddedUpTo(batch[..], raw, i)
        invariant status == StatusBatch(onus, device, raw[..i])
        invariant eth == EthBatch(ethState, raw[..i])
      {
        var sample := ApplyExpectedPorts(batch[i]);
        PaddedIdempotent(raw[i]);
        batch[i] := sample;
        if stop == Some(i + 1) {
          return true, status, eth;
        }
        var s, e := SampleEvents(device, sample);
        BatchUnfold(onus, ethState, device, raw, i);
        status, eth := status + s, eth + e;
      }
      assert raw[..batch.Length] == raw;
      failed := false;
    }

    /** COPY of the derived events; nothing is issued for none. */
    method InsertStatusEvents(events: seq<StatusEvent>, refused: bool) returns (failed: bool)
      modifies this`statusEvents
      ensures failed == (refused && events != [])
      ensures statusEvents == if failed then old(statusEvents) else old(statusEvents) + events
    {
      failed := refused && events != [];
      if !failed {
        statusEvents := statusEvents + events;
      }
    }

    method InsertEthEvents(events: seq<EthEvent>, refused: bool) returns (failed: bool)
      modifies this`ethEvents
      ensures failed == (refused && events != [])
      ensures ethEvents == if failed then old(ethEvents) else old(ethEvents) + events
    {
      failed := refused && events != [];
      if !failed {
        ethEvents := ethEvents + events;
      }
    }

    /** Events come from the tables before the batch; logs and port rows are written afterwards, statement by statement,
        and stay written when a later one fails. */
    method RecordSampleTransitions(batch: array<Sample>, stop: Stop) returns (failed: bool)
      modifies batch, this`statusEvents, this`ethEvents, this`ethState
      ensures (View(), failed) == RecordStopped(old(View()), old(batch[..]), stop)
      ensures !(failed && stop.AtQuery?) ==> batch[..] == PadAll(old(batch[..]))
      ensures failed && stop.AtQuery? ==> PaddedUpTo(batch[..], old(batch[..]), stop.done)
      ensures !failed ==> StoredRows.Recorded(old(View()), old(batch[..]), View())
    {
      hide StatusBatch, EthBatch, Padded, PadAll, Tables.UpsertEthState, PortWrites, PutAll, PaddedUpTo,
        StoredRows.Recorded;
      UnfailedShows(View(), batch[..], stop);
      if batch.Length == 0 {
        EmptyBatch(onus);
        assert old(batch[..]) == [];
        return false;
      }
      var status, eth;
      failed, status, eth := DeriveBatch(batch, if stop.AtQuery? then Some(stop.done) else None);
      if failed {
        return;
      }
      AllPadded(batch[..], old(batch[..]));
      failed := InsertStatusEvents(status, stop.AtStatusInsert?);
      if failed {
        return;
      }
      failed := InsertEthEvents(eth, stop.AtEthInsert?);
      if failed {
        return;
      }
      failed := UpsertEthState(batch[..], if stop.AtPortRow? then Some(stop.done) else None);
    }

    method InsertSamples(list: seq<Sample>, refused: bool) returns (failed: bool)
      modifies this`samples
      ensures failed == (refused && list != [])
      ensures samples == if failed then old(samples) else old(samples) + PadAll(list)
      ensures !failed ==> forall i :: 0 <= i < |list| ==> PaddedFrom(list[i], samples[|old(samples)| + i])
    {
      hide Padded;
      var rows: seq<Sample> := [];
      for i := 0 to |list|
        invariant rows == PadAll(list[..i]) && samples == old(samples)
      {
        assert list[..i + 1] == list[..i] + [list[i]];
        PadAllAppend(list[..i], list[i]);
        var sample := ApplyExpectedPorts(list[i]);
        rows := rows + [sample];
      }
      assert list[..|list|] == list;
      failed := refused && list != [];
      if !failed {
        samples := samples + rows;
        forall i | 0 <= i < |list| ensures PaddedFrom(list[i], samples[|old(samples)| + i]) {
          PaddingKeepsPromise(list[i]);
        }
      }
    }

    method UpsertONUs(list: seq<Sample>, stop: Option<nat>) returns (failed: bool)
      modifies this`onus
      ensures failed == (stop.Some? && Reaches(stop.value, |Readable(list)|))
      ensures onus == UpsertOnus(old(onus), if failed then Readable(list)[..stop.value] else list)
    {
      hide Readable, Blank, UpsertRow;
      var n := 0;
      EmptyBatch(onus);
      for i := 0 to |list|
        invariant n == |Readable(list[..i])| && (stop.Some? ==> n <= stop.value)
        invariant onus == UpsertOnus(old(onus), list[..i])
      {
        ReadableInit(list, i);
        assert list[..i + 1][..i] == list[..i];
        var sample := list[i];
        if Blank(sample.serial) {
          continue;
        }
        if stop == Some(n) {
          ReadablePrefix(list, i);
          ReadablePrefix(list, i + 1);
          ReadablePut(old(onus), list[..i]);
          return true;
        }
        onus := onus[(sample.device, sample.serial) :=
                     UpsertRow(RowOption(onus, sample.device, sample.serial), sample)];
        n := n + 1;
      }
      assert list[..|list|] == list;
      failed := false;
    }

    /** The writes of one PON poll. */
    method StorePoll(batch: array<Sample>, stop: Stop) returns (failed: bool)
      modifies batch, this`statusEvents, this`ethEvents, this`ethState, this`samples, this`onus
      ensures (View(), failed) == PollStopped(old(View()), old(batch[..]), stop)
      ensures !failed ==> StoredRows.Polls(old(View()), old(batch[..]), View())
    {
      hide RecordBatch, RecordStopped, PadAll, UpsertOnus, Readable, StoredRows.Polls, StoredRows.Recorded;
      UnfailedPolls(View(), batch[..], stop);
      failed := RecordSampleTransitions(batch, stop);
      WholeRecord(old(View()), old(batch[..]), stop);
      if failed {
        return;
      }
      if batch.Length == 0 {
        EmptyBatch(onus);
        assert old(batch[..]) == [] && samples + [] == samples;
      }
      failed := InsertSamples(batch[..], stop.AtSampleInsert?);
      if failed {
        return;
      }
      failed := UpsertONUs(batch[..], if stop.AtOnuRow? then Some(stop.done) else None);
    }

    // ----- backfill -----

    /** SELECT ... WHERE serial <> '' ORDER BY device_id, serial, time. */
    method QuerySamples() returns (rows: seq<Sample>)
      ensures QueryRows(samples, rows)
      ensures forall i, j :: 0 <= i < j < |rows| ==> InQueryOrder(rows[i], rows[j])
    {
      var kept: seq<Sample> := [];
      for i := 0 to |samples|
        invariant forall e: Sample :: multiset(kept)[e] == if e.serial != "" then multiset(samples[..i])[e] else 0
      {
        assert samples[..i + 1] == samples[..i] + [samples[i]];
        if samples[i].serial != "" {
          kept := kept + [samples[i]];
        }
      }
      assert samples[..|samples|] == samples;
      RowLessOrder();
      rows := SortSlice(RowLess, kept);
      RowsAscend(rows);
    }

    /** The replay loop over the query's rows. */
    method Replay(rows: seq<Sample>) returns (latest: map<string, Sample>, status: seq<StatusEvent>, eth: seq<EthEvent>)
      ensures (latest, status, eth) == (ReplayAll(rows).latest, ReplayAll(rows).statusLog, ReplayAll(rows).ethLog)
    {
      hide Padded, StatusEventsFrom, EthEventsOf;
      var prevStatus: map<string, OnuState> := map[];
      var prevEth: map<string, map<int, PortState>> := map[];
      latest, status, eth := map[], [], [];
      for i := 0 to |rows|
        invariant Replayed(prevStatus, prevEth, latest, status, eth) == ReplayAll(rows[..i])
      {
        assert rows[..i + 1][..i] == rows[..i];
        var sample := ApplyExpectedPorts(rows[i]);
        var key := OnuKey(sample.device, sample.serial);
        status := status + StatusEventsFrom(if key in prevStatus then prevStatus[key] else NO_ONU, sample, "backfill");
        var ports := if key in prevEth then prevEth[key] else map[];
        var events := EthEventsFrom(ports, sample, "backfill");
        eth := eth + events;
        prevStatus := prevStatus[key := NO_ONU.(serial := sample.serial, status := sample.status)];
        var noted := NoteAll(ports, sample);
        prevEth := prevEth[key := noted];
        latest := latest[key := sample];
      }
      assert rows[..|rows|] == rows;
    }

    /** DISTINCT ON (device_id, serial) ... ORDER BY device_id, serial, time DESC, for one ONU. */
    method NewestEvent(device: string, serial: string) returns (newest: Option<StatusEvent>)
      ensures NewestIs(StatusOf(statusEvents, device, serial), newest)
    {
      newest := None;
      for i := 0 to |statusEvents|
        invariant NewestIs(StatusOf(statusEvents[..i], device, serial), newest)
      {
        var e := statusEvents[i];
        assert statusEvents[..i + 1][..i] == statusEvents[..i];
        if e.device == device && e.serial == serial && (newest.None? || e.time >= newest.value.time) {
          newest := Some(e);
        }
      }
      assert statusEvents[..|statusEvents|] == statusEvents;
    }

    /** The UPDATE from the newest events, row by row. */
    method StampRows()
      modifies this`onus
      ensures onus.Keys == old(onus).Keys
      ensures forall k :: k in onus ==>
                exists e :: NewestIs(StatusOf(statusEvents, k.0, k.1), e) && onus[k] == FromEvent(old(onus)[k], e)
    {
      hide StatusOf, NewestIs, FromEvent;
      var todo := onus.Keys;
      while todo != {}
        invariant onus.Keys == old(onus).Keys && todo <= onus.Keys
        invariant forall k :: k in todo ==> onus[k] == old(onus)[k]
        invariant forall k :: k in onus && k !in todo ==>
                    exists e :: NewestIs(StatusOf(statusEvents, k.0, k.1), e) && onus[k] == FromEvent(old(onus)[k], e)
        decreases todo
      {
        var k :| k in todo;
        var newest := NewestEvent(k.0, k.1);
        onus := onus[k := FromEvent(onus[k], newest)];
        todo := todo - {k};
      }
    }

    method BackfillExpectedPorts()
      modifies this`onus
      ensures onus == map k | k in old(onus) :: WithPorts(old(onus)[k])
    {
      hide ExpectedEthernetPorts;
      var todo := onus.Keys;
      while todo != {}
        invariant onus.Keys == old(onus).Keys && todo <= onus.Keys
        invariant forall k :: k in onus ==> onus[k] == if k in todo then old(onus)[k] else WithPorts(old(onus)[k])
        decreases todo
      {
        var k :| k in todo;
        var n := ExpectedEthernetPorts(onus[k].onuType);
        todo := todo - {k};
        if n <= 0 {
          continue;
        }
        if onus[k].expectedPorts == 0 {
          onus := onus[k := onus[k].(expectedPorts := n)];
        }
      }
    }

    /** The three statements on the ONU rows. */
    method UpdateRows()
      modifies this`onus
      ensures RowsUpdated(old(onus), statusEvents, onus)
    {
      hide StatusOf, NewestIs, FromEvent, Dated, WithPorts;
      ghost var was := onus;
      StampRows();
      onus := map k | k in onus :: Dated(onus[k]);
      BackfillExpectedPorts();
      forall k | k in was ensures RowUpdated(was[k], statusEvents, k.0, k.1, onus[k]) {
      }
    }

    /** Replaces the backfilled part of both logs, rebuilds the port table from the latest samples and updates the ONU
        rows from the logs. */
    method BackfillEventsFromSamples() returns (ghost rows: seq<Sample>, ghost list: seq<Sample>)
      modifies this`statusEvents, this`ethEvents, this`ethState, this`onus
      ensures Backfilled(old(View()), rows, list, View())
      ensures LogsReplaced(old(View()), View(), ReplayAll(rows))
      ensures onus.Keys == old(onus).Keys
      ensures forall k :: k in onus ==> RowRestored(old(onus)[k], statusEvents, k.0, k.1, onus[k])
    {
      hide QueryRows, LatestSamples, ReplayAll, WithoutStatus, WithoutEth, Tables.UpsertEthState, RowsUpdated,
        LogsReplaced, RowRestored;
      statusEvents := WithoutStatus(statusEvents, "backfill");
      ethEvents := WithoutEth(ethEvents, "backfill");
      ethState := map[];
      var all := QuerySamples();
      rows := all;
      var latest, status, eth := Replay(all);
      statusEvents := statusEvents + status;
      ethEvents := ethEvents + eth;
      var latestSamples := ListLatest(all, latest);
      list := latestSamples;
      var failed := UpsertEthState(latestSamples, None);
      UpdateRows();
      BackfilledLogs(old(View()), rows, list, View());
      BackfilledRows(old(View()), rows, list, View());
    }

    // ----- unconfigured ONUs -----

    method ReplaceUnauth(device: string, list: Unauth.UnauthList)
      modifies this`unauth
      ensures unauth == Unauth.DbReplace(old(unauth), device, list)
      ensures Unauth.Replaced(old(unauth), device, list, unauth)
    {
      hide Unauth.Replaced;
      Unauth.ReplaceMeans(unauth, device, list);
      var discovery := unauth.discovery[device := Unauth.Discovery(list.status, list.oid, list.message, list.observedAt,
                                                                   list.count)];
      var rows := unauth.rows;
      if list.status == "ok" || list.status == "empty" {
        rows := Unauth.MarkGone(rows, device, list.observedAt);
      }
      ghost var marked := rows;
      for i := 0 to |list.onus|
        invariant rows == Unauth.UpsertAll(marked, device, list.onus[..i], list)
      {
        assert list.onus[..i + 1][..i] == list.onus[..i];
        rows := Unauth.UpsertUnauth(rows, device, list.onus[i], list);
      }
      assert list.onus[..|list.onus|] == list.onus;
      unauth := Unauth.UnauthDb(discovery, rows);
    }
  }

  lemma {:induction false} NothingPut(ports: map<(string, string, int), PortState>)
    ensures PutAll(ports, []) == ports && PortWrites([]) == []
  {
  }

  lemma {:induction false} EmptyBatch(onus: map<(string, string), OnuState>)
    ensures PadAll([]) == [] && Readable([]) == [] && UpsertOnus(onus, []) == onus
  {
  }

  lemma {:induction false} WholeRecord(db: Db, batch: seq<Sample>, stop: Stop)
    ensures var (next, failed) := RecordStopped(db, batch, stop);
            && next.samples == db.samples && next.onus == db.onus
            && (!failed ==> next == RecordBatch(db, batch))
            && (batch == [] ==> !failed && PadAll(batch) == [])
            && (failed ==> !stop.AtSampleInsert? && !stop.AtOnuRow?)
  {
    RecordKeeps(db, batch);
    RecordEmpty(db);
    EmptyBatch(db.onus);
    if batch != [] {
      match stop
      case AtPortRow(n) =>
      case _ =>
    }
    hide StatusBatch, EthBatch, RecordBatch, PortWrites, PutAll, PadAll;
  }

  lemma {:induction false} RecordEmpty(db: Db)
    ensures RecordBatch(db, []) == db
  {
  }

  lemma {:induction false} UnfailedShows(db: Db, batch: seq<Sample>, stop: Stop)
    ensures !RecordStopped(db, batch, stop).1 ==> StoredRows.Recorded(db, batch, RecordStopped(db, batch, stop).0)
  {
    WholeRecord(db, batch, stop);
    StoredRows.RecordShows(db, batch);
    hide StoredRows.Recorded, RecordStopped, RecordBatch;
  }

  lemma {:induction false} UnfailedPolls(db: Db, batch: seq<Sample>, stop: Stop)
    ensures !PollStopped(db, batch, stop).1 ==> StoredRows.Polls(db, batch, PollStopped(db, batch, stop).0)
  {
    UnfailedIsWhole(db, batch, stop);
    StoredRows.PollShows(db, batch);
    hide StoredRows.Polls, PollStopped, PollBatch;
  }

  lemma {:induction false} RecordKeeps(db: Db, batch: seq<Sample>)
    ensures RecordBatch(db, batch).samples == db.samples && RecordBatch(db, batch).onus == db.onus
  {
  }

  predicate Asked(k: (string, string, int), device: string, serial: string) {
    k.0 == device && (serial == "" || k.1 == serial)
  }

  /** ORDER BY serial, port. */
  predicate RowLater(a: (string, string, int), b: (string, string, int)) {
    if a.1 != b.1 then StrLess(a.1, b.1) else a.2 < b.2
  }

  lemma {:induction false} RowOrder()
    ensures StrictWeakOrder(RowLater)
  {
    hide StrLess;
    forall a: (string, string, int), b: (string, string, int), c: (string, string, int)
      ensures !RowLater(a, a)
      ensures RowLater(a, b) && RowLater(b, c) ==> RowLater(a, c)
      ensures !RowLater(a, b) && !RowLater(b, c) ==> !RowLater(a, c)
    {
      StrictStrings(a.1, b.1, c.1);
    }
  }

  /** Rows put into a map by port, one after the other. */
  function Indexed(ports: map<(string, string, int), PortState>, rows: seq<(string, string, int)>): map<int, PortState>
    requires forall k :: k in rows ==> k in ports
  {
    if rows == [] then map[] else Indexed(ports, rows[..|rows| - 1])[rows[|rows| - 1].2 := ports[rows[|rows| - 1]]]
  }

  /** The last row of a port is the one the map keeps. */
  lemma {:induction false} IndexedLast(ports: map<(string, string, int), PortState>, rows: seq<(string, string, int)>,
                                       port: int)
    requires forall k :: k in rows ==> k in ports
    ensures port in Indexed(ports, rows) <==> exists i :: 0 <= i < |rows| && rows[i].2 == port
    ensures port in Indexed(ports, rows) ==>
              exists i :: 0 <= i < |rows| && LastAt(rows, i, port) && Indexed(ports, rows)[port] == ports[rows[i]]
  {
    if rows != [] {
      var front := rows[..|rows| - 1];
      IndexedLast(ports, front, port);
      if rows[|rows| - 1].2 == port {
        assert LastAt(rows, |rows| - 1, port);
      } else if port in Indexed(ports, front) {
        var i :| 0 <= i < |front| && LastAt(front, i, port) && Indexed(ports, front)[port] == ports[front[i]];
        assert LastAt(rows, i, port);
      }
    }
  }

  ghost predicate LastAt(rows: seq<(string, string, int)>, i: int, port: int)
    requires 0 <= i < |rows|
  {
    rows[i].2 == port && forall j :: i < j < |rows| ==> rows[j].2 != port
  }

  lemma {:induction false} LastIsGreatest(ports: map<(string, string, int), PortState>, device: string,
                                          rows: seq<(string, string, int)>, i: nat, port: int)
    requires Ordered(RowLater, rows) && i < |rows| && LastAt(rows, i, port)
    requires forall k :: k in rows <==> k in ports && k.0 == device
    ensures LastOf(ports, rows[i])
  {
    assert rows[i] in rows;
    forall j | j in ports && j.0 == rows[i].0 && j.2 == rows[i].2 ensures j.1 == rows[i].1 || StrLess(j.1, rows[i].1) {
      assert j in rows;
      var n :| 0 <= n < |rows| && rows[n] == j;
      assert n <= i;
      assert n < i ==> !RowLater(rows[i], rows[n]);
      StrLessPair(j.1, rows[i].1);
    }
  }

  lemma {:induction false} IndexedRows(ports: map<(string, string, int), PortState>, device: string, serial: string,
                                       rows: seq<(string, string, int)>)
    requires Ordered(RowLater, rows)
    requires forall k :: k in rows <==> k in ports && Asked(k, device, serial)
    ensures Indexed(ports, rows) == EthPrev(ports, device, serial)
  {
    var got, want := Indexed(ports, rows), EthPrev(ports, device, serial);
    forall port: int ensures (port in got <==> port in want) && (port in got ==> got[port] == want[port]) {
      IndexedPort(ports, device, serial, rows, port);
    }
  }

  lemma {:induction false} IndexedPort(ports: map<(string, string, int), PortState>, device: string, serial: string,
                                       rows: seq<(string, string, int)>, port: int)
    requires Ordered(RowLater, rows)
    requires forall k :: k in rows <==> k in ports && Asked(k, device, serial)
    ensures var got, want := Indexed(ports, rows), EthPrev(ports, device, serial);
            (port in got <==> port in want) && (port in got ==> got[port] == want[port])
  {
    hide RowLater, StrLess;
    IndexedLast(ports, rows, port);
    LastUnique(ports);
    var got, want := Indexed(ports, rows), EthPrev(ports, device, serial);
    if port in got {
      var i :| 0 <= i < |rows| && LastAt(rows, i, port) && got[port] == ports[rows[i]];
      assert rows[i] in rows;
      if serial == "" {
        LastIsGreatest(ports, device, rows, i, port);
      } else {
        assert rows[i] == (device, serial, port);
      }
    }
  }

  /** The first n entries are padded, the rest untouched. */
  predicate PaddedUpTo(list: seq<Sample>, raw: seq<Sample>, n: nat) {
    |list| == |raw| && forall k :: 0 <= k < |raw| ==> list[k] == if k < n then Padded(raw[k]) else raw[k]
  }

  lemma {:induction false} AllPadded(list: seq<Sample>, raw: seq<Sample>)
    requires PaddedUpTo(list, raw, |raw|)
    ensures list == PadAll(raw)
  {
    hide Padded;
  }

  lemma {:induction false} NoEvents(onus: map<(string, string), OnuState>, ports: map<(string, string, int), PortState>,
                                    device: string)
    ensures StatusBatch(onus, device, []) == [] && EthBatch(ports, []) == []
  {
  }

  lemma {:induction false} BatchUnfold(onus: map<(string, string), OnuState>,
                                       ports: map<(string, string, int), PortState>, device: string, raw: seq<Sample>,
                                       i: nat)
    requires i < |raw|
    ensures var s := Padded(raw[i]);
            && StatusBatch(onus, device, raw[..i + 1]) ==
              StatusBatch(onus, device, raw[..i]) + StatusEventsFrom(RowAt(onus, device, s.serial), s, "poller")
            && EthBatch(ports, raw[..i + 1]) ==
              EthBatch(ports, raw[..i]) + EthEventsOf(EthPrev(ports, s.device, s.serial), s, s.ethPorts, "poller")
  {
    hide Padded, StatusEventsFrom, EthEventsOf, RowAt, EthPrev;
    assert raw[..i + 1][..i] == raw[..i];
  }

  method NoteAll(ports: map<int, PortState>, sample: Sample) returns (noted: map<int, PortState>)
    ensures noted == NotePorts(ports, sample, sample.ethPorts)
  {
    noted := ports;
    var list := sample.ethPorts;
    for j := 0 to |list|
      invariant noted == NotePorts(ports, sample, list[..j])
    {
      assert list[..j + 1][..j] == list[..j];
      noted := noted[list[j].port := NotedPort(sample, list[j])];
    }
    assert list[..|list|] == list;
  }

  /** The values of the latest map, in no particular order. */
  method ListLatest(ghost rows: seq<Sample>, latest: map<string, Sample>) returns (list: seq<Sample>)
    requires latest == ReplayAll(rows).latest
    ensures LatestSamples(ReplayAll(rows), list)
  {
    hide OnuKey, ReplayAll;
    LatestKeyed(rows);
    list := [];
    var todo := latest.Keys;
    while todo != {}
      invariant todo <= latest.Keys
      invariant forall s :: s in list ==>
                OnuKey(s.device, s.serial) in latest.Keys - todo && latest[OnuKey(s.device, s.serial)] == s
      invariant forall k :: k in latest.Keys - todo ==> latest[k] in list
      invariant forall i, j :: 0 <= i < j < |list| ==> list[i] != list[j]
      decreases todo
    {
      var k :| k in todo;
      list := list + [latest[k]];
      todo := todo - {k};
    }
  }

  lemma {:induction false} LatestKeyed(rows: seq<Sample>)
    ensures var latest := ReplayAll(rows).latest;
            forall k :: k in latest ==> k == OnuKey(latest[k].device, latest[k].serial)
  {
    hide Padded, NotePorts, StatusEventsFrom, EthEventsOf;
    if rows != [] {
      LatestKeyed(rows[..|rows| - 1]);
      var s := Padded(rows[|rows| - 1]);
      assert ReplayAll(rows).latest == ReplayAll(rows[..|rows| - 1]).latest[OnuKey(s.device, s.serial) := s];
    }
  }
}
