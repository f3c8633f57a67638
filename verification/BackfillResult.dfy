/** What a whole backfill leaves in the durable store. */
module BackfillResult {
  import opened Text
  import opened Events
  import opened EventLogs
  import opened Transitions
  import opened Tables
  import opened StoreAgreement
  import opened Backfill
  import opened UnreadOnus
  import opened DurableHistory
  import opened Ordering

  // ----- the statements -----

  /** DELETE FROM onu_status_events WHERE source = source. */
  function WithoutStatus(log: seq<StatusEvent>, source: string): seq<StatusEvent> {
    if log == [] then []
    else
      var before := WithoutStatus(log[..|log| - 1], source);
      if log[|log| - 1].source == source then before else before + [log[|log| - 1]]
  }

  function WithoutEth(log: seq<EthEvent>, source: string): seq<EthEvent> {
    if log == [] then []
    else
      var before := WithoutEth(log[..|log| - 1], source);
      if log[|log| - 1].source == source then before else before + [log[|log| - 1]]
  }

  /** UPDATE onus ... FROM the newest event of the ONU. */
  function FromEvent(row: OnuState, e: Option<StatusEvent>): OnuState {
    match e
    case None => row
    case Some(v) => row.(previousStatus := v.previousStatus, changedAt := Some(v.time))
  }

  /** UPDATE onus SET status_changed_at = last_seen_at WHERE it is unset. */
  function Dated(row: OnuState): OnuState {
    if row.changedAt.Some? then row else row.(changedAt := row.lastSeen)
  }

  /** UPDATE onus SET expected_eth_ports ... WHERE it is unset. */
  function WithPorts(row: OnuState): OnuState {
    var n := ExpectedEthernetPorts(row.onuType);
    if n > 0 && row.expectedPorts == 0 then row.(expectedPorts := n) else row
  }

  /** Every row updated from one of the newest events of its ONU. */
  ghost predicate RowUpdated(was: OnuState, log: seq<StatusEvent>, device: string, serial: string, now: OnuState) {
    exists e :: NewestIs(StatusOf(log, device, serial), e) && now == WithPorts(Dated(FromEvent(was, e)))
  }

  ghost predicate RowsUpdated(was: map<(string, string), OnuState>, log: seq<StatusEvent>,
                              now: map<(string, string), OnuState>) {
    now.Keys == was.Keys && forall k :: k in was ==> RowUpdated(was[k], log, k.0, k.1, now[k])
  }

  /** The store before and after, for the rows the query returned and the latest samples as they were listed. */
  ghost predicate Backfilled(db: Db, rows: seq<Sample>, list: seq<Sample>, now: Db) {
    && QueryRows(db.samples, rows) && LatestSamples(ReplayAll(rows), list)
    && now.samples == db.samples
    && now.statusLog == WithoutStatus(db.statusLog, "backfill") + ReplayAll(rows).statusLog
    && now.ethLog == WithoutEth(db.ethLog, "backfill") + ReplayAll(rows).ethLog
    && now.ports == UpsertEthState(map[], list)
    && RowsUpdated(db.onus, now.statusLog, now.onus)
  }

  // ----- what the statements leave, column by column -----

  /** Live events stay as they were and as often; backfilled ones come from the replay alone. */
  ghost predicate LogsReplaced(was: Db, now: Db, r: Replayed) {
    && (forall e: StatusEvent :: e.source != "backfill" ==> multiset(now.statusLog)[e] == multiset(was.statusLog)[e])
    && (forall e: EthEvent :: e.source != "backfill" ==> multiset(now.ethLog)[e] == multiset(was.ethLog)[e])
    && (forall e: StatusEvent :: e.source == "backfill" ==> multiset(now.statusLog)[e] == multiset(r.statusLog)[e])
    && (forall e: EthEvent :: e.source == "backfill" ==> multiset(now.ethLog)[e] == multiset(r.ethLog)[e])
  }

  /** An ONU's row keeps everything but the last-change columns and an unset port count: with events these are those of
      one of the newest, of whatever source, and without any an unset change time becomes the time last seen. */
  ghost predicate RowRestored(was: OnuState, log: seq<StatusEvent>, device: string, serial: string, now: OnuState) {
    var n := ExpectedEthernetPorts(was.onuType);
    && now == was.(previousStatus := now.previousStatus, changedAt := now.changedAt, expectedPorts := now.expectedPorts)
    && (was.expectedPorts != 0 ==> now.expectedPorts == was.expectedPorts)
    && (was.expectedPorts == 0 ==> now.expectedPorts == n)
    && if exists f :: f in log && f.device == device && f.serial == serial then
         exists v :: v in log && v.device == device && v.serial == serial
                     && (forall f :: f in log && f.device == device && f.serial == serial ==> f.time <= v.time)
                     && now.previousStatus == v.previousStatus && now.changedAt == Some(v.time)
       else
         && now.previousStatus == was.previousStatus
         && now.changedAt == if was.changedAt != None then was.changedAt else was.lastSeen
  }

  lemma {:induction false} StatusOfMeans(log: seq<StatusEvent>, device: string, serial: string)
    ensures forall e :: e in StatusOf(log, device, serial) <==> e in log && e.device == device && e.serial == serial
  {
    if log != [] {
      StatusOfMeans(log[..|log| - 1], device, serial);
      assert log == log[..|log| - 1] + [log[|log| - 1]];
    }
  }

  lemma {:induction false} UpdatedIsRestored(was: OnuState, log: seq<StatusEvent>, device: string, serial: string,
                                             now: OnuState)
    requires RowUpdated(was, log, device, serial, now)
    ensures RowRestored(was, log, device, serial, now)
  {
    hide ExpectedEthernetPorts, StatusOf;
    StatusOfMeans(log, device, serial);
    var e :| NewestIs(StatusOf(log, device, serial), e) && now == WithPorts(Dated(FromEvent(was, e)));
    assert e.Some? ==> e.value in StatusOf(log, device, serial);
  }

  lemma {:induction false} WithoutCounts(log: seq<StatusEvent>, source: string, e: StatusEvent)
    ensures multiset(WithoutStatus(log, source))[e] == if e.source == source then 0 else multiset(log)[e]
  {
    if log != [] {
      WithoutCounts(log[..|log| - 1], source, e);
      assert log == log[..|log| - 1] + [log[|log| - 1]];
    }
  }

  lemma {:induction false} WithoutEthCounts(log: seq<EthEvent>, source: string, e: EthEvent)
    ensures multiset(WithoutEth(log, source))[e] == if e.source == source then 0 else multiset(log)[e]
  {
    if log != [] {
      WithoutEthCounts(log[..|log| - 1], source, e);
      assert log == log[..|log| - 1] + [log[|log| - 1]];
    }
  }

  lemma {:induction false} BackfilledLogs(db: Db, rows: seq<Sample>, list: seq<Sample>, now: Db)
    requires Backfilled(db, rows, list, now)
    ensures LogsReplaced(db, now, ReplayAll(rows))
  {
    hide ReplayAll, WithoutStatus, WithoutEth, QueryRows, LatestSamples, RowsUpdated, UpsertEthState;
    ReplaySources(rows);
    forall e: StatusEvent
      ensures multiset(now.statusLog)[e] ==
              multiset(WithoutStatus(db.statusLog, "backfill"))[e] + multiset(ReplayAll(rows).statusLog)[e]
      ensures e.source != "backfill" ==> multiset(ReplayAll(rows).statusLog)[e] == 0
      ensures multiset(WithoutStatus(db.statusLog, "backfill"))[e] ==
              if e.source == "backfill" then 0 else multiset(db.statusLog)[e]
    {
      WithoutCounts(db.statusLog, "backfill", e);
    }
    forall e: EthEvent
      ensures multiset(now.ethLog)[e] ==
              multiset(WithoutEth(db.ethLog, "backfill"))[e] + multiset(ReplayAll(rows).ethLog)[e]
      ensures e.source != "backfill" ==> multiset(ReplayAll(rows).ethLog)[e] == 0
      ensures multiset(WithoutEth(db.ethLog, "backfill"))[e] ==
              if e.source == "backfill" then 0 else multiset(db.ethLog)[e]
    {
      WithoutEthCounts(db.ethLog, "backfill", e);
    }
  }

  lemma {:induction false} BackfilledRows(db: Db, rows: seq<Sample>, list: seq<Sample>, now: Db)
    requires Backfilled(db, rows, list, now)
    ensures now.onus.Keys == db.onus.Keys
    ensures forall k :: k in db.onus ==> RowRestored(db.onus[k], now.statusLog, k.0, k.1, now.onus[k])
  {
    hide RowRestored, RowUpdated, ReplayAll, WithoutStatus, WithoutEth, QueryRows, LatestSamples, UpsertEthState;
    forall k | k in db.onus ensures RowRestored(db.onus[k], now.statusLog, k.0, k.1, now.onus[k]) {
      UpdatedIsRestored(db.onus[k], now.statusLog, k.0, k.1, now.onus[k]);
    }
  }

  // ----- the rows after the backfill -----

  lemma {:induction false} PolledSources(batches: seq<seq<Sample>>)
    ensures forall e :: e in PollAll(batches).statusLog ==> e.source == "poller"
  {
    hide Padded, StatusBatch, EthBatch, UpsertEthState, UpsertOnus;
    if batches != [] {
      var db, batch := PollAll(batches[..|batches| - 1]), batches[|batches| - 1];
      PolledSources(batches[..|batches| - 1]);
      if batch != [] {
        BatchSources(db.onus, batch[0].device, batch);
      }
    }
  }

  lemma {:induction false} BatchSources(onus: map<(string, string), OnuState>, device: string, batch: seq<Sample>)
    ensures forall e :: e in StatusBatch(onus, device, batch) ==> e.source == "poller"
  {
    hide Padded, StatusChanged;
    if batch != [] {
      BatchSources(onus, device, batch[..|batch| - 1]);
    }
  }

  lemma {:induction false} NothingRemoved(log: seq<StatusEvent>, source: string)
    requires forall e :: e in log ==> e.source != source
    ensures WithoutStatus(log, source) == log
  {
    if log != [] {
      NothingRemoved(log[..|log| - 1], source);
    }
  }

  /** The row of an ONU that was polled carries the expected ports of its type. */
  lemma {:induction false} RowPorts(list: seq<Sample>)
    requires list != []
    ensures RowOf(list).Some? && RowOf(list).value.expectedPorts == ExpectedEthernetPorts(RowOf(list).value.onuType)
  {
    hide ExpectedEthernetPorts;
    PaddedIdempotent(list[|list| - 1]);
  }

  lemma {:induction false} UpdatedRow(was: OnuState, log: seq<StatusEvent>, device: string, serial: string,
                                      now: OnuState, live: OnuState)
    requires RowUpdated(was, log, device, serial, now) && SameObserved(live, was)
    requires was.expectedPorts == ExpectedEthernetPorts(was.onuType)
    requires forall e :: NewestIs(StatusOf(log, device, serial), e) ==>
               e.Some? && e.value.previousStatus == live.previousStatus && Some(e.value.time) == live.changedAt
    ensures now == live
  {
    hide ExpectedEthernetPorts, NewestIs;
  }

  /** The log after the backfill, for one ONU. */
  lemma {:induction false} BackfilledLog(batches: seq<seq<Sample>>, rows: seq<Sample>, list: seq<Sample>, now: Db,
                                         device: string, serial: string)
    requires Backfilled(PollAll(batches), rows, list, now)
    ensures StatusOf(now.statusLog, device, serial) ==
            StatusOf(PollAll(batches).statusLog, device, serial) + StatusOf(ReplayAll(rows).statusLog, device, serial)
  {
    hide PollAll, ReplayAll, RowsUpdated, QueryRows, LatestSamples;
    PolledSources(batches);
    NothingRemoved(PollAll(batches).statusLog, "backfill");
    StatusOfAppend(PollAll(batches).statusLog, ReplayAll(rows).statusLog, device, serial);
  }

  /** Main result: over every run of polls, the backfill makes each polled row of the durable store equal to the row of
      the in-memory store, the two last-change columns included and whatever the spelling of the statuses. */
  lemma {:induction false} BackfilledRowIsLive(batches: seq<seq<Sample>>, rows: seq<Sample>, list: seq<Sample>, now: Db,
                                               device: string, serial: string)
    requires forall i :: 0 <= i < |batches| ==> Polled(batches[i])
    requires Backfilled(PollAll(batches), rows, list, now)
    requires ValidDevice(device) && !Blank(serial) && StrictTimes(Mine(Flatten(batches), device, serial))
    ensures ValidDevices(Flatten(batches))
    ensures RowAt(now.onus, device, serial) == OnuAt(RecordAll(EMPTY, Flatten(batches)).onus, OnuKey(device, serial))
  {
    hide PollAll, ReplayAll, RecordAll, RowOf, StrictTimes, QueryRows, LatestSamples, Polled, StatusOf, NewestIs,
      ObserveAll, UpsertEthState, RowUpdated, SameObserved, Blank;
    var db, mine := PollAll(batches), Mine(Flatten(batches), device, serial);
    NamedSerial(serial);
    StoresAgreeOnReadOnus(batches, device, serial);
    PolledRow(batches, device, serial);
    var live := OnuAt(RecordAll(EMPTY, Flatten(batches)).onus, OnuKey(device, serial));
    if mine == [] {
      LiveOnu(Flatten(batches), device, serial);
      NoRow();
    } else {
      StoredPolls(batches);
      BackfilledLog(batches, rows, list, now, device, serial);
      RowPorts(mine);
      forall e | NewestIs(StatusOf(now.statusLog, device, serial), e)
        ensures e.Some? && e.value.previousStatus == live.previousStatus && Some(e.value.time) == live.changedAt
      {
        BackfillRestoresChangeColumns(Flatten(batches), db.samples, rows, device, serial,
                                      StatusOf(db.statusLog, device, serial), e);
      }
      UpdatedRow(RowAt(db.onus, device, serial), now.statusLog, device, serial, RowAt(now.onus, device, serial), live);
    }
  }

  lemma {:induction false} NoRow()
    ensures RowOf([]) == None && ObserveAll([], "poller").state == NO_ONU
  {
  }

  // ----- the ports after the backfill -----

  predicate Differs(was: PortState, p: EthPort) {
    was.link != p.link || was.admin != p.admin
  }

  /** With each port listed once, a port's change time moves exactly when its reading changes. */
  lemma {:induction false} ReadingChange(rows: map<int, PortState>, s: Sample, list: seq<EthPort>, port: int)
    requires Owned(rows) && s.serial != "" && DistinctPorts(list)
    ensures port in rows && Reading(list, port).Some? ==>
              && port in PortsAfter(rows, s, list)
              && PortsAfter(rows, s, list)[port].lastChanged ==
                 (if Differs(rows[port], Reading(list, port).value) then Some(s.time) else rows[port].lastChanged)
  {
    if list != [] {
      var front, p := list[..|list| - 1], list[|list| - 1];
      ReadingChange(rows, s, front, port);
      LastReading(rows, s, front, port);
      ReadingSome(front, port);
    }
  }

  predicate ChangedBefore(ports: map<int, PortState>, now: int) {
    forall k :: k in ports ==> ports[k].lastChanged.Some? && ports[k].lastChanged.value < now
  }

  lemma {:induction false} PortsChangedBefore(ports: map<int, PortState>, s: Sample, list: seq<EthPort>, now: int)
    requires Owned(ports) && s.serial != "" && ChangedBefore(ports, now) && s.time < now
    ensures ChangedBefore(PortsAfter(ports, s, list), now)
  {
    if list != [] {
      PortsChangedBefore(ports, s, list[..|list| - 1], now);
      OwnedAfter(ports, s, list[..|list| - 1]);
    }
  }

  lemma {:induction false} ObservedBefore(mine: seq<Sample>, serial: string, now: int)
    requires serial != "" && SameSerial(mine, serial) && forall i :: 0 <= i < |mine| ==> mine[i].time < now
    ensures ChangedBefore(ObserveAll(mine, "backfill").ports, now)
  {
    hide Padded, StatusEventsFrom, EthEventsOf, OnuAfter;
    if mine != [] {
      var front, s := mine[..|mine| - 1], Padded(mine[|mine| - 1]);
      ObservedBefore(front, serial, now);
      OwnSerials(front, serial);
      PaddedIdempotent(mine[|mine| - 1]);
      PortsChangedBefore(ObserveAll(front, "backfill").ports, s, s.ethPorts, now);
    }
  }

  /** Every port known before is in the sample, with another link or admin state than before. */
  predicate AllChanged(before: map<int, PortState>, s: Sample) {
    forall port :: port in before ==> PortChangedIn(before, s, port)
  }

  predicate PortChangedIn(before: map<int, PortState>, s: Sample, port: int) {
    port in before ==> Reading(s.ethPorts, port).Some? && Differs(before[port], Reading(s.ethPorts, port).value)
  }

  lemma {:induction false} PortEqualIff(before: map<int, PortState>, s: Sample, port: int)
    requires Owned(before) && s.serial != "" && DistinctPorts(s.ethPorts) && ChangedBefore(before, s.time)
    ensures var rebuilt, live := PortsAfter(map[], s, s.ethPorts), PortsAfter(before, s, s.ethPorts);
            (port in rebuilt <==> port in live) && Prev(rebuilt, port) == Prev(live, port) <==>
              PortChangedIn(before, s, port)
  {
    hide PortsAfter, Reading, DistinctPorts;
    RebuiltPorts(before, s, port);
    LastReading(before, s, s.ethPorts, port);
    ReadingChange(before, s, s.ethPorts, port);
  }

  lemma {:induction false} FreshEqualsLive(before: map<int, PortState>, s: Sample)
    requires Owned(before) && s.serial != "" && DistinctPorts(s.ethPorts) && ChangedBefore(before, s.time)
    ensures PortsAfter(map[], s, s.ethPorts) == PortsAfter(before, s, s.ethPorts) <==> AllChanged(before, s)
  {
    hide PortsAfter, Reading, DistinctPorts, Owned, ChangedBefore;
    var rebuilt, live := PortsAfter(map[], s, s.ethPorts), PortsAfter(before, s, s.ethPorts);
    if AllChanged(before, s) {
      forall port: int ensures (port in rebuilt <==> port in live) && Prev(rebuilt, port) == Prev(live, port) {
        PortEqualIff(before, s, port);
      }
      SameRowsEqual(rebuilt, live);
    } else {
      var port :| !PortChangedIn(before, s, port);
      PortEqualIff(before, s, port);
    }
  }

  /** Main result: the rebuilt ports of an ONU are its live ones exactly when its last sample lists every port known
      before, each with another reading. */
  lemma {:induction false} RebuiltEqualsLiveIff(rows: seq<Sample>, list: seq<Sample>, device: string, serial: string)
    requires ValidDevices(rows) && ValidDevice(device) && serial != "" && Mine(rows, device, serial) != []
    requires forall i :: 0 <= i < |rows| ==> rows[i].serial != ""
    requires LatestSamples(ReplayAll(rows), list) && StrictTimes(Mine(rows, device, serial))
    requires forall s :: s in Mine(rows, device, serial) ==> DistinctPorts(s.ethPorts)
    ensures var mine := Mine(rows, device, serial);
            var before, last := ObserveAll(mine[..|mine| - 1], "backfill").ports, Padded(mine[|mine| - 1]);
            DbPortsOf(UpsertEthState(map[], list), device, serial) == ObserveAll(mine, "backfill").ports <==>
            AllChanged(before, last)
  {
    hide Padded, StatusEventsFrom, EthEventsOf, OnuAfter, UpsertEthState, PortsAfter, ReplayAll, AllChanged,
      DistinctPorts, LatestSamples, DbPortsOf;
    var mine := Mine(rows, device, serial);
    var front, raw := mine[..|mine| - 1], mine[|mine| - 1];
    var last := Padded(raw);
    PaddedIdempotent(raw);
    PaddedKeepsDistinct(raw);
    assert raw in mine;
    RebuiltFromLast(rows, list, device, serial);
    OwnSamples(rows, device, serial);
    OwnSerials(front, serial);
    ObservedBefore(front, serial, last.time);
    FreshEqualsLive(ObserveAll(front, "backfill").ports, last);
  }

  /** The same reading twice: live, the ports have not changed since the first sample; rebuilt, since the second. */
  lemma {:induction false} SameReadingTwice(s: Sample, t: Sample, list: seq<Sample>)
    requires t == s.(time := t.time) && s.time < t.time && s.serial != "" && ValidDevice(s.device)
    requires DistinctPorts(s.ethPorts) && Padded(s).ethPorts != [] && LatestSamples(ReplayAll([s, t]), list)
    ensures DbPortsOf(UpsertEthState(map[], list), s.device, s.serial) != ObserveAll([s, t], "backfill").ports
  {
    hide Padded, DistinctPorts, LatestSamples, ReplayAll, UpsertEthState, ObserveAll, PortsAfter, Reading, Mine,
      DbPortsOf;
    TwoSamples(s, t);
    PaddedIdempotent(s);
    PaddedTime(s, t);
    var port := Padded(s).ethPorts[0].port;
    LastReading(map[], Padded(s), Padded(s).ethPorts, port);
    ReadingSome(Padded(s).ethPorts, port);
    RebuiltEqualsLiveIff([s, t], list, s.device, s.serial);
    assert !PortChangedIn(PortsAfter(map[], Padded(s), Padded(s).ethPorts), Padded(t), port);
  }

  lemma {:induction false} TwoSamples(s: Sample, t: Sample)
    requires Is(t, s.device, s.serial)
    ensures Mine([s, t], s.device, s.serial) == [s, t] && [s, t][..1] == [s]
    ensures ObserveAll([s], "backfill").ports == PortsAfter(map[], Padded(s), Padded(s).ethPorts)
  {
    hide Padded, StatusEventsFrom, EthEventsOf, OnuAfter, PortsAfter;
    assert [s, t][..1] == [s] && [s][..0] == [];
    assert Mine([s], s.device, s.serial) == Mine([s][..0], s.device, s.serial) + [s];
  }

  lemma {:induction false} PaddedTime(s: Sample, t: Sample)
    requires t == s.(time := t.time)
    ensures Padded(t).ethPorts == Padded(s).ethPorts
  {
  }

  // ----- once is enough -----

  lemma {:induction false} ReplaySources(rows: seq<Sample>)
    ensures forall e :: e in ReplayAll(rows).statusLog ==> e.source == "backfill"
    ensures forall e :: e in ReplayAll(rows).ethLog ==> e.source == "backfill"
  {
    hide Padded, NotePorts, EthEventsOf, StatusChanged;
    if rows != [] {
      var r, s := ReplayAll(rows[..|rows| - 1]), Padded(rows[|rows| - 1]);
      ReplaySources(rows[..|rows| - 1]);
      EthSources(EthAt(r.eth, OnuKey(s.device, s.serial)), s, s.ethPorts);
    }
  }

  lemma {:induction false} EthSources(prev: map<int, PortState>, s: Sample, ports: seq<EthPort>)
    ensures forall e :: e in EthEventsOf(prev, s, ports, "backfill") ==> e.source == "backfill"
  {
    hide PortChanged;
    if ports != [] {
      EthSources(prev, s, ports[..|ports| - 1]);
    }
  }

  lemma {:induction false} DerivedRemoved(log: seq<StatusEvent>, derived: seq<StatusEvent>, source: string)
    requires forall e :: e in derived ==> e.source == source
    ensures WithoutStatus(WithoutStatus(log, source) + derived, source) == WithoutStatus(log, source)
  {
    var kept := WithoutStatus(log, source);
    if derived != [] {
      assert (kept + derived)[..|kept + derived| - 1] == kept + derived[..|derived| - 1];
      assert derived[|derived| - 1] in derived;
      DerivedRemoved(log, derived[..|derived| - 1], source);
    } else {
      assert kept + derived == kept;
      KeptOthers(log, source);
      NothingRemoved(kept, source);
    }
  }

  lemma {:induction false} KeptOthers(log: seq<StatusEvent>, source: string)
    ensures forall e :: e in WithoutStatus(log, source) ==> e.source != source
  {
    if log != [] {
      KeptOthers(log[..|log| - 1], source);
    }
  }

  lemma {:induction false} DerivedEthRemoved(log: seq<EthEvent>, derived: seq<EthEvent>, source: string)
    requires forall e :: e in derived ==> e.source == source
    ensures WithoutEth(WithoutEth(log, source) + derived, source) == WithoutEth(log, source)
  {
    var kept := WithoutEth(log, source);
    if derived != [] {
      assert (kept + derived)[..|kept + derived| - 1] == kept + derived[..|derived| - 1];
      assert derived[|derived| - 1] in derived;
      DerivedEthRemoved(log, derived[..|derived| - 1], source);
    } else {
      assert kept + derived == kept;
      EthKeptTwice(log, source);
    }
  }

  lemma {:induction false} EthKeptTwice(log: seq<EthEvent>, source: string)
    ensures WithoutEth(WithoutEth(log, source), source) == WithoutEth(log, source)
  {
    if log != [] {
      EthKeptTwice(log[..|log| - 1], source);
      var before := WithoutEth(log[..|log| - 1], source);
      assert (before + [log[|log| - 1]])[..|before|] == before;
    }
  }

  ghost predicate OnePerOnu(list: seq<Sample>) {
    && (forall i :: 0 <= i < |list| ==> list[i].serial != "")
    && (forall i, j :: 0 <= i < j < |list| ==> !Is(list[j], list[i].device, list[i].serial))
  }

  lemma {:induction false} OneEach(rows: seq<Sample>, list: seq<Sample>)
    requires forall i :: 0 <= i < |rows| ==> rows[i].serial != ""
    requires LatestSamples(ReplayAll(rows), list)
    ensures OnePerOnu(list)
  {
    hide ReplayAll, LatestSamples;
    LatestDistinct(rows, list);
  }

  /** The port table does not depend on the order in which the latest samples are listed. */
  lemma {:induction false} ListingIrrelevant(rows: seq<Sample>, a: seq<Sample>, b: seq<Sample>)
    requires forall i :: 0 <= i < |rows| ==> rows[i].serial != ""
    requires LatestSamples(ReplayAll(rows), a) && LatestSamples(ReplayAll(rows), b)
    ensures UpsertEthState(map[], a) == UpsertEthState(map[], b)
  {
    var got, want := UpsertEthState(map[], a), UpsertEthState(map[], b);
    hide UpsertEthState, ReplayAll, DbPortsOf, LatestSamples, OnePerOnu;
    OneEach(rows, a);
    OneEach(rows, b);
    forall k: (string, string, int) ensures (k in got <==> k in want) && (k in got ==> got[k] == want[k]) {
      SamePorts(ReplayAll(rows), a, b, k.0, k.1);
      PortsAt(got, k);
      PortsAt(want, k);
    }
  }

  lemma {:induction false} PortsAt(ports: map<(string, string, int), PortState>, k: (string, string, int))
    ensures k in ports <==> k.2 in DbPortsOf(ports, k.0, k.1)
    ensures k in ports ==> ports[k] == DbPortsOf(ports, k.0, k.1)[k.2]
  {
  }

  lemma {:induction false} SamePorts(r: Replayed, a: seq<Sample>, b: seq<Sample>, device: string, serial: string)
    requires OnePerOnu(a) && OnePerOnu(b) && LatestSamples(r, a) && LatestSamples(r, b)
    ensures DbPortsOf(UpsertEthState(map[], a), device, serial) == DbPortsOf(UpsertEthState(map[], b), device, serial)
  {
    hide UpsertEthState, OnuKey;
    if s :| s in a && Is(s, device, serial) {
      assert s in b;
      FreshPorts(a, s, device, serial);
      FreshPorts(b, s, device, serial);
    } else {
      assert forall t :: t in b && Is(t, device, serial) ==> t in a;
      var s := Sample(0, device, serial, 0, 0, 0, "", "", "", [], 0, "");
      FreshPorts(a, s, device, serial);
      FreshPorts(b, s, device, serial);
    }
  }

  /** The newest events of an ONU agree on the status before. */
  ghost predicate OneNewest(log: seq<StatusEvent>) {
    forall e, f :: NewestIs(log, Some(e)) && NewestIs(log, Some(f)) ==> e.previousStatus == f.previousStatus
  }

  lemma {:induction false} UpdatedTwice(was: OnuState, log: seq<StatusEvent>, device: string, serial: string,
                                        once: OnuState, twice: OnuState)
    requires RowUpdated(was, log, device, serial, once) && RowUpdated(once, log, device, serial, twice)
    requires OneNewest(StatusOf(log, device, serial))
    ensures twice == once
  {
    hide ExpectedEthernetPorts;
  }

  /** Main result: when no two stored samples of an ONU have one time, a second backfill leaves both logs, the port
      table and the samples as the first left them, and the ONU rows too as long as the newest events of an ONU
      agree. */
  lemma {:induction false} BackfillIsIdempotent(db: Db, rows: seq<Sample>, list: seq<Sample>, once: Db,
                                                again: seq<Sample>, relisted: seq<Sample>, twice: Db)
    requires Backfilled(db, rows, list, once) && Backfilled(once, again, relisted, twice)
    requires Increasing(RowLess, rows)
    ensures twice == once.(onus := twice.onus)
    ensures (forall k :: k in once.onus ==> OneNewest(StatusOf(once.statusLog, k.0, k.1))) ==> twice == once
  {
    hide ReplayAll, UpsertEthState, WithoutStatus, WithoutEth, RowsUpdated, OneNewest, LatestSamples, QueryRows,
      StatusOf, Increasing;
    SameRowsAgain(db.samples, rows, again);
    ReplaySources(rows);
    DerivedRemoved(db.statusLog, ReplayAll(rows).statusLog, "backfill");
    DerivedEthRemoved(db.ethLog, ReplayAll(rows).ethLog, "backfill");
    ListingIrrelevant(rows, list, relisted);
    if forall k :: k in once.onus ==> OneNewest(StatusOf(once.statusLog, k.0, k.1)) {
      RowsTwice(db.onus, once.statusLog, once.onus, twice.onus);
    }
  }

  lemma {:induction false} RowsTwice(was: map<(string, string), OnuState>, log: seq<StatusEvent>,
                                     once: map<(string, string), OnuState>, twice: map<(string, string), OnuState>)
    requires RowsUpdated(was, log, once) && RowsUpdated(once, log, twice)
    requires forall k :: k in once ==> OneNewest(StatusOf(log, k.0, k.1))
    ensures twice == once
  {
    hide RowUpdated, OneNewest, StatusOf;
    forall k | k in once ensures twice[k] == once[k] {
      UpdatedTwice(was[k], log, k.0, k.1, once[k], twice[k]);
    }
  }

  /** The query has one answer when the order by device, serial and time leaves no ties. */
  lemma {:induction false} SameRowsAgain(stored: seq<Sample>, rows: seq<Sample>, again: seq<Sample>)
    requires QueryRows(stored, rows) && QueryRows(stored, again) && Increasing(RowLess, rows)
    ensures again == rows
    ensures forall i :: 0 <= i < |rows| ==> rows[i].serial != ""
  {
    hide RowLess;
    RowLessOrder();
    forall e: Sample ensures multiset(rows)[e] == multiset(again)[e] {
    }
    assert multiset(rows) == multiset(again);
    OrderedUnique(RowLess, again, rows);
    forall i | 0 <= i < |rows| ensures rows[i].serial != "" {
      assert rows[i] in multiset(rows);
    }
  }
}
