/** Polls that could not read every ONU: its serial is then empty, any number of times. The stores still agree on
    every ONU that was read. */
module UnreadOnus {
  import opened Text
  import opened Events
  import opened Transitions
  import opened Tables
  import opened StoreAgreement

  function Named(list: seq<Sample>): (r: seq<Sample>)
    ensures forall i :: 0 <= i < |r| ==> r[i].serial != "" && r[i] in list
  {
    if list == [] then []
    else
      var before := Named(list[..|list| - 1]);
      if list[|list| - 1].serial == "" then before else before + [list[|list| - 1]]
  }

  function NamedAll(batches: seq<seq<Sample>>): (r: seq<seq<Sample>>)
    ensures |r| == |batches| && forall i :: 0 <= i < |r| ==> r[i] == Named(batches[i])
  {
    if batches == [] then [] else NamedAll(batches[..|batches| - 1]) + [Named(batches[|batches| - 1])]
  }

  /** What a PON poll hands over: one device, and no serial twice except the empty one. */
  ghost predicate Polled(batch: seq<Sample>) {
    && (forall i :: 0 <= i < |batch| ==> ValidDevice(batch[i].device) && batch[i].device == batch[0].device)
    && (forall i, j :: 0 <= i < j < |batch| && batch[i].serial != "" ==> batch[i].serial != batch[j].serial)
  }

  lemma {:induction false} NamedAt(list: seq<Sample>, i: nat, j: nat)
    requires i < j < |Named(list)|
    ensures exists k, l :: 0 <= k < l < |list| && list[k] == Named(list)[i] && list[l] == Named(list)[j]
  {
    var n := |list| - 1;
    if list[n].serial != "" && j == |Named(list)| - 1 {
      assert Named(list[..n])[i] in list[..n];
      var k :| 0 <= k < n && list[..n][k] == Named(list)[i];
      assert list[k] == Named(list)[i] && list[n] == Named(list)[j];
    } else {
      NamedAt(list[..n], i, j);
      var k, l :| 0 <= k < l < n && list[..n][k] == Named(list[..n])[i] && list[..n][l] == Named(list[..n])[j];
      assert list[k] == Named(list)[i] && list[l] == Named(list)[j];
    }
  }

  lemma {:induction false} NamedIsGood(batch: seq<Sample>)
    requires Polled(batch)
    ensures GoodBatch(Named(batch))
    ensures Named(batch) != [] ==> Named(batch)[0].device == batch[0].device
  {
    var r := Named(batch);
    forall i | 0 <= i < |r| ensures ValidDevice(r[i].device) && r[i].device == batch[0].device {
      assert r[i] in batch;
    }
    forall i, j | 0 <= i < j < |r| ensures r[i].serial != r[j].serial {
      NamedAt(batch, i, j);
    }
  }

  lemma {:induction false} NamedMine(list: seq<Sample>, device: string, serial: string)
    requires serial != ""
    ensures Mine(Named(list), device, serial) == Mine(list, device, serial)
  {
    if list != [] {
      NamedMine(list[..|list| - 1], device, serial);
      assert (Named(list[..|list| - 1]) + [list[|list| - 1]])[..|Named(list[..|list| - 1])|] ==
        Named(list[..|list| - 1]);
    }
  }

  lemma {:induction false} NamedFlatten(batches: seq<seq<Sample>>)
    ensures Flatten(NamedAll(batches)) == Named(Flatten(batches))
  {
    if batches != [] {
      NamedFlatten(batches[..|batches| - 1]);
      NamedConcat(Flatten(batches[..|batches| - 1]), batches[|batches| - 1]);
    }
  }

  lemma {:induction false} NamedConcat(a: seq<Sample>, b: seq<Sample>)
    ensures Named(a + b) == Named(a) + Named(b)
  {
    if b == [] {
      assert a + b == a;
    } else {
      assert (a + b)[..|a + b| - 1] == a + b[..|b| - 1];
      NamedConcat(a, b[..|b| - 1]);
    }
  }

  // ----- the durable store does not notice the unread ones -----

  /** Equal but for what was logged and stored under the empty serial. */
  ghost predicate SameNamed(a: Db, b: Db) {
    && a.onus == b.onus && a.statusLog == b.statusLog && OwnKeys(a.ports) && OwnKeys(b.ports)
    && forall d, s :: s != "" ==> SameOnu(a, b, d, s)
  }

  ghost predicate SameOnu(a: Db, b: Db, device: string, serial: string) {
    && DbPortsOf(a.ports, device, serial) == DbPortsOf(b.ports, device, serial)
    && EthOf(a.ethLog, device, serial) == EthOf(b.ethLog, device, serial)
  }

  lemma {:induction false} UnreadPorts(ports: map<(string, string, int), PortState>, s: Sample, list: seq<EthPort>,
                                       device: string, serial: string)
    requires s.serial == "" && OwnKeys(ports)
    ensures OwnKeys(UpsertPorts(ports, s, list))
    ensures serial != "" ==> DbPortsOf(UpsertPorts(ports, s, list), device, serial) == DbPortsOf(ports, device, serial)
  {
    if list != [] {
      UnreadPorts(ports, s, list[..|list| - 1], device, serial);
      var before, p := UpsertPorts(ports, s, list[..|list| - 1]), list[|list| - 1];
      var key := (s.device, s.serial, p.port);
      PutRowDb(before, key, UpsertPort(PortOption(before, key), s, p), device, serial);
    }
  }

  lemma {:induction false} UnreadStatus(prev: OnuState, s: Sample)
    requires s.serial == ""
    ensures StatusEventsFrom(prev, s, "poller") == [] && Blank(s.serial)
  {
    assert TrimSpace("") == "";
  }

  lemma {:induction false} NamedOnus(onus: map<(string, string), OnuState>, batch: seq<Sample>)
    ensures UpsertOnus(onus, PadAll(batch)) == UpsertOnus(onus, PadAll(Named(batch)))
  {
    hide Padded, UpsertOnu, Blank, Named, PadAll;
    if batch == [] {
      NoneNamed();
    } else {
      var before, raw := batch[..|batch| - 1], batch[|batch| - 1];
      NamedOnus(onus, before);
      PadAllInit(batch);
      if raw.serial == "" {
        PaddedIdempotent(raw);
        UnreadStatus(NO_ONU, Padded(raw));
        SkipBlank(UpsertOnus(onus, PadAll(before)), Padded(raw));
        NamedSkips(batch);
      } else {
        NamedInit(batch);
        PadAllInit(Named(batch));
      }
    }
  }

  lemma {:induction false} NamedPorts(a: map<(string, string, int), PortState>,
                                      b: map<(string, string, int), PortState>, batch: seq<Sample>, device: string,
                                      serial: string)
    requires OwnKeys(a) && OwnKeys(b) && serial != ""
    requires DbPortsOf(a, device, serial) == DbPortsOf(b, device, serial)
    ensures OwnKeys(UpsertEthState(a, PadAll(batch))) && OwnKeys(UpsertEthState(b, PadAll(Named(batch))))
    ensures DbPortsOf(UpsertEthState(a, PadAll(batch)), device, serial) ==
            DbPortsOf(UpsertEthState(b, PadAll(Named(batch))), device, serial)
  {
    hide Padded, UpsertPorts, DbPortsOf, OwnKeys, Named, PadAll;
    if batch == [] {
      NoneNamed();
    } else {
      var before, raw := batch[..|batch| - 1], batch[|batch| - 1];
      var s := Padded(raw);
      PaddedIdempotent(raw);
      NamedPorts(a, b, before, device, serial);
      PadAllInit(batch);
      if raw.serial == "" {
        UnreadPorts(UpsertEthState(a, PadAll(before)), s, s.ethPorts, device, serial);
        NamedSkips(batch);
      } else {
        NamedInit(batch);
        PadAllInit(Named(batch));
        UpsertPortsProjects(UpsertEthState(a, PadAll(before)), s, s.ethPorts, device, serial);
        UpsertPortsProjects(UpsertEthState(b, PadAll(Named(before))), s, s.ethPorts, device, serial);
      }
    }
  }

  /** The tables after the upserts of a batch. */
  lemma {:induction false} NamedTables(a: Db, b: Db, batch: seq<Sample>, device: string, serial: string)
    requires SameNamed(a, b) && serial != ""
    ensures OwnKeys(UpsertEthState(a.ports, PadAll(batch))) && OwnKeys(UpsertEthState(b.ports, PadAll(Named(batch))))
    ensures DbPortsOf(UpsertEthState(a.ports, PadAll(batch)), device, serial) ==
            DbPortsOf(UpsertEthState(b.ports, PadAll(Named(batch))), device, serial)
    ensures UpsertOnus(a.onus, PadAll(batch)) == UpsertOnus(b.onus, PadAll(Named(batch)))
  {
    hide SameNamed, UpsertEthState, UpsertOnus, PadAll, Named, DbPortsOf, OwnKeys;
    SameNamedAt(a, b, device, serial);
    NamedOnus(a.onus, batch);
    NamedPorts(a.ports, b.ports, batch, device, serial);
  }

  lemma {:induction false} NoneNamed()
    ensures Named([]) == [] && PadAll([]) == []
  {
  }

  lemma {:induction false} NamedSkips(batch: seq<Sample>)
    requires batch != [] && batch[|batch| - 1].serial == ""
    ensures Named(batch) == Named(batch[..|batch| - 1])
  {
  }

  lemma {:induction false} SkipBlank(onus: map<(string, string), OnuState>, s: Sample)
    requires Blank(s.serial)
    ensures UpsertOnu(onus, s) == onus
  {
  }

  lemma {:induction false} NamedInit(batch: seq<Sample>)
    requires batch != [] && batch[|batch| - 1].serial != ""
    ensures var r := Named(batch);
            r != [] && r[..|r| - 1] == Named(batch[..|batch| - 1]) && r[|r| - 1] == batch[|batch| - 1]
  {
  }

  lemma {:induction false} SameNamedAt(a: Db, b: Db, device: string, serial: string)
    requires SameNamed(a, b) && serial != ""
    ensures DbPortsOf(a.ports, device, serial) == DbPortsOf(b.ports, device, serial)
    ensures EthOf(a.ethLog, device, serial) == EthOf(b.ethLog, device, serial)
    ensures OwnKeys(a.ports) && OwnKeys(b.ports) && a.onus == b.onus
  {
    assert SameOnu(a, b, device, serial);
  }

  /** The events of a batch, for one ONU that was read. */
  lemma {:induction false} NamedEvents(a: Db, b: Db, batch: seq<Sample>, target: string, device: string, serial: string)
    requires SameNamed(a, b) && serial != ""
    ensures StatusBatch(a.onus, target, batch) == StatusBatch(b.onus, target, Named(batch))
    ensures EthOf(EthBatch(a.ports, batch), device, serial) == EthOf(EthBatch(b.ports, Named(batch)), device, serial)
  {
    hide Padded, StatusEventsFrom, EthEventsOf, DbPortsOf, OwnKeys, SameNamed, RowAt;
    SameNamedAt(a, b, device, serial);
    if batch != [] {
      var before, raw := batch[..|batch| - 1], batch[|batch| - 1];
      var s := Padded(raw);
      PaddedIdempotent(raw);
      NamedEvents(a, b, before, target, device, serial);
      var added := EthEventsOf(EthPrev(a.ports, s.device, s.serial), s, s.ethPorts, "poller");
      EthOfAppend(EthBatch(a.ports, before), added, device, serial);
      EthEventsOwner(EthPrev(a.ports, s.device, s.serial), s, s.ethPorts, "poller", device, serial);
      if raw.serial == "" {
        UnreadStatus(RowAt(a.onus, target, s.serial), s);
      } else {
        SameNamedAt(a, b, s.device, s.serial);
        NamedInit(batch);
        EthOfAppend(EthBatch(b.ports, Named(before)), added, device, serial);
      }
    }
  }

  lemma {:induction false} NamedPoll(a: Db, b: Db, batch: seq<Sample>)
    requires SameNamed(a, b) && Polled(batch)
    ensures SameNamed(PollBatch(a, batch), PollBatch(b, Named(batch)))
  {
    var na, nb := PollBatch(a, batch), PollBatch(b, Named(batch));
    NamedIsGood(batch);
    LogsOfPoll(a, batch);
    LogsOfPoll(b, Named(batch));
    var target := if batch == [] then "" else batch[0].device;
    NamedEvents(a, b, batch, target, "", "x");
    NamedTables(a, b, batch, "", "x");
    hide PollBatch, StatusBatch, EthBatch, PadAll, Polled, Named;
    forall d: string, s: string | s != "" ensures SameOnu(na, nb, d, s) {
      NamedEvents(a, b, batch, target, d, s);
      NamedTables(a, b, batch, d, s);
      SameNamedAt(a, b, d, s);
      EthOfAppend(a.ethLog, EthBatch(a.ports, batch), d, s);
      EthOfAppend(b.ethLog, EthBatch(b.ports, Named(batch)), d, s);
    }
  }

  lemma {:induction false} NoLogs(db: Db)
    ensures db.statusLog + StatusBatch(db.onus, "", []) == db.statusLog
            && db.ethLog + EthBatch(db.ports, []) == db.ethLog
    ensures UpsertEthState(db.ports, PadAll([])) == db.ports && UpsertOnus(db.onus, PadAll([])) == db.onus
  {
    assert db.statusLog + [] == db.statusLog && db.ethLog + [] == db.ethLog;
  }

  lemma {:induction false} LogsOfPoll(db: Db, batch: seq<Sample>)
    ensures var next := PollBatch(db, batch);
            && next.statusLog == db.statusLog + StatusBatch(db.onus, if batch == [] then "" else batch[0].device, batch)
            && next.ethLog == db.ethLog + EthBatch(db.ports, batch)
            && next.ports == UpsertEthState(db.ports, PadAll(batch)) && next.onus == UpsertOnus(db.onus, PadAll(batch))
  {
    hide StatusBatch, EthBatch, UpsertEthState, UpsertOnus, PadAll;
    NoLogs(db);
  }

  lemma {:induction false} NamedRun(batches: seq<seq<Sample>>)
    requires forall i :: 0 <= i < |batches| ==> Polled(batches[i])
    ensures SameNamed(PollAll(batches), PollAll(NamedAll(batches)))
  {
    hide PollBatch, SameNamed, Polled;
    if batches == [] {
      NothingNamed();
    } else {
      NamedRun(batches[..|batches| - 1]);
      NamedPoll(PollAll(batches[..|batches| - 1]), PollAll(NamedAll(batches[..|batches| - 1])), batches[|batches| - 1]);
    }
  }

  lemma {:induction false} NothingNamed()
    ensures SameNamed(EMPTY_DB, EMPTY_DB)
  {
  }

  // ----- the stores agree on every ONU that was read -----

  /** One ONU as the durable store knows it. */
  ghost predicate DurableIs(o: Onu, db: Db, device: string, serial: string) {
    && StatusOf(db.statusLog, device, serial) == o.statusLog
    && EthOf(db.ethLog, device, serial) == o.ethLog
    && DbPortsOf(db.ports, device, serial) == o.ports
    && (!Blank(serial) ==> SameObserved(o.state, RowAt(db.onus, device, serial)))
  }

  lemma {:induction false} GoodDurable(batches: seq<seq<Sample>>, device: string, serial: string)
    requires forall i :: 0 <= i < |batches| ==> GoodBatch(batches[i])
    requires ValidDevice(device) && serial != ""
    ensures DurableIs(ObserveAll(Mine(Flatten(batches), device, serial), "poller"), PollAll(batches), device, serial)
  {
    StoresAgree(batches);
    RecordAllProjects(Flatten(batches), device, serial);
    hide RecordAll, PollAll, ObserveAll, StatusOf, EthOf, PortsOf, DbPortsOf, OnuAt, RowAt, SameObserved, Blank, OnuKey,
      OwnKeys;
    var m, db := RecordAll(EMPTY, Flatten(batches)), PollAll(batches);
    assert Agrees(m, db.onus, db.ports, device, serial);
    var o := Project(m, device, serial);
    assert o == ObserveAll(Mine(Flatten(batches), device, serial), "poller");
  }

  /** Main result: over every run of polls, ONUs that could not be read included, both stores know every ONU that was
      read alike: its status and Ethernet events, its ports, and its row up to the two last-change columns. */
  lemma {:induction false} StoresAgreeOnReadOnus(batches: seq<seq<Sample>>, device: string, serial: string)
    requires forall i :: 0 <= i < |batches| ==> Polled(batches[i])
    requires ValidDevice(device) && serial != ""
    ensures ValidDevices(Flatten(batches))
    ensures DurableIs(Project(RecordAll(EMPTY, Flatten(batches)), device, serial), PollAll(batches), device, serial)
  {
    PolledDevices(batches);
    RecordAllProjects(Flatten(batches), device, serial);
    NamedRun(batches);
    NamedFlatten(batches);
    NamedMine(Flatten(batches), device, serial);
    forall i | 0 <= i < |batches| ensures GoodBatch(NamedAll(batches)[i]) {
      NamedIsGood(batches[i]);
    }
    GoodDurable(NamedAll(batches), device, serial);
    SameNamedAt(PollAll(batches), PollAll(NamedAll(batches)), device, serial);
  }

  lemma {:induction false} PolledDevices(batches: seq<seq<Sample>>)
    requires forall i :: 0 <= i < |batches| ==> Polled(batches[i])
    ensures ValidDevices(Flatten(batches))
  {
    hide ValidDevice;
    if batches != [] {
      PolledDevices(batches[..|batches| - 1]);
    }
  }

  /** Main result: when the statuses come from the collector, the rows agree in all columns. */
  lemma {:induction false} ReadRowsAgree(batches: seq<seq<Sample>>, device: string, serial: string)
    requires forall i :: 0 <= i < |batches| ==> Polled(batches[i])
    requires forall i, j :: 0 <= i < |batches| && 0 <= j < |batches[i]| ==> Collects(batches[i][j].status)
    requires ValidDevice(device) && !Blank(serial)
    ensures ValidDevices(Flatten(batches))
    ensures OnuAt(RecordAll(EMPTY, Flatten(batches)).onus, OnuKey(device, serial)) ==
            RowAt(PollAll(batches).onus, device, serial)
  {
    NamedSerial(serial);
    PolledDevices(batches);
    var named := NamedAll(batches);
    forall i | 0 <= i < |batches| ensures GoodBatch(named[i]) {
      NamedIsGood(batches[i]);
    }
    forall i, j | 0 <= i < |named| && 0 <= j < |named[i]| ensures Collects(named[i][j].status) {
      assert named[i][j] in batches[i];
    }
    CollectedRowsAgree(named, device, serial);
    NamedRun(batches);
    RecordAllProjects(Flatten(batches), device, serial);
    RecordAllProjects(Flatten(named), device, serial);
    NamedFlatten(batches);
    NamedMine(Flatten(batches), device, serial);
    hide RecordAll, PollAll, ObserveAll, PortsOf, StatusOf, EthOf, OnuKey, OnuAt, RowAt;
  }

  // ----- the whole logs -----

  /** The samples without a serial list no ports, as when the details of an ONU could not be asked for. */
  predicate Portless(list: seq<Sample>) {
    forall i :: 0 <= i < |list| && list[i].serial == "" ==> Padded(list[i]).ethPorts == []
  }

  lemma {:induction false} NoPortsNoEvents(prev: map<int, PortState>, s: Sample)
    ensures EthEventsOf(prev, s, [], "poller") == []
  {
  }

  lemma {:induction false} NamedEthBatch(a: Db, b: Db, batch: seq<Sample>)
    requires SameNamed(a, b) && Portless(batch)
    ensures EthBatch(a.ports, batch) == EthBatch(b.ports, Named(batch))
  {
    hide Padded, EthEventsOf, DbPortsOf, OwnKeys, SameNamed;
    if batch != [] {
      var before, raw := batch[..|batch| - 1], batch[|batch| - 1];
      var s := Padded(raw);
      PaddedIdempotent(raw);
      NamedEthBatch(a, b, before);
      if raw.serial == "" {
        NoPortsNoEvents(EthPrev(a.ports, s.device, s.serial), s);
        NamedSkips(batch);
      } else {
        SameNamedAt(a, b, s.device, s.serial);
        NamedInit(batch);
      }
    }
  }

  lemma {:induction false} NamedEthLog(batches: seq<seq<Sample>>)
    requires forall i :: 0 <= i < |batches| ==> Polled(batches[i]) && Portless(batches[i])
    ensures PollAll(batches).ethLog == PollAll(NamedAll(batches)).ethLog
  {
    hide PollBatch, SameNamed, Polled, Portless, EthBatch;
    if batches != [] {
      var front, batch := batches[..|batches| - 1], batches[|batches| - 1];
      NamedEthLog(front);
      NamedRun(front);
      NamedEthBatch(PollAll(front), PollAll(NamedAll(front)), batch);
      LogsOfPoll(PollAll(front), batch);
      LogsOfPoll(PollAll(NamedAll(front)), Named(batch));
    }
  }

  /** What the in-memory store logs does not depend on the samples without a serial either. */
  lemma {:induction false} NamedMemory(list: seq<Sample>)
    requires ValidDevices(list)
    ensures ValidDevices(Named(list))
    ensures var m, n := RecordAll(EMPTY, list), RecordAll(EMPTY, Named(list));
            m.statusLog == n.statusLog && (Portless(list) ==> m.ethLog == n.ethLog)
  {
    hide Padded, StatusEventsFrom, EthEventsOf, ObserveAll, PortsOf, StatusOf, EthOf;
    if list != [] {
      var before, raw := list[..|list| - 1], list[|list| - 1];
      var s := Padded(raw);
      PaddedIdempotent(raw);
      NamedMemory(before);
      var m, n := RecordAll(EMPTY, before), RecordAll(EMPTY, Named(before));
      if raw.serial == "" {
        UnreadStatus(OnuAt(m.onus, OnuKey(s.device, s.serial)), s);
        NoPortsNoEvents(PortsOf(m.ports, s.device, s.serial), s);
        NamedSkips(list);
      } else {
        NamedInit(list);
        RecordAllProjects(before, s.device, s.serial);
        RecordAllProjects(Named(before), s.device, s.serial);
        NamedMine(before, s.device, s.serial);
        assert Project(m, s.device, s.serial) == Project(n, s.device, s.serial);
      }
    }
  }

  lemma {:induction false} FlattenPortless(batches: seq<seq<Sample>>)
    requires forall i :: 0 <= i < |batches| ==> Portless(batches[i])
    ensures Portless(Flatten(batches))
  {
    hide Padded;
    if batches != [] {
      FlattenPortless(batches[..|batches| - 1]);
      assert Portless(batches[|batches| - 1]);
    }
  }

  /** Main result: over every run of polls the two status logs are equal entry by entry, however many ONUs could not be
      read; and so are the two Ethernet logs when those list no ports. */
  lemma {:induction false} LogsAgree(batches: seq<seq<Sample>>)
    requires forall i :: 0 <= i < |batches| ==> Polled(batches[i])
    ensures ValidDevices(Flatten(batches))
    ensures RecordAll(EMPTY, Flatten(batches)).statusLog == PollAll(batches).statusLog
    ensures (forall i :: 0 <= i < |batches| ==> Portless(batches[i])) ==>
            RecordAll(EMPTY, Flatten(batches)).ethLog == PollAll(batches).ethLog
  {
    hide RecordAll, PollAll, Portless, Polled, GoodBatch, Named;
    PolledDevices(batches);
    forall i | 0 <= i < |batches| ensures GoodBatch(NamedAll(batches)[i]) {
      NamedIsGood(batches[i]);
    }
    StoresAgree(NamedAll(batches));
    NamedRun(batches);
    NamedFlatten(batches);
    NamedMemory(Flatten(batches));
    if forall i :: 0 <= i < |batches| ==> Portless(batches[i]) {
      FlattenPortless(batches);
      NamedEthLog(batches);
    }
  }
}
