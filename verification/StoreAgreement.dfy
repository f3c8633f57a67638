/** The in-memory fold and the batch-snapshot tables derive the same history. */
module StoreAgreement {
  import opened Text
  import opened Events
  import opened EventLogs
  import opened Transitions
  import opened Tables
  import opened Ordering

  /** What a PON poll hands over: one device, serials present and pairwise distinct. */
  ghost predicate GoodBatch(batch: seq<Sample>) {
    && (forall i :: 0 <= i < |batch| ==> ValidDevice(batch[i].device) && batch[i].device == batch[0].device)
    && (forall i :: 0 <= i < |batch| ==> batch[i].serial != "")
    && (forall i, j :: 0 <= i < j < |batch| ==> batch[i].serial != batch[j].serial)
  }

  function Flatten(batches: seq<seq<Sample>>): seq<Sample> {
    if batches == [] then [] else Flatten(batches[..|batches| - 1]) + batches[|batches| - 1]
  }

  /** Equal in every column except the two that describe the last change. */
  predicate SameObserved(a: OnuState, b: OnuState) {
    a == b.(previousStatus := a.previousStatus, changedAt := a.changedAt)
  }

  /** The two stores agree on one ONU. */
  ghost predicate Agrees(m: Mem, onus: map<(string, string), OnuState>, ports: map<(string, string, int), PortState>,
                         device: string, serial: string)
    requires Keyed(m.ports)
  {
    && (!Blank(serial) ==> SameObserved(OnuAt(m.onus, OnuKey(device, serial)), RowAt(onus, device, serial)))
    && PortsOf(m.ports, device, serial) == DbPortsOf(ports, device, serial)
  }

  /** Port rows hold their own key. */
  predicate OwnKeys(ports: map<(string, string, int), PortState>) {
    forall k :: k in ports ==> ports[k].serial == k.1
  }

  ghost predicate TablesAgree(m: Mem, onus: map<(string, string), OnuState>,
                              ports: map<(string, string, int), PortState>) {
    && Keyed(m.ports)
    && OwnKeys(ports)
    && (forall d, s :: ValidDevice(d) && s != "" ==> Agrees(m, onus, ports, d, s))
  }

  // ----- projections of the table updates -----

  lemma {:induction false} PutRowDb(ports: map<(string, string, int), PortState>, key: (string, string, int),
                                    row: PortState, device: string, serial: string)
    ensures DbPortsOf(ports[key := row], device, serial) ==
            if key.0 == device && key.1 == serial then DbPortsOf(ports, device, serial)[key.2 := row]
            else DbPortsOf(ports, device, serial)
  {
    var got, was := DbPortsOf(ports[key := row], device, serial), DbPortsOf(ports, device, serial);
    var want := if key.0 == device && key.1 == serial then was[key.2 := row] else was;
    forall port ensures (port in got <==> port in want) && Prev(got, port) == Prev(want, port) {
      assert port in got <==> (device, serial, port) in ports[key := row];
      assert port in was <==> (device, serial, port) in ports;
    }
    SameRowsEqual(got, want);
  }

  lemma {:induction false} PutPortProjects(ports: map<(string, string, int), PortState>, s: Sample, p: EthPort,
                                           device: string, serial: string)
    requires s.serial != "" && OwnKeys(ports)
    ensures OwnKeys(PutPort(ports, s, p))
    ensures var mine := DbPortsOf(ports, device, serial);
            DbPortsOf(PutPort(ports, s, p), device, serial) ==
            if Is(s, device, serial) then mine[p.port := PortAfter(Prev(mine, p.port), s, p)] else mine
  {
    var key := (s.device, s.serial, p.port);
    assert p.port in DbPortsOf(ports, s.device, s.serial) <==> key in ports;
    assert UpsertPort(PortOption(ports, key), s, p) ==
      PortAfter(Prev(DbPortsOf(ports, s.device, s.serial), p.port), s, p);
    PutRowDb(ports, key, UpsertPort(PortOption(ports, key), s, p), device, serial);
  }

  lemma {:induction false} UpsertPortsProjects(ports: map<(string, string, int), PortState>, s: Sample,
                                               list: seq<EthPort>, device: string, serial: string)
    requires s.serial != "" && OwnKeys(ports)
    ensures OwnKeys(UpsertPorts(ports, s, list))
    ensures DbPortsOf(UpsertPorts(ports, s, list), device, serial) ==
            if Is(s, device, serial) then PortsAfter(DbPortsOf(ports, device, serial), s, list)
              else DbPortsOf(ports, device, serial)
  {
    if list != [] {
      UpsertPortsProjects(ports, s, list[..|list| - 1], device, serial);
      PutPortProjects(UpsertPorts(ports, s, list[..|list| - 1]), s, list[|list| - 1], device, serial);
    }
  }

  lemma {:induction false} UpsertOnuAt(onus: map<(string, string), OnuState>, s: Sample, device: string, serial: string)
    requires !Blank(serial)
    ensures RowOption(UpsertOnu(onus, s), device, serial) ==
            if Is(s, device, serial) then Some(UpsertRow(RowOption(onus, device, serial), s))
              else RowOption(onus, device, serial)
  {
  }

  lemma {:induction false} SameAfter(a: OnuState, onus: map<(string, string), OnuState>, s: Sample, device: string,
                                     serial: string)
    requires !Blank(serial) && SameObserved(a, RowAt(onus, device, serial))
    requires s.expectedPorts == ExpectedEthernetPorts(s.onuType)
    ensures SameObserved(if Is(s, device, serial) then OnuAfter(a, s) else a, RowAt(UpsertOnu(onus, s), device, serial))
  {
    UpsertOnuAt(onus, s, device, serial);
  }

  /** Recording one sample and upserting it keep every ONU in agreement. */
  lemma {:induction false} RecordStepAgrees(m: Mem, onus: map<(string, string), OnuState>,
                                            ports: map<(string, string, int), PortState>, raw: Sample, s: Sample,
                                            device: string, serial: string)
    requires Keyed(m.ports) && OwnKeys(ports) && Agrees(m, onus, ports, device, serial)
    requires ValidDevice(raw.device) && raw.serial != "" && ValidDevice(device) && s == Padded(raw)
    ensures Agrees(RecordOne(m, raw), UpsertOnu(onus, s), UpsertPorts(ports, s, s.ethPorts), device, serial)
  {
    RecordOneAt(m, raw, device, serial);
    PaddedIdempotent(raw);
    UpsertPortsProjects(ports, s, s.ethPorts, device, serial);
    if !Blank(serial) {
      SameAfter(OnuAt(m.onus, OnuKey(device, serial)), onus, s, device, serial);
    }
  }

  lemma {:induction false} RecordStepTables(m: Mem, onus: map<(string, string), OnuState>,
                                            ports: map<(string, string, int), PortState>, raw: Sample)
    requires TablesAgree(m, onus, ports) && ValidDevice(raw.device) && raw.serial != ""
    ensures TablesAgree(RecordOne(m, raw), UpsertOnu(onus, Padded(raw)),
                        UpsertPorts(ports, Padded(raw), Padded(raw).ethPorts))
  {
    var s := Padded(raw);
    PaddedIdempotent(raw);
    UpsertPortsProjects(ports, s, s.ethPorts, s.device, s.serial);
    forall d, t | ValidDevice(d) && t != ""
      ensures Agrees(RecordOne(m, raw), UpsertOnu(onus, s), UpsertPorts(ports, s, s.ethPorts), d, t)
    {
      RecordStepAgrees(m, onus, ports, raw, s, d, t);
    }
  }

  // ----- rows a batch has not reached yet -----

  lemma {:induction false} UnreachedOnu(onus: map<(string, string), OnuState>, list: seq<Sample>, device: string,
                                        serial: string)
    requires !Blank(serial)
    requires forall i :: 0 <= i < |list| ==> list[i].serial != serial
    ensures RowAt(UpsertOnus(onus, PadAll(list)), device, serial) == RowAt(onus, device, serial)
  {
    if list != [] {
      var before, s := list[..|list| - 1], Padded(list[|list| - 1]);
      PadAllInit(list);
      PaddedIdempotent(list[|list| - 1]);
      UnreachedOnu(onus, before, device, serial);
      UpsertOnuAt(UpsertOnus(onus, PadAll(before)), s, device, serial);
    }
  }

  lemma {:induction false} UnreachedPorts(ports: map<(string, string, int), PortState>, list: seq<Sample>,
                                          device: string, serial: string)
    requires OwnKeys(ports)
    requires forall i :: 0 <= i < |list| ==> list[i].serial != serial && list[i].serial != ""
    ensures OwnKeys(UpsertEthState(ports, PadAll(list)))
    ensures DbPortsOf(UpsertEthState(ports, PadAll(list)), device, serial) == DbPortsOf(ports, device, serial)
  {
    if list != [] {
      var before, s := list[..|list| - 1], Padded(list[|list| - 1]);
      PadAllInit(list);
      PaddedIdempotent(list[|list| - 1]);
      UnreachedPorts(ports, before, device, serial);
      UpsertPortsProjects(UpsertEthState(ports, PadAll(before)), s, s.ethPorts, device, serial);
    }
  }

  lemma {:induction false} PadAllInit(list: seq<Sample>)
    requires list != []
    ensures PadAll(list)[..|list| - 1] == PadAll(list[..|list| - 1])
    ensures PadAll(list)[|list| - 1] == Padded(list[|list| - 1])
    ensures PadAll(list) != []
  {
  }

  // ----- one batch -----

  /** Recording one more sample of a batch appends what the tables before the batch say, since no
      earlier sample of the batch touched this serial. */
  lemma {:induction false} SampleAgrees(r: Mem, db: Db, before: seq<Sample>, raw: Sample)
    requires Keyed(r.ports) && OwnKeys(db.ports) && ValidDevice(raw.device) && raw.serial != ""
    requires Agrees(r, UpsertOnus(db.onus, PadAll(before)), UpsertEthState(db.ports, PadAll(before)), raw.device,
                    raw.serial)
    requires forall i :: 0 <= i < |before| ==> before[i].serial != raw.serial && before[i].serial != ""
    ensures var s := Padded(raw);
            && RecordOne(r, raw).statusLog ==
              r.statusLog + StatusEventsFrom(RowAt(db.onus, raw.device, raw.serial), s, "poller")
            && RecordOne(r, raw).ethLog ==
              r.ethLog + EthEventsOf(DbPortsOf(db.ports, raw.device, raw.serial), s, s.ethPorts, "poller")
  {
    PaddedIdempotent(raw);
    UnreachedPorts(db.ports, before, raw.device, raw.serial);
    if !Blank(raw.serial) {
      UnreachedOnu(db.onus, before, raw.device, raw.serial);
    }
    SameDecision(OnuAt(r.onus, OnuKey(raw.device, raw.serial)), RowAt(db.onus, raw.device, raw.serial), Padded(raw));
  }

  ghost predicate BatchDone(r: Mem, db: Db, batch: seq<Sample>, device: string) {
    && r.statusLog == db.statusLog + StatusBatch(db.onus, device, batch)
    && r.ethLog == db.ethLog + EthBatch(db.ports, batch)
    && TablesAgree(r, UpsertOnus(db.onus, PadAll(batch)), UpsertEthState(db.ports, PadAll(batch)))
  }

  lemma {:induction false} BatchStep(r: Mem, db: Db, before: seq<Sample>, raw: Sample)
    requires BatchDone(r, db, before, raw.device) && OwnKeys(db.ports)
    requires ValidDevice(raw.device) && raw.serial != ""
    requires forall i :: 0 <= i < |before| ==> before[i].serial != raw.serial && before[i].serial != ""
    ensures BatchDone(RecordOne(r, raw), db, before + [raw], raw.device)
  {
    var onus, ports := UpsertOnus(db.onus, PadAll(before)), UpsertEthState(db.ports, PadAll(before));
    BatchTables(db, before, raw);
    RecordStepTables(r, onus, ports, raw);
    assert Agrees(r, onus, ports, raw.device, raw.serial);
    SampleAgrees(r, db, before, raw);
    BatchLogs(db, before, raw);
  }

  lemma {:induction false} BatchTables(db: Db, before: seq<Sample>, raw: Sample)
    ensures var s := Padded(raw);
            && UpsertOnus(db.onus, PadAll(before + [raw])) == UpsertOnu(UpsertOnus(db.onus, PadAll(before)), s)
            && UpsertEthState(db.ports, PadAll(before + [raw])) ==
              UpsertPorts(UpsertEthState(db.ports, PadAll(before)), s, s.ethPorts)
  {
    PadAllAppend(before, raw);
    UpsertAppend(db, PadAll(before), Padded(raw));
  }

  lemma {:induction false} PadAllAppend(before: seq<Sample>, raw: Sample)
    ensures PadAll(before + [raw]) == PadAll(before) + [Padded(raw)]
  {
    assert (before + [raw])[..|before|] == before;
  }

  lemma {:induction false} UpsertAppend(db: Db, list: seq<Sample>, s: Sample)
    ensures UpsertOnus(db.onus, list + [s]) == UpsertOnu(UpsertOnus(db.onus, list), s)
    ensures UpsertEthState(db.ports, list + [s]) == UpsertPorts(UpsertEthState(db.ports, list), s, s.ethPorts)
  {
    assert (list + [s])[..|list|] == list;
  }

  lemma {:induction false} BatchLogs(db: Db, before: seq<Sample>, raw: Sample)
    requires raw.serial != ""
    ensures var s := Padded(raw);
            && db.statusLog + StatusBatch(db.onus, raw.device, before + [raw]) ==
               db.statusLog + StatusBatch(db.onus, raw.device, before)
                 + StatusEventsFrom(RowAt(db.onus, raw.device, raw.serial), s, "poller")
            && db.ethLog + EthBatch(db.ports, before + [raw]) ==
               db.ethLog + EthBatch(db.ports, before)
                 + EthEventsOf(DbPortsOf(db.ports, raw.device, raw.serial), s, s.ethPorts, "poller")
  {
    hide Padded, StatusEventsFrom, EthEventsOf;
    assert (before + [raw])[..|before|] == before;
    PaddedIdempotent(raw);
    var s := Padded(raw);
    Associate(db.statusLog, StatusBatch(db.onus, raw.device, before),
              StatusEventsFrom(RowAt(db.onus, raw.device, raw.serial), s, "poller"));
    Associate(db.ethLog, EthBatch(db.ports, before),
              EthEventsOf(DbPortsOf(db.ports, raw.device, raw.serial), s, s.ethPorts, "poller"));
  }

  lemma {:induction false} GoodPrefix(batch: seq<Sample>)
    requires GoodBatch(batch) && batch != []
    ensures var before, raw := batch[..|batch| - 1], batch[|batch| - 1];
            && GoodBatch(before) && (before != [] ==> before[0] == batch[0]) && batch == before + [raw]
            && raw.device == batch[0].device && ValidDevice(raw.device) && raw.serial != ""
            && (forall i :: 0 <= i < |before| ==> before[i].serial != raw.serial && before[i].serial != "")
  {
  }

  /** Deriving a batch's events from the tables as they stood before the batch gives what recording the
      batch sample by sample gives. */
  lemma {:induction false} BatchAgrees(m: Mem, db: Db, batch: seq<Sample>, device: string)
    requires TablesAgree(m, db.onus, db.ports) && m.statusLog == db.statusLog && m.ethLog == db.ethLog
    requires GoodBatch(batch) && (batch != [] ==> batch[0].device == device)
    ensures ValidDevices(batch)
    ensures BatchDone(RecordAll(m, batch), db, batch, device)
  {
    if batch == [] {
      assert db.statusLog + [] == db.statusLog && db.ethLog + [] == db.ethLog;
    } else {
      var before, raw := batch[..|batch| - 1], batch[|batch| - 1];
      GoodPrefix(batch);
      BatchAgrees(m, db, before, device);
      BatchStep(RecordAll(m, before), db, before, raw);
    }
  }

  lemma {:induction false} SameDecision(a: OnuState, b: OnuState, s: Sample)
    requires !Blank(s.serial) ==> SameObserved(a, b)
    ensures StatusEventsFrom(a, s, "poller") == StatusEventsFrom(b, s, "poller")
  {
  }

  // ----- whole runs -----

  ghost predicate StoresEqual(m: Mem, db: Db) {
    && m.statusLog == db.statusLog
    && m.ethLog == db.ethLog
    && TablesAgree(m, db.onus, db.ports)
  }

  lemma {:induction false} PollAgrees(m: Mem, db: Db, batch: seq<Sample>)
    requires StoresEqual(m, db) && GoodBatch(batch)
    ensures ValidDevices(batch)
    ensures StoresEqual(RecordAll(m, batch), PollBatch(db, batch))
  {
    BatchAgrees(m, db, batch, if batch == [] then "" else batch[0].device);
    if batch == [] {
      assert db.statusLog + [] == db.statusLog && db.ethLog + [] == db.ethLog;
    }
  }

  /** Main result: over every run of PON polls both stores hold the same two logs, entry by entry, the
      same port rows, and the same current ONU rows up to the two last-change columns. */
  lemma {:induction false} StoresAgree(batches: seq<seq<Sample>>)
    requires forall i :: 0 <= i < |batches| ==> GoodBatch(batches[i])
    ensures ValidDevices(Flatten(batches))
    ensures StoresEqual(RecordAll(EMPTY, Flatten(batches)), PollAll(batches))
  {
    if batches == [] {
      EmptyTablesAgree();
    } else {
      var before, batch := batches[..|batches| - 1], batches[|batches| - 1];
      StoresAgree(before);
      PollAgrees(RecordAll(EMPTY, Flatten(before)), PollAll(before), batch);
      RecordAllConcat(EMPTY, Flatten(before), batch);
    }
  }

  lemma {:induction false} EmptyTablesAgree()
    ensures StoresEqual(EMPTY, EMPTY_DB)
  {
    forall d, s | ValidDevice(d) && s != "" ensures Agrees(EMPTY, EMPTY_DB.onus, EMPTY_DB.ports, d, s) {
      assert PortsOf(EMPTY.ports, d, s) == map[] == DbPortsOf(EMPTY_DB.ports, d, s);
    }
  }

  /** Distinct serials are needed: a serial listed twice in one batch with one status is a change for the
      first sample only when recorded one by one, but for both against the tables before the batch. */
  lemma {:induction false} RepeatedSerialDisagrees(s: Sample)
    requires !Blank(s.serial) && s.serial != ""
    ensures !StatusChanged(OnuAfter(NO_ONU, Padded(s)), Padded(s))
    ensures |StatusBatch(map[], s.device, [s, s])| == 2
  {
    PaddedIdempotent(s);
    assert [s, s][..1] == [s] && [s][..0] == [];
    var e := StatusEventsFrom(NO_ONU, Padded(s), "poller");
    assert |e| == 1;
    assert StatusBatch(map[], s.device, [s]) == [] + e;
    assert StatusBatch(map[], s.device, [s, s]) == StatusBatch(map[], s.device, [s]) + e;
  }

  /** What the durable store takes for the previous reading of an unread ONU's port, against what the in-memory store
      does: they log the same when a row of the empty serial holds the same values, or a row of another ONU holds the
      same values and differs from the reading, or both see no reading. */
  predicate UnreadAlike(other: PortState, own: PortState, p: EthPort) {
    if p.link == "" && p.admin == "" then other.serial == "" || (other.link == "" && other.admin == "")
    else
      && other.link == own.link && other.admin == own.admin
      && (other.serial != "" ==> other.link != p.link || other.admin != p.admin)
  }

  /** Of an ONU whose serial could not be read, the durable store compares the ports with the last rows of the whole
      device, the in-memory store with those of the empty serial. Their Ethernet events are the same exactly when each
      reading meets alike rows. */
  lemma {:induction false} UnreadEventsAgreeIff(ports: map<(string, string, int), PortState>, own: map<int, PortState>,
                                                s: Sample, list: seq<EthPort>, source: string)
    requires s.serial == "" && Anonymous(own)
    ensures EthEventsOf(EthPrev(ports, s.device, s.serial), s, list, source) == EthEventsOf(own, s, list, source) <==>
            forall p :: p in list ==>
              UnreadAlike(Prev(EthPrev(ports, s.device, ""), p.port), Prev(own, p.port), p)
  {
    var prev := EthPrev(ports, s.device, "");
    hide EthPrev, EthEventsOf;
    EthEventsAgreeIff(prev, own, s, list, source);
    forall p: EthPort
      ensures UnreadAlike(Prev(prev, p.port), Prev(own, p.port), p) <==> Alike(Prev(prev, p.port), Prev(own, p.port), p)
    {
      assert Prev(own, p.port).serial == "";
    }
  }

  /** Such an ONU beside one whose port reads alike: the durable store logs nothing, the in-memory store the reading. */
  lemma {:induction false} EmptySerialComparesOthers(ports: map<(string, string, int), PortState>,
                                                     k: (string, string, int), s: Sample, p: EthPort)
    requires k in ports && k.0 == s.device && k.2 == p.port && LastOf(ports, k) && ports[k].serial != ""
    requires s.serial == "" && p.link == ports[k].link && p.admin == ports[k].admin && (p.link != "" || p.admin != "")
    ensures EthEventsOf(EthPrev(ports, s.device, s.serial), s, [p], "poller") == []
    ensures |EthEventsOf(map[], s, [p], "poller")| == 1
  {
    LastUnique(ports);
    var prev := EthPrev(ports, s.device, s.serial);
    assert p.port in prev && prev[p.port] == ports[k];
    var none: seq<EthPort> := [p][..0];
    assert EthEventsOf(prev, s, none, "poller") == [] && EthEventsOf(map[], s, none, "poller") == [];
  }

  // ----- the two last-change columns -----

  /** The current row of one ONU, built from its own samples. */
  function RowOf(list: seq<Sample>): Option<OnuState> {
    if list == [] then None else Some(UpsertRow(RowOf(list[..|list| - 1]), Padded(list[|list| - 1])))
  }

  /** The last sample whose status differs from the one before, letter case aside. */
  function LastChange(list: seq<Sample>): nat
    requires list != []
  {
    var n := |list| - 1;
    if n == 0 || !EqualFold(list[n - 1].status, list[n].status) then n else LastChange(list[..n])
  }

  /** The last sample whose status is spelled differently from the one before. */
  function LastSpelling(list: seq<Sample>): nat
    requires list != []
  {
    var n := |list| - 1;
    if n == 0 || list[n - 1].status != list[n].status then n else LastSpelling(list[..n])
  }

  function StatusBefore(list: seq<Sample>, i: nat): string
    requires i < |list|
  {
    if i == 0 then "" else list[i - 1].status
  }

  predicate SameSerial(list: seq<Sample>, serial: string) {
    forall i :: 0 <= i < |list| ==> list[i].serial == serial
  }

  lemma {:induction false} StepColumns(was: OnuState, s: Sample)
    requires !Blank(s.serial)
    ensures var changed := was.serial == "" || !EqualFold(was.status, s.status);
            var o := OnuAfter(was, s);
            && o.serial == s.serial && o.status == s.status
            && o.previousStatus == (if changed then was.status else was.previousStatus)
            && o.changedAt == (if changed then Some(s.time) else was.changedAt)
  {
  }

  lemma {:induction false} BeforeIn(list: seq<Sample>, n: nat, i: nat)
    requires i < n <= |list|
    ensures StatusBefore(list[..n], i) == StatusBefore(list, i)
  {
  }

  lemma {:induction false} BeforeLast(list: seq<Sample>)
    requires list != []
    ensures StatusBefore(list, |list| - 1) == if |list| == 1 then "" else list[|list| - 2].status
  {
  }

  lemma {:induction false} FoldColumns(list: seq<Sample>, serial: string)
    requires list != [] && !Blank(serial) && serial != "" && SameSerial(list, serial)
    ensures LastChange(list) < |list|
    ensures var o := ObserveAll(list, "poller").state;
            && o.serial == serial && o.status == list[|list| - 1].status
            && o.previousStatus == StatusBefore(list, LastChange(list))
              && o.changedAt == Some(list[LastChange(list)].time)
  {
    hide Padded, OnuAfter, StatusEventsFrom, EthEventsOf, PortsAfter, Blank, EqualFold, StatusBefore;
    PaddedIdempotent(list[|list| - 1]);
    var n := |list| - 1;
    var before := list[..n];
    var o := ObserveAll(before, "poller").state;
    var s := Padded(list[n]);
    assert ObserveAll(list, "poller").state == OnuAfter(o, s);
    StepColumns(o, s);
    if n > 0 {
      FoldColumns(before, serial);
      assert before[n - 1] == list[n - 1];
      BeforeIn(list, n, LastChange(before));
    }
    BeforeLast(list);
  }

  lemma {:induction false} TableStep(was: Option<OnuState>, s: Sample)
    ensures var row := UpsertRow(was, s);
            && row.status == s.status
            && (was.None? ==> row.previousStatus == "" && row.changedAt == Some(s.time))
            && (was.Some? && was.value.changedAt.Some? ==>
                  var changed := was.value.status != s.status;
                  && row.previousStatus == (if changed then was.value.status else was.value.previousStatus)
                  && row.changedAt == (if changed then Some(s.time) else was.value.changedAt))
  {
  }

  lemma {:induction false} TableColumns(list: seq<Sample>)
    requires list != []
    ensures LastSpelling(list) < |list|
    ensures var row := RowOf(list);
            && row.Some? && row.value.status == list[|list| - 1].status
            && row.value.previousStatus == StatusBefore(list, LastSpelling(list))
            && row.value.changedAt == Some(list[LastSpelling(list)].time)
  {
    hide Padded, UpsertRow;
    PaddedIdempotent(list[|list| - 1]);
    var n := |list| - 1;
    var before := list[..n];
    TableStep(RowOf(before), Padded(list[n]));
    if n > 0 {
      TableColumns(before);
      assert before[n - 1] == list[n - 1];
      assert LastSpelling(list) == if list[n - 1].status != list[n].status then n else LastSpelling(before);
      assert StatusBefore(list, LastSpelling(list)) ==
        if LastSpelling(list) == n then list[n - 1].status else StatusBefore(before, LastSpelling(before));
    }
  }

  lemma {:induction false} SpellingSinceChange(list: seq<Sample>)
    requires list != []
    ensures LastChange(list) <= LastSpelling(list) < |list|
    ensures LastChange(list) == LastSpelling(list) <==>
            forall i :: LastChange(list) <= i < |list| ==> list[i].status == list[LastChange(list)].status
  {
    var n := |list| - 1;
    if n > 0 && EqualFold(list[n - 1].status, list[n].status) {
      SpellingSinceChange(list[..n]);
      var c := LastChange(list);
      assert c == LastChange(list[..n]);
      if list[n - 1].status == list[n].status {
        assert list[..n][n - 1] == list[n - 1];
      } else {
        assert LastSpelling(list) == n;
        assert list[..n][n - 1] == list[n - 1];
      }
    }
  }

  predicate StrictTimes(list: seq<Sample>) {
    forall i, j :: 0 <= i < j < |list| ==> list[i].time < list[j].time
  }

  /** The last-change columns of the two stores agree exactly when the ONU's status has kept one
      spelling since its last real change: the durable store counts a change of letter case. */
  lemma {:induction false} ChangeColumnsAgreeIff(list: seq<Sample>, serial: string)
    requires list != [] && !Blank(serial) && StrictTimes(list)
    requires SameSerial(list, serial)
    ensures RowOf(list).Some?
    ensures var o, row := ObserveAll(list, "poller").state, RowOf(list).value;
            (o.previousStatus == row.previousStatus && o.changedAt == row.changedAt) <==>
            forall i :: LastChange(list) <= i < |list| ==> list[i].status == list[LastChange(list)].status
  {
    assert serial != "" by { assert Blank(""); }
    FoldColumns(list, serial);
    TableColumns(list);
    SpellingSinceChange(list);
  }

  /** A change of letter case alone is all it takes. */
  lemma {:induction false} RespelledStatusDiffers(s: Sample, t: Sample)
    requires !Blank(s.serial) && t == s.(time := t.time, status := t.status) && s.time < t.time
    requires s.status == "Online" && t.status == "ONLINE"
    ensures RowOf([s, t]).Some?
    ensures var o, row := ObserveAll([s, t], "poller").state, RowOf([s, t]).value;
            !(o.previousStatus == row.previousStatus && o.changedAt == row.changedAt)
  {
    OneOnlineTwoSpellings();
    PairChange(s, t);
    hide *;
    ChangeColumnsAgreeIff([s, t], s.serial);
    assert [s, t][1].status != [s, t][0].status;
  }

  lemma {:induction false} OneOnlineTwoSpellings()
    ensures EqualFold("Online", "ONLINE") && "Online" != "ONLINE"
  {
    assert Lower("Online") == "online" && Lower("ONLINE") == "online";
    assert "Online"[1] != "ONLINE"[1];
  }

  lemma {:induction false} PairChange(s: Sample, t: Sample)
    requires EqualFold(s.status, t.status) && s.time < t.time && s.serial == t.serial
    ensures LastChange([s, t]) == 0 && StrictTimes([s, t]) && SameSerial([s, t], s.serial)
  {
    hide EqualFold;
    assert [s, t][..1] == [s];
    assert LastChange([s, t]) == LastChange([s]);
  }

  /** No two of the statuses differ in letter case alone. */
  predicate Canonical(list: seq<Sample>) {
    forall i, j :: 0 <= i < |list| && 0 <= j < |list| && EqualFold(list[i].status, list[j].status) ==>
      list[i].status == list[j].status
  }

  lemma {:induction false} CanonicalChanges(list: seq<Sample>)
    requires list != [] && Canonical(list)
    ensures LastChange(list) == LastSpelling(list)
  {
    hide EqualFold;
    var n := |list| - 1;
    if n > 0 {
      CanonicalChanges(list[..n]);
      SameFold(list[n].status);
    }
  }

  lemma {:induction false} SameFold(s: string)
    ensures EqualFold(s, s)
  {
  }

  /** The row built from an ONU's own samples is the row the polled table holds. */
  lemma {:induction false} PolledRow(batches: seq<seq<Sample>>, device: string, serial: string)
    requires !Blank(serial)
    ensures RowOption(PollAll(batches).onus, device, serial) == RowOf(Mine(Flatten(batches), device, serial))
  {
    if batches != [] {
      var before, batch := batches[..|batches| - 1], batches[|batches| - 1];
      PolledRow(before, device, serial);
      UpsertOnusRow(PollAll(before).onus, Flatten(before), batch, device, serial);
    }
  }

  lemma {:induction false} UpsertOnusRow(onus: map<(string, string), OnuState>, history: seq<Sample>,
                                         batch: seq<Sample>, device: string, serial: string)
    requires !Blank(serial) && RowOption(onus, device, serial) == RowOf(Mine(history, device, serial))
    ensures RowOption(UpsertOnus(onus, PadAll(batch)), device, serial) == RowOf(Mine(history + batch, device, serial))
  {
    hide Padded, UpsertRow, Blank;
    if batch == [] {
      assert history + batch == history;
    } else {
      var before, raw := batch[..|batch| - 1], batch[|batch| - 1];
      PaddedIdempotent(raw);
      UpsertOnusRow(onus, history, before, device, serial);
      UpsertOnuAt(UpsertOnus(onus, PadAll(before)), Padded(raw), device, serial);
      PadAllInit(batch);
      Associate(history, before, [raw]);
      assert batch == before + [raw];
      RowOfAppend(history + before, raw, device, serial);
    }
  }

  lemma {:induction false} RowOfAppend(history: seq<Sample>, raw: Sample, device: string, serial: string)
    ensures var row := RowOf(Mine(history, device, serial));
            RowOf(Mine(history + [raw], device, serial)) ==
              if Is(raw, device, serial) then Some(UpsertRow(row, Padded(raw))) else row
  {
    hide Padded, UpsertRow;
    var mine := Mine(history, device, serial);
    assert (history + [raw])[..|history|] == history;
    assert (mine + [raw])[..|mine|] == mine;
  }

  lemma {:induction false} PolledOnu(batches: seq<seq<Sample>>, device: string, serial: string)
    requires forall i :: 0 <= i < |batches| ==> GoodBatch(batches[i])
    requires ValidDevice(device) && !Blank(serial)
    ensures ValidDevices(Flatten(batches)) && serial != ""
    ensures var mine := Mine(Flatten(batches), device, serial);
            var live := OnuAt(RecordAll(EMPTY, Flatten(batches)).onus, OnuKey(device, serial));
            && live == ObserveAll(mine, "poller").state
            && RowOption(PollAll(batches).onus, device, serial) == RowOf(mine)
            && SameObserved(live, RowAt(PollAll(batches).onus, device, serial))
            && SameSerial(mine, serial)
  {
    NamedSerial(serial);
    ObservedAlike(batches, device, serial);
    RecordAllProjects(Flatten(batches), device, serial);
    PolledRow(batches, device, serial);
    OwnSamples(Flatten(batches), device, serial);
    hide RecordAll, PollAll, ObserveAll, RowOf, PortsOf, StatusOf, EthOf, OnuAt, OnuKey, SameObserved, SameSerial,
      RowOption, Mine;
  }

  lemma {:induction false} NamedSerial(serial: string)
    requires !Blank(serial)
    ensures serial != ""
  {
    assert Blank("");
  }

  lemma {:induction false} OwnSamples(list: seq<Sample>, device: string, serial: string)
    ensures OneOnu(Mine(list, device, serial), device, serial) && SameSerial(Mine(list, device, serial), serial)
  {
    var mine := Mine(list, device, serial);
    assert forall i :: 0 <= i < |mine| ==> mine[i] in mine;
  }

  lemma {:induction false} ObservedAlike(batches: seq<seq<Sample>>, device: string, serial: string)
    requires forall i :: 0 <= i < |batches| ==> GoodBatch(batches[i])
    requires ValidDevice(device) && !Blank(serial) && serial != ""
    ensures ValidDevices(Flatten(batches))
    ensures SameObserved(OnuAt(RecordAll(EMPTY, Flatten(batches)).onus, OnuKey(device, serial)),
                         RowAt(PollAll(batches).onus, device, serial))
  {
    hide RecordAll, PollAll, GoodBatch, SameObserved, ValidDevice, ValidDevices, OwnKeys, Blank;
    StoresAgree(batches);
    assert Agrees(RecordAll(EMPTY, Flatten(batches)), PollAll(batches).onus, PollAll(batches).ports, device, serial);
  }

  /** Main result: over every run of PON polls, an ONU whose statuses are canonical has one and the same row in both
      stores, the two last-change columns included. */
  lemma {:induction false} RowsAgree(batches: seq<seq<Sample>>, device: string, serial: string)
    requires forall i :: 0 <= i < |batches| ==> GoodBatch(batches[i])
    requires ValidDevice(device) && !Blank(serial) && Canonical(Mine(Flatten(batches), device, serial))
    ensures ValidDevices(Flatten(batches))
    ensures OnuAt(RecordAll(EMPTY, Flatten(batches)).onus, OnuKey(device, serial)) ==
            RowAt(PollAll(batches).onus, device, serial)
  {
    PolledOnu(batches, device, serial);
    var mine := Mine(Flatten(batches), device, serial);
    hide RecordAll, PollAll, OnuKey;
    if mine != [] {
      FoldColumns(mine, serial);
      TableColumns(mine);
      CanonicalChanges(mine);
    }
  }

  // ----- the statuses the collector writes -----

  /** utils.ExtractAndGetStatus; None is a value that is not an integer. */
  function ExtractAndGetStatus(code: Option<int>): string {
    if code == Some(1) then "Logging"
    else if code == Some(2) then "LOS"
    else if code == Some(3) then "Synchronization"
    else if code == Some(4) then "Online"
    else if code == Some(5) then "Dying Gasp"
    else if code == Some(6) then "Auth Failed"
    else if code == Some(7) then "Offline"
    else "Unknown"
  }

  lemma {:induction false} CodesOfStatus(code: Option<int>)
    ensures var s := ExtractAndGetStatus(code);
            && (s == "Logging" <==> code == Some(1)) && (s == "LOS" <==> code == Some(2))
            && (s == "Synchronization" <==> code == Some(3)) && (s == "Online" <==> code == Some(4))
            && (s == "Dying Gasp" <==> code == Some(5)) && (s == "Auth Failed" <==> code == Some(6))
            && (s == "Offline" <==> code == Some(7))
            && (s == "Unknown" <==> code.None? || code.value < 1 || code.value > 7)
  {
  }

  /** A status read from the OLT, or the empty one of an ONU whose details could not be read. */
  ghost predicate Collects(status: string) {
    status == "" || exists code :: status == ExtractAndGetStatus(code)
  }

  lemma {:induction false} FoldShape(a: string)
    ensures |Lower(a)| == |a|
    ensures a != "" ==> Lower(a)[0] == LowerChar(a[0])
  {
    if a != "" {
      FoldShape(a[1..]);
    }
  }

  /** Length and first letter, case aside, tell the collector's statuses apart. */
  function StatusOfShape(length: nat, first: char): string {
    if length == 0 then ""
    else if length == 3 then "LOS"
    else if length == 6 then "Online"
    else if length == 10 then "Dying Gasp"
    else if length == 11 then "Auth Failed"
    else if length == 15 then "Synchronization"
    else if first == 'l' then "Logging"
    else if first == 'o' then "Offline"
    else "Unknown"
  }

  lemma {:induction false} ShapeDecides(status: string)
    requires Collects(status)
    ensures status == StatusOfShape(|status|, if status == "" then ' ' else LowerChar(status[0]))
  {
  }

  lemma {:induction false} CollectedAlike(a: string, b: string)
    requires Collects(a) && Collects(b) && EqualFold(a, b)
    ensures a == b
  {
    ShapeDecides(a);
    ShapeDecides(b);
    FoldShape(a);
    FoldShape(b);
    hide Lower, Collects, StatusOfShape, LowerChar;
  }

  /** The collector's statuses are canonical. */
  lemma {:induction false} CollectedIsCanonical(list: seq<Sample>)
    requires forall i :: 0 <= i < |list| ==> Collects(list[i].status)
    ensures Canonical(list)
  {
    hide EqualFold, Collects;
    forall i, j | 0 <= i < |list| && 0 <= j < |list| && EqualFold(list[i].status, list[j].status)
      ensures list[i].status == list[j].status
    {
      CollectedAlike(list[i].status, list[j].status);
    }
  }

  /** Main result: over every run of polls whose statuses come from the collector, every ONU with a non-blank serial
      has the same row in both stores, in all columns. */
  lemma {:induction false} CollectedRowsAgree(batches: seq<seq<Sample>>, device: string, serial: string)
    requires forall i :: 0 <= i < |batches| ==> GoodBatch(batches[i])
    requires forall i, j :: 0 <= i < |batches| && 0 <= j < |batches[i]| ==> Collects(batches[i][j].status)
    requires ValidDevice(device) && !Blank(serial)
    ensures ValidDevices(Flatten(batches))
    ensures OnuAt(RecordAll(EMPTY, Flatten(batches)).onus, OnuKey(device, serial)) ==
            RowAt(PollAll(batches).onus, device, serial)
  {
    hide RecordAll, PollAll, OnuKey, GoodBatch, Collects, Canonical;
    FlattenCollected(batches);
    var all, mine := Flatten(batches), Mine(Flatten(batches), device, serial);
    forall i | 0 <= i < |mine| ensures Collects(mine[i].status) {
      assert mine[i] in mine && mine[i] in all;
    }
    CollectedIsCanonical(mine);
    RowsAgree(batches, device, serial);
  }

  lemma {:induction false} FlattenCollected(batches: seq<seq<Sample>>)
    requires forall i, j :: 0 <= i < |batches| && 0 <= j < |batches[i]| ==> Collects(batches[i][j].status)
    ensures forall i :: 0 <= i < |Flatten(batches)| ==> Collects(Flatten(batches)[i].status)
  {
    hide Collects;
    if batches != [] {
      FlattenCollected(batches[..|batches| - 1]);
    }
  }
}
