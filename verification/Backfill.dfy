/** Deriving the event logs again from stored samples, in another order than they were recorded. */
module Backfill {
  import opened Text
  import opened Events
  import opened EventLogs
  import opened Transitions
  import opened Tables
  import opened StoreAgreement
  import opened Ordering

  // ----- the query -----

  /** ORDER BY device_id, serial, time. */
  predicate RowLess(a: Sample, b: Sample) {
    if a.device != b.device then StrLess(a.device, b.device)
    else if a.serial != b.serial then StrLess(a.serial, b.serial)
    else a.time < b.time
  }

  predicate TimeLess(a: Sample, b: Sample) {
    a.time < b.time
  }

  /** WHERE serial <> '' ORDER BY device_id, serial, time: any order SQL may return. */
  ghost predicate QueryRows(stored: seq<Sample>, rows: seq<Sample>) {
    && Ordered(RowLess, rows)
    && forall e: Sample :: multiset(rows)[e] == if e.serial != "" then multiset(stored)[e] else 0
  }

  /** The rows ascend by device, within a device by serial and within a serial by time. */
  predicate InQueryOrder(a: Sample, b: Sample) {
    && (a.device == b.device || StrLess(a.device, b.device))
    && (a.device == b.device ==> a.serial == b.serial || StrLess(a.serial, b.serial))
    && (a.device == b.device && a.serial == b.serial ==> a.time <= b.time)
  }

  lemma {:induction false} RowsAscend(rows: seq<Sample>)
    requires Ordered(RowLess, rows)
    ensures forall i, j :: 0 <= i < j < |rows| ==> InQueryOrder(rows[i], rows[j])
  {
    hide StrLess;
    forall i, j | 0 <= i < j < |rows| ensures InQueryOrder(rows[i], rows[j]) {
      if rows[i].device != rows[j].device {
        StrLessTotal(rows[i].device, rows[j].device);
      } else if rows[i].serial != rows[j].serial {
        StrLessTotal(rows[i].serial, rows[j].serial);
      }
    }
  }

  lemma {:induction false} RowLessOrder()
    ensures StrictWeakOrder(RowLess)
  {
    forall a: Sample ensures !RowLess(a, a) {
    }
    forall a: Sample, b: Sample, c: Sample | RowLess(a, b) && RowLess(b, c) ensures RowLess(a, c) {
      RowLessTransitive(a, b, c);
    }
    forall a: Sample, b: Sample, c: Sample | !RowLess(a, b) && !RowLess(b, c) ensures !RowLess(a, c) {
      RowLessCotransitive(a, b, c);
    }
  }

  lemma {:induction false} RowLessTransitive(a: Sample, b: Sample, c: Sample)
    requires RowLess(a, b) && RowLess(b, c)
    ensures RowLess(a, c)
  {
    hide StrLess;
    StrictStrings(a.device, b.device, c.device);
    StrictStrings(a.serial, b.serial, c.serial);
  }

  lemma {:induction false} RowLessCotransitive(a: Sample, b: Sample, c: Sample)
    requires !RowLess(a, b) && !RowLess(b, c)
    ensures !RowLess(a, c)
  {
    hide StrLess;
    StrictStrings(a.device, b.device, c.device);
    StrictStrings(a.serial, b.serial, c.serial);
  }

  // ----- the replay -----

  datatype Replayed = Replayed(status: map<string, OnuState>, eth: map<string, map<int, PortState>>,
                               latest: map<string, Sample>,
                               statusLog: seq<StatusEvent>, ethLog: seq<EthEvent>)

  const NOTHING := Replayed(map[], map[], map[], [], [])

  function EthAt(eth: map<string, map<int, PortState>>, key: string): map<int, PortState> {
    if key in eth then eth[key] else map[]
  }

  function NotedPort(s: Sample, p: EthPort): PortState {
    NO_PORT.(serial := s.serial, port := p.port, admin := p.admin, link := p.link)
  }

  function NotePorts(ports: map<int, PortState>, s: Sample, list: seq<EthPort>): map<int, PortState> {
    if list == [] then ports
    else NotePorts(ports, s, list[..|list| - 1])[list[|list| - 1].port := NotedPort(s, list[|list| - 1])]
  }

  function ReplayOne(r: Replayed, raw: Sample): Replayed {
    var s := Padded(raw);
    var key := OnuKey(s.device, s.serial);
    Replayed(r.status[key := NO_ONU.(serial := s.serial, status := s.status)],
             r.eth[key := NotePorts(EthAt(r.eth, key), s, s.ethPorts)],
             r.latest[key := s],
             r.statusLog + StatusEventsFrom(OnuAt(r.status, key), s, "backfill"),
             r.ethLog + EthEventsOf(EthAt(r.eth, key), s, s.ethPorts, "backfill"))
  }

  function ReplayAll(rows: seq<Sample>): Replayed {
    if rows == [] then NOTHING else ReplayOne(ReplayAll(rows[..|rows| - 1]), rows[|rows| - 1])
  }

  // ----- what the replay makes of one ONU -----

  /** The replay has derived for one ONU what observing its samples derives. */
  ghost predicate Follows(r: Replayed, o: Onu, device: string, serial: string) {
    var key := OnuKey(device, serial);
    && OnuAt(r.status, key).serial == o.state.serial
    && OnuAt(r.status, key).status == o.state.status
    && SamePrev(EthAt(r.eth, key), o.ports)
    && StatusOf(r.statusLog, device, serial) == o.statusLog
    && EthOf(r.ethLog, device, serial) == o.ethLog
  }

  lemma {:induction false} NotePortsFollow(noted: map<int, PortState>, ports: map<int, PortState>, s: Sample,
                                           list: seq<EthPort>)
    requires SamePrev(noted, ports)
    ensures SamePrev(NotePorts(noted, s, list), PortsAfter(ports, s, list))
  {
    if list != [] {
      NotePortsFollow(noted, ports, s, list[..|list| - 1]);
    }
  }

  lemma {:induction false} SameStatusEvents(a: OnuState, b: OnuState, s: Sample, source: string)
    requires a.serial == b.serial && a.status == b.status
    ensures StatusEventsFrom(a, s, source) == StatusEventsFrom(b, s, source)
  {
  }

  lemma {:induction false} ReplayOneFollows(r: Replayed, o: Onu, raw: Sample, device: string, serial: string)
    requires Follows(r, o, device, serial) && ValidDevice(raw.device) && ValidDevice(device)
    ensures Follows(ReplayOne(r, raw), if Is(raw, device, serial) then Observe(o, raw, "backfill") else o,
                    device, serial)
  {
    hide Padded, StatusEventsFrom;
    var s := Padded(raw);
    PaddedIdempotent(raw);
    var key := OnuKey(s.device, s.serial);
    var prev, noted := OnuAt(r.status, key), EthAt(r.eth, key);
    StatusEventsOwner(prev, s, "backfill", device, serial);
    StatusOfAppend(r.statusLog, StatusEventsFrom(prev, s, "backfill"), device, serial);
    EthEventsOwner(noted, s, s.ethPorts, "backfill", device, serial);
    EthOfAppend(r.ethLog, EthEventsOf(noted, s, s.ethPorts, "backfill"), device, serial);
    if key == OnuKey(device, serial) {
      OnuKeyInjective(s.device, s.serial, device, serial);
      SameStatusEvents(prev, o.state, s, "backfill");
      EthEventsSamePrev(noted, o.ports, s, s.ethPorts, "backfill");
      NotePortsFollow(noted, o.ports, s, s.ethPorts);
    } else {
      assert o.statusLog + [] == o.statusLog && o.ethLog + [] == o.ethLog;
    }
  }

  lemma {:induction false} ReplayFollows(rows: seq<Sample>, device: string, serial: string)
    requires ValidDevices(rows) && ValidDevice(device)
    ensures Follows(ReplayAll(rows), ObserveAll(Mine(rows, device, serial), "backfill"), device, serial)
  {
    if rows != [] {
      var before, raw := rows[..|rows| - 1], rows[|rows| - 1];
      ReplayFollows(before, device, serial);
      var mine := Mine(before, device, serial);
      ReplayOneFollows(ReplayAll(before), ObserveAll(mine, "backfill"), raw, device, serial);
      assert (mine + [raw])[..|mine|] == mine;
    }
  }

  // ----- the source tag -----

  function RetagStatus(log: seq<StatusEvent>, source: string): seq<StatusEvent> {
    if log == [] then [] else RetagStatus(log[..|log| - 1], source) + [log[|log| - 1].(source := source)]
  }

  function RetagEth(log: seq<EthEvent>, source: string): seq<EthEvent> {
    if log == [] then [] else RetagEth(log[..|log| - 1], source) + [log[|log| - 1].(source := source)]
  }

  lemma {:induction false} RetagStatusAppend(log: seq<StatusEvent>, a: OnuState, s: Sample, was: string, source: string)
    ensures RetagStatus(log + StatusEventsFrom(a, s, was), source) ==
            RetagStatus(log, source) + StatusEventsFrom(a, s, source)
  {
    if StatusChanged(a, s) {
      assert (log + StatusEventsFrom(a, s, was))[..|log|] == log;
    } else {
      assert log + [] == log && RetagStatus(log, source) + [] == RetagStatus(log, source);
    }
  }

  lemma {:induction false} SameEventTagged(row: PortState, s: Sample, p: EthPort, was: string, source: string)
    ensures EthEventFrom(row, s, p, was).(source := source) == EthEventFrom(row, s, p, source)
  {
  }

  lemma {:induction false} RetagEthAppend(log: seq<EthEvent>, prev: map<int, PortState>, s: Sample, ports: seq<EthPort>,
                                          was: string, source: string)
    ensures RetagEth(log + EthEventsOf(prev, s, ports, was), source) ==
            RetagEth(log, source) + EthEventsOf(prev, s, ports, source)
  {
    hide PortChanged, Prev, EthEventFrom;
    if ports == [] {
      assert log + [] == log && RetagEth(log, source) + [] == RetagEth(log, source);
    } else {
      var p, rest := ports[|ports| - 1], ports[..|ports| - 1];
      RetagEthAppend(log, prev, s, rest, was, source);
      if PortChanged(Prev(prev, p.port), p) {
        var e := EthEventFrom(Prev(prev, p.port), s, p, was);
        SameEventTagged(Prev(prev, p.port), s, p, was, source);
        RetagOne(log, EthEventsOf(prev, s, rest, was), e, source);
        assert RetagEth(log, source) + EthEventsOf(prev, s, rest, source) + [e.(source := source)]
            == RetagEth(log, source) + (EthEventsOf(prev, s, rest, source) + [e.(source := source)]);
      }
    }
  }

  lemma {:induction false} RetagOne(log: seq<EthEvent>, more: seq<EthEvent>, e: EthEvent, source: string)
    ensures RetagEth(log + (more + [e]), source) == RetagEth(log + more, source) + [e.(source := source)]
  {
    assert log + (more + [e]) == log + more + [e];
    assert (log + more + [e])[..|log + more|] == log + more;
  }

  lemma {:induction false} Retagged(list: seq<Sample>, was: string, source: string)
    ensures var a, b := ObserveAll(list, was), ObserveAll(list, source);
            && b.state == a.state && b.ports == a.ports
            && b.statusLog == RetagStatus(a.statusLog, source)
            && b.ethLog == RetagEth(a.ethLog, source)
  {
    hide Padded, StatusEventsFrom, OnuAfter;
    if list != [] {
      Retagged(list[..|list| - 1], was, source);
      var o := ObserveAll(list[..|list| - 1], was);
      var s := Padded(list[|list| - 1]);
      RetagStatusAppend(o.statusLog, o.state, s, was, source);
      RetagEthAppend(o.ethLog, o.ports, s, s.ethPorts, was, source);
    }
  }

  // ----- stored samples -----

  /** Each recorded sample was stored as it came or padded. */
  predicate StoredAs(live: seq<Sample>, stored: seq<Sample>) {
    |stored| == |live| && forall i :: 0 <= i < |live| ==> stored[i] == live[i] || stored[i] == Padded(live[i])
  }

  lemma {:induction false} StoredMine(live: seq<Sample>, stored: seq<Sample>, device: string, serial: string)
    requires StoredAs(live, stored)
    ensures StoredAs(Mine(live, device, serial), Mine(stored, device, serial))
  {
    hide Padded;
    if live != [] {
      StoredMine(live[..|live| - 1], stored[..|stored| - 1], device, serial);
      PaddedIdempotent(live[|live| - 1]);
    }
  }

  lemma {:induction false} StoredObserve(live: seq<Sample>, stored: seq<Sample>, source: string)
    requires StoredAs(live, stored)
    ensures ObserveAll(stored, source) == ObserveAll(live, source)
  {
    hide Padded;
    if live != [] {
      StoredObserve(live[..|live| - 1], stored[..|stored| - 1], source);
      PaddedIdempotent(live[|live| - 1]);
      assert Padded(stored[|stored| - 1]) == Padded(live[|live| - 1]);
    }
  }

  lemma {:induction false} StoredTimes(live: seq<Sample>, stored: seq<Sample>)
    requires StoredAs(live, stored) && StrictTimes(live)
    ensures Increasing(TimeLess, stored)
  {
    hide Padded;
    forall i, j | 0 <= i < j < |stored| ensures TimeLess(stored[i], stored[j]) {
      PaddedIdempotent(live[i]);
      PaddedIdempotent(live[j]);
    }
  }

  // ----- order of the rows -----

  lemma {:induction false} MineMultiset(list: seq<Sample>, device: string, serial: string, e: Sample)
    ensures multiset(Mine(list, device, serial))[e] == if Is(e, device, serial) then multiset(list)[e] else 0
  {
    if list != [] {
      MineMultiset(list[..|list| - 1], device, serial, e);
      assert list == list[..|list| - 1] + [list[|list| - 1]];
    }
  }

  lemma {:induction false} MineOrdered(rows: seq<Sample>, device: string, serial: string)
    requires Ordered(RowLess, rows)
    ensures Ordered(TimeLess, Mine(rows, device, serial))
  {
    if rows != [] {
      var before, last := rows[..|rows| - 1], rows[|rows| - 1];
      MineOrdered(before, device, serial);
      var mine := Mine(before, device, serial);
      if Is(last, device, serial) {
        forall i | 0 <= i < |mine| ensures !TimeLess(last, mine[i]) {
          assert mine[i] in mine && mine[i] in before;
          var k :| 0 <= k < |before| && before[k] == mine[i];
          assert !RowLess(rows[|rows| - 1], rows[k]);
        }
      }
    }
  }

  /** With strictly increasing times the query returns one ONU's samples in recording order. */
  lemma {:induction false} QueryKeepsOrder(stored: seq<Sample>, rows: seq<Sample>, device: string, serial: string)
    requires QueryRows(stored, rows) && serial != "" && Increasing(TimeLess, Mine(stored, device, serial))
    ensures Mine(rows, device, serial) == Mine(stored, device, serial)
  {
    MineOrdered(rows, device, serial);
    var a, b := Mine(rows, device, serial), Mine(stored, device, serial);
    forall e: Sample ensures multiset(a)[e] == multiset(b)[e] {
      MineMultiset(rows, device, serial, e);
      MineMultiset(stored, device, serial, e);
    }
    assert multiset(a) == multiset(b);
    OrderedUnique(TimeLess, a, b);
  }

  lemma {:induction false} QueryDevices(live: seq<Sample>, stored: seq<Sample>, rows: seq<Sample>)
    requires StoredAs(live, stored) && ValidDevices(live) && QueryRows(stored, rows)
    ensures ValidDevices(rows)
  {
    hide Padded;
    forall i | 0 <= i < |rows| ensures ValidDevice(rows[i].device) {
      assert rows[i] in multiset(rows);
      assert rows[i] in multiset(stored);
      var k :| 0 <= k < |stored| && stored[k] == rows[i];
      PaddedIdempotent(live[k]);
    }
  }

  /** Main result: for every recorded history, however its samples were stored and in whatever order the
      query returns ties, the backfill derives for an ONU exactly the events appended live, source tag
      aside, when that ONU's sample times strictly increase. Nothing is asked of the other ONUs. */
  lemma {:induction false} BackfillEqualsLive(live: seq<Sample>, stored: seq<Sample>, rows: seq<Sample>, device: string,
                                              serial: string)
    requires ValidDevices(live) && StoredAs(live, stored) && QueryRows(stored, rows)
    requires ValidDevice(device) && serial != "" && StrictTimes(Mine(live, device, serial))
    ensures var m, r := RecordAll(EMPTY, live), ReplayAll(rows);
            && StatusOf(r.statusLog, device, serial) == RetagStatus(StatusOf(m.statusLog, device, serial), "backfill")
            && EthOf(r.ethLog, device, serial) == RetagEth(EthOf(m.ethLog, device, serial), "backfill")
  {
    var mine, kept := Mine(live, device, serial), Mine(stored, device, serial);
    QueryDevices(live, stored, rows);
    RecordAllProjects(live, device, serial);
    ReplayFollows(rows, device, serial);
    StoredMine(live, stored, device, serial);
    StoredTimes(mine, kept);
    QueryKeepsOrder(stored, rows, device, serial);
    StoredObserve(mine, kept, "backfill");
    Retagged(mine, "poller", "backfill");
    var o := Project(RecordAll(EMPTY, live), device, serial);
    assert o.statusLog == StatusOf(RecordAll(EMPTY, live).statusLog, device, serial);
    assert o.ethLog == EthOf(RecordAll(EMPTY, live).ethLog, device, serial);
  }

  /** Equal times really can matter: the two orders the query may return derive different events. */
  lemma {:induction false} TiedTimesDiffer(s: Sample, t: Sample)
    requires t == s.(status := t.status) && s.status == "Online" && t.status == "Offline" && !Blank(s.serial)
    ensures ReplayAll([s, t]).statusLog != [] && ReplayAll([s, t]).statusLog[0].status == "Online"
    ensures ReplayAll([t, s]).statusLog != [] && ReplayAll([t, s]).statusLog[0].status == "Offline"
    ensures Ordered(RowLess, [s, t]) && Ordered(RowLess, [t, s])
  {
    hide ReplayAll, StrLess, Blank;
    FirstReplayed(s, t);
    FirstReplayed(t, s);
  }

  lemma {:induction false} FirstReplayed(s: Sample, t: Sample)
    requires !Blank(s.serial)
    ensures ReplayAll([s, t]).statusLog != [] && ReplayAll([s, t]).statusLog[0].status == s.status
  {
    assert [s, t][..1] == [s] && [s][..0] == [];
    PaddedIdempotent(s);
    hide Padded, EthEventsOf, NotePorts;
    assert ReplayAll([s]) == ReplayOne(NOTHING, s);
    assert ReplayAll([s]).statusLog == [] + StatusEventsFrom(NO_ONU, Padded(s), "backfill");
    assert ReplayAll([s, t]) == ReplayOne(ReplayAll([s]), t);
  }

  // ----- the newest event of an ONU -----

  predicate RisingEvents(log: seq<StatusEvent>) {
    forall i, j :: 0 <= i < j < |log| ==> log[i].time < log[j].time
  }

  lemma {:induction false} EventsRise(list: seq<Sample>, source: string)
    requires StrictTimes(list)
    ensures var log := ObserveAll(list, source).statusLog;
            && RisingEvents(log)
            && forall i :: 0 <= i < |log| ==> list != [] && log[i].time <= list[|list| - 1].time
  {
    hide Padded, OnuAfter, PortsAfter, EthEventsOf, StatusChanged;
    if list != [] {
      EventsRise(list[..|list| - 1], source);
      PaddedIdempotent(list[|list| - 1]);
    }
  }

  /** Some event of the log with the greatest time; None for an empty log. */
  ghost predicate NewestIs(log: seq<StatusEvent>, e: Option<StatusEvent>) {
    match e
    case None => log == []
    case Some(v) => v in log && forall f :: f in log ==> f.time <= v.time
  }

  /** The newest event of a log made of an ONU's live events, of which some may be missing, and all of them retagged,
      explains the ONU's row. */
  lemma {:induction false} NewestExplains(mine: seq<Sample>, device: string, serial: string, kept: seq<StatusEvent>,
                                          e: Option<StatusEvent>)
    requires OneOnu(mine, device, serial) && !Blank(serial) && StrictTimes(mine) && mine != []
    requires forall f :: f in kept ==> f in ObserveAll(mine, "poller").statusLog
    requires NewestIs(kept + RetagStatus(ObserveAll(mine, "poller").statusLog, "backfill"), e)
    ensures var o := ObserveAll(mine, "poller");
            e.Some? && e.value.previousStatus == o.state.previousStatus && Some(e.value.time) == o.state.changedAt
  {
    hide Blank, ObserveAll, RetagStatus, StrictTimes;
    var log := ObserveAll(mine, "poller").statusLog;
    StatusLogExplainsState(mine, device, serial, "poller");
    EventsRise(mine, "poller");
    RetagKeeps(log, "backfill");
    var tagged := RetagStatus(log, "backfill");
    var last := |log| - 1;
    assert tagged[last] in kept + tagged;
    if e.value in kept {
      var i :| 0 <= i < |log| && log[i] == e.value;
      assert i == last;
    } else {
      var i :| 0 <= i < |tagged| && tagged[i] == e.value;
      assert i == last;
    }
  }

  /** The backfill gives an ONU's row the columns of the newest event left in the log. Whatever part of the live events
      is still there, and however ties are broken, these are the columns the live fold holds. */
  lemma {:induction false} BackfillRestoresChangeColumns(live: seq<Sample>, stored: seq<Sample>, rows: seq<Sample>,
                                                         device: string, serial: string,
                                                         kept: seq<StatusEvent>, e: Option<StatusEvent>)
    requires ValidDevices(live) && StoredAs(live, stored) && QueryRows(stored, rows)
    requires ValidDevice(device) && !Blank(serial) && StrictTimes(Mine(live, device, serial))
             && Mine(live, device, serial) != []
    requires forall f :: f in kept ==> f in StatusOf(RecordAll(EMPTY, live).statusLog, device, serial)
    requires NewestIs(kept + StatusOf(ReplayAll(rows).statusLog, device, serial), e)
    ensures var state := OnuAt(RecordAll(EMPTY, live).onus, OnuKey(device, serial));
            e.Some? && e.value.previousStatus == state.previousStatus && Some(e.value.time) == state.changedAt
  {
    NamedSerial(serial);
    BackfillEqualsLive(live, stored, rows, device, serial);
    LiveOnu(live, device, serial);
    hide *;
    hide RecordAll, ReplayAll;
    NewestExplains(Mine(live, device, serial), device, serial, kept, e);
  }

  lemma {:induction false} LiveOnu(live: seq<Sample>, device: string, serial: string)
    requires ValidDevices(live) && ValidDevice(device)
    ensures var m, o := RecordAll(EMPTY, live), ObserveAll(Mine(live, device, serial), "poller");
            && StatusOf(m.statusLog, device, serial) == o.statusLog
            && EthOf(m.ethLog, device, serial) == o.ethLog
            && OnuAt(m.onus, OnuKey(device, serial)) == o.state
            && OneOnu(Mine(live, device, serial), device, serial)
  {
    RecordAllProjects(live, device, serial);
    OwnSamples(live, device, serial);
    hide RecordAll, ObserveAll, StatusOf, EthOf, PortsOf, OnuAt, OnuKey, ValidDevices, ValidDevice, Keyed, OneOnu, Mine;
  }

  lemma {:induction false} RetagKeeps(log: seq<StatusEvent>, source: string)
    ensures var r := RetagStatus(log, source);
            |r| == |log| && forall i :: 0 <= i < |log| ==> r[i] == log[i].(source := source)
  {
    if log != [] {
      RetagKeeps(log[..|log| - 1], source);
    }
  }

  /** The port table is rebuilt from the latest sample of each ONU alone. */
  ghost predicate LatestSamples(r: Replayed, list: seq<Sample>) {
    && (forall s :: s in list ==> OnuKey(s.device, s.serial) in r.latest && r.latest[OnuKey(s.device, s.serial)] == s)
    && (forall k :: k in r.latest ==> r.latest[k] in list)
    && (forall i, j :: 0 <= i < j < |list| ==> list[i] != list[j])
  }

  lemma {:induction false} LatestOf(rows: seq<Sample>, device: string, serial: string)
    requires ValidDevices(rows) && ValidDevice(device)
    ensures var r, mine := ReplayAll(rows), Mine(rows, device, serial);
            var key := OnuKey(device, serial);
            && (key in r.latest <==> mine != [])
            && (mine != [] ==> r.latest[key] == Padded(mine[|mine| - 1]))
  {
    hide Padded, NotePorts, StatusEventsFrom, EthEventsOf;
    if rows != [] {
      var before, raw := rows[..|rows| - 1], rows[|rows| - 1];
      LatestOf(before, device, serial);
      PaddedIdempotent(raw);
      if OnuKey(raw.device, raw.serial) == OnuKey(device, serial) {
        OnuKeyInjective(raw.device, raw.serial, device, serial);
      }
    }
  }

  /** Upserting samples of different ONUs into an empty table leaves one ONU with its own sample's ports. */
  lemma {:induction false} FreshPorts(list: seq<Sample>, s: Sample, device: string, serial: string)
    requires forall i :: 0 <= i < |list| ==> list[i].serial != ""
    requires forall i, j :: 0 <= i < j < |list| ==> !Is(list[j], list[i].device, list[i].serial)
    requires Is(s, device, serial)
    ensures OwnKeys(UpsertEthState(map[], list))
    ensures s in list ==> DbPortsOf(UpsertEthState(map[], list), device, serial) == PortsAfter(map[], s, s.ethPorts)
    ensures (forall t :: t in list ==> !Is(t, device, serial)) ==>
            DbPortsOf(UpsertEthState(map[], list), device, serial) == map[]
  {
    if list != [] {
      var before, t := list[..|list| - 1], list[|list| - 1];
      FreshPorts(before, s, device, serial);
      UpsertPortsProjects(UpsertEthState(map[], before), t, t.ethPorts, device, serial);
    } else {
      assert DbPortsOf(map[], device, serial) == map[];
    }
  }

  predicate Owned(ports: map<int, PortState>) {
    forall k :: k in ports ==> ports[k].serial != ""
  }

  lemma {:induction false} LastReading(rows: map<int, PortState>, s: Sample, list: seq<EthPort>, port: int)
    requires Owned(rows) && s.serial != ""
    ensures var after := PortsAfter(rows, s, list);
            match Reading(list, port)
            case None => (port in after <==> port in rows) && Prev(after, port) == Prev(rows, port)
            case Some(p) =>
              && port in after
              && after[port] == PortState(s.device, s.serial, port, p.admin, p.link, p.speed, p.duplex,
                                          after[port].lastChanged, Some(s.time))
              && (port !in rows ==> after[port].lastChanged == Some(s.time))
  {
    if list != [] {
      LastReading(rows, s, list[..|list| - 1], port);
    }
  }

  /** The rebuilt ports of an ONU are those of its last sample on an empty table. */
  lemma {:induction false} RebuiltFromLast(rows: seq<Sample>, list: seq<Sample>, device: string, serial: string)
    requires ValidDevices(rows) && ValidDevice(device) && serial != "" && Mine(rows, device, serial) != []
    requires forall i :: 0 <= i < |rows| ==> rows[i].serial != ""
    requires LatestSamples(ReplayAll(rows), list)
    ensures var last := Padded(Mine(rows, device, serial)[|Mine(rows, device, serial)| - 1]);
            DbPortsOf(UpsertEthState(map[], list), device, serial) == PortsAfter(map[], last, last.ethPorts)
  {
    hide Padded, ReplayAll, UpsertEthState, PortsAfter, DbPortsOf;
    var mine := Mine(rows, device, serial);
    PaddedIdempotent(mine[|mine| - 1]);
    assert mine[|mine| - 1] in mine;
    LatestOf(rows, device, serial);
    LatestDistinct(rows, list);
    FreshPorts(list, Padded(mine[|mine| - 1]), device, serial);
  }

  /** What the rebuilt port table keeps of the live one: exactly the ports of the ONU's last sample, with
      their live readings; their change time is the last sample's time, whatever it was live. */
  lemma {:induction false} BackfilledPorts(rows: seq<Sample>, list: seq<Sample>, device: string, serial: string,
                                           port: int)
    requires ValidDevices(rows) && ValidDevice(device) && serial != "" && Mine(rows, device, serial) != []
    requires forall i :: 0 <= i < |rows| ==> rows[i].serial != ""
    requires LatestSamples(ReplayAll(rows), list)
    ensures var mine := Mine(rows, device, serial);
            var last := Padded(mine[|mine| - 1]);
            var live := ObserveAll(mine, "backfill").ports;
            var rebuilt := DbPortsOf(UpsertEthState(map[], list), device, serial);
            && (port in rebuilt <==> Reading(last.ethPorts, port).Some?)
            && (port in rebuilt ==> port in live && rebuilt[port] == live[port].(lastChanged := Some(last.time)))
  {
    hide Padded, StatusEventsFrom, EthEventsOf, OnuAfter;
    var mine := Mine(rows, device, serial);
    var raw := mine[|mine| - 1];
    var last := Padded(raw);
    PaddedIdempotent(raw);
    assert raw in mine;
    RebuiltFromLast(rows, list, device, serial);
    assert forall i :: 0 <= i < |mine| ==> mine[i] in mine;
    OwnSerials(mine[..|mine| - 1], serial);
    RebuiltPorts(ObserveAll(mine[..|mine| - 1], "backfill").ports, last, port);
  }

  lemma {:induction false} RebuiltPorts(before: map<int, PortState>, s: Sample, port: int)
    requires Owned(before) && s.serial != ""
    ensures var rebuilt, live := PortsAfter(map[], s, s.ethPorts), PortsAfter(before, s, s.ethPorts);
            && (port in rebuilt <==> Reading(s.ethPorts, port).Some?)
            && (port in rebuilt ==> port in live && rebuilt[port] == live[port].(lastChanged := Some(s.time)))
  {
    LastReading(map[], s, s.ethPorts, port);
    LastReading(before, s, s.ethPorts, port);
  }

  lemma {:induction false} OwnSerials(mine: seq<Sample>, serial: string)
    requires serial != "" && SameSerial(mine, serial)
    ensures Owned(ObserveAll(mine, "backfill").ports)
  {
    hide Padded, StatusEventsFrom, EthEventsOf, OnuAfter;
    if mine != [] {
      OwnSerials(mine[..|mine| - 1], serial);
      PaddedIdempotent(mine[|mine| - 1]);
      var s := Padded(mine[|mine| - 1]);
      OwnedAfter(ObserveAll(mine[..|mine| - 1], "backfill").ports, s, s.ethPorts);
    }
  }

  lemma {:induction false} OwnedAfter(ports: map<int, PortState>, s: Sample, list: seq<EthPort>)
    requires Owned(ports) && s.serial != ""
    ensures Owned(PortsAfter(ports, s, list))
  {
    if list != [] {
      OwnedAfter(ports, s, list[..|list| - 1]);
    }
  }

  lemma {:induction false} LatestDistinct(rows: seq<Sample>, list: seq<Sample>)
    requires forall i :: 0 <= i < |rows| ==> rows[i].serial != ""
    requires LatestSamples(ReplayAll(rows), list)
    ensures forall i :: 0 <= i < |list| ==> list[i].serial != ""
    ensures forall i, j :: 0 <= i < j < |list| ==> !Is(list[j], list[i].device, list[i].serial)
  {
    forall i | 0 <= i < |list| ensures list[i].serial != "" {
      assert list[i] in list;
      LatestFromRow(rows, OnuKey(list[i].device, list[i].serial));
    }
    forall i, j | 0 <= i < j < |list| ensures !Is(list[j], list[i].device, list[i].serial) {
      assert list[i] in list && list[j] in list;
    }
  }

  lemma {:induction false} LatestFromRow(rows: seq<Sample>, key: string)
    requires (forall i :: 0 <= i < |rows| ==> rows[i].serial != "") && key in ReplayAll(rows).latest
    ensures ReplayAll(rows).latest[key].serial != ""
  {
    hide Padded, NotePorts, StatusEventsFrom, EthEventsOf;
    if rows != [] {
      var before, raw := rows[..|rows| - 1], rows[|rows| - 1];
      PaddedIdempotent(raw);
      if key in ReplayAll(before).latest {
        LatestFromRow(before, key);
      }
    }
  }
}
