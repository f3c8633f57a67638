/** The sample-by-sample fold of the in-memory store over its string-keyed maps and interleaved logs,
    and its projection onto one ONU. */
module Transitions {
  import opened Text
  import opened Events
  import opened EventLogs

  // ----- map keys -----

  function OnuKey(device: string, serial: string): string {
    device + "|" + serial
  }

  function PortKey(device: string, serial: string, port: int): string {
    OnuKey(device, serial) + "|" + Itoa(port)
  }

  /** Device ids match [A-Za-z0-9_-]+ (config/olts.go:71); all that matters here is that no id holds
      the key separator. Serials may hold anything. */
  predicate ValidDevice(device: string) {
    '|' !in device
  }

  lemma {:induction false} OnuKeyInjective(d1: string, s1: string, d2: string, s2: string)
    requires ValidDevice(d1) && ValidDevice(d2)
    requires OnuKey(d1, s1) == OnuKey(d2, s2)
    ensures d1 == d2 && s1 == s2
  {
    FirstSeparator('|', d1, s1, d2, s2);
  }

  lemma {:induction false} PortKeyInjective(d1: string, s1: string, p1: int, d2: string, s2: string, p2: int)
    requires ValidDevice(d1) && ValidDevice(d2)
    requires PortKey(d1, s1, p1) == PortKey(d2, s2, p2)
    ensures d1 == d2 && s1 == s2 && p1 == p2
  {
    ItoaChars(p1);
    ItoaChars(p2);
    assert !IsDigit('|');
    LastSeparator('|', OnuKey(d1, s1), Itoa(p1), OnuKey(d2, s2), Itoa(p2));
    ItoaInjective(p1, p2);
    OnuKeyInjective(d1, s1, d2, s2);
  }

  // ----- the fold -----

  datatype Mem = Mem(onus: map<string, OnuState>, ports: map<string, PortState>,
                     statusLog: seq<StatusEvent>, ethLog: seq<EthEvent>)

  const EMPTY := Mem(map[], map[], [], [])

  function OnuAt(onus: map<string, OnuState>, key: string): OnuState {
    if key in onus then onus[key] else NO_ONU
  }

  function PortAt(ports: map<string, PortState>, key: string): PortState {
    if key in ports then ports[key] else NO_PORT
  }

  /** Every port row sits at the key of its own fields. */
  predicate Keyed(ports: map<string, PortState>) {
    forall k :: k in ports ==>
      k == PortKey(ports[k].device, ports[k].serial, ports[k].port) && ValidDevice(ports[k].device)
  }

  /** What scanning the whole port map for one ONU collects. */
  function PortsOf(ports: map<string, PortState>, device: string, serial: string): map<int, PortState>
    requires Keyed(ports)
  {
    map k | k in ports && ports[k].device == device && ports[k].serial == serial :: ports[k].port := ports[k]
  }

  function PutPorts(ports: map<string, PortState>, s: Sample, list: seq<EthPort>): map<string, PortState> {
    if list == [] then ports
    else
      var p := list[|list| - 1];
      var before := PutPorts(ports, s, list[..|list| - 1]);
      var key := PortKey(s.device, s.serial, p.port);
      before[key := PortAfter(PortAt(before, key), s, p)]
  }

  lemma {:induction false} PutPortsKeyed(ports: map<string, PortState>, s: Sample, list: seq<EthPort>)
    requires Keyed(ports) && ValidDevice(s.device)
    ensures Keyed(PutPorts(ports, s, list))
  {
    if list != [] {
      PutPortsKeyed(ports, s, list[..|list| - 1]);
    }
  }

  function RecordOne(m: Mem, raw: Sample): (r: Mem)
    requires Keyed(m.ports) && ValidDevice(raw.device)
    ensures Keyed(r.ports)
  {
    var s := Padded(raw);
    var key := OnuKey(s.device, s.serial);
    var prev := OnuAt(m.onus, key);
    PutPortsKeyed(m.ports, s, s.ethPorts);
    Mem(m.onus[key := OnuAfter(prev, s)],
        PutPorts(m.ports, s, s.ethPorts),
        m.statusLog + StatusEventsFrom(prev, s, "poller"),
        m.ethLog + EthEventsOf(PortsOf(m.ports, s.device, s.serial), s, s.ethPorts, "poller"))
  }

  predicate ValidDevices(list: seq<Sample>) {
    forall i :: 0 <= i < |list| ==> ValidDevice(list[i].device)
  }

  function RecordAll(m: Mem, list: seq<Sample>): (r: Mem)
    requires Keyed(m.ports) && ValidDevices(list)
    ensures Keyed(r.ports)
  {
    if list == [] then m else RecordOne(RecordAll(m, list[..|list| - 1]), list[|list| - 1])
  }

  /** Recording batch after batch is recording their concatenation. */
  lemma {:induction false} RecordAllConcat(m: Mem, a: seq<Sample>, b: seq<Sample>)
    requires Keyed(m.ports) && ValidDevices(a) && ValidDevices(b)
    ensures ValidDevices(a + b)
    ensures RecordAll(RecordAll(m, a), b) == RecordAll(m, a + b)
  {
    if b == [] {
      assert a + b == a;
    } else {
      assert (a + b)[..|a + b| - 1] == a + b[..|b| - 1];
      RecordAllConcat(m, a, b[..|b| - 1]);
    }
  }

  // ----- projection onto one ONU -----

  /** The whole-map scan gives exactly what a keyed lookup would. */
  lemma {:induction false} ScanIsLookup(ports: map<string, PortState>, device: string, serial: string, port: int)
    requires Keyed(ports) && ValidDevice(device)
    ensures port in PortsOf(ports, device, serial) <==> PortKey(device, serial, port) in ports
    ensures Prev(PortsOf(ports, device, serial), port) == PortAt(ports, PortKey(device, serial, port))
  {
    var key := PortKey(device, serial, port);
    if key in ports {
      var row := ports[key];
      PortKeyInjective(device, serial, port, row.device, row.serial, row.port);
    }
  }

  lemma {:induction false} PutPortsProjects(ports: map<string, PortState>, s: Sample, list: seq<EthPort>,
                                            device: string, serial: string)
    requires Keyed(ports) && ValidDevice(s.device) && ValidDevice(device)
    requires Keyed(PutPorts(ports, s, list))
    ensures PortsOf(PutPorts(ports, s, list), device, serial) ==
            if Is(s, device, serial) then PortsAfter(PortsOf(ports, device, serial), s, list)
              else PortsOf(ports, device, serial)
  {
    if list != [] {
      var p := list[|list| - 1];
      var before := PutPorts(ports, s, list[..|list| - 1]);
      PutPortsKeyed(ports, s, list[..|list| - 1]);
      PutPortsProjects(ports, s, list[..|list| - 1], device, serial);
      ScanIsLookup(before, s.device, s.serial, p.port);
      PutRowProjects(before, PortAfter(PortAt(before, PortKey(s.device, s.serial, p.port)), s, p), device, serial);
    }
  }

  function PutRow(ports: map<string, PortState>, row: PortState): (after: map<string, PortState>)
    requires Keyed(ports) && ValidDevice(row.device)
    ensures Keyed(after)
  {
    ports[PortKey(row.device, row.serial, row.port) := row]
  }

  lemma {:induction false} PutRowAt(ports: map<string, PortState>, row: PortState, device: string, serial: string,
                                    port: int)
    requires Keyed(ports) && ValidDevice(row.device) && ValidDevice(device)
    ensures var hit := row.device == device && row.serial == serial && row.port == port;
            && (port in PortsOf(PutRow(ports, row), device, serial) <==> hit || port in PortsOf(ports, device, serial))
            && Prev(PortsOf(PutRow(ports, row), device, serial), port) ==
              if hit then row else Prev(PortsOf(ports, device, serial), port)
  {
    ScanIsLookup(ports, device, serial, port);
    ScanIsLookup(PutRow(ports, row), device, serial, port);
    if PortKey(device, serial, port) == PortKey(row.device, row.serial, row.port) {
      PortKeyInjective(device, serial, port, row.device, row.serial, row.port);
    }
  }

  /** Storing one row changes one entry of one ONU's scan. */
  lemma {:induction false} PutRowProjects(ports: map<string, PortState>, row: PortState, device: string, serial: string)
    requires Keyed(ports) && ValidDevice(row.device) && ValidDevice(device)
    ensures PortsOf(PutRow(ports, row), device, serial) ==
            if row.device == device && row.serial == serial then PortsOf(ports, device, serial)[row.port := row]
            else PortsOf(ports, device, serial)
  {
    var got, was := PortsOf(PutRow(ports, row), device, serial), PortsOf(ports, device, serial);
    var want := if row.device == device && row.serial == serial then was[row.port := row] else was;
    assert SameRows(got, want) by {
      forall port ensures (port in got <==> port in want) && Prev(got, port) == Prev(want, port) {
        PutRowAt(ports, row, device, serial, port);
      }
    }
    SameRowsEqual(got, want);
  }

  ghost predicate SameRows(a: map<int, PortState>, b: map<int, PortState>) {
    forall port :: (port in a <==> port in b) && Prev(a, port) == Prev(b, port)
  }

  lemma {:induction false} SameRowsEqual(a: map<int, PortState>, b: map<int, PortState>)
    requires SameRows(a, b)
    ensures a == b
  {
    forall port | port in a ensures port in b && a[port] == b[port] {
      assert Prev(a, port) == Prev(b, port);
    }
    forall port | port in b ensures port in a {
      assert Prev(a, port) == Prev(b, port);
    }
  }

  function Project(m: Mem, device: string, serial: string): Onu
    requires Keyed(m.ports)
  {
    Onu(OnuAt(m.onus, OnuKey(device, serial)), PortsOf(m.ports, device, serial),
        StatusOf(m.statusLog, device, serial), EthOf(m.ethLog, device, serial))
  }

  /** Recording a sample is, seen from one ONU, observing it or nothing at all. */
  lemma {:induction false} RecordOneProjects(m: Mem, raw: Sample, device: string, serial: string)
    requires Keyed(m.ports) && ValidDevice(raw.device) && ValidDevice(device)
    ensures Project(RecordOne(m, raw), device, serial) ==
            if Is(raw, device, serial) then Observe(Project(m, device, serial), raw, "poller")
              else Project(m, device, serial)
  {
    hide Padded, StatusEventsFrom, PutPorts, PortsAfter, EthEventsOf, OnuAfter, OnuKey;
    var s := Padded(raw);
    PaddedIdempotent(raw);
    var scan := PortsOf(m.ports, s.device, s.serial);
    PutPortsKeyed(m.ports, s, s.ethPorts);
    PutPortsProjects(m.ports, s, s.ethPorts, device, serial);
    LogsProject(m, s, device, serial);
    if OnuKey(s.device, s.serial) == OnuKey(device, serial) {
      OnuKeyInjective(s.device, s.serial, device, serial);
    }
  }

  lemma {:induction false} LogsProject(m: Mem, s: Sample, device: string, serial: string)
    requires Keyed(m.ports)
    ensures var status := StatusEventsFrom(OnuAt(m.onus, OnuKey(s.device, s.serial)), s, "poller");
            StatusOf(m.statusLog + status, device, serial) ==
            if Is(s, device, serial) then StatusOf(m.statusLog, device, serial) + status
              else StatusOf(m.statusLog, device, serial)
    ensures var eth := EthEventsOf(PortsOf(m.ports, s.device, s.serial), s, s.ethPorts, "poller");
            EthOf(m.ethLog + eth, device, serial) ==
            if Is(s, device, serial) then EthOf(m.ethLog, device, serial) + eth else EthOf(m.ethLog, device, serial)
  {
    var prev, scan := OnuAt(m.onus, OnuKey(s.device, s.serial)), PortsOf(m.ports, s.device, s.serial);
    StatusEventsOwner(prev, s, "poller", device, serial);
    StatusOfAppend(m.statusLog, StatusEventsFrom(prev, s, "poller"), device, serial);
    EthEventsOwner(scan, s, s.ethPorts, "poller", device, serial);
    EthOfAppend(m.ethLog, EthEventsOf(scan, s, s.ethPorts, "poller"), device, serial);
  }

  /** The same for the two tables alone. */
  lemma {:induction false} RecordOneAt(m: Mem, raw: Sample, device: string, serial: string)
    requires Keyed(m.ports) && ValidDevice(raw.device) && ValidDevice(device)
    ensures var s, mine := Padded(raw), Is(raw, device, serial);
            var o, ports := OnuAt(m.onus, OnuKey(device, serial)), PortsOf(m.ports, device, serial);
            && OnuAt(RecordOne(m, raw).onus, OnuKey(device, serial)) == (if mine then OnuAfter(o, s) else o)
            && PortsOf(RecordOne(m, raw).ports, device, serial) ==
              (if mine then PortsAfter(ports, s, s.ethPorts) else ports)
  {
    RecordOneProjects(m, raw, device, serial);
    var before, after := Project(m, device, serial), Project(RecordOne(m, raw), device, serial);
    assert after == if Is(raw, device, serial) then Observe(before, raw, "poller") else before;
  }

  /** In every reachable store, what the store holds of an ONU is what that ONU's own samples make. */
  lemma {:induction false} RecordAllProjects(list: seq<Sample>, device: string, serial: string)
    requires ValidDevices(list) && ValidDevice(device)
    ensures Project(RecordAll(EMPTY, list), device, serial) == ObserveAll(Mine(list, device, serial), "poller")
  {
    if list == [] {
      assert PortsOf(EMPTY.ports, device, serial) == map[];
    } else {
      var before, raw := list[..|list| - 1], list[|list| - 1];
      RecordAllProjects(before, device, serial);
      RecordOneProjects(RecordAll(EMPTY, before), raw, device, serial);
      if Is(raw, device, serial) {
        assert Mine(list, device, serial)[..|Mine(before, device, serial)|] == Mine(before, device, serial);
      }
    }
  }

  // ----- what the last sample of an ONU leaves -----

  /** No later sample is of the same ONU. */
  predicate LastOfOnu(list: seq<Sample>, i: int) {
    0 <= i < |list| && forall j :: i < j < |list| ==> !Is(list[j], list[i].device, list[i].serial)
  }

  /** The last sample of the list that is of the ONU and mentions the port. */
  ghost predicate LastMention(list: seq<Sample>, device: string, serial: string, port: int, i: int) {
    && 0 <= i < |list| && Is(list[i], device, serial) && Mentions(list[i], port)
    && forall j :: i < j < |list| && Is(list[j], device, serial) ==> !Mentions(list[j], port)
  }

  /** A port row after a batch: the reading of the last sample that mentions the port, or the row from before. */
  ghost predicate PortFollows(was: Option<PortState>, now: Option<PortState>, list: seq<Sample>, device: string,
                              serial: string, port: int) {
    && (forall i, p :: LastMention(list, device, serial, port, i) && Says(list[i], port, p) ==>
          now.Some? && PortShows(now.value, list[i], p))
    && ((forall i :: 0 <= i < |list| && Is(list[i], device, serial) ==> !Mentions(list[i], port)) ==> now == was)
  }

  /** The state row of an ONU after a batch: the columns of its last sample, or the row from before. */
  ghost predicate RowFollows(was: OnuState, now: OnuState, list: seq<Sample>, device: string, serial: string) {
    && (forall i :: LastOfOnu(list, i) && Is(list[i], device, serial) ==> RowShows(now, list[i]))
    && ((forall i :: 0 <= i < |list| ==> !Is(list[i], device, serial)) ==> now == was)
  }

  function PortRow(ports: map<int, PortState>, port: int): Option<PortState> {
    if port in ports then Some(ports[port]) else None
  }

  lemma {:induction false} PortFollowsMore(was: Option<PortState>, mid: Option<PortState>, now: Option<PortState>,
                                           list: seq<Sample>, last: Sample, device: string, serial: string, port: int)
    requires PortFollows(was, mid, list, device, serial, port)
    requires !Is(last, device, serial) || !Mentions(last, port) ==> now == mid
    requires Is(last, device, serial) ==>
               forall p :: Says(last, port, p) ==> now.Some? && PortShows(now.value, last, p)
    ensures PortFollows(was, now, list + [last], device, serial, port)
  {
    hide PortShows, Says;
    var all := list + [last];
    forall i, p | LastMention(all, device, serial, port, i) && Says(all[i], port, p)
      ensures now.Some? && PortShows(now.value, all[i], p)
    {
      if i < |list| {
        assert all[|list|] == last;
        forall j | i < j < |list| && Is(list[j], device, serial) ensures !Mentions(list[j], port) {
          assert all[j] == list[j];
        }
        assert LastMention(list, device, serial, port, i);
      }
    }
    if forall i :: 0 <= i < |all| && Is(all[i], device, serial) ==> !Mentions(all[i], port) {
      assert all[|list|] == last;
      forall i | 0 <= i < |list| && Is(list[i], device, serial) ensures !Mentions(list[i], port) {
        assert all[i] == list[i];
      }
    }
  }

  lemma {:induction false} RowFollowsMore(was: OnuState, mid: OnuState, now: OnuState, list: seq<Sample>, last: Sample,
                                          device: string, serial: string)
    requires RowFollows(was, mid, list, device, serial)
    requires if Is(last, device, serial) then RowShows(now, last) else now == mid
    ensures RowFollows(was, now, list + [last], device, serial)
  {
    hide RowShows;
    var all := list + [last];
    assert all[|list|] == last;
    forall i | LastOfOnu(all, i) && Is(all[i], device, serial) ensures RowShows(now, all[i]) {
      if i < |list| {
        assert forall j :: i < j < |list| ==> all[j] == list[j];
      }
    }
    if forall i :: 0 <= i < |all| ==> !Is(all[i], device, serial) {
      assert forall i :: 0 <= i < |list| ==> all[i] == list[i];
    }
  }

  lemma {:induction false} PortsAfterElsewhere(ports: map<int, PortState>, s: Sample, list: seq<EthPort>, port: int)
    requires forall k :: 0 <= k < |list| ==> list[k].port != port
    ensures PortRow(PortsAfter(ports, s, list), port) == PortRow(ports, port)
  {
    if list != [] {
      PortsAfterElsewhere(ports, s, list[..|list| - 1], port);
    }
  }

  lemma {:induction false} SampleRow(o: OnuState, raw: Sample)
    ensures RowShows(OnuAfter(o, Padded(raw)), raw)
  {
    PaddedIdempotent(raw);
    hide Padded;
  }

  lemma {:induction false} SamplePort(ports: map<int, PortState>, raw: Sample, port: int)
    ensures var s := Padded(raw);
            var now := PortRow(PortsAfter(ports, s, s.ethPorts), port);
            && (!Mentions(raw, port) ==> now == PortRow(ports, port))
            && (forall p :: Says(raw, port, p) ==> now.Some? && PortShows(now.value, raw, p))
  {
    hide Padded, PortsAfter, Says;
    var s := Padded(raw);
    PaddedIdempotent(raw);
    if !Mentions(raw, port) {
      NotMentioned(raw, port);
      PortsAfterElsewhere(ports, s, s.ethPorts, port);
    }
    forall p | Says(raw, port, p)
      ensures port in PortsAfter(ports, s, s.ethPorts) && PortShows(PortsAfter(ports, s, s.ethPorts)[port], raw, p)
    {
      ReadingListed(raw, port, p);
      var k :| LastListed(s.ethPorts, port, k) && s.ethPorts[k] == p;
      PortsAfterShow(ports, s, s.ethPorts, port, k);
    }
  }

  /** After any batch the rows of every ONU show its last sample and the last readings of its ports, and nothing else
      has changed. */
  lemma {:induction false} RecordedIsShown(m: Mem, list: seq<Sample>, device: string, serial: string, port: int)
    requires Keyed(m.ports) && ValidDevices(list) && ValidDevice(device)
    ensures var r := RecordAll(m, list);
            && RowFollows(OnuAt(m.onus, OnuKey(device, serial)), OnuAt(r.onus, OnuKey(device, serial)), list, device,
                          serial)
            && PortFollows(PortRow(PortsOf(m.ports, device, serial), port),
                           PortRow(PortsOf(r.ports, device, serial), port), list, device, serial, port)
  {
    hide Padded, OnuAfter, PortsAfter, PortsOf, RecordOne, OnuKey, RowFollows, PortFollows, RowShows, PortShows;
    if list == [] {
      NothingFollows(OnuAt(m.onus, OnuKey(device, serial)), PortRow(PortsOf(m.ports, device, serial), port), device,
                     serial, port);
    } else {
      var front, last := list[..|list| - 1], list[|list| - 1];
      var mid, r := RecordAll(m, front), RecordAll(m, list);
      RecordedIsShown(m, front, device, serial, port);
      RecordOneAt(mid, last, device, serial);
      SampleRow(OnuAt(mid.onus, OnuKey(device, serial)), last);
      SamplePort(PortsOf(mid.ports, device, serial), last, port);
      RowFollowsMore(OnuAt(m.onus, OnuKey(device, serial)), OnuAt(mid.onus, OnuKey(device, serial)),
                     OnuAt(r.onus, OnuKey(device, serial)), front, last, device, serial);
      PortFollowsMore(PortRow(PortsOf(m.ports, device, serial), port),
                      PortRow(PortsOf(mid.ports, device, serial), port),
                      PortRow(PortsOf(r.ports, device, serial), port), front, last, device, serial, port);
      assert list == front + [last];
    }
  }

  lemma {:induction false} NothingFollows(row: OnuState, was: Option<PortState>, device: string, serial: string,
                                          port: int)
    ensures RowFollows(row, row, [], device, serial) && PortFollows(was, was, [], device, serial, port)
  {
  }

  /** Every event recorded for a batch shows one of its samples. */
  lemma {:induction false} RecordedEvents(m: Mem, list: seq<Sample>)
    requires Keyed(m.ports) && ValidDevices(list)
    ensures var r := RecordAll(m, list);
            && m.statusLog <= r.statusLog && m.ethLog <= r.ethLog
            && (forall e :: e in r.statusLog[|m.statusLog|..] ==> StatusFrom(e, list, "poller"))
            && (forall e :: e in r.ethLog[|m.ethLog|..] ==> EthFrom(e, list, "poller"))
  {
    hide Padded, StatusEventsFrom, EthEventsOf, StatusFrom, EthFrom, OnuAfter, PutPorts, PortsOf;
    if list != [] {
      var front, last := list[..|list| - 1], list[|list| - 1];
      var before := RecordAll(m, front);
      RecordedEvents(m, front);
      FromMore(front, last, "poller");
      PaddedIdempotent(last);
      var s := Padded(last);
      EventsOfSample(OnuAt(before.onus, OnuKey(s.device, s.serial)), PortsOf(before.ports, s.device, s.serial), list,
                     |list| - 1, "poller");
      assert list == front + [last];
    }
  }

  lemma {:induction false} FromMore(list: seq<Sample>, s: Sample, source: string)
    ensures forall e :: StatusFrom(e, list, source) ==> StatusFrom(e, list + [s], source)
    ensures forall e :: EthFrom(e, list, source) ==> EthFrom(e, list + [s], source)
  {
    hide PaddedFrom, StatusEventShows, EthEventShows;
    var all := list + [s];
    forall e | StatusFrom(e, list, source) ensures StatusFrom(e, all, source) {
      var i :| 0 <= i < |list| && StatusEventShows(e, list[i], source);
      assert all[i] == list[i];
    }
    forall e | EthFrom(e, list, source) ensures EthFrom(e, all, source) {
      var i, r: Sample, p :| 0 <= i < |list| && PaddedFrom(list[i], r) && p in r.ethPorts
                             && EthEventShows(e, list[i], p, source);
      assert all[i] == list[i];
    }
  }

  /** Main result on the status log: whatever was recorded, the log of every ONU seen explains its row. */
  lemma {:induction false} StatusLogExplainsStore(list: seq<Sample>, device: string, serial: string)
    requires ValidDevices(list) && ValidDevice(device) && !Blank(serial)
    requires exists s :: s in list && Is(s, device, serial)
    ensures var o := Project(RecordAll(EMPTY, list), device, serial);
            StatusExplains(o.statusLog, o.state)
  {
    RecordAllProjects(list, device, serial);
    var mine := Mine(list, device, serial);
    assert forall i :: 0 <= i < |mine| ==> mine[i] in mine;
    StatusLogExplainsState(mine, device, serial, "poller");
  }

  /** Main result on the Ethernet log: for every ONU and port, seen or not. */
  lemma {:induction false} EthLogExplainsStore(list: seq<Sample>, device: string, serial: string, port: int)
    requires ValidDevices(list) && ValidDevice(device) && serial != ""
    requires forall i :: 0 <= i < |list| ==> DistinctPorts(list[i].ethPorts)
    ensures EthExplains(PortLog(EthOf(RecordAll(EMPTY, list).ethLog, device, serial), port),
                        PortAt(RecordAll(EMPTY, list).ports, PortKey(device, serial, port)))
  {
    RecordAllProjects(list, device, serial);
    ScanIsLookup(RecordAll(EMPTY, list).ports, device, serial, port);
    var mine := Mine(list, device, serial);
    forall i | 0 <= i < |mine| ensures Is(mine[i], device, serial) && DistinctPorts(mine[i].ethPorts) {
      assert mine[i] in mine && mine[i] in list;
    }
    EthLogExplainsState(mine, device, serial, "poller", port);
  }
}
