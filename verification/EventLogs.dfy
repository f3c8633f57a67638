/** The event logs of one ONU explain its materialised state. */
module EventLogs {
  import opened Text
  import opened Events

  // ----- status -----

  /** The log starts from nothing, each event continues the one before it, no later event is a
      non-change, and the state row is the last event's up to letter case. */
  predicate StatusExplains(log: seq<StatusEvent>, state: OnuState) {
    && state.serial != ""
    && log != []
    && log[0].previousStatus == ""
    && (forall i :: 0 < i < |log| ==> EqualFold(log[i].previousStatus, log[i - 1].status))
    && (forall i :: 0 < i < |log| ==> !EqualFold(log[i].previousStatus, log[i].status))
    && state.previousStatus == log[|log| - 1].previousStatus
    && state.changedAt == Some(log[|log| - 1].time)
    && EqualFold(log[|log| - 1].status, state.status)
  }

  predicate OneOnu(list: seq<Sample>, device: string, serial: string) {
    forall i :: 0 <= i < |list| ==> Is(list[i], device, serial)
  }

  lemma {:induction false} StatusStep(log: seq<StatusEvent>, state: OnuState, s: Sample, source: string)
    requires !Blank(s.serial)
    requires StatusExplains(log, state) || (log == [] && state == NO_ONU)
    ensures StatusExplains(log + StatusEventsFrom(state, s, source), OnuAfter(state, s))
  {
    assert Blank("");
  }

  lemma {:induction false} StatusLogExplainsState(list: seq<Sample>, device: string, serial: string, source: string)
    requires list != [] && OneOnu(list, device, serial) && !Blank(serial)
    ensures StatusExplains(ObserveAll(list, source).statusLog, ObserveAll(list, source).state)
  {
    var before := list[..|list| - 1];
    if before != [] {
      StatusLogExplainsState(before, device, serial, source);
    }
    var o := ObserveAll(before, source);
    StatusStep(o.statusLog, o.state, Padded(list[|list| - 1]), source);
  }

  // ----- Ethernet -----

  function PortLog(log: seq<EthEvent>, port: int): seq<EthEvent> {
    if log == [] then []
    else
      var before := PortLog(log[..|log| - 1], port);
      if log[|log| - 1].port == port then before + [log[|log| - 1]] else before
  }

  lemma {:induction false} PortLogAppend(a: seq<EthEvent>, b: seq<EthEvent>, port: int)
    ensures PortLog(a + b, port) == PortLog(a, port) + PortLog(b, port)
  {
    if b == [] {
      assert a + b == a;
    } else {
      assert (a + b)[..|a + b| - 1] == a + b[..|b| - 1];
      PortLogAppend(a, b[..|b| - 1], port);
    }
  }

  /** The link and admin state one gets by replaying a port's events from nothing. */
  function Replay(log: seq<EthEvent>): (string, string) {
    if log == [] then ("", "") else (log[|log| - 1].link, log[|log| - 1].admin)
  }

  /** Each event starts exactly where the events before it end and is a real change. */
  predicate Chained(log: seq<EthEvent>) {
    && (forall i :: 0 <= i < |log| ==> (log[i].previousLink, log[i].previousAdmin) == Replay(log[..i]))
    && (forall i :: 0 <= i < |log| ==> (log[i].link, log[i].admin) != (log[i].previousLink, log[i].previousAdmin))
  }

  /** Replaying a chained log gives the stored state, whose change time is the last event's. */
  predicate EthExplains(log: seq<EthEvent>, row: PortState) {
    && Chained(log)
    && (row.link, row.admin) == Replay(log)
    && (log != [] ==> row.serial != "" && row.lastChanged == Some(log[|log| - 1].time))
    && (row.serial == "" ==> row == NO_PORT)
  }

  lemma {:induction false} ChainAppend(log: seq<EthEvent>, e: EthEvent)
    requires Chained(log) && (e.previousLink, e.previousAdmin) == Replay(log) && (e.link, e.admin) != Replay(log)
    ensures Chained(log + [e])
  {
    var log' := log + [e];
    forall i | 0 <= i < |log'| ensures (log'[i].previousLink, log'[i].previousAdmin) == Replay(log'[..i]) {
      assert log'[..i] == log[..i];
      assert log[..|log|] == log;
    }
  }

  predicate EthLogExplains(o: Onu, port: int) {
    EthExplains(PortLog(o.ethLog, port), Prev(o.ports, port))
  }

  lemma {:induction false} EthStep(log: seq<EthEvent>, row: PortState, s: Sample, p: EthPort, source: string)
    requires EthExplains(log, row) && s.serial != ""
    ensures EthExplains(log + (if PortChanged(row, p) then [EthEventFrom(row, s, p, source)] else []),
                        PortAfter(row, s, p))
  {
    if PortChanged(row, p) {
      ChainAppend(log, EthEventFrom(row, s, p, source));
    } else {
      assert log + [] == log;
    }
  }

  /** The reading a sample holds for one index. */
  function Reading(ports: seq<EthPort>, port: int): Option<EthPort> {
    if ports == [] then None
    else if ports[|ports| - 1].port == port then Some(ports[|ports| - 1])
    else Reading(ports[..|ports| - 1], port)
  }

  lemma {:induction false} ReadingSome(ports: seq<EthPort>, port: int)
    ensures Reading(ports, port).Some? <==> exists i :: 0 <= i < |ports| && ports[i].port == port
  {
    if ports != [] {
      ReadingSome(ports[..|ports| - 1], port);
    }
  }

  lemma {:induction false} EventsOfOnePort(prev: map<int, PortState>, s: Sample, ports: seq<EthPort>, source: string,
                                           port: int)
    requires DistinctPorts(ports)
    ensures PortLog(EthEventsOf(prev, s, ports, source), port) ==
            match Reading(ports, port)
            case None => []
            case Some(p) => if PortChanged(Prev(prev, port), p) then [EthEventFrom(Prev(prev, port), s, p, source)]
              else []
  {
    if ports != [] {
      var p, rest := ports[|ports| - 1], ports[..|ports| - 1];
      EventsOfOnePort(prev, s, rest, source, port);
      ReadingSome(rest, port);
      var before := EthEventsOf(prev, s, rest, source);
      if PortChanged(Prev(prev, p.port), p) {
        PortLogAppend(before, [EthEventFrom(Prev(prev, p.port), s, p, source)], port);
      }
    }
  }

  lemma {:induction false} RowOfOnePort(rows: map<int, PortState>, s: Sample, ports: seq<EthPort>, port: int)
    requires DistinctPorts(ports)
    ensures Prev(PortsAfter(rows, s, ports), port) ==
            match Reading(ports, port)
            case None => Prev(rows, port)
            case Some(p) => PortAfter(Prev(rows, port), s, p)
    ensures port in PortsAfter(rows, s, ports) <==> port in rows || Reading(ports, port).Some?
  {
    if ports != [] {
      RowOfOnePort(rows, s, ports[..|ports| - 1], port);
      ReadingSome(ports[..|ports| - 1], port);
    }
  }

  lemma {:induction false} ObserveExplainsPort(o: Onu, s: Sample, source: string, port: int)
    requires EthLogExplains(o, port) && DistinctPorts(s.ethPorts) && s.serial != ""
    ensures EthExplains(PortLog(o.ethLog + EthEventsOf(o.ports, s, s.ethPorts, source), port),
                        Prev(PortsAfter(o.ports, s, s.ethPorts), port))
  {
    RowOfOnePort(o.ports, s, s.ethPorts, port);
    EventsOfOnePort(o.ports, s, s.ethPorts, source, port);
    PortLogAppend(o.ethLog, EthEventsOf(o.ports, s, s.ethPorts, source), port);
    match Reading(s.ethPorts, port)
    case None => assert PortLog(o.ethLog, port) + [] == PortLog(o.ethLog, port);
    case Some(p) => EthStep(PortLog(o.ethLog, port), Prev(o.ports, port), s, p, source);
  }

  lemma {:induction false} EthLogExplainsState(list: seq<Sample>, device: string, serial: string, source: string,
                                               port: int)
    requires OneOnu(list, device, serial) && serial != ""
    requires forall i :: 0 <= i < |list| ==> DistinctPorts(list[i].ethPorts)
    ensures EthLogExplains(ObserveAll(list, source), port)
  {
    if list != [] {
      var before, raw := list[..|list| - 1], list[|list| - 1];
      EthLogExplainsState(before, device, serial, source, port);
      PaddedKeepsDistinct(raw);
      ObserveExplainsPort(ObserveAll(before, source), Padded(raw), source, port);
    }
  }

  /** Distinct ports are needed: a first sample listing one index twice with two readings logs two
      events that both start from nothing, so the second does not continue the first. */
  lemma {:induction false} RepeatedPortBreaksTheLog(s: Sample, p: EthPort, q: EthPort, row: PortState)
    requires p.port == q.port && p.link != "" && q.link != ""
    ensures !EthExplains(PortLog(EthEventsOf(map[], s, [p, q], "poller"), p.port), row)
  {
    var e, f := EthEventFrom(NO_PORT, s, p, "poller"), EthEventFrom(NO_PORT, s, q, "poller");
    TwoEvents(s, p, q);
    TwoInLog(e, f);
    assert [e, f][..1] == [e];
    assert ([e, f][1].previousLink, [e, f][1].previousAdmin) != Replay([e, f][..1]);
  }

  lemma {:induction false} TwoEvents(s: Sample, p: EthPort, q: EthPort)
    requires p.link != "" && q.link != ""
    ensures EthEventsOf(map[], s, [p, q], "poller") ==
            [EthEventFrom(NO_PORT, s, p, "poller"), EthEventFrom(NO_PORT, s, q, "poller")]
  {
    assert [p, q][..1] == [p] && [p][..0] == [];
    assert EthEventsOf(map[], s, [p], "poller") == [] + [EthEventFrom(NO_PORT, s, p, "poller")];
  }

  lemma {:induction false} TwoInLog(e: EthEvent, f: EthEvent)
    requires e.port == f.port
    ensures PortLog([e, f], e.port) == [e, f]
  {
    assert [e, f][..1] == [e] && [e][..0] == [];
    assert PortLog([e], e.port) == [e];
  }

  // ----- one reading against two previous states -----

  /** A reading is a change against both or against neither, and then from the same values. */
  predicate Alike(a: PortState, b: PortState, p: EthPort) {
    && (PortChanged(a, p) <==> PortChanged(b, p))
    && (PortChanged(a, p) ==> a.link == b.link && a.admin == b.admin)
  }

  lemma {:induction false} EventOf(prev: map<int, PortState>, s: Sample, ports: seq<EthPort>, source: string,
                                   e: EthEvent)
    ensures e in EthEventsOf(prev, s, ports, source) <==>
            exists p :: p in ports && PortChanged(Prev(prev, p.port), p)
                        && e == EthEventFrom(Prev(prev, p.port), s, p, source)
  {
    hide PortChanged, Prev;
    if ports != [] {
      var front, last := ports[..|ports| - 1], ports[|ports| - 1];
      EventOf(prev, s, front, source, e);
      assert forall p :: p in ports <==> p in front || p == last;
    }
  }

  lemma {:induction false} AlikeEvents(a: map<int, PortState>, b: map<int, PortState>, s: Sample, ports: seq<EthPort>,
                                       source: string)
    requires forall p :: p in ports ==> Alike(Prev(a, p.port), Prev(b, p.port), p)
    ensures EthEventsOf(a, s, ports, source) == EthEventsOf(b, s, ports, source)
  {
    hide Prev;
    if ports != [] {
      AlikeEvents(a, b, s, ports[..|ports| - 1], source);
      assert ports[|ports| - 1] in ports;
    }
  }

  lemma {:induction false} AlikeOne(a: PortState, b: PortState, s: Sample, p: EthPort, q: EthPort, source: string)
    requires EthEventFrom(a, s, p, source) == EthEventFrom(b, s, q, source) && PortChanged(a, p) && PortChanged(b, q)
    ensures p.port == q.port && Alike(a, b, p)
  {
  }

  /** A sample gives the same Ethernet events against two sets of previous states exactly when each of its readings is
      alike against both. */
  lemma {:induction false} EthEventsAgreeIff(a: map<int, PortState>, b: map<int, PortState>, s: Sample,
                                             ports: seq<EthPort>, source: string)
    ensures EthEventsOf(a, s, ports, source) == EthEventsOf(b, s, ports, source) <==>
            forall p :: p in ports ==> Alike(Prev(a, p.port), Prev(b, p.port), p)
  {
    hide PortChanged, Prev, EthEventsOf;
    if EthEventsOf(a, s, ports, source) == EthEventsOf(b, s, ports, source) {
      forall p | p in ports ensures Alike(Prev(a, p.port), Prev(b, p.port), p) {
        if PortChanged(Prev(a, p.port), p) {
          AlikeIn(a, b, s, ports, source, p);
        } else if PortChanged(Prev(b, p.port), p) {
          AlikeIn(b, a, s, ports, source, p);
        }
      }
    } else if forall p :: p in ports ==> Alike(Prev(a, p.port), Prev(b, p.port), p) {
      AlikeEvents(a, b, s, ports, source);
    }
  }

  lemma {:induction false} AlikeIn(a: map<int, PortState>, b: map<int, PortState>, s: Sample, ports: seq<EthPort>,
                                   source: string, p: EthPort)
    requires EthEventsOf(a, s, ports, source) == EthEventsOf(b, s, ports, source)
    requires p in ports && PortChanged(Prev(a, p.port), p)
    ensures Alike(Prev(a, p.port), Prev(b, p.port), p) && PortChanged(Prev(b, p.port), p)
  {
    hide PortChanged, Prev, EthEventsOf, EthEventFrom, Alike;
    var e := EthEventFrom(Prev(a, p.port), s, p, source);
    EventOf(a, s, ports, source, e);
    EventOf(b, s, ports, source, e);
    var q :| q in ports && PortChanged(Prev(b, q.port), q) && e == EthEventFrom(Prev(b, q.port), s, q, source);
    AlikeOne(Prev(a, p.port), Prev(b, q.port), s, p, q, source);
    AlikeOne(Prev(b, q.port), Prev(a, p.port), s, q, p, source);
    AlikeChanged(Prev(a, p.port), Prev(b, p.port), p);
  }

  lemma {:induction false} AlikeChanged(a: PortState, b: PortState, p: EthPort)
    requires Alike(a, b, p) && PortChanged(a, p)
    ensures PortChanged(b, p)
  {
  }

  // ----- the empty serial -----

  function Readings(ports: seq<EthPort>): nat {
    if ports == [] then 0
    else
      var p := ports[|ports| - 1];
      Readings(ports[..|ports| - 1]) + if p.link != "" || p.admin != "" then 1 else 0
  }

  function AllReadings(list: seq<Sample>): nat {
    if list == [] then 0 else AllReadings(list[..|list| - 1]) + Readings(Padded(list[|list| - 1]).ethPorts)
  }

  predicate Anonymous(ports: map<int, PortState>) {
    forall k :: k in ports ==> ports[k].serial == ""
  }

  lemma {:induction false} AnonymousEvents(prev: map<int, PortState>, s: Sample, ports: seq<EthPort>, source: string)
    requires Anonymous(prev)
    ensures |EthEventsOf(prev, s, ports, source)| == Readings(ports)
  {
    if ports != [] {
      AnonymousEvents(prev, s, ports[..|ports| - 1], source);
    }
  }

  lemma {:induction false} AnonymousAfter(prev: map<int, PortState>, s: Sample, ports: seq<EthPort>)
    requires Anonymous(prev) && s.serial == ""
    ensures Anonymous(PortsAfter(prev, s, ports))
  {
    if ports != [] {
      AnonymousAfter(prev, s, ports[..|ports| - 1]);
    }
  }

  /** A non-empty serial is needed too: under the empty serial the stored rows read as missing, so every sample
      logs every one of its non-empty readings again, and the status path logs nothing at all. */
  lemma {:induction false} EmptySerialLogsEverything(list: seq<Sample>, source: string)
    requires forall i :: 0 <= i < |list| ==> list[i].serial == ""
    ensures |ObserveAll(list, source).ethLog| == AllReadings(list)
    ensures ObserveAll(list, source).statusLog == []
    ensures Anonymous(ObserveAll(list, source).ports)
  {
    hide ExpectedEthernetPorts, Readings;
    if list != [] {
      var front, s := list[..|list| - 1], Padded(list[|list| - 1]);
      EmptySerialLogsEverything(front, source);
      AnonymousEvents(ObserveAll(front, source).ports, s, s.ethPorts, source);
      AnonymousAfter(ObserveAll(front, source).ports, s, s.ethPorts);
      assert TrimSpace("") == "";
    }
  }
}
