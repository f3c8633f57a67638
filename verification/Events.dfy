/** Samples, the change events derived from them, and what one ONU's stream of samples amounts to. */
module Events {
  import opened Text

  datatype EthPort = EthPort(port: int, admin: string, link: string, speed: Option<int>, duplex: string)

  /** One PON-list observation. Times are integers. Of the optical and Ethernet summary columns only the link state is
      read by anything modelled here; the others are not repeated. */
  datatype Sample = Sample(
    time: int, device: string, serial: string, board: int, pon: int, onu: int,
    name: string, onuType: string, status: string, ethPorts: seq<EthPort>, expectedPorts: int,
    ethLink: string)

  datatype OnuState = OnuState(
    device: string, serial: string, name: string, onuType: string, board: int, pon: int, onu: int,
    status: string, previousStatus: string, changedAt: Option<int>, expectedPorts: int, lastSeen: Option<int>)

  datatype PortState = PortState(
    device: string, serial: string, port: int, admin: string, link: string,
    speed: Option<int>, duplex: string, lastChanged: Option<int>, lastSeen: Option<int>)

  datatype StatusEvent = StatusEvent(
    time: int, device: string, serial: string, board: int, pon: int, onu: int,
    status: string, previousStatus: string, source: string)

  datatype EthEvent = EthEvent(
    time: int, device: string, serial: string, board: int, pon: int, onu: int, port: int,
    link: string, admin: string, previousLink: string, previousAdmin: string,
    speed: Option<int>, source: string)

  // A missing map entry reads as the zero value, whose serial is empty.
  const NO_ONU := OnuState("", "", "", "", 0, 0, 0, "", "", None, 0, None)
  const NO_PORT := PortState("", "", 0, "", "", None, "", None, None)

  // ----- expected ports -----

  function ToUpper(s: string): string {
    if s == "" then "" else [UpperChar(s[0])] + ToUpper(s[1..])
  }

  function LettersAndDigits(s: string): string {
    if s == "" then ""
    else (if 'A' <= s[0] <= 'Z' || 'a' <= s[0] <= 'z' || IsDigit(s[0]) then [s[0]] else "") + LettersAndDigits(s[1..])
  }

  function NormalizeOnuType(onuType: string): string {
    LettersAndDigits(ToUpper(TrimSpace(onuType)))
  }

  function ExpectedEthernetPorts(onuType: string): nat {
    var t := NormalizeOnuType(onuType);
    if Contains(t, "F668") || Contains(t, "F670") || Contains(t, "F660") || Contains(t, "F680")
       || Contains(t, "F643") || Contains(t, "F6600") then 4
    else if Contains(t, "F612") || Contains(t, "F4005") then 2
    else if Contains(t, "F601") || Contains(t, "F401") || Contains(t, "F400") then 1
    else 0
  }

  /** A type whose normal form holds one of these model numbers has that many ports, the greater count deciding. */
  lemma {:induction false} PortCounts(onuType: string)
    ensures var t, n := NormalizeOnuType(onuType), ExpectedEthernetPorts(onuType);
            var four := Contains(t, "F643") || Contains(t, "F660") || Contains(t, "F6600") || Contains(t, "F668")
                        || Contains(t, "F670") || Contains(t, "F680");
            var two := Contains(t, "F4005") || Contains(t, "F612");
            var one := Contains(t, "F400") || Contains(t, "F401") || Contains(t, "F601");
            && (n == 4 <==> four) && (n == 2 <==> two && !four) && (n == 1 <==> one && !two && !four)
            && (n == 0 <==> !four && !two && !one)
  {
    hide NormalizeOnuType, Contains;
  }

  predicate CapitalOrDigit(c: char) {
    'A' <= c <= 'Z' || '0' <= c <= '9'
  }

  /** The normal form is made of capitals and digits, and leaves a text made of those alone. Nothing but letters and
      digits counts, and the case of a letter does not. */
  lemma {:induction false} NormalForm(s: string, c: char)
    ensures forall x :: x in LettersAndDigits(ToUpper(s)) ==> CapitalOrDigit(x)
    ensures (forall x :: x in s ==> CapitalOrDigit(x)) ==> LettersAndDigits(ToUpper(s)) == s
    ensures !CapitalOrDigit(c) && !('a' <= c <= 'z') ==>
              LettersAndDigits(ToUpper([c] + s)) == LettersAndDigits(ToUpper(s))
    ensures 'A' <= c <= 'Z' ==> LettersAndDigits(ToUpper([LowerChar(c)] + s)) == [c] + LettersAndDigits(ToUpper(s))
  {
    assert ([c] + s)[1..] == s && ([LowerChar(c)] + s)[1..] == s;
    if s != "" {
      NormalForm(s[1..], c);
      assert s == [s[0]] + s[1..] && ToUpper(s)[1..] == ToUpper(s[1..]);
      assert s[0] in s;
    }
  }

  function UnknownPort(i: int): EthPort {
    EthPort(i, "unknown", "unknown", None, "")
  }

  /** The last listed reading of each index, as a Go map filled in a loop keeps it. */
  function ByIndex(ports: seq<EthPort>): map<int, EthPort> {
    if ports == [] then map[]
    else
      var p := ports[|ports| - 1];
      ByIndex(ports[..|ports| - 1])[p.port := p]
  }

  function PortOrUnknown(byIndex: map<int, EthPort>, i: int): EthPort {
    if i in byIndex then byIndex[i] else UnknownPort(i)
  }

  function FillPorts(byIndex: map<int, EthPort>, n: nat): (r: seq<EthPort>)
    ensures |r| == n
    ensures forall i :: 0 <= i < n ==> r[i] == PortOrUnknown(byIndex, i + 1)
  {
    if n == 0 then [] else FillPorts(byIndex, n - 1) + [PortOrUnknown(byIndex, n)]
  }

  function Padded(s: Sample): Sample {
    var n := ExpectedEthernetPorts(s.onuType);
    if n == 0 || |s.ethPorts| >= n then s.(expectedPorts := n)
    else s.(expectedPorts := n, ethPorts := FillPorts(ByIndex(s.ethPorts), n))
  }

  /** Entry k is the last listed one of its index. */
  predicate LastListed(ports: seq<EthPort>, index: int, k: int) {
    0 <= k < |ports| && ports[k].port == index && forall j :: k < j < |ports| ==> ports[j].port != index
  }

  /** The last reading listed for an index, or an unknown one when none is. */
  ghost predicate Fills(ports: seq<EthPort>, index: int, p: EthPort) {
    || (exists k :: LastListed(ports, index, k) && p == ports[k])
    || ((forall k :: 0 <= k < |ports| ==> ports[k].port != index)
        && p == EthPort(index, "unknown", "unknown", None, ""))
  }

  /** What padding promises: a list at least as long as the type's count is left alone, as is any list of an unknown
      type; a shorter one becomes the indexes 1..n in order. Nothing else of the sample changes. */
  ghost predicate PaddedFrom(s: Sample, r: Sample) {
    var n := ExpectedEthernetPorts(s.onuType);
    && r == s.(ethPorts := r.ethPorts, expectedPorts := n)
    && (|s.ethPorts| >= n ==> r.ethPorts == s.ethPorts)
    && (|s.ethPorts| < n ==> |r.ethPorts| == n && forall i :: 0 <= i < n ==> Fills(s.ethPorts, i + 1, r.ethPorts[i]))
  }

  lemma {:induction false} ByIndexLast(ports: seq<EthPort>, index: int)
    ensures index in ByIndex(ports) ==> exists k :: LastListed(ports, index, k) && ByIndex(ports)[index] == ports[k]
    ensures index !in ByIndex(ports) ==> forall k :: 0 <= k < |ports| ==> ports[k].port != index
  {
    if ports != [] {
      var front, p := ports[..|ports| - 1], ports[|ports| - 1];
      ByIndexLast(front, index);
      if p.port == index {
        assert LastListed(ports, index, |ports| - 1);
      } else if index in ByIndex(front) {
        var k :| LastListed(front, index, k) && ByIndex(front)[index] == front[k];
        assert LastListed(ports, index, k);
      }
    }
  }

  lemma {:induction false} FillsIndex(ports: seq<EthPort>, index: int)
    ensures Fills(ports, index, PortOrUnknown(ByIndex(ports), index))
  {
    ByIndexLast(ports, index);
  }

  lemma {:induction false} PaddingKeepsPromise(s: Sample)
    ensures PaddedFrom(s, Padded(s))
  {
    hide ExpectedEthernetPorts, Fills, ByIndex, PortOrUnknown;
    var n, r := ExpectedEthernetPorts(s.onuType), Padded(s);
    if |s.ethPorts| < n {
      forall i | 0 <= i < n ensures Fills(s.ethPorts, i + 1, r.ethPorts[i]) {
        FillsIndex(s.ethPorts, i + 1);
      }
    }
  }

  /** What a sample says of a port: its last listed reading, or, when the list is shorter than the type's count, that of
      one of the ports 1..n, unknown where none is listed. */
  ghost predicate Says(s: Sample, index: int, p: EthPort) {
    var n := ExpectedEthernetPorts(s.onuType);
    if |s.ethPorts| >= n then exists k :: LastListed(s.ethPorts, index, k) && p == s.ethPorts[k]
    else 1 <= index <= n && Fills(s.ethPorts, index, p)
  }

  ghost predicate Mentions(s: Sample, index: int) {
    exists p :: Says(s, index, p)
  }

  lemma {:induction false} ReadingListed(s: Sample, index: int, p: EthPort)
    requires Says(s, index, p)
    ensures exists k :: LastListed(Padded(s).ethPorts, index, k) && Padded(s).ethPorts[k] == p
  {
    PaddingKeepsPromise(s);
    hide ExpectedEthernetPorts, Padded;
    var n, list := ExpectedEthernetPorts(s.onuType), Padded(s).ethPorts;
    if |s.ethPorts| < n {
      forall i | 0 <= i < n ensures list[i].port == i + 1 {
        assert Fills(s.ethPorts, i + 1, list[i]);
      }
      assert Fills(s.ethPorts, index, list[index - 1]);
      assert LastListed(list, index, index - 1);
    }
  }

  lemma {:induction false} LastOfIndex(ports: seq<EthPort>, index: int)
    ensures (exists k :: LastListed(ports, index, k)) <==> exists k :: 0 <= k < |ports| && ports[k].port == index
  {
    ByIndexLast(ports, index);
    IndexListed(ports, index);
  }

  lemma {:induction false} IndexListed(ports: seq<EthPort>, index: int)
    ensures index in ByIndex(ports) <==> exists k :: 0 <= k < |ports| && ports[k].port == index
  {
    if ports != [] {
      var front := ports[..|ports| - 1];
      IndexListed(front, index);
      assert forall k :: 0 <= k < |front| ==> front[k] == ports[k];
    }
  }

  lemma {:induction false} NotMentioned(s: Sample, index: int)
    requires !Mentions(s, index)
    ensures forall k :: 0 <= k < |Padded(s).ethPorts| ==> Padded(s).ethPorts[k].port != index
  {
    PaddingKeepsPromise(s);
    hide ExpectedEthernetPorts, Padded;
    var n, list := ExpectedEthernetPorts(s.onuType), Padded(s).ethPorts;
    if |s.ethPorts| >= n {
      LastOfIndex(s.ethPorts, index);
      assert forall k :: LastListed(s.ethPorts, index, k) ==> Says(s, index, s.ethPorts[k]);
    } else {
      forall k | 0 <= k < n ensures list[k].port != index {
        assert Fills(s.ethPorts, k + 1, list[k]);
        assert list[k].port == k + 1;
        assert index == k + 1 ==> Says(s, index, list[k]);
      }
    }
  }

  method ApplyExpectedPorts(sample: Sample) returns (r: Sample)
    ensures PaddedFrom(sample, r)
    ensures r == Padded(sample)
  {
    PaddingKeepsPromise(sample);
    hide PaddedFrom;
    hide ExpectedEthernetPorts;
    var n := ExpectedEthernetPorts(sample.onuType);
    r := sample.(expectedPorts := n);
    if n <= 0 || |sample.ethPorts| >= n {
      return;
    }
    var byIndex: map<int, EthPort> := map[];
    for k := 0 to |sample.ethPorts|
      invariant byIndex == ByIndex(sample.ethPorts[..k])
    {
      var port := sample.ethPorts[k];
      assert sample.ethPorts[..k + 1][..k] == sample.ethPorts[..k];
      byIndex := byIndex[port.port := port];
    }
    assert sample.ethPorts[..|sample.ethPorts|] == sample.ethPorts;
    var out: seq<EthPort> := [];
    for i := 1 to n + 1
      invariant out == FillPorts(byIndex, i - 1)
    {
      if i in byIndex {
        out := out + [byIndex[i]];
      } else {
        out := out + [UnknownPort(i)];
      }
    }
    r := r.(ethPorts := out);
  }

  /** A short list for a known type becomes exactly the indexes 1..n in order: an observed index keeps
      its last reading, the others read unknown, and an observed index above n is dropped. */
  lemma {:induction false} PaddedPorts(s: Sample, i: nat)
    requires |s.ethPorts| < ExpectedEthernetPorts(s.onuType) && i < ExpectedEthernetPorts(s.onuType)
    ensures |Padded(s).ethPorts| == ExpectedEthernetPorts(s.onuType)
    ensures Padded(s).ethPorts[i].port == i + 1
    ensures Padded(s).ethPorts[i] in s.ethPorts || Padded(s).ethPorts[i] == UnknownPort(i + 1)
    ensures (exists p :: p in s.ethPorts && p.port == i + 1) ==> Padded(s).ethPorts[i] in s.ethPorts
  {
    hide ExpectedEthernetPorts;
    ByIndexLast(s.ethPorts, i + 1);
    if p :| p in s.ethPorts && p.port == i + 1 {
      var k :| 0 <= k < |s.ethPorts| && s.ethPorts[k] == p;
    }
  }

  lemma {:induction false} PaddedIdempotent(s: Sample)
    ensures Padded(Padded(s)) == Padded(s)
    ensures Padded(s) == s.(ethPorts := Padded(s).ethPorts, expectedPorts := ExpectedEthernetPorts(s.onuType))
  {
  }

  predicate DistinctPorts(ports: seq<EthPort>) {
    forall i, j :: 0 <= i < j < |ports| ==> ports[i].port != ports[j].port
  }

  lemma {:induction false} PaddedKeepsDistinct(s: Sample)
    requires DistinctPorts(s.ethPorts)
    ensures DistinctPorts(Padded(s).ethPorts)
  {
    if |s.ethPorts| < ExpectedEthernetPorts(s.onuType) {
      forall i: nat | i < |Padded(s).ethPorts| ensures Padded(s).ethPorts[i].port == i + 1 {
        PaddedPorts(s, i);
      }
    }
  }

  // ----- change detection -----

  predicate StatusChanged(prev: OnuState, sample: Sample) {
    if Blank(sample.serial) then false
    else if prev.serial == "" then true
    else !EqualFold(prev.status, sample.status)
  }

  function StatusEventFrom(prev: OnuState, sample: Sample, source: string): StatusEvent {
    StatusEvent(sample.time, sample.device, sample.serial, sample.board, sample.pon, sample.onu,
                sample.status, prev.status, source)
  }

  /** What a status change appends to a log. */
  function StatusEventsFrom(prev: OnuState, sample: Sample, source: string): seq<StatusEvent> {
    if StatusChanged(prev, sample) then [StatusEventFrom(prev, sample, source)] else []
  }

  function Prev(prev: map<int, PortState>, port: int): PortState {
    if port in prev then prev[port] else NO_PORT
  }

  predicate PortChanged(was: PortState, port: EthPort) {
    && !(was.serial != "" && was.link == port.link && was.admin == port.admin)
    && !(was.serial == "" && port.link == "" && port.admin == "")
  }

  function EthEventFrom(was: PortState, sample: Sample, port: EthPort, source: string): EthEvent {
    EthEvent(sample.time, sample.device, sample.serial, sample.board, sample.pon, sample.onu, port.port,
             port.link, port.admin, was.link, was.admin, port.speed, source)
  }

  /** The events of the ports listed so far, all against the same previous states. */
  function EthEventsOf(prev: map<int, PortState>, sample: Sample, ports: seq<EthPort>, source: string): seq<EthEvent> {
    if ports == [] then []
    else
      var p := ports[|ports| - 1];
      var before := EthEventsOf(prev, sample, ports[..|ports| - 1], source);
      if PortChanged(Prev(prev, p.port), p) then before + [EthEventFrom(Prev(prev, p.port), sample, p, source)]
        else before
  }

  method EthEventsFrom(prev: map<int, PortState>, sample: Sample, source: string) returns (out: seq<EthEvent>)
    ensures out == EthEventsOf(prev, sample, sample.ethPorts, source)
  {
    out := [];
    var ports := sample.ethPorts;
    for k := 0 to |ports|
      invariant out == EthEventsOf(prev, sample, ports[..k], source)
    {
      var port := ports[k];
      assert ports[..k + 1][..k] == ports[..k];
      var was := Prev(prev, port.port);
      if was.serial != "" && was.link == port.link && was.admin == port.admin {
        continue;
      }
      if was.serial == "" && port.link == "" && port.admin == "" {
        continue;
      }
      out := out + [EthEventFrom(was, sample, port, source)];
    }
    assert ports[..|ports|] == ports;
  }

  // ----- what rows and events show of a sample -----

  predicate RowShows(row: OnuState, s: Sample) {
    && row.device == s.device && row.serial == s.serial && row.name == s.name && row.onuType == s.onuType
    && row.board == s.board && row.pon == s.pon && row.onu == s.onu && row.status == s.status
    && row.expectedPorts == ExpectedEthernetPorts(s.onuType) && row.lastSeen == Some(s.time)
  }

  predicate PortShows(row: PortState, s: Sample, p: EthPort) {
    && row.device == s.device && row.serial == s.serial && row.port == p.port
    && row.admin == p.admin && row.link == p.link && row.speed == p.speed && row.duplex == p.duplex
    && row.lastSeen == Some(s.time)
  }

  predicate StatusEventShows(e: StatusEvent, s: Sample, source: string) {
    && e.time == s.time && e.device == s.device && e.serial == s.serial
    && e.board == s.board && e.pon == s.pon && e.onu == s.onu && e.status == s.status && e.source == source
  }

  predicate EthEventShows(e: EthEvent, s: Sample, p: EthPort, source: string) {
    && e.time == s.time && e.device == s.device && e.serial == s.serial
    && e.board == s.board && e.pon == s.pon && e.onu == s.onu
    && e.port == p.port && e.link == p.link && e.admin == p.admin && e.speed == p.speed && e.source == source
  }

  /** A status event of the sample, or an Ethernet event of one of its ports, padded. */
  ghost predicate StatusFrom(e: StatusEvent, list: seq<Sample>, source: string) {
    exists i :: 0 <= i < |list| && StatusEventShows(e, list[i], source)
  }

  ghost predicate EthFrom(e: EthEvent, list: seq<Sample>, source: string) {
    exists i, r: Sample, p :: 0 <= i < |list| && PaddedFrom(list[i], r) && p in r.ethPorts
                              && EthEventShows(e, list[i], p, source)
  }

  lemma {:induction false} StatusEventsShow(prev: OnuState, raw: Sample, source: string)
    ensures forall e :: e in StatusEventsFrom(prev, Padded(raw), source) ==>
              StatusEventShows(e, raw, source) && e.previousStatus == prev.status
  {
    PaddedIdempotent(raw);
    hide StatusChanged, Padded;
  }

  lemma {:induction false} EthEventsShow(prev: map<int, PortState>, raw: Sample, ports: seq<EthPort>, source: string)
    ensures forall e :: e in EthEventsOf(prev, Padded(raw), ports, source) ==>
              exists p :: p in ports && EthEventShows(e, raw, p, source)
                          && e.previousLink == Prev(prev, p.port).link && e.previousAdmin == Prev(prev, p.port).admin
  {
    hide PortChanged, Padded, Prev;
    PaddedIdempotent(raw);
    if ports != [] {
      var front, last := ports[..|ports| - 1], ports[|ports| - 1];
      EthEventsShow(prev, raw, front, source);
      assert last in ports && forall p :: p in front ==> p in ports;
    }
  }

  lemma {:induction false} EventsOfSample(prev: OnuState, ports: map<int, PortState>, list: seq<Sample>, i: nat,
                                          source: string)
    requires i < |list|
    ensures forall e :: e in StatusEventsFrom(prev, Padded(list[i]), source) ==> StatusFrom(e, list, source)
    ensures forall e :: e in EthEventsOf(ports, Padded(list[i]), Padded(list[i]).ethPorts, source) ==>
              EthFrom(e, list, source)
  {
    hide Padded, StatusEventsFrom, EthEventsOf, EthEventShows, StatusEventShows, PaddedFrom;
    StatusEventsShow(prev, list[i], source);
    EthEventsShow(ports, list[i], Padded(list[i]).ethPorts, source);
    PaddingKeepsPromise(list[i]);
  }

  // ----- state updates -----

  function OnuAfter(prev: OnuState, s: Sample): OnuState {
    var changed := StatusChanged(prev, s);
    OnuState(s.device, s.serial, s.name, s.onuType, s.board, s.pon, s.onu, s.status,
             if changed then prev.status else prev.previousStatus,
             if changed then Some(s.time) else prev.changedAt,
             s.expectedPorts, Some(s.time))
  }

  function PortAfter(was: PortState, s: Sample, p: EthPort): PortState {
    PortState(s.device, s.serial, p.port, p.admin, p.link, p.speed, p.duplex,
              if was.serial == "" || was.link != p.link || was.admin != p.admin then Some(s.time) else was.lastChanged,
              Some(s.time))
  }

  function PortsAfter(ports: map<int, PortState>, s: Sample, list: seq<EthPort>): map<int, PortState> {
    if list == [] then ports
    else
      var p := list[|list| - 1];
      var before := PortsAfter(ports, s, list[..|list| - 1]);
      before[p.port := PortAfter(Prev(before, p.port), s, p)]
  }

  /** After a sample the row of a listed port shows its last listed reading. */
  lemma {:induction false} PortsAfterShow(ports: map<int, PortState>, s: Sample, list: seq<EthPort>, index: int, k: int)
    requires LastListed(list, index, k)
    ensures index in PortsAfter(ports, s, list) && PortShows(PortsAfter(ports, s, list)[index], s, list[k])
  {
    var front, last := list[..|list| - 1], list[|list| - 1];
    if k < |list| - 1 {
      PortsAfterShow(ports, s, front, index, k);
    }
  }

  // ----- one ONU on its own -----

  /** Everything a store knows of one (device, serial): its state row, its port rows and its events. */
  datatype Onu = Onu(state: OnuState, ports: map<int, PortState>, statusLog: seq<StatusEvent>, ethLog: seq<EthEvent>)

  const UNSEEN := Onu(NO_ONU, map[], [], [])

  function Observe(o: Onu, raw: Sample, source: string): Onu {
    var s := Padded(raw);
    Onu(OnuAfter(o.state, s), PortsAfter(o.ports, s, s.ethPorts),
        o.statusLog + StatusEventsFrom(o.state, s, source),
        o.ethLog + EthEventsOf(o.ports, s, s.ethPorts, source))
  }

  function ObserveAll(list: seq<Sample>, source: string): Onu {
    if list == [] then UNSEEN
    else Observe(ObserveAll(list[..|list| - 1], source), list[|list| - 1], source)
  }

  predicate Is(s: Sample, device: string, serial: string) {
    s.device == device && s.serial == serial
  }

  /** The samples of one ONU, in their order. */
  function Mine(list: seq<Sample>, device: string, serial: string): (r: seq<Sample>)
    ensures forall s :: s in r <==> s in list && Is(s, device, serial)
  {
    if list == [] then []
    else
      var before := Mine(list[..|list| - 1], device, serial);
      if Is(list[|list| - 1], device, serial) then before + [list[|list| - 1]] else before
  }

  lemma {:induction false} MineConcat(a: seq<Sample>, b: seq<Sample>, device: string, serial: string)
    ensures Mine(a + b, device, serial) == Mine(a, device, serial) + Mine(b, device, serial)
  {
    if b == [] {
      assert a + b == a;
    } else {
      assert (a + b)[..|a + b| - 1] == a + b[..|b| - 1];
      MineConcat(a, b[..|b| - 1], device, serial);
    }
  }

  function StatusOf(log: seq<StatusEvent>, device: string, serial: string): seq<StatusEvent> {
    if log == [] then []
    else
      var before := StatusOf(log[..|log| - 1], device, serial);
      var e := log[|log| - 1];
      if e.device == device && e.serial == serial then before + [e] else before
  }

  function EthOf(log: seq<EthEvent>, device: string, serial: string): seq<EthEvent> {
    if log == [] then []
    else
      var before := EthOf(log[..|log| - 1], device, serial);
      var e := log[|log| - 1];
      if e.device == device && e.serial == serial then before + [e] else before
  }

  lemma {:induction false} StatusOfAppend(a: seq<StatusEvent>, b: seq<StatusEvent>, device: string, serial: string)
    ensures StatusOf(a + b, device, serial) == StatusOf(a, device, serial) + StatusOf(b, device, serial)
  {
    if b == [] {
      assert a + b == a;
    } else {
      assert (a + b)[..|a + b| - 1] == a + b[..|b| - 1];
      StatusOfAppend(a, b[..|b| - 1], device, serial);
    }
  }

  lemma {:induction false} EthOfAppend(a: seq<EthEvent>, b: seq<EthEvent>, device: string, serial: string)
    ensures EthOf(a + b, device, serial) == EthOf(a, device, serial) + EthOf(b, device, serial)
  {
    if b == [] {
      assert a + b == a;
    } else {
      assert (a + b)[..|a + b| - 1] == a + b[..|b| - 1];
      EthOfAppend(a, b[..|b| - 1], device, serial);
    }
  }

  /** All events of one sample belong to that sample's ONU. */
  lemma {:induction false} StatusEventsOwner(prev: OnuState, s: Sample, source: string, device: string, serial: string)
    ensures StatusOf(StatusEventsFrom(prev, s, source), device, serial) ==
            if Is(s, device, serial) then StatusEventsFrom(prev, s, source) else []
  {
  }

  lemma {:induction false} EthEventsOwner(prev: map<int, PortState>, s: Sample, ports: seq<EthPort>, source: string,
                                          device: string, serial: string)
    ensures EthOf(EthEventsOf(prev, s, ports, source), device, serial)
            == if Is(s, device, serial) then EthEventsOf(prev, s, ports, source) else []
  {
    if ports != [] {
      EthEventsOwner(prev, s, ports[..|ports| - 1], source, device, serial);
      var p := ports[|ports| - 1];
      if PortChanged(Prev(prev, p.port), p) {
        var before := EthEventsOf(prev, s, ports[..|ports| - 1], source);
        var e := EthEventFrom(Prev(prev, p.port), s, p, source);
        assert (before + [e])[..|before|] == before;
      }
    }
  }

  /** Event derivation reads only the serial, link and admin of a previous port state. */
  predicate SamePrev(a: map<int, PortState>, b: map<int, PortState>) {
    a.Keys == b.Keys && forall i :: i in a ==>
      a[i].serial == b[i].serial && a[i].link == b[i].link && a[i].admin == b[i].admin
  }

  lemma {:induction false} EthEventsSamePrev(a: map<int, PortState>, b: map<int, PortState>, s: Sample,
                                             ports: seq<EthPort>, source: string)
    requires SamePrev(a, b)
    ensures EthEventsOf(a, s, ports, source) == EthEventsOf(b, s, ports, source)
  {
    if ports != [] {
      EthEventsSamePrev(a, b, s, ports[..|ports| - 1], source);
    }
  }
}
