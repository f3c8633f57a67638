/** Ethernet UNI collection: three column walks per ONU, or three for a whole PON. */
module Ethernet {
  import opened Text
  import opened Oid
  import opened Ordering
  import Events

  /** What a PDU carries, as far as the collector looks: one of the three exception types, a machine
      integer, or anything else. */
  datatype Kind = Missing | IntValue(n: int) | NotInt

  datatype Pdu = Pdu(name: string, kind: Kind)

  datatype UniPort = UniPort(index: int, adminState: string, linkState: string, speedMbps: Option<int>, duplex: string,
                             adminRaw: Option<int>, operRaw: Option<int>, speedRaw: Option<int>)

  datatype EthernetStatus = EthernetStatus(status: string, observedAt: string, ports: seq<UniPort>)

  datatype OnuInfo = OnuInfo(id: int, status: string, onuType: string, ethernet: EthernetStatus)

  // ----- walks -----

  /** PDUs delivered and whether the walk ended without an error. */
  datatype WalkResult = WalkResult(pdus: seq<Pdu>, ok: bool)

  predicate InSubtree(name: string, root: string) {
    TrimDot(root) + "." <= TrimDot(name)
  }

  /** The PDUs of an agent below a root, in agent order. */
  function Below(mib: seq<Pdu>, root: string): seq<Pdu> {
    if mib == [] then []
    else
      var before := Below(mib[..|mib| - 1], root);
      if InSubtree(mib[|mib| - 1].name, root) then before + [mib[|mib| - 1]] else before
  }

  function ColumnPrefix(column: int): string {
    if column == 0 then ".500.20.2.3.2.1.5" else if column == 1 then ".500.20.2.3.2.1.6" else ".500.20.2.3.2.1.7"
  }

  function PonRoot(base: string, column: int, index: int): string {
    base + ColumnPrefix(column) + "." + Itoa(index)
  }

  function OnuRoot(base: string, column: int, index: int, onu: int): string {
    PonRoot(base, column, index) + "." + Itoa(onu)
  }

  // ----- one row -----

  function NewEthernetPort(port: int): UniPort {
    UniPort(port, "unknown", "unknown", None, "unknown", None, None, None)
  }

  function ApplyEthernetColumn(row: UniPort, column: int, value: int): UniPort {
    if column == 0 then row.(adminRaw := Some(value))
    else if column == 1 then row.(operRaw := Some(value))
    else if column == 2 then row.(speedRaw := Some(value))
    else row
  }

  function EthernetSpeed(raw: int): (int, string) {
    if raw == 2 then (10, "half")
    else if raw == 3 then (10, "full")
    else if raw == 4 then (100, "half")
    else if raw == 5 then (100, "full")
    else if raw == 6 then (1000, "full")
    else if raw == 7 then (10000, "full")
    else (0, "unknown")
  }

  function DecodeRow(row: UniPort): UniPort {
    var admin := if row.adminRaw == Some(1) then "enabled" else if row.adminRaw == Some(2) then "disabled"
      else row.adminState;
    var link := if row.operRaw == Some(1) then "up" else if row.operRaw == Some(2) then "down" else row.linkState;
    var r := row.(adminState := admin, linkState := link);
    if link == "up" && row.speedRaw.Some? && EthernetSpeed(row.speedRaw.value).0 > 0 then
      r.(speedMbps := Some(EthernetSpeed(row.speedRaw.value).0), duplex := EthernetSpeed(row.speedRaw.value).1)
    else r
  }

  predicate Incomplete(row: UniPort) {
    row.adminState == "unknown" || row.linkState == "unknown" || (row.linkState == "up" && row.speedMbps == None)
  }

  /** What a row of raw values means: admin 1 is enabled and 2 disabled, oper 1 is up and 2 down, and any other value
      leaves the state as it was. A rate and a duplex are known of a port that is up with a raw speed of 2..7. */
  predicate Shows(row: UniPort, p: UniPort) {
    && p.index == row.index
    && (p.adminRaw, p.operRaw, p.speedRaw) == (row.adminRaw, row.operRaw, row.speedRaw)
    && (row.adminRaw == Some(1) ==> p.adminState == "enabled")
    && (row.adminRaw == Some(2) ==> p.adminState == "disabled")
    && (row.adminRaw != Some(1) && row.adminRaw != Some(2) ==> p.adminState == row.adminState)
    && (row.operRaw == Some(1) ==> p.linkState == "up")
    && (row.operRaw == Some(2) ==> p.linkState == "down")
    && (row.operRaw != Some(1) && row.operRaw != Some(2) ==> p.linkState == row.linkState)
    && (p.linkState == "up" && row.speedRaw == Some(2) ==> (p.speedMbps, p.duplex) == (Some(10), "half"))
    && (p.linkState == "up" && row.speedRaw == Some(3) ==> (p.speedMbps, p.duplex) == (Some(10), "full"))
    && (p.linkState == "up" && row.speedRaw == Some(4) ==> (p.speedMbps, p.duplex) == (Some(100), "half"))
    && (p.linkState == "up" && row.speedRaw == Some(5) ==> (p.speedMbps, p.duplex) == (Some(100), "full"))
    && (p.linkState == "up" && row.speedRaw == Some(6) ==> (p.speedMbps, p.duplex) == (Some(1000), "full"))
    && (p.linkState == "up" && row.speedRaw == Some(7) ==> (p.speedMbps, p.duplex) == (Some(10000), "full"))
    && (p.linkState != "up" || row.speedRaw == None || row.speedRaw.value < 2 || 7 < row.speedRaw.value ==>
          (p.speedMbps, p.duplex) == (row.speedMbps, row.duplex))
  }

  lemma {:induction false} DecodeShows(row: UniPort)
    ensures Shows(row, DecodeRow(row))
  {
  }

  /** Whether something about a port could not be established. */
  predicate Unsure(p: UniPort) {
    p.adminState == "unknown" || p.linkState == "unknown" || (p.linkState == "up" && p.speedMbps == None)
  }

  // ----- decoding a row map -----

  predicate ByPort(a: UniPort, b: UniPort) {
    a.index < b.index
  }

  predicate KeyedRows(rows: map<int, UniPort>) {
    forall k :: k in rows ==> rows[k].index == k
  }

  /** All rows decoded, by increasing index, and whether one of them is incomplete. */
  ghost predicate Decoded(rows: map<int, UniPort>, ports: seq<UniPort>, failed: bool) {
    && Increasing(ByPort, ports)
    && (forall p :: p in ports <==> exists k :: k in rows && DecodeRow(rows[k]) == p)
    && (failed <==> exists k :: k in rows && Incomplete(DecodeRow(rows[k])))
  }

  lemma {:induction false} DecodedUnique(rows: map<int, UniPort>, p1: seq<UniPort>, f1: bool, p2: seq<UniPort>,
                                         f2: bool)
    requires Decoded(rows, p1, f1) && Decoded(rows, p2, f2)
    ensures p1 == p2 && f1 == f2
  {
    forall p ensures p in p1 <==> p in p2 {
    }
    IncreasingUnique(ByPort, p1, p2);
  }

  /** The ports by increasing index, one for each row and showing it, and whether something about one is unknown. */
  ghost predicate RowsShown(rows: map<int, UniPort>, ports: seq<UniPort>, failed: bool) {
    && (forall i, j :: 0 <= i < j < |ports| ==> ports[i].index < ports[j].index)
    && (forall k :: k in rows ==> Listed(ports, k))
    && (forall p :: p in ports ==> p.index in rows && Shows(rows[p.index], p))
    && (failed <==> exists p :: p in ports && Unsure(p))
  }

  /** Ranges over the map in no particular order, then sorts. */
  method DecodeEthernetPorts(rows: map<int, UniPort>) returns (ports: seq<UniPort>, failed: bool)
    requires KeyedRows(rows)
    ensures RowsShown(rows, ports, failed)
    ensures Decoded(rows, ports, failed)
  {
    hide RowsShown;
    failed := false;
    var out: seq<UniPort> := [];
    var todo := rows.Keys;
    while todo != {}
      invariant todo <= rows.Keys
      invariant forall p :: p in out <==> exists k :: k in rows.Keys - todo && DecodeRow(rows[k]) == p
      invariant forall i, j :: 0 <= i < j < |out| ==> out[i].index != out[j].index
      invariant failed <==> exists k :: k in rows.Keys - todo && Incomplete(DecodeRow(rows[k]))
      decreases todo
    {
      SomeInt(todo);
      var k :| k in todo;
      var row := DecodeRow(rows[k]);
      if Incomplete(row) {
        failed := true;
      }
      assert forall p :: p in out ==> p.index != k;
      out := out + [row];
      todo := todo - {k};
    }
    ports := SortSlice(ByPort, out);
    SortedPorts(out, ports);
    DecodedShows(rows, ports, failed);
  }

  lemma {:induction false} DecodedAt(rows: map<int, UniPort>, ports: seq<UniPort>, failed: bool, k: int)
    requires KeyedRows(rows) && Decoded(rows, ports, failed) && k in rows
    ensures Listed(ports, k)
  {
    DecodeShows(rows[k]);
    assert DecodeRow(rows[k]) in ports;
    hide DecodeRow;
  }

  lemma {:induction false} DecodedFrom(rows: map<int, UniPort>, ports: seq<UniPort>, failed: bool, p: UniPort)
    requires KeyedRows(rows) && Decoded(rows, ports, failed) && p in ports
    ensures p.index in rows && Shows(rows[p.index], p)
  {
    hide DecodeRow, Shows;
    var k :| k in rows && DecodeRow(rows[k]) == p;
    DecodeShows(rows[k]);
    ShowsIndex(rows[k], p);
  }

  lemma {:induction false} DecodedOrder(ports: seq<UniPort>)
    requires Increasing(ByPort, ports)
    ensures forall i, j :: 0 <= i < j < |ports| ==> ports[i].index < ports[j].index
  {
    forall i, j | 0 <= i < j < |ports| ensures ports[i].index < ports[j].index {
      assert ByPort(ports[i], ports[j]);
    }
  }

  /** What a decoding means, row by row. */
  lemma {:induction false} DecodedShows(rows: map<int, UniPort>, ports: seq<UniPort>, failed: bool)
    requires KeyedRows(rows) && Decoded(rows, ports, failed)
    ensures RowsShown(rows, ports, failed)
  {
    SomeUnsure(rows, ports, failed);
    DecodedOrder(ports);
    hide Shows, Unsure, Decoded, KeyedRows, Listed;
    forall k | k in rows ensures Listed(ports, k) {
      DecodedAt(rows, ports, failed, k);
    }
    forall p | p in ports ensures p.index in rows && Shows(rows[p.index], p) {
      DecodedFrom(rows, ports, failed, p);
    }
  }

  lemma {:induction false} SomeUnsure(rows: map<int, UniPort>, ports: seq<UniPort>, failed: bool)
    requires forall p :: p in ports <==> exists k :: k in rows && DecodeRow(rows[k]) == p
    requires failed <==> exists k :: k in rows && Incomplete(DecodeRow(rows[k]))
    ensures failed <==> exists p :: p in ports && Unsure(p)
  {
    hide DecodeRow;
    if failed {
      var k :| k in rows && Incomplete(DecodeRow(rows[k]));
      assert DecodeRow(rows[k]) in ports && Unsure(DecodeRow(rows[k]));
    }
    if p :| p in ports && Unsure(p) {
      var k :| k in rows && DecodeRow(rows[k]) == p;
      assert Incomplete(DecodeRow(rows[k]));
    }
  }

  lemma {:induction false} ShowsIndex(row: UniPort, p: UniPort)
    requires Shows(row, p)
    ensures p.index == row.index
  {
  }

  lemma {:induction false} SortedPorts(out: seq<UniPort>, ports: seq<UniPort>)
    requires forall i, j :: 0 <= i < j < |out| ==> out[i].index != out[j].index
    requires Ordered(ByPort, ports) && multiset(ports) == multiset(out)
    ensures Increasing(ByPort, ports)
    ensures forall p :: p in ports <==> p in out
  {
    forall p ensures p in ports <==> p in out {
      assert p in ports <==> p in multiset(ports);
    }
    NoDuplicatesPermuted(out, ports);
    forall i, j | 0 <= i < j < |ports| ensures ByPort(ports[i], ports[j]) || ByPort(ports[j], ports[i]) {
      assert ports[i] in out && ports[j] in out;
      var k :| 0 <= k < |out| && out[k] == ports[i];
      var l :| 0 <= l < |out| && out[l] == ports[j];
      assert k != l;
    }
    OrderedSeparated(ByPort, ports);
  }

  // ----- status and padding -----

  function EmptyEthernet(onuState: string, now: string): EthernetStatus {
    EthernetStatus(if onuState == "Online" then "unavailable"
                   else if onuState == "Unknown" || onuState == "" then "onu_state_unknown" else "onu_not_online",
                   now, [])
  }

  function FinishEthernet(out: EthernetStatus, ports: seq<UniPort>, failed: bool): EthernetStatus {
    if ports == [] then out.(ports := ports)
    else out.(ports := ports, status := if failed then "partial" else "ok")
  }

  function PortTable(ports: seq<UniPort>): map<int, UniPort> {
    if ports == [] then map[] else PortTable(ports[..|ports| - 1])[ports[|ports| - 1].index := ports[|ports| - 1]]
  }

  function FirstPorts(table: map<int, UniPort>, n: nat): seq<UniPort> {
    if n == 0 then [] else FirstPorts(table, n - 1) + [if n in table then table[n] else NewEthernetPort(n)]
  }

  function Above(ports: seq<UniPort>, n: int): seq<UniPort> {
    if ports == [] then []
    else if ports[|ports| - 1].index > n then Above(ports[..|ports| - 1], n) + [ports[|ports| - 1]]
    else Above(ports[..|ports| - 1], n)
  }

  function PadSpec(onuType: string, ports: seq<UniPort>): seq<UniPort> {
    var n := Events.ExpectedEthernetPorts(onuType);
    if n == 0 then ports else FirstPorts(PortTable(ports), n) + Above(ports, n)
  }

  /** Entry k is the last one of its index. */
  predicate LastPort(ports: seq<UniPort>, k: int) {
    0 <= k < |ports| && forall j :: k < j < |ports| ==> ports[j].index != ports[k].index
  }

  predicate Listed(ports: seq<UniPort>, index: int) {
    exists k :: 0 <= k < |ports| && ports[k].index == index
  }

  /** A port about which nothing was collected. */
  function UnknownUni(index: int): UniPort {
    UniPort(index, "unknown", "unknown", None, "unknown", None, None, None)
  }

  /** What padding to n ports gives: at place i the last port listed with index i + 1, or an unknown one, and behind
      them the ports with a greater index, in their order. */
  ghost predicate PadsTo(ports: seq<UniPort>, n: nat, out: seq<UniPort>) {
    && n <= |out|
    && (forall i :: 0 <= i < n ==> Filled(ports, i, out[i]))
    && (forall p :: p in out[n..] <==> p in ports && p.index > n)
    && (Rising(ports) ==> Rising(out))
  }

  lemma {:induction false} TableLast(ports: seq<UniPort>, index: int)
    ensures index in PortTable(ports) <==> Listed(ports, index)
    ensures index in PortTable(ports) ==>
              exists k :: LastPort(ports, k) && ports[k].index == index && PortTable(ports)[index] == ports[k]
  {
    if ports != [] {
      var front, p := ports[..|ports| - 1], ports[|ports| - 1];
      TableLast(front, index);
      if p.index == index {
        assert LastPort(ports, |ports| - 1);
      } else if index in PortTable(front) {
        var k :| LastPort(front, k) && front[k].index == index && PortTable(front)[index] == front[k];
        assert LastPort(ports, k);
        assert ports[k].index == index;
      } else {
        assert forall k :: 0 <= k < |ports| ==> k == |ports| - 1 || ports[k] == front[k];
      }
    }
  }

  lemma {:induction false} FirstAt(table: map<int, UniPort>, n: nat, i: nat)
    requires i < n
    ensures |FirstPorts(table, n)| == n
    ensures FirstPorts(table, n)[i] == if i + 1 in table then table[i + 1] else UnknownUni(i + 1)
  {
    FirstLength(table, n - 1);
    if i < n - 1 {
      FirstAt(table, n - 1, i);
    }
  }

  lemma {:induction false} FirstLength(table: map<int, UniPort>, n: nat)
    ensures |FirstPorts(table, n)| == n
  {
    if n > 0 {
      FirstLength(table, n - 1);
    }
  }

  lemma {:induction false} AboveMeans(ports: seq<UniPort>, n: int)
    ensures forall p :: p in Above(ports, n) <==> p in ports && p.index > n
    ensures Rising(ports) ==> Rising(Above(ports, n))
  {
    if ports != [] {
      var front, p := ports[..|ports| - 1], ports[|ports| - 1];
      AboveMeans(front, n);
      assert ports == front + [p];
      if Rising(ports) {
        RisingFront(ports);
        hide Above;
        if p.index > n {
          RisingMore(Above(front, n), p);
        }
      }
    }
  }

  lemma {:induction false} RisingFront(ports: seq<UniPort>)
    requires ports != [] && Rising(ports)
    ensures Rising(ports[..|ports| - 1])
    ensures forall p :: p in ports[..|ports| - 1] ==> p.index < ports[|ports| - 1].index
  {
  }

  lemma {:induction false} RisingMore(ports: seq<UniPort>, p: UniPort)
    requires Rising(ports) && forall q :: q in ports ==> q.index < p.index
    ensures Rising(ports + [p])
  {
  }

  predicate Rising(ports: seq<UniPort>) {
    forall i, j :: 0 <= i < j < |ports| ==> ports[i].index < ports[j].index
  }

  /** What stands at the first n places. */
  ghost predicate Filled(ports: seq<UniPort>, i: int, p: UniPort) {
    if Listed(ports, i + 1) then exists k :: LastPort(ports, k) && ports[k].index == i + 1 && p == ports[k]
    else p == UnknownUni(i + 1)
  }

  lemma {:induction false} FirstFilled(ports: seq<UniPort>, n: nat, i: nat)
    requires i < n
    ensures |FirstPorts(PortTable(ports), n)| == n
    ensures FirstPorts(PortTable(ports), n)[i].index == i + 1
    ensures Filled(ports, i, FirstPorts(PortTable(ports), n)[i])
  {
    hide FirstPorts, PortTable;
    FirstAt(PortTable(ports), n, i);
    TableLast(ports, i + 1);
  }

  lemma {:induction false} RisingParts(first: seq<UniPort>, above: seq<UniPort>)
    requires forall i :: 0 <= i < |first| ==> first[i].index == i + 1
    requires Rising(above) && forall p :: p in above ==> p.index > |first|
    ensures Rising(first + above)
  {
    var out := first + above;
    forall i, j | 0 <= i < j < |out| ensures out[i].index < out[j].index {
      assert j >= |first| ==> out[j] in above;
    }
  }

  lemma {:induction false} PaddingMeans(onuType: string, ports: seq<UniPort>)
    ensures var n := Events.ExpectedEthernetPorts(onuType);
            if n == 0 then PadSpec(onuType, ports) == ports else PadsTo(ports, n, PadSpec(onuType, ports))
  {
    hide Events.ExpectedEthernetPorts, Above, PortTable, FirstPorts, Filled;
    var n := Events.ExpectedEthernetPorts(onuType);
    if n > 0 {
      var first, above := FirstPorts(PortTable(ports), n), Above(ports, n);
      FirstLength(PortTable(ports), n);
      AboveMeans(ports, n);
      assert (first + above)[n..] == above;
      forall i | 0 <= i < n ensures first[i].index == i + 1 && Filled(ports, i, (first + above)[i]) {
        FirstFilled(ports, n, i);
      }
      if Rising(ports) {
        RisingParts(first, above);
      }
    }
  }

  method PadEthernetPorts(onuType: string, ports: seq<UniPort>) returns (out: seq<UniPort>)
    ensures out == PadSpec(onuType, ports)
    ensures Events.ExpectedEthernetPorts(onuType) == 0 ==> out == ports
    ensures Events.ExpectedEthernetPorts(onuType) > 0 ==> PadsTo(ports, Events.ExpectedEthernetPorts(onuType), out)
  {
    PaddingMeans(onuType, ports);
    hide PadsTo;
    hide Events.ExpectedEthernetPorts;
    var n := Events.ExpectedEthernetPorts(onuType);
    if n <= 0 {
      return ports;
    }
    var table: map<int, UniPort> := map[];
    for k := 0 to |ports|
      invariant table == PortTable(ports[..k])
    {
      assert ports[..k + 1][..k] == ports[..k];
      table := table[ports[k].index := ports[k]];
    }
    assert ports[..|ports|] == ports;
    out := [];
    for i := 1 to n + 1
      invariant out == FirstPorts(table, i - 1)
    {
      if i in table {
        out := out + [table[i]];
        continue;
      }
      out := out + [NewEthernetPort(i)];
    }
    ghost var first := out;
    assert first + [] == first;
    for k := 0 to |ports|
      invariant out == first + Above(ports[..k], n)
    {
      assert ports[..k + 1][..k] == ports[..k];
      if ports[k].index > n {
        out := out + [ports[k]];
      }
    }
  }

  // ----- the walk of one ONU -----

  datatype Bucket = Bucket(rows: map<int, UniPort>, failed: bool)

  const NO_BUCKET := Bucket(map[], false)

  /** Stores one column value of one UNI. */
  function Put(b: Bucket, port: int, column: int, value: int): Bucket {
    var row := if port in b.rows then b.rows[port] else NewEthernetPort(port);
    b.(rows := b.rows[port := ApplyEthernetColumn(row, column, value)])
  }

  /** What a value does to the bucket it belongs to. */
  function Take(b: Bucket, port: int, column: int, kind: Kind): Bucket {
    match kind
    case Missing => b
    case NotInt => b.(failed := true)
    case IntValue(v) => Put(b, port, column, v)
  }

  function OnuStep(b: Bucket, pdu: Pdu, root: string, column: int): Bucket {
    match ParseSuffix(pdu.name, root)
    case None => b
    case Some(suffix) => if |suffix| != 1 || suffix[0] < 1 then b.(failed := true)
      else Take(b, suffix[0], column, pdu.kind)
  }

  function OnuColumn(b: Bucket, pdus: seq<Pdu>, root: string, column: int): Bucket {
    if pdus == [] then b
    else OnuStep(OnuColumn(b, pdus[..|pdus| - 1], root, column), pdus[|pdus| - 1], root, column)
  }

  /** The first n columns of one ONU. */
  function OnuWalk(walk: string -> WalkResult, base: string, index: int, onu: int, n: nat): Bucket {
    if n == 0 then NO_BUCKET
    else
      var root := OnuRoot(base, n - 1, index, onu);
      var b := OnuColumn(OnuWalk(walk, base, index, onu, n - 1), walk(root).pdus, root, n - 1);
      if walk(root).ok then b else b.(failed := true)
  }

  /** What collecting from a bucket may answer: any decoding of its rows. */
  ghost predicate Answers(r: EthernetStatus, b: Bucket, walkFailed: bool, onuType: string, now: string) {
    exists ports, failed :: Decoded(b.rows, ports, failed)
      && var out := FinishEthernet(EmptyEthernet("Online", now), ports, walkFailed || b.failed || failed);
         r == out.(ports := PadSpec(onuType, out.ports))
  }

  /** The callback of one column walk under one ONU, applied to every PDU. */
  method WalkOnuColumn(was: Bucket, pdus: seq<Pdu>, root: string, column: int) returns (b: Bucket)
    requires KeyedRows(was.rows)
    ensures b == OnuColumn(was, pdus, root, column) && KeyedRows(b.rows)
  {
    hide ParseSuffix;
    b := was;
    for i := 0 to |pdus|
      invariant b == OnuColumn(was, pdus[..i], root, column) && KeyedRows(b.rows)
    {
      assert pdus[..i + 1][..i] == pdus[..i];
      var pdu := pdus[i];
      var suffix := ParseEthernetSuffix(pdu.name, root);
      if suffix == None || |suffix.value| != 1 || suffix.value[0] < 1 {
        if suffix != None {
          b := b.(failed := true);
        }
        continue;
      }
      if pdu.kind.Missing? {
        continue;
      }
      if pdu.kind.NotInt? {
        b := b.(failed := true);
        continue;
      }
      var port := suffix.value[0];
      var row := if port in b.rows then b.rows[port] else NewEthernetPort(port);
      b := b.(rows := b.rows[port := ApplyEthernetColumn(row, column, pdu.kind.n)]);
    }
    assert pdus[..|pdus|] == pdus;
  }

  /** The columns that are walked when the context is cancelled after the given number of them. A walk cut short is one
      that delivered fewer rows and an error. */
  function Walked(live: nat): nat {
    if live < 3 then live else 3
  }

  predicate Cut(live: nat) {
    live < 3
  }

  method GetEthernetPorts(walk: string -> WalkResult, live: nat, base: string, board: int, pon: int, onu: int,
                          onuState: string, onuType: string, now: string) returns (r: EthernetStatus)
    ensures onuState != "Online" ==>
              r.ports == [] && r.observedAt == now
              && r.status == if onuState in {"", "Unknown"} then "onu_state_unknown" else "onu_not_online"
    ensures onuState == "Online" && r.ports == [] ==> r.status == "unavailable"
    ensures onuState != "Online" ==> r == EmptyEthernet(onuState, now)
    ensures onuState == "Online" ==>
              Answers(r, OnuWalk(walk, base, PonIfIndex(board, pon), onu, Walked(live)), Cut(live), onuType, now)
  {
    hide OnuRoot, OnuColumn, PadSpec, RowsShown;
    r := EmptyEthernet(onuState, now);
    if onuState != "Online" {
      return;
    }
    var index := PonIfIndex(board, pon);
    var b := NO_BUCKET;
    var cancelled := false;
    for column := 0 to 3
      invariant !cancelled && column <= live
      invariant b == OnuWalk(walk, base, index, onu, column) && KeyedRows(b.rows)
    {
      if column == live {
        cancelled := true;
        break;
      }
      var root := OnuRoot(base, column, index, onu);
      b := WalkOnuColumn(b, walk(root).pdus, root, column);
      if !walk(root).ok {
        b := b.(failed := true);
      }
    }
    var ports, failed := DecodeEthernetPorts(b.rows);
    r := FinishEthernet(r, ports, cancelled || b.failed || failed);
    var padded := PadEthernetPorts(onuType, r.ports);
    r := r.(ports := padded);
  }

  // ----- the walk of a whole PON -----

  function BucketOf(byONU: map<int, Bucket>, onu: int): Bucket {
    if onu in byONU then byONU[onu] else NO_BUCKET
  }

  function PonStep(byONU: map<int, Bucket>, pdu: Pdu, root: string, column: int): map<int, Bucket> {
    match ParseSuffix(pdu.name, root)
    case None => byONU
    case Some(suffix) =>
      if |suffix| != 2 || suffix[0] < 1 || suffix[1] < 1 || pdu.kind.Missing? then byONU
      else byONU[suffix[0] := Take(BucketOf(byONU, suffix[0]), suffix[1], column, pdu.kind)]
  }

  function PonColumn(byONU: map<int, Bucket>, pdus: seq<Pdu>, root: string, column: int): map<int, Bucket> {
    if pdus == [] then byONU
    else PonStep(PonColumn(byONU, pdus[..|pdus| - 1], root, column), pdus[|pdus| - 1], root, column)
  }

  function PonWalk(walk: string -> WalkResult, base: string, index: int, n: nat): map<int, Bucket> {
    if n == 0 then map[]
    else
      var root := PonRoot(base, n - 1, index);
      PonColumn(PonWalk(walk, base, index, n - 1), walk(root).pdus, root, n - 1)
  }

  predicate PonWalkFailed(walk: string -> WalkResult, base: string, index: int, n: nat) {
    n > 0 && (PonWalkFailed(walk, base, index, n - 1) || !walk(PonRoot(base, n - 1, index)).ok)
  }

  predicate KeyedBuckets(byONU: map<int, Bucket>) {
    forall onu :: onu in byONU ==> KeyedRows(byONU[onu].rows)
  }

  /** The callback of one column walk, applied to every PDU. */
  method WalkColumn(was: map<int, Bucket>, pdus: seq<Pdu>, root: string, column: int) returns (byONU: map<int, Bucket>)
    requires KeyedBuckets(was)
    ensures byONU == PonColumn(was, pdus, root, column) && KeyedBuckets(byONU)
  {
    hide ParseSuffix;
    byONU := was;
    for i := 0 to |pdus|
      invariant byONU == PonColumn(was, pdus[..i], root, column) && KeyedBuckets(byONU)
    {
      assert pdus[..i + 1][..i] == pdus[..i];
      var pdu := pdus[i];
      var suffix := ParseEthernetSuffix(pdu.name, root);
      if suffix == None || |suffix.value| != 2 || suffix.value[0] < 1 || suffix.value[1] < 1 {
        continue;
      }
      if pdu.kind.Missing? {
        continue;
      }
      var onu, port := suffix.value[0], suffix.value[1];
      var bucket := if onu in byONU then byONU[onu] else NO_BUCKET;
      if pdu.kind.NotInt? {
        byONU := byONU[onu := bucket.(failed := true)];
        continue;
      }
      var row := if port in bucket.rows then bucket.rows[port] else NewEthernetPort(port);
      byONU := byONU[onu := bucket.(rows := bucket.rows[port := ApplyEthernetColumn(row, column, pdu.kind.n)])];
    }
    assert pdus[..|pdus|] == pdus;
  }

  method WalkPONEthernet(walk: string -> WalkResult, live: nat, base: string, board: int, pon: int)
    returns (byONU: map<int, Bucket>, walkFailed: bool)
    ensures byONU == PonWalk(walk, base, PonIfIndex(board, pon), Walked(live)) && KeyedBuckets(byONU)
    ensures walkFailed == (PonWalkFailed(walk, base, PonIfIndex(board, pon), Walked(live)) || Cut(live))
  {
    hide PonRoot, PonColumn;
    var index := PonIfIndex(board, pon);
    byONU, walkFailed := map[], false;
    for column := 0 to 3
      invariant byONU == PonWalk(walk, base, index, column) && KeyedBuckets(byONU)
      invariant walkFailed == PonWalkFailed(walk, base, index, column) && column <= live
    {
      if column == live {
        walkFailed := true;
        break;
      }
      var root := PonRoot(base, column, index);
      byONU := WalkColumn(byONU, walk(root).pdus, root, column);
      if !walk(root).ok {
        walkFailed := true;
      }
    }
  }

  method EthernetFromPONWalk(onuState: string, collected: Option<Bucket>, walkFailed: bool, now: string)
    returns (r: EthernetStatus)
    requires collected.Some? ==> KeyedRows(collected.value.rows)
    ensures onuState != "Online" || collected.None? ==> r == EmptyEthernet(onuState, now)
    ensures onuState == "Online" && collected.Some? ==>
              exists ports, failed :: Decoded(collected.value.rows, ports, failed)
                && r == FinishEthernet(EmptyEthernet(onuState, now), ports, walkFailed || collected.value.failed
                                       || failed)
  {
    hide RowsShown;
    r := EmptyEthernet(onuState, now);
    if onuState != "Online" {
      return;
    }
    match collected
    case None => return;
    case Some(bucket) =>
      var ports, failed := DecodeEthernetPorts(bucket.rows);
      r := FinishEthernet(r, ports, walkFailed || bucket.failed || failed);
  }

  predicate AnyOnline(onus: seq<OnuInfo>) {
    exists i :: 0 <= i < |onus| && onus[i].status == "Online"
  }

  /** What the PON-wide collection puts into one list entry. */
  ghost predicate Attached(walk: string -> WalkResult, live: nat, base: string, index: int, online: bool, onu: OnuInfo,
                           r: EthernetStatus, now: string)
  {
    if onu.status == "Online" then
      Answers(r, BucketOf(PonWalk(walk, base, index, Walked(live)), onu.id),
              PonWalkFailed(walk, base, index, Walked(live)) || Cut(live), onu.onuType, now)
    else
      var out := EmptyEthernet(onu.status, now);
      r == if online then out.(ports := PadSpec(onu.onuType, [])) else out
  }

  method AttachOne(ghost walk: string -> WalkResult, ghost live: nat, ghost base: string, ghost index: int,
                   onu: OnuInfo, byONU: map<int, Bucket>, walkFailed: bool, now: string) returns (eth: EthernetStatus)
    requires byONU == PonWalk(walk, base, index, Walked(live)) && KeyedBuckets(byONU)
    requires walkFailed == (PonWalkFailed(walk, base, index, Walked(live)) || Cut(live))
    ensures Attached(walk, live, base, index, true, onu, eth, now)
  {
    hide PonWalk, PonWalkFailed, PadSpec;
    var collected := if onu.id in byONU then Some(byONU[onu.id]) else None;
    eth := EthernetFromPONWalk(onu.status, collected, walkFailed, now);
    NothingDecoded();
    var padded := PadEthernetPorts(onu.onuType, eth.ports);
    eth := eth.(ports := padded);
  }

  method AttachPONEthernet(walk: string -> WalkResult, live: nat, base: string, board: int, pon: int,
                           onus: array<OnuInfo>, now: string)
    modifies onus
    ensures forall i :: 0 <= i < onus.Length ==>
              var was := old(onus[i]);
              && onus[i] == was.(ethernet := onus[i].ethernet)
              && Attached(walk, live, base, PonIfIndex(board, pon), AnyOnline(old(onus[..])), was, onus[i].ethernet,
                          now)
  {
    hide Attached, PonWalk, PonWalkFailed, KeyedBuckets, EmptyEthernet;
    if onus.Length == 0 {
      return;
    }
    var anyOnline := HasOnline(onus);
    if !anyOnline {
      for i := 0 to onus.Length
        invariant forall k :: 0 <= k < i ==>
                  onus[k] == old(onus[k]).(ethernet := EmptyEthernet(old(onus[k]).status, now))
        invariant forall k :: i <= k < onus.Length ==> onus[k] == old(onus[k])
      {
        onus[i] := onus[i].(ethernet := EmptyEthernet(onus[i].status, now));
      }
      forall i | 0 <= i < onus.Length
        ensures Attached(walk, live, base, PonIfIndex(board, pon), false, old(onus[i]), onus[i].ethernet, now)
      {
        assert old(onus[..])[i] == old(onus[i]);
        OfflineAttached(walk, live, base, PonIfIndex(board, pon), old(onus[i]), now);
      }
      return;
    }
    var byONU, walkFailed := WalkPONEthernet(walk, live, base, board, pon);
    for i := 0 to onus.Length
      invariant forall k :: 0 <= k < i ==>
                  onus[k] == old(onus[k]).(ethernet := onus[k].ethernet)
                  && Attached(walk, live, base, PonIfIndex(board, pon), true, old(onus[k]), onus[k].ethernet, now)
      invariant forall k :: i <= k < onus.Length ==> onus[k] == old(onus[k])
    {
      var eth := AttachOne(walk, live, base, PonIfIndex(board, pon), onus[i], byONU, walkFailed, now);
      onus[i] := onus[i].(ethernet := eth);
    }
  }

  method HasOnline(onus: array<OnuInfo>) returns (anyOnline: bool)
    ensures anyOnline == AnyOnline(onus[..])
  {
    anyOnline := false;
    for i := 0 to onus.Length
      invariant forall k :: 0 <= k < i ==> onus[..][k].status != "Online"
    {
      if onus[i].status == "Online" {
        assert onus[..][i].status == "Online";
        anyOnline := true;
        break;
      }
    }
  }

  lemma {:induction false} OfflineAttached(walk: string -> WalkResult, live: nat, base: string, index: int,
                                           onu: OnuInfo, now: string)
    requires onu.status != "Online"
    ensures Attached(walk, live, base, index, false, onu, EmptyEthernet(onu.status, now), now)
  {
  }

  lemma {:induction false} NothingDecoded()
    ensures Decoded(map[], [], false)
  {
  }

  // ----- the two ways agree -----

  /** Every row of the three columns under this PON has one ONU and one UNI index, both at least 1. */
  ghost predicate WellIndexed(mib: seq<Pdu>, base: string, index: int) {
    forall i, column :: 0 <= i < |mib| && 0 <= column < 3 && InSubtree(mib[i].name, PonRoot(base, column, index)) ==>
      exists onu, uni :: IndexedBy(mib[i].name, PonRoot(base, column, index), onu, uni)
  }

  predicate IndexedBy(name: string, root: string, onu: int, uni: int) {
    && 1 <= onu <= MAX_INT && 1 <= uni <= MAX_INT
    && TrimDot(name) == TrimDot(root) + "." + JoinSuffixSpec([onu, uni])
  }

  /** The walks of an agent that answers without errors. */
  ghost predicate Serves(walk: string -> WalkResult, mib: seq<Pdu>) {
    forall root :: walk(root) == WalkResult(Below(mib, root), true)
  }

  lemma {:induction false} JoinTwo(a: int, b: int)
    ensures JoinSuffixSpec([a, b]) == Itoa(a) + "." + Itoa(b)
    ensures JoinSuffixSpec([b]) == Itoa(b)
  {
    SuffixAppend([a], b);
    SuffixAppend([], b);
    SuffixAppend([], a);
    assert [a] + [b] == [a, b] && [] + [b] == [b] && [] + [a] == [a];
  }

  lemma {:induction false} ParseTrimmed(name: string, root: string, list: seq<int>)
    requires Undotted(TrimDot(root)) && list != [] && MachineInts(list)
    requires TrimDot(name) == TrimDot(root) + "." + JoinSuffixSpec(list)
    ensures ParseSuffix(name, root) == Some(list)
  {
    SplitSuffix(list);
    AtoiItoas(list);
    assert TrimDot(name)[|TrimDot(root) + "."|..] == JoinSuffixSpec(list);
  }

  lemma {:induction false} TrimDotAppend(root: string, tail: string)
    requires Undotted(TrimDot(root))
    ensures TrimDot(root + tail) == TrimDot(root) + tail
  {
    if "." <= root {
      assert (root + tail)[1..] == root[1..] + tail;
    } else {
      assert root[0] != '.';
      assert (root + tail)[0] == root[0];
    }
  }

  lemma {:induction false} OnuRootTrimmed(root: string, u: int)
    requires Undotted(TrimDot(root))
    ensures TrimDot(root + "." + Itoa(u)) == TrimDot(root) + ("." + Itoa(u))
    ensures Undotted(TrimDot(root + "." + Itoa(u)))
  {
    hide Itoa;
    TrimDotAppend(root, "." + Itoa(u));
    assert root + "." + Itoa(u) == root + ("." + Itoa(u));
    UndottedAppend(TrimDot(root), "." + Itoa(u));
  }

  /** A row is below an ONU's root exactly when its ONU index is that ONU. */
  lemma {:induction false} RowBelowIff(name: string, root: string, onu: int, uni: int, u: int)
    requires Undotted(TrimDot(root)) && IndexedBy(name, root, onu, uni)
    ensures InSubtree(name, root + "." + Itoa(u)) <==> onu == u
  {
    hide TrimDot, Undotted, Itoa;
    var r := TrimDot(root);
    JoinTwo(onu, uni);
    OnuRootTrimmed(root, u);
    BelowIff(r, Itoa(onu), Itoa(uni), Itoa(u));
    assert TrimDot(name) == r + "." + (Itoa(onu) + "." + Itoa(uni));
    assert r + ("." + Itoa(u)) + "." == r + "." + (Itoa(u) + ".");
    NoDot(onu);
    NoDot(u);
    if Itoa(onu) == Itoa(u) {
      ItoaInjective(onu, u);
    }
  }

  /** What the suffix parser makes of a row, seen from the PON's root and from its ONU's root. */
  lemma {:induction false} RowBelowOnu(name: string, root: string, onu: int, uni: int, u: int)
    requires Undotted(TrimDot(root)) && IndexedBy(name, root, onu, uni) && MIN_INT <= u <= MAX_INT
    ensures InSubtree(name, root + "." + Itoa(u)) <==> onu == u
    ensures ParseSuffix(name, root) == Some([onu, uni])
    ensures onu == u ==> ParseSuffix(name, root + "." + Itoa(u)) == Some([uni])
  {
    hide TrimDot, ParseSuffix, InSubtree, Itoa, Undotted;
    RowBelowIff(name, root, onu, uni, u);
    ParseTrimmed(name, root, [onu, uni]);
    if onu == u {
      JoinTwo(onu, uni);
      OnuRootTrimmed(root, u);
      assert TrimDot(name) == TrimDot(root + "." + Itoa(u)) + "." + JoinSuffixSpec([uni]);
      ParseTrimmed(name, root + "." + Itoa(u), [uni]);
    }
  }

  lemma {:induction false} UndottedAppend(r: string, tail: string)
    requires Undotted(r)
    ensures Undotted(r + tail)
  {
  }

  lemma {:induction false} NoDot(n: int)
    ensures '.' !in Itoa(n)
  {
    ItoaChars(n);
    assert !IsDigit('.');
  }

  lemma {:induction false} BelowIff(r: string, a: string, b: string, c: string)
    ensures '.' !in a && '.' !in c ==> (r + "." + (c + ".") <= r + "." + (a + "." + b) <==> a == c)
  {
    var s, t := r + "." + (c + "."), r + "." + (a + "." + b);
    if '.' !in a && '.' !in c {
      if s <= t {
        var rest := t[|s|..];
        assert t == s + rest;
        assert a + "." + b == t[|r| + 1..] == (s + rest)[|r| + 1..] == c + "." + rest;
        FirstSeparator('.', a, b, c, rest);
      }
      if a == c {
        assert s == t[..|s|];
      }
    }
  }

  /** One table row moves an ONU's bucket the same way in both walks. */
  lemma {:induction false} StepAgrees(byONU: map<int, Bucket>, pdu: Pdu, root: string, column: int, onu: int, uni: int,
                                      u: int)
    requires Undotted(TrimDot(root)) && IndexedBy(pdu.name, root, onu, uni) && MIN_INT <= u <= MAX_INT
    ensures BucketOf(PonStep(byONU, pdu, root, column), u) ==
            if InSubtree(pdu.name, root + "." + Itoa(u)) then OnuStep(BucketOf(byONU, u), pdu, root + "." + Itoa(u),
                                                                      column)
            else BucketOf(byONU, u)
  {
    hide ParseSuffix, InSubtree, IndexedBy;
    IndexBounds(pdu.name, root, onu, uni);
    RowBelowOnu(pdu.name, root, onu, uni, u);
  }

  lemma {:induction false} IndexBounds(name: string, root: string, onu: int, uni: int)
    requires IndexedBy(name, root, onu, uni)
    ensures 1 <= onu && 1 <= uni
  {
  }

  /** A row outside the PON's subtree is outside each of its ONUs' subtrees. */
  lemma {:induction false} OutsidePon(name: string, root: string, u: int)
    requires Undotted(TrimDot(root)) && InSubtree(name, root + "." + Itoa(u))
    ensures InSubtree(name, root)
  {
    TrimDotAppend(root, "." + Itoa(u));
    assert root + "." + Itoa(u) == root + ("." + Itoa(u));
    var long := TrimDot(root) + ("." + Itoa(u)) + ".";
    assert long[..|TrimDot(root)| + 1] == TrimDot(root) + ".";
    assert TrimDot(name)[..|long|] == long;
    assert TrimDot(name)[..|TrimDot(root)| + 1] == long[..|TrimDot(root)| + 1];
  }

  lemma {:induction false} ColumnAgrees(byONU: map<int, Bucket>, mib: seq<Pdu>, root: string, column: int, u: int)
    requires Undotted(TrimDot(root)) && MIN_INT <= u <= MAX_INT
    requires forall i :: 0 <= i < |mib| && InSubtree(mib[i].name, root) ==>
             exists onu, uni :: IndexedBy(mib[i].name, root, onu, uni)
    ensures BucketOf(PonColumn(byONU, Below(mib, root), root, column), u) ==
            OnuColumn(BucketOf(byONU, u), Below(mib, root + "." + Itoa(u)), root + "." + Itoa(u), column)
  {
    hide InSubtree, IndexedBy, PonStep, OnuStep;
    if mib != [] {
      var before, pdu := mib[..|mib| - 1], mib[|mib| - 1];
      var own := root + "." + Itoa(u);
      ColumnAgrees(byONU, before, root, column, u);
      assert (Below(before, root) + [pdu])[..|Below(before, root)|] == Below(before, root);
      assert (Below(before, own) + [pdu])[..|Below(before, own)|] == Below(before, own);
      if InSubtree(pdu.name, root) {
        var onu, uni :| IndexedBy(pdu.name, root, onu, uni);
        StepAgrees(PonColumn(byONU, Below(before, root), root, column), pdu, root, column, onu, uni, u);
      } else if InSubtree(pdu.name, own) {
        OutsidePon(pdu.name, root, u);
      }
    }
  }

  lemma {:induction false} WalksAgree(walk: string -> WalkResult, mib: seq<Pdu>, base: string, index: int, u: int,
                                      n: nat)
    requires n <= 3 && Serves(walk, mib) && WellIndexed(mib, base, index) && Undotted(TrimDot(base))
             && MIN_INT <= u <= MAX_INT
    ensures BucketOf(PonWalk(walk, base, index, n), u) == OnuWalk(walk, base, index, u, n)
    ensures !PonWalkFailed(walk, base, index, n)
  {
    hide InSubtree, IndexedBy, PonColumn, OnuColumn, PonRoot;
    if n > 0 {
      WalksAgree(walk, mib, base, index, u, n - 1);
      var root := PonRoot(base, n - 1, index);
      PonRootUndotted(base, n - 1, index);
      assert walk(root) == WalkResult(Below(mib, root), true);
      assert walk(OnuRoot(base, n - 1, index, u)) == WalkResult(Below(mib, OnuRoot(base, n - 1, index, u)), true);
      ColumnAgrees(PonWalk(walk, base, index, n - 1), mib, root, n - 1, u);
    }
  }

  lemma {:induction false} PonRootUndotted(base: string, column: int, index: int)
    requires Undotted(TrimDot(base))
    ensures Undotted(TrimDot(PonRoot(base, column, index)))
  {
    hide ColumnPrefix, Itoa, TrimDot, Undotted;
    var tail := ColumnPrefix(column) + "." + Itoa(index);
    TrimDotAppend(base, tail);
    assert PonRoot(base, column, index) == base + tail;
    UndottedAppend(TrimDot(base), tail);
  }

  /** Answers from one bucket are one answer. */
  lemma {:induction false} AnswerUnique(r: EthernetStatus, s: EthernetStatus, b: Bucket, cut: bool, onuType: string,
                                        now: string)
    requires Answers(r, b, cut, onuType, now) && Answers(s, b, cut, onuType, now)
    ensures r == s
  {
    hide PadSpec;
    var p1, f1 :| Decoded(b.rows, p1, f1)
      && var out := FinishEthernet(EmptyEthernet("Online", now), p1, cut || b.failed || f1);
         r == out.(ports := PadSpec(onuType, out.ports));
    var p2, f2 :| Decoded(b.rows, p2, f2)
      && var out := FinishEthernet(EmptyEthernet("Online", now), p2, cut || b.failed || f2);
         s == out.(ports := PadSpec(onuType, out.ports));
    DecodedUnique(b.rows, p1, f1, p2, f2);
  }

  /** Main result: against an agent that answers without errors and whose rows under this PON are well
      indexed, the PON-wide collection gives an online ONU exactly the status and ports of the walk of
      that ONU alone, whatever values the rows hold, in whatever order the maps are ranged over and after
      whichever column the context is cancelled. */
  lemma {:induction false} FastWalkRefinesSimpleWalk(walk: string -> WalkResult, live: nat, mib: seq<Pdu>, base: string,
                                                     index: int, onu: OnuInfo, online: bool, fast: EthernetStatus,
                                                     simple: EthernetStatus, now: string)
    requires Serves(walk, mib) && WellIndexed(mib, base, index) && Undotted(TrimDot(base))
    requires onu.status == "Online" && MIN_INT <= onu.id <= MAX_INT
    requires Attached(walk, live, base, index, online, onu, fast, now)
    requires Answers(simple, OnuWalk(walk, base, index, onu.id, Walked(live)), Cut(live), onu.onuType, now)
    ensures fast == simple
  {
    hide Answers;
    WalksAgree(walk, mib, base, index, onu.id, Walked(live));
    AnswerUnique(fast, simple, OnuWalk(walk, base, index, onu.id, Walked(live)), Cut(live), onu.onuType, now);
  }

  /** The list entry of an ONU that is not online is empty exactly when no ONU of its PON is online or its
      type is unknown: otherwise it is padded with unknown ports, unlike the entry of the walk of that ONU. */
  lemma {:induction false} OfflineEntryEmptyIff(walk: string -> WalkResult, live: nat, base: string, index: int,
                                                online: bool, onu: OnuInfo, r: EthernetStatus, now: string)
    requires onu.status != "Online" && Attached(walk, live, base, index, online, onu, r, now)
    ensures r.ports == [] <==> !online || Events.ExpectedEthernetPorts(onu.onuType) == 0
    ensures r == EmptyEthernet(onu.status, now) <==> r.ports == []
  {
    hide Events.ExpectedEthernetPorts;
  }

  /** An offline F670 beside an ONU that is online. */
  lemma {:induction false} OfflineEntryPadded(walk: string -> WalkResult, live: nat, base: string, index: int,
                                              onu: OnuInfo, r: EthernetStatus, now: string)
    requires onu.status == "Offline" && onu.onuType == "F670" && Attached(walk, live, base, index, true, onu, r, now)
    ensures r.ports != [] && r != EmptyEthernet("Offline", now)
  {
    FourPorts();
    OfflineEntryEmptyIff(walk, live, base, index, true, onu, r, now);
  }

  lemma {:induction false} FourPorts()
    ensures Events.ExpectedEthernetPorts("F670") == 4
  {
    assert Events.NormalizeOnuType("F670") == "F670";
    assert Contains("F670", "F670");
  }
}
