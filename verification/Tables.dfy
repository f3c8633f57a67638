/** The durable store's tables as maps: events of a whole batch are derived from the tables before the
    batch, and the tables are updated afterwards. */
module Tables {
  import opened Text
  import opened Events

  datatype Db = Db(onus: map<(string, string), OnuState>, ports: map<(string, string, int), PortState>,
                   statusLog: seq<StatusEvent>, ethLog: seq<EthEvent>, samples: seq<Sample>)

  const EMPTY_DB := Db(map[], map[], [], [], [])

  function RowAt(onus: map<(string, string), OnuState>, device: string, serial: string): OnuState {
    if (device, serial) in onus then onus[(device, serial)] else NO_ONU
  }

  /** SELECT ... FROM onu_eth_state WHERE device_id = device AND serial = serial. */
  function DbPortsOf(ports: map<(string, string, int), PortState>, device: string,
                     serial: string): map<int, PortState> {
    map k | k in ports && k.0 == device && k.1 == serial :: k.2 := ports[k]
  }

  /** Among the rows of one device and port, the one with the greatest serial. */
  predicate LastOf(ports: map<(string, string, int), PortState>, k: (string, string, int)) {
    forall j :: j in ports && j.0 == k.0 && j.2 == k.2 ==> j.1 == k.1 || StrLess(j.1, k.1)
  }

  lemma {:induction false} LastUnique(ports: map<(string, string, int), PortState>)
    ensures forall j, k ::
              j in ports && k in ports && LastOf(ports, j) && LastOf(ports, k) && j.0 == k.0 && j.2 == k.2 ==> j == k
  {
    forall j, k | j in ports && k in ports && LastOf(ports, j) && LastOf(ports, k) && j.0 == k.0 && j.2 == k.2
      ensures j == k {
      StrLessPair(j.1, k.1);
    }
  }

  /** The previous port states a sample is compared with: SELECT ... WHERE device_id = device AND (serial = '' OR serial
      = serial) ORDER BY serial, port, indexed by port, a later row replacing an earlier one. */
  function EthPrev(ports: map<(string, string, int), PortState>, device: string, serial: string): map<int, PortState> {
    if serial != "" then DbPortsOf(ports, device, serial)
    else
      LastUnique(ports);
      map k | k in ports && k.0 == device && LastOf(ports, k) :: k.2 := ports[k]
  }

  function PadAll(list: seq<Sample>): (r: seq<Sample>)
    ensures |r| == |list|
    ensures forall i :: 0 <= i < |list| ==> r[i] == Padded(list[i])
  {
    if list == [] then [] else PadAll(list[..|list| - 1]) + [Padded(list[|list| - 1])]
  }

  // ----- upserts -----

  /** INSERT ... ON CONFLICT (device_id, serial, port) DO UPDATE. */
  function UpsertPort(was: Option<PortState>, s: Sample, p: EthPort): PortState {
    var changed :=
      match was
      case None => Some(s.time)
      case Some(row) => if row.link != p.link || row.admin != p.admin then Some(s.time) else row.lastChanged;
    PortState(s.device, s.serial, p.port, p.admin, p.link, p.speed, p.duplex, changed, Some(s.time))
  }

  function PortOption(ports: map<(string, string, int), PortState>, key: (string, string, int)): Option<PortState> {
    if key in ports then Some(ports[key]) else None
  }

  function PutPort(ports: map<(string, string, int), PortState>, s: Sample,
                   p: EthPort): map<(string, string, int), PortState> {
    var key := (s.device, s.serial, p.port);
    ports[key := UpsertPort(PortOption(ports, key), s, p)]
  }

  function UpsertPorts(ports: map<(string, string, int), PortState>, s: Sample,
                       list: seq<EthPort>): map<(string, string, int), PortState> {
    if list == [] then ports else PutPort(UpsertPorts(ports, s, list[..|list| - 1]), s, list[|list| - 1])
  }

  function UpsertEthState(ports: map<(string, string, int), PortState>,
                          list: seq<Sample>): map<(string, string, int), PortState> {
    if list == [] then ports
    else
      var s := list[|list| - 1];
      UpsertPorts(UpsertEthState(ports, list[..|list| - 1]), s, s.ethPorts)
  }

  /** INSERT ... ON CONFLICT (device_id, serial) DO UPDATE. Here a change is any difference in spelling. */
  function UpsertRow(was: Option<OnuState>, s: Sample): OnuState {
    var n := ExpectedEthernetPorts(s.onuType);
    match was
    case None =>
      OnuState(s.device, s.serial, s.name, s.onuType, s.board, s.pon, s.onu, s.status, "", Some(s.time), n,
               Some(s.time))
    case Some(row) =>
      OnuState(s.device, s.serial, s.name, s.onuType, s.board, s.pon, s.onu, s.status,
               if row.status != s.status then row.status else row.previousStatus,
               if row.status != s.status then Some(s.time) else if row.changedAt.Some? then row.changedAt
                 else Some(s.time),
               n, Some(s.time))
  }

  function RowOption(onus: map<(string, string), OnuState>, device: string, serial: string): Option<OnuState> {
    if (device, serial) in onus then Some(onus[(device, serial)]) else None
  }

  function UpsertOnu(onus: map<(string, string), OnuState>, s: Sample): map<(string, string), OnuState> {
    if Blank(s.serial) then onus
    else onus[(s.device, s.serial) := UpsertRow(RowOption(onus, s.device, s.serial), s)]
  }

  function UpsertOnus(onus: map<(string, string), OnuState>, list: seq<Sample>): map<(string, string), OnuState> {
    if list == [] then onus else UpsertOnu(UpsertOnus(onus, list[..|list| - 1]), list[|list| - 1])
  }

  // ----- events of a batch, all against the same tables -----

  function StatusBatch(onus: map<(string, string), OnuState>, device: string, list: seq<Sample>): seq<StatusEvent> {
    if list == [] then []
    else
      var s := Padded(list[|list| - 1]);
      StatusBatch(onus, device, list[..|list| - 1]) + StatusEventsFrom(RowAt(onus, device, s.serial), s, "poller")
  }

  function EthBatch(ports: map<(string, string, int), PortState>, list: seq<Sample>): seq<EthEvent> {
    if list == [] then []
    else
      var s := Padded(list[|list| - 1]);
      EthBatch(ports, list[..|list| - 1]) + EthEventsOf(EthPrev(ports, s.device, s.serial), s, s.ethPorts, "poller")
  }

  function RecordBatch(db: Db, batch: seq<Sample>): Db {
    if batch == [] then db
    else db.(statusLog := db.statusLog + StatusBatch(db.onus, batch[0].device, batch),
             ethLog := db.ethLog + EthBatch(db.ports, batch),
             ports := UpsertEthState(db.ports, PadAll(batch)))
  }

  /** One successful PON poll: record transitions (which pads the caller's batch), insert, upsert. */
  function PollBatch(db: Db, batch: seq<Sample>): Db {
    var padded := PadAll(batch);
    var recorded := RecordBatch(db, batch);
    recorded.(samples := db.samples + PadAll(padded), onus := UpsertOnus(db.onus, padded))
  }

  function PollAll(batches: seq<seq<Sample>>): Db {
    if batches == [] then EMPTY_DB else PollBatch(PollAll(batches[..|batches| - 1]), batches[|batches| - 1])
  }
}
