/** What the Ethernet collection answers, in terms of the cells of the agent's three tables. */
module CollectedPorts {
  import opened Text
  import opened Oid
  import opened Ethernet
  import Events

  /** The last integer the agent delivers for a UNI of an ONU below a column's root. */
  function Cell(mib: seq<Pdu>, root: string, onu: int, uni: int): Option<int> {
    if mib == [] then None
    else
      var pdu := mib[|mib| - 1];
      if IndexedBy(pdu.name, root, onu, uni) && pdu.kind.IntValue? then Some(pdu.kind.n)
      else Cell(mib[..|mib| - 1], root, onu, uni)
  }

  function RawOf(rows: map<int, UniPort>, uni: int, column: int): Option<int> {
    if uni !in rows then None
    else if column == 0 then rows[uni].adminRaw
    else if column == 1 then rows[uni].operRaw
    else rows[uni].speedRaw
  }

  /** Nothing but raw values has been entered yet. */
  predicate Fresh(rows: map<int, UniPort>) {
    forall k :: k in rows ==>
      rows[k] == UniPort(k, "unknown", "unknown", None, "unknown", rows[k].adminRaw, rows[k].operRaw, rows[k].speedRaw)
  }

  /** The rows after one more value. */
  ghost predicate Entered(was: map<int, UniPort>, now: map<int, UniPort>, uni: int, column: int, v: Option<int>) {
    && Fresh(now)
    && (uni in now <==> uni in was || v.Some?)
    && RawOf(now, uni, column) == (if v.Some? then v else RawOf(was, uni, column))
    && (forall c :: 0 <= c < 3 && c != column ==> RawOf(now, uni, c) == RawOf(was, uni, c))
  }

  lemma {:induction false} TakeEnters(b: Bucket, port: int, column: int, kind: Kind, uni: int)
    requires Fresh(b.rows) && 0 <= column < 3
    ensures Entered(b.rows, Take(b, port, column, kind).rows, uni, column,
                    if port == uni && kind.IntValue? then Some(kind.n) else None)
  {
  }

  lemma {:induction false} EnteredNothing(rows: map<int, UniPort>, uni: int, column: int)
    requires Fresh(rows)
    ensures Entered(rows, rows, uni, column, None)
  {
  }

  lemma {:induction false} EnteredTwice(a: map<int, UniPort>, b: map<int, UniPort>, c: map<int, UniPort>, uni: int,
                                        column: int, v: Option<int>, w: Option<int>)
    requires Entered(a, b, uni, column, v) && Entered(b, c, uni, column, w) && 0 <= column < 3
    ensures Entered(a, c, uni, column, if w.Some? then w else v)
  {
    hide Fresh;
  }

  lemma {:induction false} OneIndex(name: string, root: string, o1: int, u1: int, o2: int, u2: int)
    requires Undotted(TrimDot(root)) && IndexedBy(name, root, o1, u1) && IndexedBy(name, root, o2, u2)
    ensures o1 == o2 && u1 == u2
  {
    hide TrimDot, ParseSuffix, JoinSuffixSpec, Undotted;
    ParseTrimmed(name, root, [o1, u1]);
    ParseTrimmed(name, root, [o2, u2]);
    assert [o1, u1] == [o2, u2];
    assert [o1, u1][0] == [o2, u2][0] && [o1, u1][1] == [o2, u2][1];
  }

  /** One PDU of the walk below an ONU. */
  lemma {:induction false} PduEnters(b: Bucket, pdu: Pdu, root: string, column: int, u: int, uni: int)
    requires Undotted(TrimDot(root)) && MIN_INT <= u <= MAX_INT && 0 <= column < 3 && Fresh(b.rows)
    requires InSubtree(pdu.name, root) ==> exists onu, v :: IndexedBy(pdu.name, root, onu, v)
    ensures var own, v := root + "." + Itoa(u),
                          if IndexedBy(pdu.name, root, u, uni) && pdu.kind.IntValue? then Some(pdu.kind.n) else None;
            if InSubtree(pdu.name, own) then Entered(b.rows, OnuStep(b, pdu, own, column).rows, uni, column, v)
            else v == None
  {
    hide InSubtree, IndexedBy, ParseSuffix, Entered, Fresh, Take;
    var own := root + "." + Itoa(u);
    if InSubtree(pdu.name, own) {
      OutsidePon(pdu.name, root, u);
      var onu, v :| IndexedBy(pdu.name, root, onu, v);
      RowBelowOnu(pdu.name, root, onu, v, u);
      IndexBounds(pdu.name, root, onu, v);
      TakeEnters(b, v, column, pdu.kind, uni);
      if IndexedBy(pdu.name, root, u, uni) {
        OneIndex(pdu.name, root, onu, v, u, uni);
      }
    } else if IndexedBy(pdu.name, root, u, uni) {
      RowBelowOnu(pdu.name, root, u, uni, u);
    }
  }

  lemma {:induction false} ColumnEnters(b: Bucket, mib: seq<Pdu>, root: string, column: int, u: int, uni: int)
    requires Undotted(TrimDot(root)) && MIN_INT <= u <= MAX_INT && 0 <= column < 3 && Fresh(b.rows)
    requires forall i :: 0 <= i < |mib| && InSubtree(mib[i].name, root) ==>
               exists onu, v :: IndexedBy(mib[i].name, root, onu, v)
    ensures var own := root + "." + Itoa(u);
            Entered(b.rows, OnuColumn(b, Below(mib, own), own, column).rows, uni, column, Cell(mib, root, u, uni))
  {
    hide InSubtree, IndexedBy, OnuStep, Entered, Fresh, Undotted, TrimDot, Itoa;
    var own := root + "." + Itoa(u);
    if mib == [] {
      EnteredNothing(b.rows, uni, column);
    } else {
      var front, pdu := mib[..|mib| - 1], mib[|mib| - 1];
      ColumnEnters(b, front, root, column, u, uni);
      var before := OnuColumn(b, Below(front, own), own, column);
      EnteredFresh(b.rows, before.rows, uni, column, Cell(front, root, u, uni));
      PduEnters(before, pdu, root, column, u, uni);
      if InSubtree(pdu.name, own) {
        assert (Below(front, own) + [pdu])[..|Below(front, own)|] == Below(front, own);
        EnteredTwice(b.rows, before.rows, OnuStep(before, pdu, own, column).rows, uni, column,
                     Cell(front, root, u, uni),
                     if IndexedBy(pdu.name, root, u, uni) && pdu.kind.IntValue? then Some(pdu.kind.n) else None);
      }
    }
  }

  lemma {:induction false} EnteredFresh(was: map<int, UniPort>, now: map<int, UniPort>, uni: int, column: int,
                                        v: Option<int>)
    requires Entered(was, now, uni, column, v)
    ensures Fresh(now)
  {
  }

  // ----- the three columns -----

  function AdminRoot(base: string, index: int): string {
    base + ".500.20.2.3.2.1.5." + Itoa(index)
  }

  function OperRoot(base: string, index: int): string {
    base + ".500.20.2.3.2.1.6." + Itoa(index)
  }

  function SpeedRoot(base: string, index: int): string {
    base + ".500.20.2.3.2.1.7." + Itoa(index)
  }

  lemma {:induction false} ColumnRoots(base: string, index: int)
    ensures PonRoot(base, 0, index) == AdminRoot(base, index)
    ensures PonRoot(base, 1, index) == OperRoot(base, index)
    ensures PonRoot(base, 2, index) == SpeedRoot(base, index)
  {
    hide Itoa;
    assert ".500.20.2.3.2.1.5" + "." == ".500.20.2.3.2.1.5.";
    assert ".500.20.2.3.2.1.6" + "." == ".500.20.2.3.2.1.6.";
    assert ".500.20.2.3.2.1.7" + "." == ".500.20.2.3.2.1.7.";
    Glue(base, ".500.20.2.3.2.1.5", Itoa(index));
    Glue(base, ".500.20.2.3.2.1.6", Itoa(index));
    Glue(base, ".500.20.2.3.2.1.7", Itoa(index));
  }

  lemma {:induction false} Glue(a: string, b: string, c: string)
    ensures a + b + "." + c == a + (b + ".") + c
  {
  }

  /** The row of one UNI after the first n columns. */
  ghost predicate Read(b: Bucket, mib: seq<Pdu>, base: string, index: int, u: int, uni: int, n: nat) {
    && Fresh(b.rows)
    && (forall c :: 0 <= c < 3 ==>
          RawOf(b.rows, uni, c) == if c < n then Cell(mib, PonRoot(base, c, index), u, uni) else None)
    && (uni in b.rows <==> exists c :: 0 <= c < n && c < 3 && Cell(mib, PonRoot(base, c, index), u, uni).Some?)
  }

  lemma {:induction false} ReadMore(was: Bucket, now: Bucket, mib: seq<Pdu>, base: string, index: int, u: int, uni: int,
                                    n: nat)
    requires Read(was, mib, base, index, u, uni, n) && n < 3
    requires Entered(was.rows, now.rows, uni, n, Cell(mib, PonRoot(base, n, index), u, uni))
    ensures Read(now, mib, base, index, u, uni, n + 1)
  {
    hide Cell, PonRoot, Fresh, RawOf;
  }

  lemma {:induction false} WalkReads(walk: string -> WalkResult, mib: seq<Pdu>, base: string, index: int, u: int,
                                     uni: int, n: nat)
    requires n <= 3 && Serves(walk, mib) && WellIndexed(mib, base, index) && Undotted(TrimDot(base))
             && MIN_INT <= u <= MAX_INT
    ensures Read(OnuWalk(walk, base, index, u, n), mib, base, index, u, uni, n)
  {
    hide InSubtree, IndexedBy, OnuColumn, PonRoot, Cell, Entered, TrimDot, Undotted, Itoa;
    if n > 0 {
      WalkReads(walk, mib, base, index, u, uni, n - 1);
      var root, before := PonRoot(base, n - 1, index), OnuWalk(walk, base, index, u, n - 1);
      PonRootUndotted(base, n - 1, index);
      var own := OnuRoot(base, n - 1, index, u);
      assert walk(own) == WalkResult(Below(mib, own), true);
      ColumnEnters(before, mib, root, n - 1, u, uni);
      ReadMore(before, OnuWalk(walk, base, index, u, n), mib, base, index, u, uni, n - 1);
    }
  }

  // ----- the answer -----

  /** The port a reading of three cells shows. */
  predicate Reads(p: UniPort, uni: int, admin: Option<int>, oper: Option<int>, speed: Option<int>) {
    Shows(UniPort(uni, "unknown", "unknown", None, "unknown", admin, oper, speed), p)
  }

  /** A list that holds exactly one port of an index, and which. */
  ghost predicate OnlyPort(ports: seq<UniPort>, p: UniPort) {
    p in ports && forall q :: q in ports && q.index == p.index ==> q == p
  }

  lemma {:induction false} SameIndex(ports: seq<UniPort>, i: nat, j: nat)
    requires Rising(ports) && i < |ports| && j < |ports| && ports[i].index == ports[j].index
    ensures i == j
  {
  }

  lemma {:induction false} RisingOnly(ports: seq<UniPort>, p: UniPort)
    requires Rising(ports) && p in ports
    ensures OnlyPort(ports, p)
  {
    var i :| 0 <= i < |ports| && ports[i] == p;
    forall q | q in ports && q.index == p.index ensures q == p {
      var j :| 0 <= j < |ports| && ports[j] == q;
      SameIndex(ports, i, j);
    }
  }

  lemma {:induction false} TailElements(out: seq<UniPort>, n: nat)
    requires n <= |out|
    ensures forall i :: n <= i < |out| ==> out[i] in out[n..]
  {
    forall i | n <= i < |out| ensures out[i] in out[n..] {
      assert out[n..][i - n] == out[i];
    }
  }

  lemma {:induction false} NotAmong(ports: seq<UniPort>, uni: int)
    ensures !Listed(ports, uni) ==> forall p :: p in ports ==> p.index != uni
  {
  }

  /** Padding keeps what was collected and adds unknown ports alone. */
  lemma {:induction false} PaddedKeeps(onuType: string, ports: seq<UniPort>, uni: int)
    requires Rising(ports) && uni >= 1
    ensures var out := PadSpec(onuType, ports);
            && Rising(out)
            && (forall p :: p in ports && p.index == uni ==> OnlyPort(out, p))
            && (!Listed(ports, uni) ==> forall p :: p in out && p.index == uni ==>
                  p == UnknownUni(uni) && uni <= Events.ExpectedEthernetPorts(onuType))
  {
    hide Events.ExpectedEthernetPorts, PadSpec;
    var n, out := Events.ExpectedEthernetPorts(onuType), PadSpec(onuType, ports);
    PaddingMeans(onuType, ports);
    if n > 0 {
      forall p | p in ports && p.index == uni ensures p in out {
        RisingOnly(ports, p);
        if uni <= n {
          var k :| 0 <= k < |ports| && ports[k] == p;
          assert Listed(ports, uni);
          assert Filled(ports, uni - 1, out[uni - 1]);
        } else {
          assert p in out[n..];
        }
      }
      NotAmong(ports, uni);
      TailElements(out, n);
      if !Listed(ports, uni) {
        forall p | p in out && p.index == uni ensures p == UnknownUni(uni) && uni <= n {
          var i :| 0 <= i < |out| && out[i] == p;
          assert i < n ==> Filled(ports, i, out[i]);
        }
      }
    }
    forall p | p in ports && p.index == uni ensures OnlyPort(out, p) {
      RisingOnly(out, p);
    }
  }

  /** Main result: against an agent that answers without errors and whose rows are well indexed, an online ONU's answer
      holds for each UNI with any value in one of the three tables exactly one port, with the administrative state,
      link, rate and duplex its last values say; for any other UNI at most an unknown one, up to the ports its type
      has. */
  lemma {:induction false} CollectedPort(walk: string -> WalkResult, live: nat, mib: seq<Pdu>, base: string, index: int,
                                         onu: int, onuType: string, r: EthernetStatus, now: string, uni: int)
    requires Serves(walk, mib) && WellIndexed(mib, base, index) && Undotted(TrimDot(base))
    requires MIN_INT <= onu <= MAX_INT && live >= 3 && uni >= 1
    requires Answers(r, OnuWalk(walk, base, index, onu, Walked(live)), Cut(live), onuType, now)
    ensures r.observedAt == now && Rising(r.ports)
    ensures var admin, oper, speed := Cell(mib, AdminRoot(base, index), onu, uni),
                                      Cell(mib, OperRoot(base, index), onu, uni),
                                      Cell(mib, SpeedRoot(base, index), onu, uni);
            if admin.Some? || oper.Some? || speed.Some? then
              && (r.status == "ok" || r.status == "partial")
              && exists p :: OnlyPort(r.ports, p) && p.index == uni && Reads(p, uni, admin, oper, speed)
                             && (r.status == "ok" ==> !Unsure(p))
            else
              forall p :: p in r.ports && p.index == uni ==>
                p == UnknownUni(uni) && uni <= Events.ExpectedEthernetPorts(onuType)
  {
    hide Events.ExpectedEthernetPorts, PadSpec, Serves, WellIndexed, OnuWalk, Cell, AdminRoot, OperRoot, SpeedRoot,
      PonRoot,
      Shows, Decoded, OnlyPort, Unsure;
    var b := OnuWalk(walk, base, index, onu, 3);
    WalkReads(walk, mib, base, index, onu, uni, 3);
    ColumnRoots(base, index);
    FreshKeyed(b.rows);
    var ports, failed :| Decoded(b.rows, ports, failed)
      && var out := FinishEthernet(EmptyEthernet("Online", now), ports, false || b.failed || failed);
         r == out.(ports := PadSpec(onuType, out.ports));
    DecodedShows(b.rows, ports, failed);
    PaddedKeeps(onuType, ports, uni);
    if uni in b.rows {
      CollectedRow(b.rows, ports, failed, uni);
      var p: UniPort :| p in ports && p.index == uni && Shows(b.rows[uni], p) && (!failed ==> !Unsure(p));
      assert ports != [];
      assert OnlyPort(r.ports, p);
    } else {
      NotCollected(b.rows, ports, failed, uni);
    }
  }

  lemma {:induction false} FreshKeyed(rows: map<int, UniPort>)
    requires Fresh(rows)
    ensures KeyedRows(rows)
  {
  }

  lemma {:induction false} CollectedRow(rows: map<int, UniPort>, ports: seq<UniPort>, failed: bool, uni: int)
    requires RowsShown(rows, ports, failed) && uni in rows
    ensures exists p :: p in ports && p.index == uni && Shows(rows[uni], p) && (!failed ==> !Unsure(p))
  {
    hide Shows, Unsure;
    assert Listed(ports, uni);
    var k :| 0 <= k < |ports| && ports[k].index == uni;
    assert ports[k] in ports;
  }

  lemma {:induction false} NotCollected(rows: map<int, UniPort>, ports: seq<UniPort>, failed: bool, uni: int)
    requires RowsShown(rows, ports, failed) && uni !in rows
    ensures !Listed(ports, uni)
  {
    hide Shows, Unsure;
    forall k | 0 <= k < |ports| ensures ports[k].index != uni {
      assert ports[k] in ports;
    }
  }

  // ----- the status -----

  /** A port that some value was delivered for. */
  predicate HasValue(p: UniPort) {
    p.adminRaw.Some? || p.operRaw.Some? || p.speedRaw.Some?
  }

  /** A row below the root that is not one port's, or whose value is no integer. */
  predicate Spoils(pdu: Pdu, root: string) {
    match ParseSuffix(pdu.name, root)
    case None => false
    case Some(suffix) => |suffix| != 1 || suffix[0] < 1 || pdu.kind.NotInt?
  }

  /** A column that was not collected in full. */
  ghost predicate Spoiled(walked: WalkResult, root: string) {
    !walked.ok || exists i :: 0 <= i < |walked.pdus| && Spoils(walked.pdus[i], root)
  }

  /** An answer without a value is unavailable. One with values is ok exactly when all three columns were walked in full
      and every port with a value has both states known, and a rate when it is up; else it is partial. */
  ghost predicate StatusShows(r: EthernetStatus, walk: string -> WalkResult, live: nat, base: string, index: int,
                              onu: int) {
    if forall p :: p in r.ports ==> !HasValue(p) then r.status == "unavailable"
    else if live >= 3 && (forall p :: p in r.ports && HasValue(p) ==> !Unsure(p))
            && (forall c :: 0 <= c < 3 ==> !SpoiledColumn(walk, base, index, onu, c)) then r.status == "ok"
    else r.status == "partial"
  }

  ghost predicate SpoiledColumn(walk: string -> WalkResult, base: string, index: int, onu: int, column: int) {
    var root := OnuRoot(base, column, index, onu);
    Spoiled(walk(root), root)
  }

  predicate AllWithValue(rows: map<int, UniPort>) {
    KeyedRows(rows) && forall k :: k in rows ==> k >= 1 && HasValue(rows[k])
  }

  lemma {:induction false} StepSpoils(b: Bucket, pdu: Pdu, root: string, column: int)
    requires AllWithValue(b.rows) && 0 <= column < 3
    ensures AllWithValue(OnuStep(b, pdu, root, column).rows)
    ensures OnuStep(b, pdu, root, column).failed <==> b.failed || Spoils(pdu, root)
  {
    hide ParseSuffix;
  }

  lemma {:induction false} ColumnSpoils(b: Bucket, pdus: seq<Pdu>, root: string, column: int)
    requires AllWithValue(b.rows) && 0 <= column < 3
    ensures AllWithValue(OnuColumn(b, pdus, root, column).rows)
    ensures OnuColumn(b, pdus, root, column).failed <==>
            b.failed || exists i :: 0 <= i < |pdus| && Spoils(pdus[i], root)
  {
    hide Spoils, OnuStep, AllWithValue;
    if pdus != [] {
      var front, last := pdus[..|pdus| - 1], pdus[|pdus| - 1];
      ColumnSpoils(b, front, root, column);
      StepSpoils(OnuColumn(b, front, root, column), last, root, column);
      assert forall i :: 0 <= i < |front| ==> front[i] == pdus[i];
    }
  }

  lemma {:induction false} WalkSpoils(walk: string -> WalkResult, base: string, index: int, onu: int, n: nat)
    requires n <= 3
    ensures AllWithValue(OnuWalk(walk, base, index, onu, n).rows)
    ensures OnuWalk(walk, base, index, onu, n).failed <==>
            exists c :: 0 <= c < n && SpoiledColumn(walk, base, index, onu, c)
  {
    hide Spoils, OnuColumn, OnuRoot;
    if n > 0 {
      WalkSpoils(walk, base, index, onu, n - 1);
      hide AllWithValue;
      var root := OnuRoot(base, n - 1, index, onu);
      ColumnSpoils(OnuWalk(walk, base, index, onu, n - 1), walk(root).pdus, root, n - 1);
      assert SpoiledColumn(walk, base, index, onu, n - 1) <==> Spoiled(walk(root), root);
    }
  }

  /** The ports of an answer with a value are those decoded. */
  lemma {:induction false} ValuesKept(onuType: string, ports: seq<UniPort>)
    requires Rising(ports) && forall p :: p in ports ==> p.index >= 1 && HasValue(p)
    ensures forall p :: p in PadSpec(onuType, ports) && HasValue(p) <==> p in ports
  {
    hide PadSpec;
    forall p ensures p in PadSpec(onuType, ports) && HasValue(p) <==> p in ports {
      if p.index >= 1 {
        PaddedKeeps(onuType, ports, p.index);
        if Listed(ports, p.index) {
          var k :| 0 <= k < |ports| && ports[k].index == p.index;
          assert ports[k] in ports;
        }
      } else {
        LowNotPadded(onuType, ports, p);
      }
    }
  }

  lemma {:induction false} LowNotPadded(onuType: string, ports: seq<UniPort>, p: UniPort)
    requires p.index < 1
    ensures p in PadSpec(onuType, ports) ==> p in ports
  {
    hide Events.ExpectedEthernetPorts, PadSpec;
    var n, out := Events.ExpectedEthernetPorts(onuType), PadSpec(onuType, ports);
    PaddingMeans(onuType, ports);
    if n > 0 && p in out {
      var i :| 0 <= i < |out| && out[i] == p;
      TailElements(out, n);
      assert i < n ==> Filled(ports, i, out[i]);
    }
  }

  /** Main result: whatever the walks deliver, errors and malformed rows included, the status says how much of the
      answer was collected. */
  lemma {:induction false} AnswerStatus(walk: string -> WalkResult, live: nat, base: string, index: int, onu: int,
                                        onuType: string, r: EthernetStatus, now: string)
    requires Answers(r, OnuWalk(walk, base, index, onu, Walked(live)), Cut(live), onuType, now)
    ensures StatusShows(r, walk, live, base, index, onu)
  {
    hide PadSpec, OnuWalk, SpoiledColumn, Shows, Decoded, Unsure;
    var n := Walked(live);
    var b := OnuWalk(walk, base, index, onu, n);
    WalkSpoils(walk, base, index, onu, n);
    var ports, failed :| Decoded(b.rows, ports, failed)
      && var out := FinishEthernet(EmptyEthernet("Online", now), ports, Cut(live) || b.failed || failed);
         r == out.(ports := PadSpec(onuType, out.ports));
    DecodedShows(b.rows, ports, failed);
    ShownHaveValues(b.rows, ports, failed);
    ValuesKept(onuType, ports);
    if ports != [] {
      assert ports[0] in r.ports;
    }
  }

  lemma {:induction false} ShownHaveValues(rows: map<int, UniPort>, ports: seq<UniPort>, failed: bool)
    requires RowsShown(rows, ports, failed) && AllWithValue(rows)
    ensures forall p :: p in ports ==> p.index >= 1 && HasValue(p)
  {
    hide Unsure;
  }
}
