/** The OID map of a topology, and the request check that must admit exactly what the map holds. */
module BoardMap {
  import opened Text
  import opened Oid
  import opened Ordering
  import opened Topology

  const ONU_TYPE_IF_INDEX_BASE := 268435456
  const ONU_TYPE_SLOT_STRIDE := 65536
  const ONU_TYPE_INCREMENT := 256

  datatype BoardPonConfig = BoardPonConfig(
    nameOid: string, typeOid: string, serialOid: string, rxPowerOid: string, txPowerOid: string, statusOid: string,
    ipOid: string, descriptionOid: string, lastOnlineOid: string, lastOfflineOid: string, reasonOid: string,
      distanceOid: string)

  function TypeIfIndex(board: int, pon: int): int {
    ONU_TYPE_IF_INDEX_BASE + board * ONU_TYPE_SLOT_STRIDE + pon * ONU_TYPE_INCREMENT
  }

  predicate Addressable(board: int, pon: int) {
    1 <= board <= MAX_BOARD_ID && 1 <= pon <= MAX_PON_ID
  }

  /** None is the range error. */
  function GenerateBoardPonOID(board: int, pon: int): Option<BoardPonConfig> {
    if !Addressable(board, pon) then None
    else
      var id, typ := "." + Itoa(PonIfIndex(board, pon)), "." + Itoa(TypeIfIndex(board, pon));
      Some(BoardPonConfig(
        ".500.10.2.3.3.1.2" + id, ".3.50.11.2.1.17" + typ, ".500.10.2.3.3.1.18" + id, ".500.20.2.2.2.1.10" + id,
        ".500.20.2.2.2.1.14" + id, ".500.10.2.3.8.1.4" + id, ".3.50.16.1.1.10" + typ, ".500.10.2.3.3.1.3" + id,
        ".500.10.2.3.8.1.5" + id, ".500.10.2.3.8.1.6" + id, ".500.10.2.3.8.1.7" + id, ".500.10.2.3.10.1.2" + id))
  }

  lemma {:induction false} SuffixOf(prefix: string, a: int, b: int)
    requires prefix + ("." + Itoa(a)) == prefix + ("." + Itoa(b))
    ensures a == b
  {
    hide Itoa;
    assert (prefix + ("." + Itoa(a)))[|prefix| + 1..] == Itoa(a);
    assert (prefix + ("." + Itoa(b)))[|prefix| + 1..] == Itoa(b);
    ItoaInjective(a, b);
  }

  lemma {:induction false} TypeIndexInjective(b1: int, p1: int, b2: int, p2: int)
    requires Addressable(b1, p1) && Addressable(b2, p2) && TypeIfIndex(b1, p1) == TypeIfIndex(b2, p2)
    ensures b1 == b2 && p1 == p2
  {
  }

  lemma {:induction false} IdIndexInjective(b1: int, p1: int, b2: int, p2: int)
    requires Addressable(b1, p1) && Addressable(b2, p2) && PonIfIndex(b1, p1) == PonIfIndex(b2, p2)
    ensures b1 == b2 && p1 == p2
  {
  }

  /** The OID columns of a PON, in the order they are generated. */
  function Columns(c: BoardPonConfig): seq<string> {
    [c.nameOid, c.typeOid, c.serialOid, c.rxPowerOid, c.txPowerOid, c.statusOid, c.ipOid, c.descriptionOid,
     c.lastOnlineOid, c.lastOfflineOid, c.reasonOid, c.distanceOid]
  }

  lemma {:induction false} IdDistinct(prefix: string, b1: int, p1: int, b2: int, p2: int)
    requires Addressable(b1, p1) && Addressable(b2, p2)
    ensures prefix + ("." + Itoa(PonIfIndex(b1, p1))) == prefix + ("." + Itoa(PonIfIndex(b2, p2))) ==>
            b1 == b2 && p1 == p2
  {
    hide Itoa;
    if prefix + ("." + Itoa(PonIfIndex(b1, p1))) == prefix + ("." + Itoa(PonIfIndex(b2, p2))) {
      SuffixOf(prefix, PonIfIndex(b1, p1), PonIfIndex(b2, p2));
      IdIndexInjective(b1, p1, b2, p2);
    }
  }

  lemma {:induction false} TypeDistinct(prefix: string, b1: int, p1: int, b2: int, p2: int)
    requires Addressable(b1, p1) && Addressable(b2, p2)
    ensures prefix + ("." + Itoa(TypeIfIndex(b1, p1))) == prefix + ("." + Itoa(TypeIfIndex(b2, p2))) ==>
            b1 == b2 && p1 == p2
  {
    hide Itoa;
    if prefix + ("." + Itoa(TypeIfIndex(b1, p1))) == prefix + ("." + Itoa(TypeIfIndex(b2, p2))) {
      SuffixOf(prefix, TypeIfIndex(b1, p1), TypeIfIndex(b2, p2));
      TypeIndexInjective(b1, p1, b2, p2);
    }
  }

  /** Two PONs share a column OID, in any of the twelve columns, only when they are the same PON. */
  lemma {:induction false} OidsDistinct(b1: int, p1: int, b2: int, p2: int, i: nat)
    requires Addressable(b1, p1) && Addressable(b2, p2) && (b1, p1) != (b2, p2) && i < 12
    ensures Columns(GenerateBoardPonOID(b1, p1).value)[i] != Columns(GenerateBoardPonOID(b2, p2).value)[i]
  {
    hide Itoa, PonIfIndex, TypeIfIndex;
    if i == 1 {
      TypeDistinct(".3.50.11.2.1.17", b1, p1, b2, p2);
    } else if i == 6 {
      TypeDistinct(".3.50.16.1.1.10", b1, p1, b2, p2);
    } else {
      IdDistinct(
        [".500.10.2.3.3.1.2", "", ".500.10.2.3.3.1.18", ".500.20.2.2.2.1.10", ".500.20.2.2.2.1.14", ".500.10.2.3.8.1.4",
         "",
         ".500.10.2.3.3.1.3", ".500.10.2.3.8.1.5", ".500.10.2.3.8.1.6", ".500.10.2.3.8.1.7", ".500.10.2.3.10.1.2"][i],
        b1, p1, b2, p2);
    }
  }

  /** The columns of a PON: ten by its index in the ONU space, the type and the address by that in the type space. */
  predicate GeneratedFor(c: BoardPonConfig, board: int, pon: int) {
    var onu, typ := Itoa(285_278_208 + 256 * board + pon), Itoa(268_435_456 + 65_536 * board + 256 * pon);
    && c.nameOid == ".500.10.2.3.3.1.2." + onu && c.typeOid == ".3.50.11.2.1.17." + typ
    && c.serialOid == ".500.10.2.3.3.1.18." + onu && c.rxPowerOid == ".500.20.2.2.2.1.10." + onu
    && c.txPowerOid == ".500.20.2.2.2.1.14." + onu && c.statusOid == ".500.10.2.3.8.1.4." + onu
    && c.ipOid == ".3.50.16.1.1.10." + typ && c.descriptionOid == ".500.10.2.3.3.1.3." + onu
    && c.lastOnlineOid == ".500.10.2.3.8.1.5." + onu && c.lastOfflineOid == ".500.10.2.3.8.1.6." + onu
    && c.reasonOid == ".500.10.2.3.8.1.7." + onu && c.distanceOid == ".500.10.2.3.10.1.2." + onu
  }

  lemma {:induction false} Dotted(prefix: string, dotted: string, n: string)
    requires dotted == prefix + "."
    ensures dotted + n == prefix + ("." + n)
  {
  }

  lemma {:induction false} GeneratesColumns(board: int, pon: int)
    ensures GenerateBoardPonOID(board, pon).Some? <==> 1 <= board <= 30 && 1 <= pon <= 16
    ensures GenerateBoardPonOID(board, pon).Some? ==> GeneratedFor(GenerateBoardPonOID(board, pon).value, board, pon)
  {
    hide Itoa;
    var onu, typ := Itoa(PonIfIndex(board, pon)), Itoa(TypeIfIndex(board, pon));
    Dotted(".500.10.2.3.3.1.2", ".500.10.2.3.3.1.2.", onu);
    Dotted(".3.50.11.2.1.17", ".3.50.11.2.1.17.", typ);
    Dotted(".500.10.2.3.3.1.18", ".500.10.2.3.3.1.18.", onu);
    Dotted(".500.20.2.2.2.1.10", ".500.20.2.2.2.1.10.", onu);
    Dotted(".500.20.2.2.2.1.14", ".500.20.2.2.2.1.14.", onu);
    Dotted(".500.10.2.3.8.1.4", ".500.10.2.3.8.1.4.", onu);
    Dotted(".3.50.16.1.1.10", ".3.50.16.1.1.10.", typ);
    Dotted(".500.10.2.3.3.1.3", ".500.10.2.3.3.1.3.", onu);
    Dotted(".500.10.2.3.8.1.5", ".500.10.2.3.8.1.5.", onu);
    Dotted(".500.10.2.3.8.1.6", ".500.10.2.3.8.1.6.", onu);
    Dotted(".500.10.2.3.8.1.7", ".500.10.2.3.8.1.7.", onu);
    Dotted(".500.10.2.3.10.1.2", ".500.10.2.3.10.1.2.", onu);
  }

  // ----- the map -----

  /** An empty topology means the two default slots. */
  function Effective(boardPons: map<int, int>): map<int, int> {
    if boardPons == map[] then map[1 := MAX_PON_ID, 2 := MAX_PON_ID] else boardPons
  }

  predicate SlotsInRange(boardPons: map<int, int>) {
    forall slot :: slot in Effective(boardPons) ==> 1 <= slot <= MAX_BOARD_ID
  }

  predicate HasUnit(boardPons: map<int, int>, board: int, pon: int) {
    board in boardPons && 1 <= pon <= DefaultPons(boardPons[board])
  }

  /** The map of the slots a loop has been through: exactly their PONs, each with its generated OIDs. */
  ghost predicate Holds(built: map<(int, int), BoardPonConfig>, boardPons: map<int, int>) {
    && (forall board, pon :: (board, pon) in built <==> HasUnit(boardPons, board, pon))
    && (forall key :: key in built ==> GenerateBoardPonOID(key.0, key.1) == Some(built[key]))
  }

  /** Building fails exactly when some slot is out of range; otherwise the keys are exactly {(slot, pon): 1 <= pon
      <= count}, a count out of range meaning the maximum. Ranges over the topology in no particular order. */
  method InitializeBoardPonMapFromSpecs(boardPons: map<int, int>) returns (r: Option<map<(int, int), BoardPonConfig>>)
    ensures r.Some? <==> SlotsInRange(boardPons)
    ensures r.Some? ==> Holds(r.value, Effective(boardPons))
    ensures r.Some? ==> forall key :: key in r.value ==> GeneratedFor(r.value[key], key.0, key.1)
    ensures r.Some? ==> forall board, pon :: (board, pon) in r.value <==> Configured(boardPons, board, pon)
  {
    hide GenerateBoardPonOID, Holds, GeneratedFor, Configured;
    var specs := Effective(boardPons);
    var built: map<(int, int), BoardPonConfig> := map[];
    var todo := specs.Keys;
    NothingBuilt(specs);
    while todo != {}
      invariant todo <= specs.Keys
      invariant Holds(built, specs - todo)
      invariant forall slot :: slot in specs.Keys && slot !in todo ==> 1 <= slot <= MAX_BOARD_ID
      decreases todo
    {
      SomeInt(todo);
      var slot :| slot in todo;
      var ok;
      ok, built := AddSlot(specs, todo, built, slot);
      if !ok {
        return None;
      }
      todo := todo - {slot};
    }
    assert specs - todo == specs;
    HeldColumns(built, specs);
    HeldUnits(built, boardPons);
    r := Some(built);
  }

  /** The PONs of a topology: 16 on each of the boards 1 and 2 when it is empty, otherwise on each listed board its
      count, or 16 when the count is out of range. */
  predicate Configured(boardPons: map<int, int>, board: int, pon: int) {
    1 <= pon <= 16
    && if boardPons == map[] then 1 <= board <= 2
       else board in boardPons && (1 <= boardPons[board] <= 16 ==> pon <= boardPons[board])
  }

  lemma {:induction false} HeldUnits(built: map<(int, int), BoardPonConfig>, boardPons: map<int, int>)
    requires Holds(built, Effective(boardPons))
    ensures forall board, pon :: (board, pon) in built <==> Configured(boardPons, board, pon)
  {
    hide GenerateBoardPonOID;
  }

  lemma {:induction false} HeldColumns(built: map<(int, int), BoardPonConfig>, specs: map<int, int>)
    requires Holds(built, specs)
    ensures forall key :: key in built ==> GeneratedFor(built[key], key.0, key.1)
  {
    hide GeneratedFor, GenerateBoardPonOID;
    forall key | key in built ensures GeneratedFor(built[key], key.0, key.1) {
      GeneratesColumns(key.0, key.1);
    }
  }

  /** The inner loop over one slot's PONs. */
  method AddSlot(specs: map<int, int>, ghost todo: set<int>, was: map<(int, int), BoardPonConfig>, slot: int)
    returns (ok: bool, built: map<(int, int), BoardPonConfig>)
    requires todo <= specs.Keys && slot in todo && Holds(was, specs - todo)
    ensures ok <==> 1 <= slot <= MAX_BOARD_ID
    ensures ok ==> Holds(built, specs - (todo - {slot}))
  {
    hide GenerateBoardPonOID;
    built := was;
    var pons := specs[slot];
    if pons < 1 || pons > MAX_PON_ID {
      pons := MAX_PON_ID;
    }
    assert pons == DefaultPons(specs[slot]);
    for pon := 1 to pons + 1
      invariant pon > 1 ==> 1 <= slot <= MAX_BOARD_ID
      invariant forall b, p :: (b, p) in built <==> HasUnit(specs - todo, b, p) || (b == slot && 1 <= p < pon)
      invariant forall key :: key in built ==> GenerateBoardPonOID(key.0, key.1) == Some(built[key])
    {
      GeneratesIff(slot, pon);
      match GenerateBoardPonOID(slot, pon)
      case None => return false, built;
      case Some(cfg) => built := built[(slot, pon) := cfg];
    }
    OneMoreBoard(specs, todo, slot);
    ok := true;
  }

  lemma {:induction false} GeneratesIff(board: int, pon: int)
    ensures GenerateBoardPonOID(board, pon).Some? <==> Addressable(board, pon)
  {
  }

  lemma {:induction false} NothingBuilt(specs: map<int, int>)
    ensures Holds(map[], specs - specs.Keys)
  {
  }

  lemma {:induction false} OneMoreBoard(specs: map<int, int>, todo: set<int>, slot: int)
    requires todo <= specs.Keys && slot in todo
    ensures forall b, p :: HasUnit(specs - (todo - {slot}), b, p) <==>
              HasUnit(specs - todo, b, p) || (b == slot && 1 <= p <= DefaultPons(specs[slot]))
  {
  }

  /** None is the not-found error. */
  function GetBoardPonConfig(built: map<(int, int), BoardPonConfig>, board: int, pon: int): Option<BoardPonConfig> {
    if (board, pon) in built then Some(built[(board, pon)]) else None
  }

  /** True exactly when no unit of the topology is missing from the map. */
  method ValidateConfig(boardPons: map<int, int>, built: map<(int, int), BoardPonConfig>) returns (ok: bool)
    ensures ok <==> forall board, pon :: HasUnit(Effective(boardPons), board, pon) ==> (board, pon) in built
  {
    var specs := Effective(boardPons);
    var todo := specs.Keys;
    while todo != {}
      invariant todo <= specs.Keys
      invariant forall board, pon :: board in specs.Keys - todo && HasUnit(specs, board, pon) ==> (board, pon) in built
      decreases todo
    {
      SomeInt(todo);
      var slot :| slot in todo;
      var pons := specs[slot];
      if pons < 1 || pons > MAX_PON_ID {
        pons := MAX_PON_ID;
      }
      for pon := 1 to pons + 1
        invariant forall p :: 1 <= p < pon ==> (slot, p) in built
      {
        if (slot, pon) !in built {
          assert HasUnit(specs, slot, pon);
          return false;
        }
      }
      todo := todo - {slot};
    }
    ok := true;
  }

  // ----- requests -----

  /** The board and PON of a request, None when it is answered with a validation error. */
  function ValidateBoardPonParams(boardPons: map<int, int>, boardParam: string, ponParam: string): Option<(int, int)> {
    var specs, board, pon := Effective(boardPons), Atoi(boardParam), Atoi(ponParam);
    if board.None? || board.value !in specs then None
    else if pon.None? || pon.value < 1 || pon.value > specs[board.value] then None
    else Some((board.value, pon.value))
  }

  predicate CountsInRange(boardPons: map<int, int>) {
    forall slot :: slot in Effective(boardPons) ==> 1 <= Effective(boardPons)[slot] <= MAX_PON_ID
  }

  /** The board and PON two texts name, if the map has them. */
  function Mapped(built: map<(int, int), BoardPonConfig>, boardParam: string, ponParam: string): Option<(int, int)> {
    var board, pon := Atoi(boardParam), Atoi(ponParam);
    if board.Some? && pon.Some?
      && GetBoardPonConfig(built, board.value, pon.value).Some? then Some((board.value, pon.value))
    else None
  }

  /** Whatever the request says, the check admits it exactly when the map has what it names. */
  ghost predicate RequestsAgree(boardPons: map<int, int>, built: map<(int, int), BoardPonConfig>) {
    forall boardParam, ponParam ::
      ValidateBoardPonParams(boardPons, boardParam, ponParam) == Mapped(built, boardParam, ponParam)
  }

  lemma {:induction false} NamedUnit(boardPons: map<int, int>, built: map<(int, int), BoardPonConfig>, board: int,
                                     pon: int)
    requires Holds(built, Effective(boardPons)) && MIN_INT <= board <= MAX_INT && MIN_INT <= pon <= MAX_INT
    requires ValidateBoardPonParams(boardPons, Itoa(board), Itoa(pon)) == Mapped(built, Itoa(board), Itoa(pon))
    ensures (board in Effective(boardPons) && 1 <= pon <= Effective(boardPons)[board]) <==>
            HasUnit(Effective(boardPons), board, pon)
  {
    hide Atoi, Itoa, GenerateBoardPonOID;
    AtoiItoa(board);
    AtoiItoa(pon);
    assert (board, pon) in built <==> HasUnit(Effective(boardPons), board, pon);
  }

  /** Main result: for a map built from a topology, the request check and the map agree on every request
      exactly when every configured count is one the map building does not replace. */
  lemma {:induction false} RequestsAgreeIff(boardPons: map<int, int>, built: map<(int, int), BoardPonConfig>)
    requires SlotsInRange(boardPons) && Holds(built, Effective(boardPons))
    ensures RequestsAgree(boardPons, built) <==> CountsInRange(boardPons)
  {
    hide Atoi, Itoa, GenerateBoardPonOID;
    var specs := Effective(boardPons);
    if CountsInRange(boardPons) {
      forall b, p ensures ValidateBoardPonParams(boardPons, b, p) == Mapped(built, b, p) {
        if Atoi(b).Some? && Atoi(p).Some? {
          assert (Atoi(b).value, Atoi(p).value) in built <==> HasUnit(specs, Atoi(b).value, Atoi(p).value);
        }
      }
    } else {
      var slot :| slot in specs && !(1 <= specs[slot] <= MAX_PON_ID);
      if RequestsAgree(boardPons, built) {
        NamedUnit(boardPons, built, slot, if specs[slot] < 1 then 1 else MAX_PON_ID + 1);
        assert false;
      }
    }
  }

  /** A slot with a configured count of 0 has sixteen PONs in the map and none for requests. */
  lemma {:induction false} ZeroCountDisagrees(built: map<(int, int), BoardPonConfig>)
    requires Holds(built, Effective(map[1 := 0]))
    ensures GetBoardPonConfig(built, 1, 1).Some? && ValidateBoardPonParams(map[1 := 0], "1", "1") == None
    ensures !RequestsAgree(map[1 := 0], built)
  {
    hide GenerateBoardPonOID;
    var boardPons := map[1 := 0];
    assert Effective(boardPons) == boardPons;
    assert (1, 1) in built <==> HasUnit(boardPons, 1, 1);
    assert Effective(boardPons)[1] == 0;
    RequestsAgreeIff(boardPons, built);
  }

  /** Main result: for any text whatsoever, the parsed topology builds, its map holds exactly the parsed units,
      passes its own check, and admits exactly the requests for them. */
  lemma {:induction false} ParsedTopologyServes(raw: string, defaultPons: int, built: map<(int, int), BoardPonConfig>)
    requires Holds(built, Effective(Parsed(raw, defaultPons)))
    ensures SlotsInRange(Parsed(raw, defaultPons)) && RequestsAgree(Parsed(raw, defaultPons), built)
    ensures forall board, pon :: (board, pon) in built <==>
              board in Parsed(raw, defaultPons) && 1 <= pon <= Parsed(raw, defaultPons)[board]
  {
    hide Parsed, RequestsAgree, GenerateBoardPonOID;
    var specs := Parsed(raw, defaultPons);
    ParsedInRange(raw, defaultPons);
    RequestsAgreeIff(specs, built);
    forall board, pon ensures (board, pon) in built <==> board in specs && 1 <= pon <= specs[board] {
      assert (board, pon) in built <==> HasUnit(specs, board, pon);
    }
  }

  // ----- loading -----

  /** OLT_PONS_PER_BOARD, the maximum when it is unset, unreadable or out of range. */
  function PonsPerBoard(text: string): int {
    match Atoi(text)
    case None => MAX_PON_ID
    case Some(n) => DefaultPons(n)
  }

  /** The topology part of LoadConfig: it fails exactly when the text is not accepted, and otherwise the map holds the
      units of the parsed text, which are then the units requests are admitted for. */
  method LoadTopology(boards: string, pons: string)
    returns (loaded: Option<(map<int, int>, map<(int, int), BoardPonConfig>)>)
    ensures loaded.Some? <==> Accepted(boards)
    ensures loaded.Some? ==>
              var (specs, built) := loaded.value;
              && specs == Parsed(boards, PonsPerBoard(pons))
              && (forall board, pon :: (board, pon) in built <==> board in specs && 1 <= pon <= specs[board])
              && (forall key :: key in built ==> GeneratedFor(built[key], key.0, key.1))
              && (forall key :: key in built ==> GenerateBoardPonOID(key.0, key.1) == Some(built[key]))
              && RequestsAgree(specs, built)
  {
    hide Accepted, Parsed, RequestsAgree, GenerateBoardPonOID, Atoi, GeneratedFor;
    var ok := ValidateBoardSpecs(boards);
    if !ok {
      return None;
    }
    var list, specs := ParseBoardSpecs(boards, PonsPerBoard(pons));
    ParsedInRange(boards, PonsPerBoard(pons));
    var built := InitializeBoardPonMapFromSpecs(specs);
    ParsedTopologyServes(boards, PonsPerBoard(pons), built.value);
    loaded := Some((specs, built.value));
  }

  /** What loads is valid. */
  method LoadAndValidate(boards: string, pons: string) returns (loaded: bool, valid: bool)
    ensures loaded == valid == Accepted(boards)
  {
    hide Accepted, Parsed, RequestsAgree, GenerateBoardPonOID, Atoi, GeneratedFor;
    var topology := LoadTopology(boards, pons);
    if topology.None? {
      return false, false;
    }
    ParsedInRange(boards, PonsPerBoard(pons));
    valid := ValidateConfig(topology.value.0, topology.value.1);
    loaded := true;
  }
}
