/** Discovery of unconfigured ONUs: two firmware tables joined on their row index. */
module Discovery {
  import opened Text
  import opened Oid

  const SERIAL_OID := "1.3.6.1.4.1.3902.1012.3.13.3.1.2"
  const TYPE_OID := "1.3.6.1.4.1.3902.1012.3.13.3.1.3"

  function WalkFailedMessage(): string {
    "unconfigured-ONU table walk failed; firmware may not expose this MIB"
  }

  function NoInstancesMessage(): string {
    "no unconfigured-ONU table instances; treat as unsupported until CLI-matched"
  }

  function NoSerialsMessage(): string {
    "table returned no usable serials; an empty result is not confirmed"
  }

  /** A table cell: its full name, whether it is one of the three exception types, and its value as text. */
  datatype Cell = Cell(name: string, missing: bool, text: string)

  datatype Table = Table(cells: seq<Cell>, ok: bool)

  datatype FoundOnu = FoundOnu(serial: string, board: int, pon: int, onuType: string)

  datatype Found = Found(status: string, oid: string, message: string, observedAt: int, onus: seq<FoundOnu>)

  /** An ONU without its type, and the row index the type is looked up by. */
  datatype Row = Row(onu: FoundOnu, suffix: string)

  function Suffix(name: string, root: string): string {
    match ParseSuffix(name, root)
    case None => ""
    case Some(list) => JoinSuffixSpec(list)
  }

  function SerialOf(cell: Cell): string {
    TrimSpace(cell.text)
  }

  predicate Usable(cell: Cell) {
    !cell.missing && SerialOf(cell) != ""
  }

  function RowOf(cell: Cell): Row {
    var place := match ParseSuffix(cell.name, SERIAL_OID)
                 case None => None
                 case Some(list) => if list == [] then None else DecodeOnuIDIfIndex(list[0]);
    var (board, pon) := if place.Some? then place.value else (0, 0);
    Row(FoundOnu(SerialOf(cell), board, pon, ""), Suffix(cell.name, SERIAL_OID))
  }

  function SerialRows(cells: seq<Cell>): map<string, Row> {
    if cells == [] then map[]
    else
      var before, cell := SerialRows(cells[..|cells| - 1]), cells[|cells| - 1];
      if Usable(cell) then before[SerialOf(cell) := RowOf(cell)] else before
  }

  function TypeRows(cells: seq<Cell>): map<string, string> {
    if cells == [] then map[]
    else
      var before, cell := TypeRows(cells[..|cells| - 1]), cells[|cells| - 1];
      var suffix, typ := Suffix(cell.name, TYPE_OID), TrimSpace(cell.text);
      if suffix != "" && typ != "" then before[suffix := typ] else before
  }

  function Typed(row: Row, types: map<string, string>): FoundOnu {
    if row.suffix in types then row.onu.(onuType := types[row.suffix]) else row.onu
  }

  // ----- what a discovery means -----

  /** The last usable cell with this serial. */
  ghost predicate LastNaming(cells: seq<Cell>, i: int, serial: string) {
    && 0 <= i < |cells| && Usable(cells[i]) && SerialOf(cells[i]) == serial
    && forall j :: i < j < |cells| ==> !(Usable(cells[j]) && SerialOf(cells[j]) == serial)
  }

  /** The list holds exactly the serials of the table, each once, each with the place its last cell's index
      encodes and the type listed under that index. */
  ghost predicate Lists(onus: seq<FoundOnu>, cells: seq<Cell>, types: map<string, string>) {
    && (forall i, j :: 0 <= i < j < |onus| ==> onus[i].serial != onus[j].serial)
    && (forall c :: c in cells && Usable(c) ==> exists k :: 0 <= k < |onus| && onus[k].serial == SerialOf(c))
    && (forall k :: 0 <= k < |onus| ==> FromTable(onus[k], cells, types))
  }

  ghost predicate FromTable(onu: FoundOnu, cells: seq<Cell>, types: map<string, string>) {
    exists i :: LastNaming(cells, i, onu.serial) && onu == Typed(RowOf(cells[i]), types)
  }

  predicate AnyUsable(cells: seq<Cell>) {
    exists i :: 0 <= i < |cells| && Usable(cells[i])
  }

  lemma {:induction false} RowIsLast(cells: seq<Cell>, serial: string)
    ensures serial in SerialRows(cells) <==> exists c :: c in cells && Usable(c) && SerialOf(c) == serial
    ensures serial in SerialRows(cells) ==>
            exists i :: LastNaming(cells, i, serial) && SerialRows(cells)[serial] == RowOf(cells[i])
  {
    hide RowOf, Usable, SerialOf;
    if cells != [] {
      var front, last := cells[..|cells| - 1], cells[|cells| - 1];
      RowIsLast(front, serial);
      assert cells == front + [last];
      if serial in SerialRows(cells) {
        if Usable(last) && SerialOf(last) == serial {
          assert LastNaming(cells, |cells| - 1, serial);
        } else {
          var i :| LastNaming(front, i, serial) && SerialRows(front)[serial] == RowOf(front[i]);
          assert LastNaming(cells, i, serial) && cells[i] == front[i];
        }
      }
    }
  }

  /** A type is kept under an index exactly when some cell gives that index a type. */
  lemma {:induction false} TypeListed(cells: seq<Cell>, suffix: string)
    ensures suffix in TypeRows(cells) <==>
            suffix != "" && exists c :: c in cells && Suffix(c.name, TYPE_OID) == suffix && TrimSpace(c.text) != ""
    ensures suffix in TypeRows(cells) ==> TypeRows(cells)[suffix] != ""
  {
    hide Suffix, TrimSpace;
    if cells != [] {
      TypeListed(cells[..|cells| - 1], suffix);
      assert cells == cells[..|cells| - 1] + [cells[|cells| - 1]];
    }
  }

  // ----- an ONU found, cell by cell -----

  /** A cell that holds a serial: not one of the exceptions, and its text not blank. */
  predicate Holds(cell: Cell, serial: string) {
    !cell.missing && serial != "" && TrimSpace(cell.text) == serial
  }

  /** The last type given under an index; blank texts give none. */
  ghost predicate TypeUnder(types: seq<Cell>, index: seq<int>, typ: string) {
    || (exists j :: LastGiving(types, index, j) && typ == TrimSpace(types[j].text))
    || ((forall j :: 0 <= j < |types| ==> !Gives(types[j], index)) && typ == "")
  }

  predicate LastGiving(types: seq<Cell>, index: seq<int>, j: int) {
    0 <= j < |types| && Gives(types[j], index) && forall l :: j < l < |types| ==> !Gives(types[l], index)
  }

  predicate Gives(cell: Cell, index: seq<int>) {
    TrimSpace(cell.text) != "" && ParseSuffix(cell.name, "1.3.6.1.4.1.3902.1012.3.13.3.1.3") == Some(index)
  }

  /** The place an index starts with, by the formula of the PON index; none for any other number. */
  ghost predicate PlacedAt(index: int, board: int, pon: int) {
    || Encodes(index, board, pon)
    || (board == 0 && pon == 0 && forall b, p :: !Encodes(index, b, p))
  }

  predicate Encodes(index: int, board: int, pon: int) {
    1 <= board <= 30 && 1 <= pon <= 16 && index == 285_278_208 + 256 * board + pon
  }

  /** What the cell of a serial and the type table show of the ONU. */
  ghost predicate OnuShows(onu: FoundOnu, cell: Cell, types: seq<Cell>) {
    && Holds(cell, onu.serial)
    && match ParseSuffix(cell.name, "1.3.6.1.4.1.3902.1012.3.13.3.1.2")
       case None => onu.board == 0 && onu.pon == 0 && onu.onuType == ""
       case Some(index) =>
         if index == [] then onu.board == 0 && onu.pon == 0 && onu.onuType == ""
         else PlacedAt(index[0], onu.board, onu.pon) && TypeUnder(types, index, onu.onuType)
  }

  /** The cell an ONU is shown by. */
  ghost predicate ShownBy(onu: FoundOnu, cells: seq<Cell>, types: seq<Cell>, i: int) {
    && 0 <= i < |cells| && OnuShows(onu, cells[i], types)
    && forall j :: i < j < |cells| ==> !Holds(cells[j], onu.serial)
  }

  ghost predicate IsShown(onu: FoundOnu, cells: seq<Cell>, types: seq<Cell>) {
    exists i :: ShownBy(onu, cells, types, i)
  }

  /** Exactly the serials of the table, each once, shown by its last cell. */
  ghost predicate TableShown(onus: seq<FoundOnu>, cells: seq<Cell>, types: seq<Cell>) {
    && (forall i, j :: 0 <= i < j < |onus| ==> onus[i].serial != onus[j].serial)
    && (forall c :: c in cells && Holds(c, TrimSpace(c.text)) ==>
          exists k :: 0 <= k < |onus| && onus[k].serial == TrimSpace(c.text))
    && (forall k :: 0 <= k < |onus| ==> IsShown(onus[k], cells, types))
  }

  lemma {:induction false} TypeIsLast(types: seq<Cell>, index: seq<int>)
    requires index != []
    ensures var suffix := JoinSuffixSpec(index);
            TypeUnder(types, index, if suffix in TypeRows(types) then TypeRows(types)[suffix] else "")
  {
    hide ParseSuffix, TrimSpace, JoinSuffixSpec;
    if types != [] {
      var front, last := types[..|types| - 1], types[|types| - 1];
      TypeIsLast(front, index);
      SuffixGives(last, index);
      var typ := if JoinSuffixSpec(index) in TypeRows(front) then TypeRows(front)[JoinSuffixSpec(index)] else "";
      hide Gives, Suffix;
      if Gives(last, index) {
        assert LastGiving(types, index, |types| - 1);
      } else {
        UnderMore(front, last, index, typ);
        assert types == front + [last];
      }
    }
  }

  lemma {:induction false} UnderMore(types: seq<Cell>, cell: Cell, index: seq<int>, typ: string)
    requires TypeUnder(types, index, typ) && !Gives(cell, index)
    ensures TypeUnder(types + [cell], index, typ)
  {
    hide Gives, TrimSpace;
    var all := types + [cell];
    if j :| LastGiving(types, index, j) && typ == TrimSpace(types[j].text) {
      assert LastGiving(all, index, j);
    }
  }

  /** A cell gives a type under an index exactly when the loop stores one under its printed form. */
  lemma {:induction false} SuffixGives(cell: Cell, index: seq<int>)
    requires index != []
    ensures Gives(cell, index) <==>
            Suffix(cell.name, TYPE_OID) == JoinSuffixSpec(index) && TrimSpace(cell.text) != ""
    ensures JoinSuffixSpec(index) != ""
  {
    hide TrimSpace, ParseSuffix;
    JoinNotEmpty(index);
    match ParseSuffix(cell.name, TYPE_OID)
    case None =>
    case Some(list) =>
      if JoinSuffixSpec(list) == JoinSuffixSpec(index) {
        JoinInjective(list, index);
      }
  }

  lemma {:induction false} JoinNotEmpty(list: seq<int>)
    requires list != []
    ensures JoinSuffixSpec(list) != ""
  {
    SplitSuffix(list);
    hide JoinSuffixSpec, Itoas, Split;
  }

  /** Printed suffixes tell lists apart. */
  lemma {:induction false} JoinInjective(a: seq<int>, b: seq<int>)
    requires JoinSuffixSpec(a) == JoinSuffixSpec(b) && b != []
    ensures a == b
  {
    if a == [] {
      NoParts();
      JoinNotEmpty(b);
    } else {
      SplitSuffix(a);
      SplitSuffix(b);
      forall i | 0 <= i < |a| ensures i < |b| && a[i] == b[i] {
        assert Itoas(a)[i] == Itoas(b)[i];
        ItoaInjective(a[i], b[i]);
      }
      assert |Itoas(a)| == |Itoas(b)|;
    }
  }

  lemma {:induction false} DecodedPlace(index: int)
    ensures var place := DecodeOnuIDIfIndex(index);
            PlacedAt(index, if place.Some? then place.value.0 else 0, if place.Some? then place.value.1 else 0)
  {
    var place := DecodeOnuIDIfIndex(index);
    hide DecodeOnuIDIfIndex;
    if place.Some? {
      DecodeInvertsEncode(index, place.value.0, place.value.1);
    } else {
      forall b, p ensures !Encodes(index, b, p) {
        DecodeInvertsEncode(index, b, p);
      }
    }
  }

  lemma {:induction false} RowShows(cell: Cell, types: seq<Cell>)
    requires Usable(cell)
    ensures OnuShows(Typed(RowOf(cell), TypeRows(types)), cell, types)
    ensures Typed(RowOf(cell), TypeRows(types)).serial == TrimSpace(cell.text)
  {
    hide TrimSpace, ParseSuffix, DecodeOnuIDIfIndex, JoinSuffixSpec, TypeUnder, PlacedAt;
    TypesNamed(types);
    match ParseSuffix(cell.name, SERIAL_OID)
    case None =>
    case Some(index) =>
      if index != [] {
        DecodedPlace(index[0]);
        TypeIsLast(types, index);
      } else {
        NoParts();
      }
  }

  lemma {:induction false} TypesNamed(types: seq<Cell>)
    ensures "" !in TypeRows(types)
  {
    hide Suffix, TrimSpace;
    if types != [] {
      TypesNamed(types[..|types| - 1]);
    }
  }

  lemma {:induction false} HoldsIff(cell: Cell, serial: string)
    ensures Holds(cell, serial) <==> Usable(cell) && SerialOf(cell) == serial
    ensures SerialOf(cell) == TrimSpace(cell.text)
  {
    hide TrimSpace;
  }

  lemma {:induction false} EntryShown(onu: FoundOnu, cells: seq<Cell>, types: seq<Cell>)
    requires FromTable(onu, cells, TypeRows(types))
    ensures IsShown(onu, cells, types)
  {
    hide TrimSpace, OnuShows, Typed, RowOf, TypeRows;
    var i :| LastNaming(cells, i, onu.serial) && onu == Typed(RowOf(cells[i]), TypeRows(types));
    RowShows(cells[i], types);
    forall j | i < j < |cells| ensures !Holds(cells[j], onu.serial) {
      HoldsIff(cells[j], onu.serial);
    }
    assert ShownBy(onu, cells, types, i);
  }

  lemma {:induction false} SerialListed(onus: seq<FoundOnu>, cells: seq<Cell>, types: map<string, string>, c: Cell)
    requires Lists(onus, cells, types) && c in cells && Holds(c, TrimSpace(c.text))
    ensures exists k :: 0 <= k < |onus| && onus[k].serial == TrimSpace(c.text)
  {
    hide FromTable, TrimSpace;
    HoldsIff(c, TrimSpace(c.text));
    assert Usable(c);
  }

  lemma {:induction false} ListShown(onus: seq<FoundOnu>, cells: seq<Cell>, types: seq<Cell>)
    requires Lists(onus, cells, TypeRows(types))
    ensures TableShown(onus, cells, types)
  {
    hide TrimSpace, IsShown, FromTable, TypeRows, Holds, Usable, SerialOf;
    forall k | 0 <= k < |onus| ensures IsShown(onus[k], cells, types) {
      EntryShown(onus[k], cells, types);
    }
    forall c | c in cells && Holds(c, TrimSpace(c.text))
      ensures exists k :: 0 <= k < |onus| && onus[k].serial == TrimSpace(c.text)
    {
      SerialListed(onus, cells, TypeRows(types), c);
    }
  }

  // ----- the two walks -----

  method WalkSerials(cells: seq<Cell>) returns (bySerial: map<string, Row>, walked: bool)
    ensures bySerial == SerialRows(cells)
    ensures walked <==> exists i :: 0 <= i < |cells| && !cells[i].missing
  {
    hide TrimSpace, ParseSuffix, DecodeOnuIDIfIndex, JoinSuffixSpec;
    bySerial, walked := map[], false;
    for i := 0 to |cells|
      invariant bySerial == SerialRows(cells[..i])
      invariant walked <==> exists k :: 0 <= k < i && !cells[k].missing
    {
      assert cells[..i + 1][..i] == cells[..i];
      var cell := cells[i];
      if cell.missing {
        continue;
      }
      walked := true;
      var serial := TrimSpace(cell.text);
      if serial == "" {
        continue;
      }
      var suffix := ParseEthernetSuffix(cell.name, SERIAL_OID);
      var onu := FoundOnu(serial, 0, 0, "");
      var index := "";
      if suffix.Some? {
        if |suffix.value| > 0 {
          match DecodeOnuIDIfIndex(suffix.value[0])
          case None =>
          case Some(place) => onu := onu.(board := place.0, pon := place.1);
        }
        index := JoinSuffix(suffix.value);
      }
      bySerial := bySerial[serial := Row(onu, index)];
    }
    assert cells[..|cells|] == cells;
  }

  method WalkTypes(cells: seq<Cell>) returns (types: map<string, string>)
    ensures types == TypeRows(cells)
  {
    hide TrimSpace, ParseSuffix, JoinSuffixSpec;
    types := map[];
    for i := 0 to |cells|
      invariant types == TypeRows(cells[..i])
    {
      assert cells[..i + 1][..i] == cells[..i];
      var parsed := ParseEthernetSuffix(cells[i].name, TYPE_OID);
      var suffix := "";
      if parsed.Some? {
        suffix := JoinSuffix(parsed.value);
      }
      var typ := TrimSpace(cells[i].text);
      if suffix != "" && typ != "" {
        types := types[suffix := typ];
      }
    }
    assert cells[..|cells|] == cells;
  }

  /** Main result: a discovery is "ok" exactly when the serial walk succeeded and named an ONU, and then lists
      exactly the table, whatever order the map is ranged over; in every other case it lists nothing. It
      never confirms an empty table. */
  method DiscoverUnconfiguredONUs(cancelled: bool, serials: Table, types: Table, now: int) returns (out: Found)
    ensures out.observedAt == now && out.oid == SERIAL_OID
    ensures out.status == if cancelled then "unavailable" else if serials.ok && AnyUsable(serials.cells) then "ok"
            else "unsupported"
    ensures out.status == "ok" <==> out.onus != []
    ensures out.status == "ok" ==> Lists(out.onus, serials.cells, TypeRows(types.cells))
    ensures out.status == "ok" ==> TableShown(out.onus, serials.cells, types.cells)
  {
    hide TableShown, Usable, Lists, AnyUsable, SerialRows, TypeRows, WalkFailedMessage, NoInstancesMessage,
      NoSerialsMessage;
    out := Found("unsupported", SERIAL_OID, "", now, []);
    if cancelled {
      out := out.(status := "unavailable", message := "context canceled");
      return;
    }
    var bySerial, walked := WalkSerials(serials.cells);
    NothingUsable(serials.cells);
    if !serials.ok {
      out := out.(message := WalkFailedMessage());
      return;
    }
    if !walked {
      out := out.(message := NoInstancesMessage());
      return;
    }
    var byType := WalkTypes(types.cells);
    var onus := ListRows(serials.cells, bySerial, byType);
    if |onus| == 0 {
      out := out.(message := NoSerialsMessage());
      return;
    }
    ListShown(onus, serials.cells, types.cells);
    out := out.(status := "ok", onus := onus);
  }

  lemma {:induction false} NothingUsable(cells: seq<Cell>)
    ensures (forall i :: 0 <= i < |cells| ==> cells[i].missing) ==> !AnyUsable(cells)
  {
  }

  /** Ranges over the map in no particular order. */
  method ListRows(ghost cells: seq<Cell>, bySerial: map<string, Row>, types: map<string, string>)
    returns (onus: seq<FoundOnu>)
    requires bySerial == SerialRows(cells)
    ensures Lists(onus, cells, types)
    ensures onus != [] <==> AnyUsable(cells)
  {
    hide Usable, RowOf, SerialRows, LastNaming;
    RowSerials(cells);
    onus := [];
    var todo := bySerial.Keys;
    while todo != {}
      invariant todo <= bySerial.Keys
      invariant Serials(onus) == bySerial.Keys - todo
      invariant forall k :: 0 <= k < |onus| ==>
                onus[k].serial in bySerial && onus[k] == Typed(bySerial[onus[k].serial], types)
      invariant forall i, j :: 0 <= i < j < |onus| ==> onus[i].serial != onus[j].serial
      decreases todo
    {
      var serial :| serial in todo;
      var onu := Typed(bySerial[serial], types);
      OneMoreSerial(onus, onu);
      onus := onus + [onu];
      todo := todo - {serial};
    }
    RowsListed(cells, onus, types);
  }

  ghost function Serials(onus: seq<FoundOnu>): set<string> {
    set k | 0 <= k < |onus| :: onus[k].serial
  }

  lemma {:induction false} OneMoreSerial(onus: seq<FoundOnu>, onu: FoundOnu)
    ensures Serials(onus + [onu]) == Serials(onus) + {onu.serial}
    ensures onu.serial !in Serials(onus) ==> forall k :: 0 <= k < |onus| ==> onus[k].serial != onu.serial
  {
    var all := onus + [onu];
    assert all[|onus|].serial == onu.serial;
    forall s | s in Serials(onus) ensures s in Serials(all) {
      var k :| 0 <= k < |onus| && onus[k].serial == s;
      assert all[k].serial == s;
    }
  }

  lemma {:induction false} RowSerials(cells: seq<Cell>)
    ensures forall s :: s in SerialRows(cells) ==> SerialRows(cells)[s].onu.serial == s
  {
    if cells != [] {
      RowSerials(cells[..|cells| - 1]);
    }
  }

  lemma {:induction false} RowsListed(cells: seq<Cell>, onus: seq<FoundOnu>, types: map<string, string>)
    requires forall i, j :: 0 <= i < j < |onus| ==> onus[i].serial != onus[j].serial
    requires forall k :: 0 <= k < |onus| ==>
             onus[k].serial in SerialRows(cells) && onus[k] == Typed(SerialRows(cells)[onus[k].serial], types)
    requires Serials(onus) == SerialRows(cells).Keys
    ensures Lists(onus, cells, types)
    ensures onus != [] <==> AnyUsable(cells)
  {
    hide Usable, SerialRows, SerialOf, Typed, FromTable;
    forall c | c in cells && Usable(c) ensures exists k :: 0 <= k < |onus| && onus[k].serial == SerialOf(c) {
      RowIsLast(cells, SerialOf(c));
      assert SerialOf(c) in Serials(onus);
    }
    forall k | 0 <= k < |onus| ensures FromTable(onus[k], cells, types) {
      RowListed(cells, onus[k], types);
    }
    if onus != [] {
      RowListed(cells, onus[0], types);
    }
  }

  lemma {:induction false} RowListed(cells: seq<Cell>, onu: FoundOnu, types: map<string, string>)
    requires onu.serial in SerialRows(cells) && onu == Typed(SerialRows(cells)[onu.serial], types)
    ensures FromTable(onu, cells, types) && AnyUsable(cells)
  {
    hide Usable, SerialRows, SerialOf, Typed, RowOf;
    RowIsLast(cells, onu.serial);
  }
}
