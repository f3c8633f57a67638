/** The board topology: validating and parsing its text, generating the OID map, and checking requests. */
module Topology {
  import opened Text
  import opened Oid
  import opened Ordering

  // ----- one board specification -----

  /** strings.Cut on one character. */
  function Cut(s: string, sep: char): (string, string, bool) {
    if s == "" then ("", "", false)
    else if s[0] == sep then ("", s[1..], true)
    else
      var (before, after, found) := Cut(s[1..], sep);
      ([s[0]] + before, after, found)
  }

  lemma {:induction false} CutParts(s: string, sep: char)
    ensures var (before, after, found) := Cut(s, sep);
            sep !in before && s == if found then before + [sep] + after else before
  {
    if s != "" && s[0] != sep {
      CutParts(s[1..], sep);
    }
  }

  /** Where splitting gives at most two parts, cutting gives the same ones. */
  lemma {:induction false} CutIsSplit(s: string, sep: char)
    ensures var (before, after, found) := Cut(s, sep);
            && Split(s, sep)[0] == before
            && (found <==> |Split(s, sep)| > 1)
            && (|Split(s, sep)| == 2 ==> Split(s, sep)[1] == after)
  {
    hide Cut, Split;
    var (before, after, found) := Cut(s, sep);
    CutParts(s, sep);
    if found {
      SplitPrefix(before, after, sep);
      if |Split(s, sep)| == 2 {
        JoinSplit(after, sep);
      }
    } else {
      SplitWhole(before, sep);
    }
  }

  function Fields(spec: string): (fields: seq<string>)
    ensures fields != []
  {
    Split(TrimSpace(spec), ':')
  }

  function SlotOf(spec: string): Option<int> {
    Atoi(TrimSpace(Fields(spec)[0]))
  }

  predicate InRange(n: Option<int>, max: int) {
    n.Some? && 1 <= n.value <= max
  }

  /** A slot in range, and at most one PON count, itself in range. */
  predicate SpecAccepted(spec: string) {
    && InRange(SlotOf(spec), MAX_BOARD_ID)
    && |Fields(spec)| <= 2
    && (|Fields(spec)| == 2 ==> InRange(Atoi(TrimSpace(Fields(spec)[1])), MAX_PON_ID))
  }

  /** What an accepted specification says, read literally. */
  function SlotListed(spec: string): int
    requires SpecAccepted(spec)
  {
    SlotOf(spec).value
  }

  function PonsListed(spec: string, defaultPons: int): int
    requires SpecAccepted(spec)
  {
    if |Fields(spec)| == 2 then Atoi(TrimSpace(Fields(spec)[1])).value else defaultPons
  }

  // ----- the validator -----

  predicate AllAccepted(specs: seq<string>) {
    && (forall i :: 0 <= i < |specs| ==> SpecAccepted(specs[i]))
    && (forall i, j :: 0 <= i < j < |specs| ==> SlotListed(specs[i]) != SlotListed(specs[j]))
  }

  predicate Accepted(value: string) {
    Blank(value) || AllAccepted(Split(value, ','))
  }

  ghost function SlotsSeen(specs: seq<string>): set<int>
    requires forall i :: 0 <= i < |specs| ==> SpecAccepted(specs[i])
  {
    set i | 0 <= i < |specs| :: SlotListed(specs[i])
  }

  /** Accepts exactly blank text and lists of acceptable specifications for distinct slots. */
  method ValidateBoardSpecs(value: string) returns (ok: bool)
    ensures ok <==> Accepted(value)
  {
    hide TrimSpace, Atoi, Split, Fields, SlotOf, SpecAccepted, Blank;
    if Blank(value) {
      return true;
    }
    var specs := Split(value, ',');
    var seen: set<int> := {};
    for i := 0 to |specs|
      invariant AllAccepted(specs[..i])
      invariant seen == SlotsSeen(specs[..i])
    {
      var parts := Fields(specs[i]);
      var slot := Atoi(TrimSpace(parts[0]));
      SpecParts(specs[i]);
      if !InRange(slot, MAX_BOARD_ID) || |parts| > 2 || slot.value in seen {
        NotAccepted(specs, i);
        return false;
      }
      if |parts| == 2 {
        var pons := Atoi(TrimSpace(parts[1]));
        if !InRange(pons, MAX_PON_ID) {
          NotAccepted(specs, i);
          return false;
        }
      }
      OneMoreSlot(specs, i);
      seen := seen + {slot.value};
    }
    assert specs[..|specs|] == specs;
    ok := true;
  }

  lemma {:induction false} SpecParts(spec: string)
    ensures SlotOf(spec) == Atoi(TrimSpace(Fields(spec)[0]))
    ensures SpecAccepted(spec) <==>
            InRange(SlotOf(spec), MAX_BOARD_ID) && |Fields(spec)| <= 2
              && (|Fields(spec)| == 2 ==> InRange(Atoi(TrimSpace(Fields(spec)[1])), MAX_PON_ID))
    ensures SpecAccepted(spec) ==> SlotListed(spec) == SlotOf(spec).value
  {
  }

  lemma {:induction false} OneMoreSlot(specs: seq<string>, i: nat)
    requires i < |specs| && AllAccepted(specs[..i]) && SpecAccepted(specs[i])
             && SlotListed(specs[i]) !in SlotsSeen(specs[..i])
    ensures AllAccepted(specs[..i + 1])
    ensures SlotsSeen(specs[..i + 1]) == SlotsSeen(specs[..i]) + {SlotListed(specs[i])}
  {
    hide SpecAccepted, SlotListed;
    var front, all := specs[..i], specs[..i + 1];
    assert all == front + [specs[i]];
    forall k | 0 <= k < i ensures SlotListed(all[k]) != SlotListed(specs[i]) && SlotListed(all[k]) in SlotsSeen(front) {
      assert SlotListed(front[k]) in SlotsSeen(front);
    }
    assert all[i] == specs[i];
    forall n | n in SlotsSeen(front) ensures n in SlotsSeen(all) {
      var k :| 0 <= k < i && SlotListed(front[k]) == n;
      assert SlotListed(all[k]) == n;
    }
    assert SlotListed(all[i]) in SlotsSeen(all);
  }

  lemma {:induction false} NotAccepted(specs: seq<string>, i: nat)
    requires i < |specs| && AllAccepted(specs[..i])
    requires !SpecAccepted(specs[i]) || SlotListed(specs[i]) in SlotsSeen(specs[..i])
    ensures !AllAccepted(specs)
  {
    hide SpecAccepted, SlotListed;
    if SpecAccepted(specs[i]) {
      var k :| 0 <= k < i && SlotListed(specs[..i][k]) == SlotListed(specs[i]);
      assert specs[k] == specs[..i][k];
    }
  }

  // ----- the parser -----

  function DefaultPons(n: int): (r: int)
    ensures 1 <= r <= MAX_PON_ID && (1 <= n <= MAX_PON_ID ==> r == n)
  {
    if n < 1 || n > MAX_PON_ID then MAX_PON_ID else n
  }

  /** One entry as the parser takes it: skipped, or a slot with its listed or default count. */
  function ParseSpec(part: string, defaultPons: int): Option<(int, int)> {
    var trimmed := TrimSpace(part);
    var (slotStr, ponStr, hasPon) := Cut(trimmed, ':');
    var slot, pons := Atoi(TrimSpace(slotStr)), Atoi(TrimSpace(ponStr));
    if trimmed == "" || !InRange(slot, MAX_BOARD_ID) then None
    else Some((slot.value, if hasPon && InRange(pons, MAX_PON_ID) then pons.value else defaultPons))
  }

  function ParseAll(parts: seq<string>, defaultPons: int): map<int, int> {
    if parts == [] then map[]
    else
      var before, entry := ParseAll(parts[..|parts| - 1], defaultPons), ParseSpec(parts[|parts| - 1], defaultPons);
      if entry.Some? then before[entry.value.0 := entry.value.1] else before
  }

  function Parsed(raw: string, defaultPons: int): map<int, int> {
    var d := DefaultPons(defaultPons);
    var specs := ParseAll(Split(raw, ','), d);
    if specs == map[] then map[1 := d, 2 := d] else specs
  }

  method ParseBoardSpecs(raw: string, defaultPons: int) returns (boards: seq<int>, specs: map<int, int>)
    ensures specs == Parsed(raw, defaultPons)
    ensures Increasing(IntLess, boards) && forall slot :: slot in boards <==> slot in specs
  {
    hide TrimSpace, Atoi, Split, Cut;
    var d := defaultPons;
    if d < 1 || d > MAX_PON_ID {
      d := MAX_PON_ID;
    }
    specs := map[];
    var parts := Split(raw, ',');
    for i := 0 to |parts|
      invariant specs == ParseAll(parts[..i], d)
    {
      assert parts[..i + 1][..i] == parts[..i];
      var part := TrimSpace(parts[i]);
      if part == "" {
        continue;
      }
      var (slotStr, ponStr, hasPon) := Cut(part, ':');
      var slot := Atoi(TrimSpace(slotStr));
      if !InRange(slot, MAX_BOARD_ID) {
        continue;
      }
      var pons := d;
      if hasPon {
        var p := Atoi(TrimSpace(ponStr));
        if InRange(p, MAX_PON_ID) {
          pons := p.value;
        }
      }
      specs := specs[slot.value := pons];
    }
    assert parts[..|parts|] == parts;
    if |specs| == 0 {
      specs := map[1 := d, 2 := d];
    }
    boards := SortedKeys(specs);
  }

  /** Ranges over the map in no particular order, then sorts. */
  method SortedKeys(specs: map<int, int>) returns (boards: seq<int>)
    ensures Increasing(IntLess, boards) && forall slot :: slot in boards <==> slot in specs
  {
    var out: seq<int> := [];
    var todo := specs.Keys;
    while todo != {}
      invariant todo <= specs.Keys
      invariant forall slot :: slot in out <==> slot in specs.Keys - todo
      invariant NoDuplicates(out)
      decreases todo
    {
      SomeInt(todo);
      var slot :| slot in todo;
      out := out + [slot];
      todo := todo - {slot};
    }
    IntOrder();
    boards := SortSlice(IntLess, out);
    NoDuplicatesPermuted(out, boards);
    OrderedSeparated(IntLess, boards);
    forall slot ensures slot in boards <==> slot in out {
      assert slot in boards <==> slot in multiset(boards);
      assert slot in out <==> slot in multiset(out);
    }
  }

  /** On an accepted specification the parser neither skips nor falls back. */
  lemma {:induction false} SpecTakenLiterally(spec: string, defaultPons: int)
    requires SpecAccepted(spec)
    ensures ParseSpec(spec, defaultPons) == Some((SlotListed(spec), PonsListed(spec, defaultPons)))
  {
    hide TrimSpace, Cut, Split;
    CutIsSplit(TrimSpace(spec), ':');
    NothingToParse(spec);
    SpecParts(spec);
  }

  lemma {:induction false} NothingToParse(spec: string)
    ensures TrimSpace(spec) == "" ==> !SpecAccepted(spec)
  {
    if TrimSpace(spec) == "" {
      assert Fields(spec) == [""];
      assert TrimSpace("") == "" && Atoi("") == None;
    }
  }

  lemma {:induction false} OnlyListed(specs: seq<string>, defaultPons: int, slot: int)
    requires AllAccepted(specs) && slot in ParseAll(specs, defaultPons)
    ensures exists i :: 0 <= i < |specs| && SlotListed(specs[i]) == slot
  {
    hide ParseSpec, SpecAccepted, SlotListed, PonsListed;
    var n := |specs| - 1;
    SpecTakenLiterally(specs[n], defaultPons);
    if slot != SlotListed(specs[n]) {
      OnlyListed(specs[..n], defaultPons, slot);
      var i :| 0 <= i < n && SlotListed(specs[..n][i]) == slot;
      assert SlotListed(specs[i]) == slot;
    }
  }

  lemma {:induction false} AllTakenLiterally(specs: seq<string>, defaultPons: int)
    requires AllAccepted(specs)
    ensures |ParseAll(specs, defaultPons)| == |specs|
    ensures forall i :: 0 <= i < |specs| ==>
              SlotListed(specs[i]) in ParseAll(specs, defaultPons)
              && ParseAll(specs, defaultPons)[SlotListed(specs[i])] == PonsListed(specs[i], defaultPons)
  {
    hide ParseSpec, SpecAccepted, SlotListed, PonsListed;
    if specs != [] {
      var front, last := specs[..|specs| - 1], specs[|specs| - 1];
      AllTakenLiterally(front, defaultPons);
      SpecTakenLiterally(last, defaultPons);
      if SlotListed(last) in ParseAll(front, defaultPons) {
        OnlyListed(front, defaultPons, SlotListed(last));
      }
      assert forall i :: 0 <= i < |front| ==> front[i] == specs[i];
    }
  }

  /** Main result: accepted text that is not blank is taken literally. The parsed slots are exactly the listed
      ones, one for each entry, each with its listed count or the default; nothing is skipped, overwritten or
      replaced by the fallback. */
  lemma {:induction false} AcceptedIsLiteral(value: string, defaultPons: int)
    requires Accepted(value) && !Blank(value)
    ensures var specs, d := Split(value, ','), DefaultPons(defaultPons);
            && |Parsed(value, defaultPons)| == |specs|
            && (forall slot :: slot in Parsed(value, defaultPons) <==>
                exists i :: 0 <= i < |specs| && SpecAccepted(specs[i]) && SlotListed(specs[i]) == slot)
            && (forall i :: 0 <= i < |specs| ==>
                  SpecAccepted(specs[i]) && SlotListed(specs[i]) in Parsed(value, defaultPons)
                  && Parsed(value, defaultPons)[SlotListed(specs[i])] == PonsListed(specs[i], d))
  {
    hide SpecAccepted, SlotListed, PonsListed, ParseAll, Blank, Split;
    var specs := Split(value, ',');
    AllTakenLiterally(specs, DefaultPons(defaultPons));
    assert SlotListed(specs[0]) in ParseAll(specs, DefaultPons(defaultPons));
    forall slot | slot in Parsed(value, defaultPons)
      ensures exists i :: 0 <= i < |specs| && SpecAccepted(specs[i]) && SlotListed(specs[i]) == slot
    {
      OnlyListed(specs, DefaultPons(defaultPons), slot);
    }
  }

  // ----- printing a topology -----

  /** A board as one writes it down: its slot and, if it is not to be the default, its PON count. */
  datatype Board = Board(slot: int, pons: Option<int>)

  predicate WellFormed(boards: seq<Board>) {
    && (forall i :: 0 <= i < |boards| ==> 1 <= boards[i].slot <= 30)
    && (forall i :: 0 <= i < |boards| && boards[i].pons.Some? ==> 1 <= boards[i].pons.value <= 16)
    && (forall i, j :: 0 <= i < j < |boards| ==> boards[i].slot != boards[j].slot)
  }

  function PrintBoard(b: Board): string {
    match b.pons
    case None => Itoa(b.slot)
    case Some(n) => Itoa(b.slot) + ":" + Itoa(n)
  }

  function PrintBoards(boards: seq<Board>): (parts: seq<string>)
    ensures |parts| == |boards|
    ensures forall i :: 0 <= i < |boards| ==> parts[i] == PrintBoard(boards[i])
  {
    if boards == [] then [] else [PrintBoard(boards[0])] + PrintBoards(boards[1..])
  }

  lemma {:induction false} NothingTrimmed(s: string)
    requires s != "" && !IsSpace(s[0]) && !IsSpace(s[|s| - 1])
    ensures TrimSpace(s) == s
  {
  }

  lemma {:induction false} NumberChars(n: int)
    requires n >= 0
    ensures Itoa(n) != "" && forall c :: c in Itoa(n) ==> IsDigit(c)
    ensures TrimSpace(Itoa(n)) == Itoa(n)
  {
    ItoaChars(n);
    DigitsAreDigits(n);
    assert Itoa(n)[0] in Itoa(n) && Itoa(n)[|Itoa(n)| - 1] in Itoa(n);
    NothingTrimmed(Itoa(n));
  }

  lemma {:induction false} DigitsAreDigits(n: nat)
    ensures forall c :: c in Digits(n) ==> IsDigit(c)
  {
    if n >= 10 {
      DigitsAreDigits(n / 10);
    }
  }

  lemma {:induction false} PrintedFields(b: Board)
    requires b.slot >= 0 && (b.pons.Some? ==> b.pons.value >= 0)
    ensures Fields(PrintBoard(b)) == [Itoa(b.slot)] + if b.pons.Some? then [Itoa(b.pons.value)] else []
    ensures PrintBoard(b) != "" && IsDigit(PrintBoard(b)[0]) && forall c :: c in PrintBoard(b) ==>
            IsDigit(c) || c == ':'
  {
    hide Itoa, TrimSpace, Split;
    var s := PrintBoard(b);
    NumberChars(b.slot);
    assert !IsDigit(':');
    assert Itoa(b.slot)[0] in Itoa(b.slot);
    if b.pons.Some? {
      var n := Itoa(b.pons.value);
      NumberChars(b.pons.value);
      assert s[|s| - 1] == n[|n| - 1] && n[|n| - 1] in n;
      NothingTrimmed(s);
      SplitPrefix(Itoa(b.slot), n, ':');
      SplitWhole(n, ':');
    } else {
      SplitWhole(Itoa(b.slot), ':');
    }
  }

  lemma {:induction false} PrintedSpec(b: Board, d: int)
    requires 1 <= b.slot <= 30 && (b.pons.Some? ==> 1 <= b.pons.value <= 16)
    ensures SpecAccepted(PrintBoard(b)) && SlotListed(PrintBoard(b)) == b.slot
    ensures PonsListed(PrintBoard(b), d) == if b.pons.Some? then b.pons.value else d
  {
    hide Itoa, TrimSpace, Split, Atoi, Fields, PrintBoard;
    PrintedFields(b);
    NumberChars(b.slot);
    AtoiItoa(b.slot);
    if b.pons.Some? {
      NumberChars(b.pons.value);
      AtoiItoa(b.pons.value);
    }
  }

  /** Main result: any list of distinct boards in range, written down with commas, is accepted and parses to exactly
      that topology, a count left out being the default. */
  lemma {:induction false} PrintedTopologyParses(boards: seq<Board>, defaultPons: int)
    requires boards != [] && WellFormed(boards)
    ensures var text := Join(PrintBoards(boards), ',');
            var specs := Parsed(text, defaultPons);
            && Accepted(text) && |specs| == |boards|
            && (forall slot :: slot in specs <==> exists i :: 0 <= i < |boards| && boards[i].slot == slot)
            && (forall i :: 0 <= i < |boards| ==>
                  && boards[i].slot in specs
                  && (boards[i].pons.Some? ==> specs[boards[i].slot] == boards[i].pons.value)
                  && (boards[i].pons.None? && 1 <= defaultPons <= 16 ==> specs[boards[i].slot] == defaultPons))
  {
    hide SpecAccepted, SlotListed, PonsListed, ParseAll, Blank, Split, PrintBoard, Join, Itoa, Parsed;
    var parts, text := PrintBoards(boards), Join(PrintBoards(boards), ',');
    forall i | 0 <= i < |boards|
      ensures ',' !in parts[i] && SpecAccepted(parts[i]) && SlotListed(parts[i]) == boards[i].slot
      ensures PonsListed(parts[i], DefaultPons(defaultPons)) ==
              if boards[i].pons.Some? then boards[i].pons.value else DefaultPons(defaultPons)
    {
      PrintedFields(boards[i]);
      PrintedSpec(boards[i], DefaultPons(defaultPons));
      assert !IsDigit(',');
    }
    SplitJoin(parts, ',');
    PrintedNotBlank(boards);
    AcceptedIsLiteral(text, defaultPons);
    forall slot | slot in Parsed(text, defaultPons) ensures exists i :: 0 <= i < |boards| && boards[i].slot == slot {
      var i :| 0 <= i < |parts| && SpecAccepted(parts[i]) && SlotListed(parts[i]) == slot;
      assert boards[i].slot == slot;
    }
  }

  lemma {:induction false} PrintedNotBlank(boards: seq<Board>)
    requires boards != [] && WellFormed(boards)
    ensures !Blank(Join(PrintBoards(boards), ','))
  {
    hide PrintBoard, TrimSpace;
    PrintedFields(boards[0]);
    var text := Join(PrintBoards(boards), ',');
    assert text[0] == PrintBoard(boards[0])[0];
    assert IsDigit(text[0]) && text[0] in text;
    if TrimSpace(text) == "" {
      TrimmedAway(text);
    }
  }

  /** Blank text means the two default slots. */
  lemma {:induction false} BlankIsDefault(value: string, defaultPons: int)
    requires Blank(value)
    ensures Parsed(value, defaultPons) == map[1 := DefaultPons(defaultPons), 2 := DefaultPons(defaultPons)]
  {
    BlankHasNoComma(value);
    SplitWhole(value, ',');
    assert [value][..0] == [];
    assert ParseAll([], DefaultPons(defaultPons)) == map[];
    assert ParseSpec(value, DefaultPons(defaultPons)) == None;
  }

  lemma {:induction false} BlankHasNoComma(value: string)
    requires Blank(value)
    ensures ',' !in value
  {
    TrimmedAway(value);
  }

  lemma {:induction false} TrimmedAway(s: string)
    requires TrimSpace(s) == ""
    ensures forall c :: c in s ==> IsSpace(c)
  {
    if s != "" {
      if IsSpace(s[0]) {
        TrimmedAway(s[1..]);
      } else {
        TrimRightKeepsFirst(s);
      }
    }
  }

  lemma {:induction false} TrimRightKeepsFirst(s: string)
    requires s != "" && !IsSpace(s[0])
    ensures TrimRight(s) != ""
  {
    if IsSpace(s[|s| - 1]) {
      TrimRightKeepsFirst(s[..|s| - 1]);
    }
  }

  /** What validation and parsing leave to the rest of the program. */
  predicate ValidTopology(boardPons: map<int, int>) {
    forall slot :: slot in boardPons ==> 1 <= slot <= MAX_BOARD_ID && 1 <= boardPons[slot] <= MAX_PON_ID
  }

  lemma {:induction false} SpecInRange(part: string, defaultPons: int)
    requires 1 <= defaultPons <= MAX_PON_ID && ParseSpec(part, defaultPons).Some?
    ensures var entry := ParseSpec(part, defaultPons).value; 1 <= entry.0 <= MAX_BOARD_ID && 1 <= entry.1 <= MAX_PON_ID
  {
  }

  lemma {:induction false} AllInRange(parts: seq<string>, defaultPons: int)
    requires 1 <= defaultPons <= MAX_PON_ID
    ensures ValidTopology(ParseAll(parts, defaultPons))
  {
    hide ParseSpec;
    if parts != [] {
      AllInRange(parts[..|parts| - 1], defaultPons);
      if ParseSpec(parts[|parts| - 1], defaultPons).Some? {
        SpecInRange(parts[|parts| - 1], defaultPons);
      }
    }
  }

  /** Whatever the text, accepted or not, the parser's result is a valid, non-empty topology. */
  lemma {:induction false} ParsedInRange(raw: string, defaultPons: int)
    ensures ValidTopology(Parsed(raw, defaultPons)) && Parsed(raw, defaultPons) != map[]
  {
    AllInRange(Split(raw, ','), DefaultPons(defaultPons));
    assert 1 in map[1 := DefaultPons(defaultPons), 2 := DefaultPons(defaultPons)];
  }
}
