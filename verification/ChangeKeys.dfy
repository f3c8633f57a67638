/** The string by which the registry tells whether an OLT's connection settings changed. */
module ChangeKeys {
  import opened Text
  import opened Ordering

  datatype Olt = Olt(id: string, userID: int, host: string, port: nat, community: string, maxConcurrent: int,
                     boards: seq<int>, boardPons: map<int, int>, useWalk: bool)

  function BoardSpec(slot: int, pons: int): string {
    Itoa(slot) + ":" + Itoa(pons)
  }

  ghost function BoardSpecs(boardPons: map<int, int>): set<string> {
    set slot | slot in boardPons :: BoardSpec(slot, boardPons[slot])
  }

  function Bool(b: bool): string {
    if b then "true" else "false"
  }

  function Format(o: Olt, boards: seq<string>): string {
    o.host + "|" + Itoa(o.port) + "|" + o.community + "|" + Bool(o.useWalk) + "|" + Join(boards, ',')
  }

  /** The key is built from the board specs in byte order. */
  ghost predicate IsKey(o: Olt, key: string) {
    exists boards :: IsKeyFrom(o, boards, key)
  }

  ghost predicate IsKeyFrom(o: Olt, boards: seq<string>, key: string) {
    && Increasing(StrLess, boards) && (forall b :: b in boards <==> b in BoardSpecs(o.boardPons))
    && key == Format(o, boards)
  }

  /** What a change of which asks for a new connection. */
  predicate SameConnection(a: Olt, b: Olt) {
    a.host == b.host && a.port == b.port && a.community == b.community && a.useWalk == b.useWalk
      && a.boardPons == b.boardPons
  }

  lemma {:induction false} StrOrder()
    ensures StrictWeakOrder(StrLess)
  {
    forall a, b, c
      ensures !StrLess(a, a) && (StrLess(a, b) && StrLess(b, c) ==> StrLess(a, c))
              && (!StrLess(a, b) && !StrLess(b, c) ==> !StrLess(a, c))
    {
      StrictStrings(a, b, c);
    }
  }

  lemma {:induction false} StrSeparated(list: seq<string>)
    requires Ordered(StrLess, list) && NoDuplicates(list)
    ensures Increasing(StrLess, list)
  {
    forall i, j | 0 <= i < j < |list| ensures StrLess(list[i], list[j]) {
      StrLessTotal(list[i], list[j]);
    }
  }

  lemma {:induction false} SpecInjective(s1: int, p1: int, s2: int, p2: int)
    requires BoardSpec(s1, p1) == BoardSpec(s2, p2)
    ensures s1 == s2 && p1 == p2
  {
    ItoaChars(s1);
    ItoaChars(s2);
    FirstSeparator(':', Itoa(s1), Itoa(p1), Itoa(s2), Itoa(p2));
    ItoaInjective(s1, s2);
    ItoaInjective(p1, p2);
  }

  lemma {:induction false} SpecChars(slot: int, pons: int)
    ensures BoardSpec(slot, pons) != "" && ',' !in BoardSpec(slot, pons) && '|' !in BoardSpec(slot, pons)
  {
    ItoaChars(slot);
    ItoaChars(pons);
  }

  ghost function SpecsOver(boardPons: map<int, int>, slots: set<int>): set<string>
    requires slots <= boardPons.Keys
  {
    set slot | slot in slots :: BoardSpec(slot, boardPons[slot])
  }

  /** Ranges over the map in no particular order, then sorts: the result does not depend on that order. */
  method OltChangeKey(o: Olt) returns (key: string)
    ensures IsKey(o, key)
  {
    hide BoardSpec, SpecsOver, Format;
    var boards: seq<string> := [];
    var todo := o.boardPons.Keys;
    NoSpecs(o.boardPons);
    while todo != {}
      invariant todo <= o.boardPons.Keys
      invariant forall b :: b in boards <==> b in SpecsOver(o.boardPons, o.boardPons.Keys - todo)
      invariant NoDuplicates(boards)
      decreases todo
    {
      SomeInt(todo);
      var slot :| slot in todo;
      OneMoreSpec(o.boardPons, o.boardPons.Keys - todo, slot);
      assert o.boardPons.Keys - (todo - {slot}) == o.boardPons.Keys - todo + {slot};
      boards := boards + [BoardSpec(slot, o.boardPons[slot])];
      todo := todo - {slot};
    }
    assert o.boardPons.Keys - todo == o.boardPons.Keys;
    StrOrder();
    var sorted := SortSlice(StrLess, boards);
    key := Format(o, sorted);
    SortedKey(o, boards, sorted);
  }

  lemma {:induction false} NoSpecs(boardPons: map<int, int>)
    ensures boardPons.Keys - boardPons.Keys == {} && SpecsOver(boardPons, {}) == {}
  {
  }

  lemma {:induction false} SortedKey(o: Olt, boards: seq<string>, sorted: seq<string>)
    requires NoDuplicates(boards) && forall b :: b in boards <==> b in SpecsOver(o.boardPons, o.boardPons.Keys)
    requires Ordered(StrLess, sorted) && multiset(sorted) == multiset(boards)
    ensures IsKey(o, Format(o, sorted))
  {
    hide Format, BoardSpec;
    NoDuplicatesPermuted(boards, sorted);
    StrSeparated(sorted);
    assert SpecsOver(o.boardPons, o.boardPons.Keys) == BoardSpecs(o.boardPons);
    forall b ensures b in sorted <==> b in BoardSpecs(o.boardPons) {
      assert b in sorted <==> b in multiset(sorted);
      assert b in boards <==> b in multiset(boards);
    }
    assert IsKeyFrom(o, sorted, Format(o, sorted));
  }

  lemma {:induction false} OneMoreSpec(boardPons: map<int, int>, done: set<int>, slot: int)
    requires done <= boardPons.Keys && slot in boardPons && slot !in done
    ensures SpecsOver(boardPons, done + {slot}) == SpecsOver(boardPons, done) + {BoardSpec(slot, boardPons[slot])}
    ensures BoardSpec(slot, boardPons[slot]) !in SpecsOver(boardPons, done)
  {
    hide BoardSpec;
    if BoardSpec(slot, boardPons[slot]) in SpecsOver(boardPons, done) {
      var other :| other in done && BoardSpec(other, boardPons[other]) == BoardSpec(slot, boardPons[slot]);
      SpecInjective(other, boardPons[other], slot, boardPons[slot]);
    }
  }

  lemma {:induction false} SpecsOf(a: map<int, int>, b: map<int, int>)
    requires BoardSpecs(a) <= BoardSpecs(b)
    ensures a.Keys <= b.Keys && forall slot :: slot in a.Keys ==> b[slot] == a[slot]
  {
    forall slot | slot in a.Keys ensures slot in b.Keys && b[slot] == a[slot] {
      assert BoardSpec(slot, a[slot]) in BoardSpecs(a);
      var other :| other in b && BoardSpec(other, b[other]) == BoardSpec(slot, a[slot]);
      SpecInjective(other, b[other], slot, a[slot]);
    }
  }

  /** The joined specs give back the board map. */
  lemma {:induction false} SpecsInjective(a: map<int, int>, b: map<int, int>)
    requires BoardSpecs(a) == BoardSpecs(b)
    ensures a == b
  {
    hide BoardSpecs;
    SpecsOf(a, b);
    SpecsOf(b, a);
    assert a.Keys == b.Keys;
    assert forall slot :: slot in a ==> a[slot] == b[slot];
  }

  ghost predicate Clean(list: seq<string>) {
    forall i :: 0 <= i < |list| ==> list[i] != "" && ',' !in list[i] && '|' !in list[i]
  }

  lemma {:induction false} JoinInjective(a: seq<string>, b: seq<string>)
    requires Clean(a) && Clean(b) && Join(a, ',') == Join(b, ',')
    ensures a == b
  {
    JoinNonEmpty(a);
    JoinNonEmpty(b);
    if a != [] && b != [] {
      SplitJoin(a, ',');
      SplitJoin(b, ',');
    }
  }

  lemma {:induction false} JoinNonEmpty(a: seq<string>)
    requires Clean(a)
    ensures Join(a, ',') == "" <==> a == []
  {
  }

  lemma {:induction false} KeyBoardsClean(o: Olt, boards: seq<string>, key: string)
    requires IsKeyFrom(o, boards, key)
    ensures Clean(boards)
  {
    forall i | 0 <= i < |boards| ensures boards[i] != "" && ',' !in boards[i] && '|' !in boards[i] {
      assert boards[i] in boards;
      var slot :| slot in o.boardPons && BoardSpec(slot, o.boardPons[slot]) == boards[i];
      SpecChars(slot, o.boardPons[slot]);
    }
  }

  lemma {:induction false} BoolChars(b: bool)
    ensures '|' !in Bool(b)
  {
  }

  lemma {:induction false} FormatInjective(a: Olt, x: seq<string>, b: Olt, y: seq<string>)
    requires '|' !in a.host && '|' !in b.host && Clean(x) && Clean(y) && Format(a, x) == Format(b, y)
    ensures a.host == b.host && a.port == b.port && a.community == b.community && a.useWalk == b.useWalk && x == y
  {
    hide Join, Itoa, Bool;
    JoinChars(x, ',', '|');
    JoinChars(y, ',', '|');
    var front1 := a.host + "|" + Itoa(a.port) + "|" + a.community + "|" + Bool(a.useWalk);
    var front2 := b.host + "|" + Itoa(b.port) + "|" + b.community + "|" + Bool(b.useWalk);
    LastSeparator('|', front1, Join(x, ','), front2, Join(y, ','));
    JoinInjective(x, y);
    BoolChars(a.useWalk);
    BoolChars(b.useWalk);
    LastSeparator('|', a.host + "|" + Itoa(a.port) + "|" + a.community, Bool(a.useWalk),
                  b.host + "|" + Itoa(b.port) + "|" + b.community, Bool(b.useWalk));
    SameWalk(a.useWalk, b.useWalk);
    FrontInjective(a, b);
  }

  lemma {:induction false} SameWalk(a: bool, b: bool)
    requires Bool(a) == Bool(b)
    ensures a == b
  {
    assert "true"[0] != "false"[0];
  }

  lemma {:induction false} FrontInjective(a: Olt, b: Olt)
    requires '|' !in a.host && '|' !in b.host
    requires a.host + "|" + Itoa(a.port) + "|" + a.community == b.host + "|" + Itoa(b.port) + "|" + b.community
    ensures a.host == b.host && a.port == b.port && a.community == b.community
  {
    ItoaChars(a.port);
    ItoaChars(b.port);
    hide Itoa;
    var t1, t2 := Itoa(a.port) + "|" + a.community, Itoa(b.port) + "|" + b.community;
    assert a.host + "|" + Itoa(a.port) + "|" + a.community == a.host + "|" + t1;
    assert b.host + "|" + Itoa(b.port) + "|" + b.community == b.host + "|" + t2;
    FirstSeparator('|', a.host, t1, b.host, t2);
    FirstSeparator('|', Itoa(a.port), a.community, Itoa(b.port), b.community);
    ItoaInjective(a.port, b.port);
  }

  /** Main result: for hosts without the separator, two OLTs have the same key exactly when nothing a
      connection depends on differs. Communities may hold anything. */
  lemma {:induction false} KeyInjective(a: Olt, k: string, b: Olt, l: string)
    requires '|' !in a.host && '|' !in b.host && IsKey(a, k) && IsKey(b, l)
    ensures k == l <==> SameConnection(a, b)
  {
    hide Format, BoardSpecs;
    var x :| IsKeyFrom(a, x, k);
    var y :| IsKeyFrom(b, y, l);
    if k == l {
      KeyBoardsClean(a, x, k);
      KeyBoardsClean(b, y, l);
      FormatInjective(a, x, b, y);
      forall s ensures s in BoardSpecs(a.boardPons) <==> s in BoardSpecs(b.boardPons) {
      }
      SpecsInjective(a.boardPons, b.boardPons);
    }
    if SameConnection(a, b) {
      StrOrder();
      IncreasingUnique(StrLess, x, y);
      SameFormat(a, b, x);
    }
  }

  lemma {:induction false} SameFormat(a: Olt, b: Olt, boards: seq<string>)
    requires SameConnection(a, b)
    ensures Format(a, boards) == Format(b, boards)
  {
  }
}
