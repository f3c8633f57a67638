/** OID suffixes: printing and parsing the dotted index of a table row, and the PON ifIndex. */
module Oid {
  import opened Text

  const ONU_ID_IF_INDEX_BASE := 285278208
  const ONU_ID_SLOT_STRIDE := 256
  const ONU_ID_INCREMENT := 1
  const MAX_BOARD_ID := 30
  const MAX_PON_ID := 16

  function PonIfIndex(board: int, pon: int): int {
    ONU_ID_IF_INDEX_BASE + board * ONU_ID_SLOT_STRIDE + pon * ONU_ID_INCREMENT
  }

  /** Go's `/` and `%` act on a non-negative remainder here, so they are Dafny's. */
  function DecodeOnuIDIfIndex(idx: int): Option<(int, int)> {
    if idx < ONU_ID_IF_INDEX_BASE then None
    else
      var rest := idx - ONU_ID_IF_INDEX_BASE;
      var board := rest / ONU_ID_SLOT_STRIDE;
      var pon := (rest % ONU_ID_SLOT_STRIDE) / ONU_ID_INCREMENT;
      if board < 1 || board > MAX_BOARD_ID || pon < 1 || pon > MAX_PON_ID then None
      else Some((board, pon))
  }

  /** Decoding succeeds exactly on the encodings of real slot and PON numbers, and inverts them. */
  lemma {:induction false} DecodeInvertsEncode(idx: int, board: int, pon: int)
    ensures DecodeOnuIDIfIndex(idx) == Some((board, pon)) <==>
            idx == PonIfIndex(board, pon) && 1 <= board <= MAX_BOARD_ID && 1 <= pon <= MAX_PON_ID
  {
    if idx == PonIfIndex(board, pon) && 1 <= board <= MAX_BOARD_ID && 1 <= pon <= MAX_PON_ID {
      var rest := idx - ONU_ID_IF_INDEX_BASE;
      assert rest == board * 256 + pon;
      assert rest / 256 == board && rest % 256 == pon;
    }
  }

  function Itoas(list: seq<int>): (parts: seq<string>)
    ensures |parts| == |list|
    ensures forall i :: 0 <= i < |list| ==> parts[i] == Itoa(list[i])
  {
    if list == [] then [] else [Itoa(list[0])] + Itoas(list[1..])
  }

  function JoinSuffixSpec(list: seq<int>): string {
    Join(Itoas(list), '.')
  }

  method JoinSuffix(parts: seq<int>) returns (b: string)
    ensures b == JoinSuffixSpec(parts)
  {
    hide Itoa, JoinSuffixSpec;
    NoParts();
    b := "";
    if |parts| == 0 {
      return;
    }
    for i := 0 to |parts|
      invariant b == JoinSuffixSpec(parts[..i])
    {
      if i > 0 {
        b := b + ".";
      }
      b := b + Itoa(parts[i]);
      assert parts[..i + 1] == parts[..i] + [parts[i]];
      SuffixAppend(parts[..i], parts[i]);
    }
    assert parts[..|parts|] == parts;
  }

  lemma {:induction false} NoParts()
    ensures JoinSuffixSpec([]) == ""
  {
  }

  lemma {:induction false} SuffixAppend(list: seq<int>, n: int)
    ensures JoinSuffixSpec(list + [n]) ==
            if list == [] then Itoa(n) else JoinSuffixSpec(list) + "." + Itoa(n)
  {
    if list == [] {
      assert Itoas([n]) == [Itoa(n)];
    } else {
      assert (list + [n])[1..] == list[1..] + [n];
      SuffixAppend(list[1..], n);
      assert Itoas(list + [n])[1..] == Itoas(list[1..] + [n]);
      assert Itoas(list)[1..] == Itoas(list[1..]);
    }
  }

  function TrimDot(s: string): string {
    if "." <= s then s[1..] else s
  }

  /** All parts parsed, or None as soon as one is not a machine integer. */
  function AtoiAll(parts: seq<string>): Option<seq<int>> {
    if parts == [] then Some([])
    else
      match Atoi(parts[0])
      case None => None
      case Some(n) =>
        match AtoiAll(parts[1..])
        case None => None
        case Some(rest) => Some([n] + rest)
  }

  function Prepend(front: seq<int>, r: Option<seq<int>>): Option<seq<int>> {
    if r.None? then None else Some(front + r.value)
  }

  /** None stands for the nil slice the parser returns on any mismatch. */
  function ParseSuffix(name: string, root: string): Option<seq<int>> {
    var trimmed := TrimDot(name);
    var expected := TrimDot(root) + ".";
    if !(expected <= trimmed) then None
    else
      var rest := trimmed[|expected|..];
      if rest == "" then None else AtoiAll(Split(rest, '.'))
  }

  lemma {:induction false} AtoiStep(out: seq<int>, parts: seq<string>, i: nat)
    requires i < |parts|
    ensures Atoi(parts[i]).None? ==> AtoiAll(parts[i..]) == None
    ensures Atoi(parts[i]).Some? ==>
              Prepend(out, AtoiAll(parts[i..])) == Prepend(out + [Atoi(parts[i]).value], AtoiAll(parts[i + 1..]))
  {
    hide Atoi;
    assert parts[i..][1..] == parts[i + 1..];
    var tail := AtoiAll(parts[i + 1..]);
    if Atoi(parts[i]).Some? && tail.Some? {
      assert out + [Atoi(parts[i]).value] + tail.value == out + ([Atoi(parts[i]).value] + tail.value);
    }
  }

  lemma {:induction false} AtoiEnds(out: seq<int>, parts: seq<string>)
    ensures Prepend([], AtoiAll(parts)) == AtoiAll(parts)
    ensures Prepend(out, AtoiAll([])) == Some(out)
  {
    if AtoiAll(parts).Some? {
      assert [] + AtoiAll(parts).value == AtoiAll(parts).value;
    }
    assert out + [] == out;
  }

  /** The loop over the parts. */
  method ParseParts(parts: seq<string>) returns (r: Option<seq<int>>)
    ensures r == AtoiAll(parts)
  {
    hide Atoi, AtoiAll, Prepend;
    var out: seq<int> := [];
    AtoiEnds([], parts);
    assert parts[0..] == parts;
    for i := 0 to |parts|
      invariant AtoiAll(parts) == Prepend(out, AtoiAll(parts[i..]))
    {
      AtoiStep(out, parts, i);
      match Atoi(parts[i])
      case None =>
        NothingPrepended(out, AtoiAll(parts[i..]));
        return None;
      case Some(n) => out := out + [n];
    }
    assert parts[|parts|..] == [];
    AtoiEnds(out, []);
    r := Some(out);
  }

  lemma {:induction false} NothingPrepended(out: seq<int>, rest: Option<seq<int>>)
    requires rest.None?
    ensures Prepend(out, rest).None?
  {
  }

  method ParseEthernetSuffix(name: string, root: string) returns (r: Option<seq<int>>)
    ensures r == ParseSuffix(name, root)
  {
    var trimmed := TrimDot(name);
    var expected := TrimDot(root) + ".";
    if !(expected <= trimmed) {
      return None;
    }
    var rest := trimmed[|expected|..];
    if rest == "" {
      return None;
    }
    var parts := Split(rest, '.');
    r := ParseParts(parts);
  }

  predicate MachineInts(list: seq<int>) {
    forall i :: 0 <= i < |list| ==> MIN_INT <= list[i] <= MAX_INT
  }

  lemma {:induction false} AtoiItoas(list: seq<int>)
    requires MachineInts(list)
    ensures AtoiAll(Itoas(list)) == Some(list)
  {
    if list != [] {
      AtoiItoa(list[0]);
      AtoiItoas(list[1..]);
      assert Itoas(list)[1..] == Itoas(list[1..]);
      assert [list[0]] + list[1..] == list;
    }
  }

  lemma {:induction false} SplitSuffix(list: seq<int>)
    requires list != []
    ensures JoinSuffixSpec(list) != ""
    ensures JoinSuffixSpec(list)[0] != '.'
    ensures Split(JoinSuffixSpec(list), '.') == Itoas(list)
  {
    forall i | 0 <= i < |list| ensures '.' !in Itoas(list)[i] {
      ItoaChars(list[i]);
    }
    ItoaChars(list[0]);
    assert !IsDigit('.');
    assert Itoa(list[0])[0] in Itoa(list[0]);
    SplitJoin(Itoas(list), '.');
  }

  /** A root as written in the configuration: it names something and has no leading dot. */
  predicate Undotted(root: string) {
    root != "" && root[0] != '.'
  }

  lemma {:induction false} TrimDotOf(dot: bool, s: string)
    requires Undotted(s)
    ensures TrimDot((if dot then "." else "") + s) == s
  {
    if dot {
      assert ("." + s)[1..] == s;
    } else {
      assert "" + s == s && !("." <= s);
    }
  }

  /** The parser undoes the printer. Root and name may each carry a leading dot or not. */
  lemma {:induction false} SuffixRoundTrip(root: string, list: seq<int>, dotRoot: bool, dotName: bool)
    requires Undotted(root) && list != [] && MachineInts(list)
    ensures ParseSuffix((if dotName then "." else "") + root + "." + JoinSuffixSpec(list),
                        (if dotRoot then "." else "") + root) == Some(list)
  {
    var r := (if dotRoot then "." else "") + root;
    var name := (if dotName then "." else "") + root + "." + JoinSuffixSpec(list);
    TrimDotOf(dotRoot, root);
    TrimDotOf(dotName, root + "." + JoinSuffixSpec(list));
    assert name == (if dotName then "." else "") + (root + "." + JoinSuffixSpec(list));
    assert TrimDot(name)[|root + "."|..] == JoinSuffixSpec(list);
    SplitSuffix(list);
    AtoiItoas(list);
  }

  /** Over all roots without a leading dot, printing under the root and parsing against it gives the
      list back exactly when the root is not empty: an empty root loses its only dot to the trim. */
  lemma {:induction false} PlainRoundTripIff(root: string, list: seq<int>)
    requires root == "" || root[0] != '.'
    requires list != [] && MachineInts(list)
    ensures ParseSuffix(root + "." + JoinSuffixSpec(list), root) == Some(list) <==> root != ""
  {
    hide AtoiAll, JoinSuffixSpec, Split;
    if root != "" {
      SuffixRoundTrip(root, list, false, false);
      assert "" + root + "." + JoinSuffixSpec(list) == root + "." + JoinSuffixSpec(list);
      assert "" + root == root;
    } else {
      SplitSuffix(list);
      assert TrimDot("" + "." + JoinSuffixSpec(list)) == JoinSuffixSpec(list);
    }
  }

  /** A name whose next character after the root is not the dot is rejected: .6 is not above .60. */
  lemma {:induction false} DigitPrefixIsNotSubtree(root: string, next: char, rest: string, dotRoot: bool, dotName: bool)
    requires Undotted(root) && next != '.'
    ensures ParseSuffix((if dotName then "." else "") + root + [next] + rest,
                        (if dotRoot then "." else "") + root) == None
  {
    var r := (if dotRoot then "." else "") + root;
    var name := (if dotName then "." else "") + root + [next] + rest;
    TrimDotOf(dotRoot, root);
    TrimDotOf(dotName, root + [next] + rest);
    assert name == (if dotName then "." else "") + (root + [next] + rest);
    assert (root + ".")[|root|] == '.' && TrimDot(name)[|root|] == next;
  }
}
