/** Redis cache keys of one process serving several OLTs from one Redis instance. */
module CacheKeys {
  import opened Text

  /** Everything that gets its own cache entry. */
  datatype Entry =
    | OnuInfo(board: int, pon: int)
    | EmptyOnuID(board: int, pon: int)
    | SerialList(board: int, pon: int)
    | OnuDetail(board: int, pon: int, onu: int)

  function GenerateRedisKey(keyType: string, board: int, pon: int): string {
    if keyType == "empty_onu_id" then "board_" + Itoa(board) + "_pon_" + Itoa(pon) + "_empty_onu_id"
    else "board_" + Itoa(board) + "_pon_" + Itoa(pon)
  }

  function GenerateONUDetailRedisKey(board: int, pon: int, onu: int): string {
    "board_" + Itoa(board) + "_pon_" + Itoa(pon) + "_onu_" + Itoa(onu) + "_detail"
  }

  function SerialListKey(board: int, pon: int): string {
    "board_" + Itoa(board) + "_pon_" + Itoa(pon) + "_serial_list"
  }

  function CacheKey(oltID: string, base: string): string {
    if oltID == "" then base else "olt_" + oltID + "_" + base
  }

  function BaseKey(e: Entry): string {
    match e
    case OnuInfo(b, p) => GenerateRedisKey("onu_info", b, p)
    case EmptyOnuID(b, p) => GenerateRedisKey("empty_onu_id", b, p)
    case SerialList(b, p) => SerialListKey(b, p)
    case OnuDetail(b, p, o) => GenerateONUDetailRedisKey(b, p, o)
  }

  function RedisKey(oltID: string, e: Entry): string {
    CacheKey(oltID, BaseKey(e))
  }

  // The underscore-separated words of a base key after the leading "board".
  function Words(e: Entry): seq<string> {
    [Itoa(e.board), "pon", Itoa(e.pon)]
    + match e
      case OnuInfo(_, _) => []
      case EmptyOnuID(_, _) => ["empty", "onu", "id"]
      case SerialList(_, _) => ["serial", "list"]
      case OnuDetail(_, _, o) => ["onu", Itoa(o), "detail"]
  }

  lemma {:induction false} WordsHaveNoBoard(e: Entry)
    ensures "board" !in Words(e)
    ensures forall w :: w in Words(e) ==> '_' !in w
  {
    ItoaChars(e.board);
    ItoaChars(e.pon);
    assert !IsDigit('_') && !IsDigit('b') && "board"[0] == 'b';
    if e.OnuDetail? {
      ItoaChars(e.onu);
    }
  }

  lemma {:induction false} WordsInjective(e: Entry, f: Entry)
    requires Words(e) == Words(f)
    ensures e == f
  {
    assert Words(e)[0] == Itoa(e.board) && Words(f)[0] == Itoa(f.board);
    assert Words(e)[2] == Itoa(e.pon) && Words(f)[2] == Itoa(f.pon);
    ItoaInjective(e.board, f.board);
    ItoaInjective(e.pon, f.pon);
    assert |Words(e)| == |Words(f)|;
    if !e.OnuInfo? && !e.SerialList? {
      assert Words(e)[3..] == Words(f)[3..];
      assert "empty"[0] != "onu"[0];
      assert Words(e)[3] == Words(f)[3] && Words(e)[4] == Words(f)[4];
      if e.OnuDetail? && f.OnuDetail? {
        ItoaInjective(e.onu, f.onu);
      }
    }
  }

  // A base key from its PON number on, bracketed from the right.
  function TailKey(e: Entry): string {
    match e
    case OnuInfo(_, p) => Itoa(p)
    case EmptyOnuID(_, p) => Glue(Itoa(p), Glue("empty", Glue("onu", "id")))
    case SerialList(_, p) => Glue(Itoa(p), Glue("serial", "list"))
    case OnuDetail(_, p, o) => Glue(Itoa(p), Glue("onu", Glue(Itoa(o), "detail")))
  }

  function Glue(a: string, b: string): string {
    a + ['_'] + b
  }

  lemma {:induction false} SplitTwo(a: string, b: string)
    requires '_' !in a && '_' !in b
    ensures Split(Glue(a, b), '_') == [a, b]
  {
    SplitPrefix(a, b, '_');
    SplitWhole(b, '_');
  }

  lemma {:induction false} SplitThree(a: string, b: string, c: string)
    requires '_' !in a && '_' !in b && '_' !in c
    ensures Split(Glue(a, Glue(b, c)), '_') == [a, b, c]
  {
    SplitPrefix(a, Glue(b, c), '_');
    SplitTwo(b, c);
  }

  lemma {:induction false} SplitFour(a: string, b: string, c: string, d: string)
    requires '_' !in a && '_' !in b && '_' !in c && '_' !in d
    ensures Split(Glue(a, Glue(b, Glue(c, d))), '_') == [a, b, c, d]
  {
    SplitPrefix(a, Glue(b, Glue(c, d)), '_');
    SplitThree(b, c, d);
  }

  lemma {:induction false} NumberHasNoUnderscore(n: int)
    ensures '_' !in Itoa(n)
  {
    ItoaChars(n);
    assert !IsDigit('_');
  }

  lemma {:induction false} TailKeyWords(e: Entry)
    ensures Split(TailKey(e), '_') == Words(e)[2..]
  {
    hide Itoa, Split;
    NumberHasNoUnderscore(e.pon);
    match e
    case OnuInfo(_, p) => SplitWhole(Itoa(p), '_');
    case EmptyOnuID(_, p) =>
      SplitFour(Itoa(p), "empty", "onu", "id");
      assert Words(e)[2..] == [Itoa(p), "empty", "onu", "id"];
    case SerialList(_, p) =>
      SplitThree(Itoa(p), "serial", "list");
      assert Words(e)[2..] == [Itoa(p), "serial", "list"];
    case OnuDetail(_, p, o) =>
      NumberHasNoUnderscore(o);
      SplitFour(Itoa(p), "onu", Itoa(o), "detail");
      assert Words(e)[2..] == [Itoa(p), "onu", Itoa(o), "detail"];
  }

  lemma {:induction false} BaseKeyTail(e: Entry)
    ensures BaseKey(e) == "board_" + Itoa(e.board) + "_pon_" + TailKey(e)
  {
    hide Itoa;
    var head := "board_" + Itoa(e.board) + "_pon_";
    match e
    case OnuInfo(_, _) =>
    case EmptyOnuID(_, p) => EmptyTail(head, Itoa(p));
    case SerialList(_, p) => SerialTail(head, Itoa(p));
    case OnuDetail(_, p, o) => DetailTail(head, Itoa(p), Itoa(o));
  }

  lemma {:induction false} EmptyTail(head: string, p: string)
    ensures head + p + "_empty_onu_id" == head + Glue(p, Glue("empty", Glue("onu", "id")))
  {
    assert Glue("empty", Glue("onu", "id")) == "empty_onu_id";
    Reassociate(head, p, "_empty_onu_id", "empty_onu_id");
  }

  lemma {:induction false} SerialTail(head: string, p: string)
    ensures head + p + "_serial_list" == head + Glue(p, Glue("serial", "list"))
  {
    assert Glue("serial", "list") == "serial_list";
    Reassociate(head, p, "_serial_list", "serial_list");
  }

  lemma {:induction false} DetailTail(head: string, p: string, o: string)
    ensures head + p + "_onu_" + o + "_detail" == head + Glue(p, Glue("onu", Glue(o, "detail")))
  {
    var rest := Glue("onu", Glue(o, "detail"));
    assert "_onu_" + o + "_detail" == ['_'] + rest;
    Reassociate(head, p, "_onu_" + o + "_detail", rest);
    assert head + p + "_onu_" + o + "_detail" == head + p + ("_onu_" + o + "_detail");
  }

  lemma {:induction false} Reassociate(head: string, mid: string, tail: string, rest: string)
    requires tail == ['_'] + rest
    ensures head + mid + tail == head + Glue(mid, rest)
  {
  }

  lemma {:induction false} SplitHead(b: string, t: string)
    requires '_' !in b
    ensures Split("board_" + b + "_pon_" + t, '_') == ["board", b, "pon"] + Split(t, '_')
  {
    assert "board_" + b + "_pon_" + t == Glue("board", Glue(b, Glue("pon", t)));
    SplitPrefix("board", Glue(b, Glue("pon", t)), '_');
    SplitPrefix(b, Glue("pon", t), '_');
    SplitPrefix("pon", t, '_');
  }

  lemma {:induction false} BaseKeyWords(e: Entry)
    ensures Split(BaseKey(e), '_') == ["board"] + Words(e)
  {
    hide Split, Itoa, BaseKey, TailKey;
    NumberHasNoUnderscore(e.board);
    BaseKeyTail(e);
    TailKeyWords(e);
    SplitHead(Itoa(e.board), TailKey(e));
    assert Words(e) == [Itoa(e.board), "pon"] + Words(e)[2..];
  }

  lemma {:induction false} PrefixedKeyWords(oltID: string, e: Entry)
    requires oltID != ""
    ensures Split(RedisKey(oltID, e), '_') == ["olt"] + Split(oltID, '_') + ["board"] + Words(e)
  {
    hide Split, BaseKey, Words;
    var base := BaseKey(e);
    assert RedisKey(oltID, e) == "olt" + ['_'] + (oltID + ['_'] + base);
    SplitPrefix("olt", oltID + ['_'] + base, '_');
    SplitConcat(oltID, base, '_');
    BaseKeyWords(e);
  }

  /** No two (OLT, entry) pairs share a key, whatever the OLT ids are: an id may hold underscores and
      text such as "board_1_pon_2". The empty id is the unprefixed default OLT. */
  lemma {:induction false} KeysNeverCollide(id1: string, e1: Entry, id2: string, e2: Entry)
    requires RedisKey(id1, e1) == RedisKey(id2, e2)
    ensures id1 == id2 && e1 == e2
  {
    KeyShape(id1, e1);
    KeyShape(id2, e2);
    WordsHaveNoBoard(e1);
    WordsHaveNoBoard(e2);
    LastSeparator("board", Prefix(id1), Words(e1), Prefix(id2), Words(e2));
    WordsInjective(e1, e2);
    PrefixInjective(id1, id2);
  }

  function Prefix(oltID: string): seq<string> {
    if oltID == "" then [] else ["olt"] + Split(oltID, '_')
  }

  lemma {:induction false} KeyShape(oltID: string, e: Entry)
    ensures Split(RedisKey(oltID, e), '_') == Prefix(oltID) + ["board"] + Words(e)
  {
    if oltID == "" {
      BaseKeyWords(e);
    } else {
      PrefixedKeyWords(oltID, e);
    }
  }

  lemma {:induction false} PrefixInjective(id1: string, id2: string)
    requires Prefix(id1) == Prefix(id2)
    ensures id1 == id2
  {
    if id1 != "" {
      assert Split(id1, '_') == Prefix(id1)[1..];
      assert Split(id2, '_') == Prefix(id2)[1..];
    }
    JoinSplit(id1, '_');
    JoinSplit(id2, '_');
  }
}
