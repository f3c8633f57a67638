/** Strings as the collector uses them: decimal printing and parsing, splitting and joining on one
    separator, trimming, ASCII case folding and the byte order of Go strings. */
module Text {

  datatype Option<+T> = None | Some(value: T)

  // ----- decimal numbers (strconv.Itoa / strconv.Atoi on a 64-bit int) -----

  const MIN_INT: int := -0x8000_0000_0000_0000
  const MAX_INT: int := 0x7FFF_FFFF_FFFF_FFFF

  predicate IsDigit(c: char) {
    '0' <= c <= '9'
  }

  predicate AllDigits(s: string) {
    forall i :: 0 <= i < |s| ==> IsDigit(s[i])
  }

  function DigitChar(d: nat): (c: char)
    requires d < 10
    ensures IsDigit(c) && c as int - '0' as int == d
  {
    ('0' as int + d) as char
  }

  function Digits(n: nat): (s: string)
    ensures s != "" && AllDigits(s)
  {
    if n < 10 then [DigitChar(n)] else Digits(n / 10) + [DigitChar(n % 10)]
  }

  function Itoa(n: int): string {
    if n < 0 then "-" + Digits(-n) else Digits(n)
  }

  function DigitsValue(s: string): (n: int)
    ensures AllDigits(s) ==> n >= 0
  {
    if s == "" then 0
    else 10 * DigitsValue(s[..|s| - 1]) + (s[|s| - 1] as int - '0' as int)
  }

  function IntValue(s: string): int {
    if s != "" && s[0] == '-' then -DigitsValue(s[1..]) else DigitsValue(s)
  }

  /** Optional sign, then at least one digit, and the result must fit the machine integer. */
  function Atoi(s: string): Option<int> {
    var digits := if s != "" && (s[0] == '-' || s[0] == '+') then s[1..] else s;
    if digits == "" || !AllDigits(digits) then None
    else
      var n := if s[0] == '-' then -DigitsValue(digits) else DigitsValue(digits);
      if MIN_INT <= n <= MAX_INT then Some(n) else None
  }

  lemma {:induction false} DigitsRoundTrip(n: nat)
    ensures DigitsValue(Digits(n)) == n
  {
    if n >= 10 {
      DigitsRoundTrip(n / 10);
      assert Digits(n)[..|Digits(n)| - 1] == Digits(n / 10);
    }
  }

  lemma {:induction false} IntValueItoa(n: int)
    ensures IntValue(Itoa(n)) == n
  {
    DigitsRoundTrip(if n < 0 then -n else n);
    if n < 0 {
      assert Itoa(n)[1..] == Digits(-n);
    } else {
      assert IsDigit(Itoa(n)[0]);
    }
  }

  lemma {:induction false} AtoiItoa(n: int)
    requires MIN_INT <= n <= MAX_INT
    ensures Atoi(Itoa(n)) == Some(n)
  {
    IntValueItoa(n);
    if n < 0 {
      assert Itoa(n)[1..] == Digits(-n);
    } else {
      assert IsDigit(Itoa(n)[0]);
    }
  }

  lemma {:induction false} ItoaInjective(a: int, b: int)
    requires Itoa(a) == Itoa(b)
    ensures a == b
  {
    IntValueItoa(a);
    IntValueItoa(b);
  }

  /** A printed number holds digits and possibly a leading minus sign. */
  lemma {:induction false} ItoaChars(n: int)
    ensures Itoa(n) != ""
    ensures forall c :: c in Itoa(n) ==> IsDigit(c) || c == '-'
  {
  }

  // ----- separators -----

  /** strings.Split on one character: always at least one part. */
  function Split(s: string, sep: char): (parts: seq<string>)
    ensures parts != []
    ensures forall i :: 0 <= i < |parts| ==> sep !in parts[i]
  {
    if s == "" then [""]
    else
      var rest := Split(s[1..], sep);
      if s[0] == sep then [""] + rest else [[s[0]] + rest[0]] + rest[1..]
  }

  function Join(parts: seq<string>, sep: char): string {
    if parts == [] then ""
    else if |parts| == 1 then parts[0]
    else parts[0] + [sep] + Join(parts[1..], sep)
  }

  lemma {:induction false} SplitPrefix(a: string, b: string, sep: char)
    requires sep !in a
    ensures Split(a + [sep] + b, sep) == [a] + Split(b, sep)
  {
    var s := a + [sep] + b;
    if a == "" {
      assert s[1..] == b;
    } else {
      assert s[1..] == a[1..] + [sep] + b;
      SplitPrefix(a[1..], b, sep);
      assert [a[0]] + a[1..] == a;
    }
  }

  lemma {:induction false} SplitConcat(a: string, b: string, sep: char)
    ensures Split(a + [sep] + b, sep) == Split(a, sep) + Split(b, sep)
  {
    var s := a + [sep] + b;
    if a == "" {
      assert s[1..] == b;
    } else {
      assert s[1..] == a[1..] + [sep] + b;
      SplitConcat(a[1..], b, sep);
    }
  }

  lemma {:induction false} JoinSplit(s: string, sep: char)
    ensures Join(Split(s, sep), sep) == s
  {
    if s != "" {
      var rest := Split(s[1..], sep);
      JoinSplit(s[1..], sep);
      assert s == [s[0]] + s[1..];
      assert Split(s, sep)[1..] == if s[0] == sep then rest else rest[1..];
    }
  }

  lemma {:induction false} SplitWhole(a: string, sep: char)
    requires sep !in a
    ensures Split(a, sep) == [a]
  {
    if a != "" {
      SplitWhole(a[1..], sep);
      assert [a[0]] + a[1..] == a;
    }
  }

  /** Splitting undoes joining when no part holds the separator. */
  lemma {:induction false} SplitJoin(parts: seq<string>, sep: char)
    requires parts != []
    requires forall i :: 0 <= i < |parts| ==> sep !in parts[i]
    ensures Split(Join(parts, sep), sep) == parts
  {
    if |parts| == 1 {
      SplitWhole(parts[0], sep);
    } else {
      SplitJoin(parts[1..], sep);
      SplitPrefix(parts[0], Join(parts[1..], sep), sep);
      assert [parts[0]] + parts[1..] == parts;
    }
  }

  lemma {:induction false} JoinChars(parts: seq<string>, sep: char, c: char)
    requires c != sep
    requires forall i :: 0 <= i < |parts| ==> c !in parts[i]
    ensures c !in Join(parts, sep)
  {
    if |parts| > 1 {
      JoinChars(parts[1..], sep, c);
    }
  }

  /** Two strings cut at their first separator agree piece by piece. */
  lemma {:induction false} FirstSeparator(sep: char, a1: string, b1: string, a2: string, b2: string)
    requires sep !in a1 && sep !in a2
    requires a1 + [sep] + b1 == a2 + [sep] + b2
    ensures a1 == a2 && b1 == b2
  {
    SplitPrefix(a1, b1, sep);
    SplitPrefix(a2, b2, sep);
    assert a1 == a2 by {
      assert Split(a1 + [sep] + b1, sep)[0] == a1;
    }
    assert b1 == (a1 + [sep] + b1)[|a1| + 1..];
    assert b2 == (a2 + [sep] + b2)[|a2| + 1..];
  }

  /** What follows the last separator. */
  function AfterLast<T(==)>(s: seq<T>, sep: T): seq<T> {
    if s == [] || s[|s| - 1] == sep then [] else AfterLast(s[..|s| - 1], sep) + [s[|s| - 1]]
  }

  lemma {:induction false} AfterLastOf<T>(a: seq<T>, b: seq<T>, sep: T)
    requires sep !in b
    ensures AfterLast(a + [sep] + b, sep) == b
  {
    if b != [] {
      var s := a + [sep] + b;
      assert s[..|s| - 1] == a + [sep] + b[..|b| - 1];
      AfterLastOf(a, b[..|b| - 1], sep);
      assert b == b[..|b| - 1] + [b[|b| - 1]];
    }
  }

  /** Two sequences cut at their last separator agree piece by piece. */
  lemma {:induction false} LastSeparator<T>(sep: T, a1: seq<T>, b1: seq<T>, a2: seq<T>, b2: seq<T>)
    requires sep !in b1 && sep !in b2
    requires a1 + [sep] + b1 == a2 + [sep] + b2
    ensures a1 == a2 && b1 == b2
  {
    AfterLastOf(a1, b1, sep);
    AfterLastOf(a2, b2, sep);
    assert a1 == (a1 + [sep] + b1)[..|a1|];
    assert a2 == (a2 + [sep] + b2)[..|a2|];
  }

  // ----- trimming and case -----

  /** unicode.IsSpace. */
  predicate IsSpace(c: char) {
    var n := c as int;
    9 <= n <= 13 || n == 32 || n == 0x85 || n == 0xA0 || n == 0x1680 || 0x2000 <= n <= 0x200A
    || n == 0x2028 || n == 0x2029 || n == 0x202F || n == 0x205F || n == 0x3000
  }

  function TrimLeft(s: string): string {
    if s != "" && IsSpace(s[0]) then TrimLeft(s[1..]) else s
  }

  function TrimRight(s: string): string {
    if s != "" && IsSpace(s[|s| - 1]) then TrimRight(s[..|s| - 1]) else s
  }

  function TrimSpace(s: string): string {
    TrimRight(TrimLeft(s))
  }

  predicate Blank(s: string) {
    TrimSpace(s) == ""
  }

  function LowerChar(c: char): char {
    if 'A' <= c <= 'Z' then (c as int + 32) as char else c
  }

  function UpperChar(c: char): char {
    if 'a' <= c <= 'z' then (c as int - 32) as char else c
  }

  function Lower(s: string): string {
    if s == "" then "" else [LowerChar(s[0])] + Lower(s[1..])
  }

  /** strings.EqualFold, with the case fold restricted to ASCII letters. */
  predicate EqualFold(a: string, b: string) {
    Lower(a) == Lower(b)
  }

  predicate Contains(s: string, sub: string) {
    sub <= s || (s != "" && Contains(s[1..], sub))
  }

  // ----- order -----

  /** Go's `<` on strings. */
  predicate StrLess(a: string, b: string) {
    b != "" && (a == "" || a[0] < b[0] || (a[0] == b[0] && StrLess(a[1..], b[1..])))
  }

  lemma {:induction false} StrLessIrreflexive(a: string)
    ensures !StrLess(a, a)
  {
    if a != "" {
      StrLessIrreflexive(a[1..]);
    }
  }

  lemma {:induction false} StrLessTransitive(a: string, b: string, c: string)
    requires StrLess(a, b) && StrLess(b, c)
    ensures StrLess(a, c)
  {
    if a != "" && a[0] == b[0] && b[0] == c[0] {
      StrLessTransitive(a[1..], b[1..], c[1..]);
    }
  }

  lemma {:induction false} StrLessTotal(a: string, b: string)
    requires a != b
    ensures StrLess(a, b) || StrLess(b, a)
  {
    if a != "" && b != "" && a[0] == b[0] {
      assert a == [a[0]] + a[1..] && b == [b[0]] + b[1..];
      StrLessTotal(a[1..], b[1..]);
    }
  }

  lemma {:induction false} StrictStrings(a: string, b: string, c: string)
    ensures !StrLess(a, a)
    ensures a != b ==> (StrLess(a, b) <==> !StrLess(b, a))
    ensures b != c ==> (StrLess(b, c) <==> !StrLess(c, b))
    ensures a != c ==> (StrLess(a, c) <==> !StrLess(c, a))
    ensures StrLess(a, b) && StrLess(b, c) ==> StrLess(a, c)
    ensures !StrLess(a, b) && !StrLess(b, c) ==> !StrLess(a, c)
  {
    StrLessIrreflexive(a);
    StrLessPair(a, b);
    StrLessPair(b, c);
    StrLessPair(a, c);
    if StrLess(a, b) && StrLess(b, c) {
      StrLessTransitive(a, b, c);
    }
    if StrLess(c, b) && StrLess(b, a) {
      StrLessTransitive(c, b, a);
    }
  }

  lemma {:induction false} StrLessPair(a: string, b: string)
    ensures a != b ==> (StrLess(a, b) <==> !StrLess(b, a))
  {
    if a != b {
      StrLessTotal(a, b);
      if StrLess(a, b) && StrLess(b, a) {
        StrLessTransitive(a, b, a);
        StrLessIrreflexive(a);
      }
    }
  }

  // ----- what the functions mean -----

  /** The strings agree up to a place where the first ends or has the smaller character. */
  predicate SmallerAt(a: string, b: string, k: int) {
    0 <= k <= |a| && k < |b| && a[..k] == b[..k] && (k == |a| || a[k] < b[k])
  }

  lemma {:induction false} SmallerStart(a: string, b: string, k: int)
    requires SmallerAt(a, b, k)
    ensures b != "" && (k > 0 ==> a != "" && a[0] == b[0] && SmallerAt(a[1..], b[1..], k - 1))
    ensures k == 0 ==> a == "" || a[0] < b[0]
  {
    if k > 0 {
      assert a[..k][0] == b[..k][0];
      assert a[1..][..k - 1] == a[..k][1..] && b[1..][..k - 1] == b[..k][1..];
    }
  }

  lemma {:induction false} StrLessMeans(a: string, b: string)
    ensures StrLess(a, b) <==> exists k :: SmallerAt(a, b, k)
  {
    if a != "" && b != "" {
      StrLessMeans(a[1..], b[1..]);
    }
    if k :| SmallerAt(a, b, k) {
      SmallerStart(a, b, k);
    }
    if StrLess(a, b) {
      if a == "" || a[0] < b[0] {
        assert SmallerAt(a, b, 0);
      } else {
        var k :| SmallerAt(a[1..], b[1..], k);
        assert a[..k + 1] == [a[0]] + a[1..][..k] && b[..k + 1] == [b[0]] + b[1..][..k];
        assert SmallerAt(a, b, k + 1);
      }
    }
  }

  /** The part of a string between its blanks at either end. */
  ghost predicate Trimmed(s: string, i: int, j: int) {
    && 0 <= i <= j <= |s|
    && (forall k :: 0 <= k < i ==> IsSpace(s[k])) && (forall k :: j <= k < |s| ==> IsSpace(s[k]))
    && (i < j ==> !IsSpace(s[i]) && !IsSpace(s[j - 1]))
  }

  /** The blanks at the start end at a place. */
  ghost predicate BlankUpTo(s: string, i: int) {
    0 <= i <= |s| && (forall k :: 0 <= k < i ==> IsSpace(s[k])) && (i < |s| ==> !IsSpace(s[i]))
  }

  ghost predicate BlankFrom(s: string, j: int) {
    0 <= j <= |s| && (forall k :: j <= k < |s| ==> IsSpace(s[k])) && (j > 0 ==> !IsSpace(s[j - 1]))
  }

  lemma {:induction false} TrimLeftMeans(s: string) returns (i: int)
    ensures BlankUpTo(s, i) && TrimLeft(s) == s[i..]
  {
    hide IsSpace;
    if s != "" && IsSpace(s[0]) {
      var rest := s[1..];
      var r := TrimLeftMeans(rest);
      i := r + 1;
      assert rest[r..] == s[i..];
      forall k | 0 <= k < i ensures IsSpace(s[k]) {
        assert k > 0 ==> rest[k - 1] == s[k];
      }
    } else {
      i := 0;
      assert s[0..] == s;
    }
  }

  lemma {:induction false} TrimRightMeans(s: string) returns (j: int)
    ensures BlankFrom(s, j) && TrimRight(s) == s[..j]
  {
    hide IsSpace;
    if s != "" && IsSpace(s[|s| - 1]) {
      var front := s[..|s| - 1];
      j := TrimRightMeans(front);
      assert front[..j] == s[..j];
    } else {
      j := |s|;
      assert s[..|s|] == s;
    }
  }

  lemma {:induction false} TrimSpaceMeans(s: string)
    ensures exists i, j :: Trimmed(s, i, j) && TrimSpace(s) == s[i..j]
  {
    hide IsSpace, TrimLeft, TrimRight;
    var i := TrimLeftMeans(s);
    var rest := s[i..];
    var j := TrimRightMeans(rest);
    TrimmedBoth(s, i, j);
    assert rest[..j] == s[i..i + j];
  }

  lemma {:induction false} TrimmedBoth(s: string, i: int, j: int)
    requires BlankUpTo(s, i) && BlankFrom(s[i..], j)
    ensures Trimmed(s, i, i + j)
  {
    hide IsSpace;
    var rest := s[i..];
    forall k | i + j <= k < |s| ensures IsSpace(s[k]) {
      assert rest[k - i] == s[k];
    }
  }

  /** unicode.IsSpace: the Latin-1 blanks one by one, and the space characters beyond. */
  lemma {:induction false} BlankCharacters(c: char)
    ensures (c as int) < 256 ==> (IsSpace(c) <==> c in " \t\n\r\U{000B}\U{000C}\U{0085}\U{00A0}")
    ensures (c as int) >= 256 ==>
              (IsSpace(c) <==>
               || c in "\U{1680}\U{2000}\U{2001}\U{2002}\U{2003}\U{2004}\U{2005}\U{2006}\U{2007}\U{2008}"
               || c in "\U{2009}\U{200A}\U{2028}\U{2029}\U{202F}\U{205F}\U{3000}")
  {
  }

  /** Lower case moves the letters A to Z by 32 and leaves everything else; upper case undoes it. */
  lemma {:induction false} LetterCase(c: char)
    ensures 'A' <= c && c <= 'Z' ==> LowerChar(c) as int == c as int + 32 && UpperChar(LowerChar(c)) == c
    ensures c < 'A' || 'Z' < c ==> LowerChar(c) == c
    ensures c < 'a' || 'z' < c ==> UpperChar(c) == c
  {
  }

  lemma {:induction false} LowerMeans(s: string, i: nat)
    requires i < |s|
    ensures |Lower(s)| == |s| && Lower(s)[i] == LowerChar(s[i])
  {
    hide LowerChar;
    if |s| > 1 {
      LowerMeans(s[1..], if i > 0 then i - 1 else 0);
    }
  }

  predicate FoundAt(s: string, sub: string, i: int) {
    0 <= i && i + |sub| <= |s| && s[i..i + |sub|] == sub
  }

  lemma {:induction false} ContainsMeans(s: string, sub: string)
    ensures Contains(s, sub) <==> exists i :: FoundAt(s, sub, i)
  {
    if s != "" {
      ContainsMeans(s[1..], sub);
    }
    if sub <= s {
      assert FoundAt(s, sub, 0);
    } else {
      if i :| s != "" && FoundAt(s[1..], sub, i) {
        assert s[i + 1..i + 1 + |sub|] == s[1..][i..i + |sub|];
        assert FoundAt(s, sub, i + 1);
      }
      if i :| FoundAt(s, sub, i) {
        NotAtStart(s, sub, i);
        assert s[1..][i - 1..i - 1 + |sub|] == s[i..i + |sub|];
        assert FoundAt(s[1..], sub, i - 1);
      }
    }
  }

  lemma {:induction false} NotAtStart(s: string, sub: string, i: int)
    requires FoundAt(s, sub, i) && !(sub <= s)
    ensures i > 0
  {
  }

  /** strconv.Atoi at the edges: a sign needs a digit, nothing else may follow, and the number must fit. */
  lemma {:induction false} AtoiSigned(n: int)
    requires 0 <= n <= MAX_INT
    ensures Atoi("+" + Itoa(n)) == Some(n) && Atoi("-" + Itoa(n)) == Some(-n)
  {
    DigitsRoundTrip(n);
    assert ("+" + Itoa(n))[1..] == Itoa(n) && ("-" + Itoa(n))[1..] == Itoa(n);
    hide Digits, DigitsValue;
  }

  lemma {:induction false} AtoiRejects()
    ensures Atoi("") == None && Atoi("-") == None && Atoi("+") == None && Atoi("7 ") == None && Atoi("0x7") == None
  {
    hide DigitsValue;
    assert "-"[1..] == "" && "+"[1..] == "";
    assert !IsDigit("7 "[1]) && !IsDigit("0x7"[1]);
  }

  lemma {:induction false} AtoiOverflow(n: int)
    requires n > MAX_INT
    ensures Atoi(Itoa(n)) == None
  {
    DigitsRoundTrip(n);
    assert IsDigit(Itoa(n)[0]);
    hide Digits, DigitsValue;
  }
}
