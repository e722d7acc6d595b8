/** What the source prints to and reads from C++ streams: decimal numbers, words between whitespace, lines.
    A reader takes the text that is left and returns what it read and what is left then; None is a failed read. */
module Text {
  import opened RaftTypes

  /** isspace in the C locale: tab, newline, vertical tab, form feed, carriage return and blank. */
  predicate IsSpace(c: char) {
    9 <= c as int <= 13 || c == ' '
  }

  lemma SpacesAre(c: char)
    ensures IsSpace(c) <==> c in [9 as char, '\n', 11 as char, 12 as char, '\r', ' ']
  {
  }

  predicate IsDigit(c: char) {
    '0' <= c <= '9'
  }

  /** A word: not empty, no whitespace. */
  predicate Clean(w: string) {
    w != "" && forall k :: 0 <= k < |w| ==> !IsSpace(w[k])
  }

  /** The text is over, or goes on with whitespace. */
  predicate Ends(rest: string) {
    rest == "" || IsSpace(rest[0])
  }

  lemma Associative(a: string, b: string, c: string)
    ensures a + (b + c) == a + b + c
  {
  }

  lemma DropFirst(w: string, rest: string)
    requires w != ""
    ensures w + rest != "" && (w + rest)[0] == w[0] && (w + rest)[1..] == w[1..] + rest
  {
  }

  // ----- words -----

  function SkipSpaces(s: string): (r: string)
    ensures |r| <= |s| && (r == "" || !IsSpace(r[0]))
  {
    if s != "" && IsSpace(s[0]) then SkipSpaces(s[1..]) else s
  }

  function TakeWord(s: string): (w: string)
    ensures w <= s && forall k :: 0 <= k < |w| ==> !IsSpace(w[k])
    ensures Ends(s[|w|..])
  {
    if s == "" || IsSpace(s[0]) then "" else [s[0]] + TakeWord(s[1..])
  }

  function ReadWord(s: string): (r: Option<(string, string)>)
    ensures r.Some? ==> Clean(r.value.0) && Ends(r.value.1) && |r.value.1| < |s|
  {
    var t := SkipSpaces(s);
    var w := TakeWord(t);
    if w == "" then None else Some((w, t[|w|..]))
  }

  lemma {:induction false} TakeWordBack(w: string, rest: string)
    requires (forall k :: 0 <= k < |w| ==> !IsSpace(w[k])) && Ends(rest)
    ensures TakeWord(w + rest) == w
  {
    if w == "" {
      assert w + rest == rest;
    } else {
      DropFirst(w, rest);
      TakeWordBack(w[1..], rest);
    }
  }

  /** A word is read back exactly where it was written. */
  lemma ReadWordBack(w: string, rest: string)
    requires Clean(w) && Ends(rest)
    ensures ReadWord(w + rest) == Some((w, rest))
  {
    TakeWordBack(w, rest);
    assert SkipSpaces(w + rest) == w + rest;
    assert (w + rest)[|w|..] == rest;
  }

  lemma ReadWordSkips(c: char, rest: string)
    requires IsSpace(c)
    ensures ReadWord([c] + rest) == ReadWord(rest)
    ensures ReadInt([c] + rest) == ReadInt(rest)
  {
    assert ([c] + rest)[1..] == rest;
  }

  // ----- numbers -----

  function Digit(d: nat): char
    requires d < 10
  {
    "0123456789"[d]
  }

  function DigitValue(c: char): (d: nat)
    requires IsDigit(c)
    ensures d < 10
  {
    c as int - '0' as int
  }

  function PrintNat(n: nat): (s: string)
    ensures s != "" && forall k :: 0 <= k < |s| ==> IsDigit(s[k])
  {
    if n < 10 then [Digit(n)] else PrintNat(n / 10) + [Digit(n % 10)]
  }

  function PrintInt(n: int): string {
    if n < 0 then "-" + PrintNat(-n) else PrintNat(n)
  }

  function TakeDigits(s: string): (d: string)
    ensures d <= s && forall k :: 0 <= k < |d| ==> IsDigit(d[k])
  {
    if s == "" || !IsDigit(s[0]) then "" else [s[0]] + TakeDigits(s[1..])
  }

  function Value(digits: string): nat
    requires forall k :: 0 <= k < |digits| ==> IsDigit(digits[k])
  {
    if digits == "" then 0 else Value(digits[..|digits| - 1]) * 10 + DigitValue(digits[|digits| - 1])
  }

  function ReadNat(s: string): (r: Option<(nat, string)>)
    ensures r.Some? ==> |r.value.1| < |s|
  {
    var d := TakeDigits(s);
    if d == "" then None else Some((Value(d), s[|d|..]))
  }

  function ReadInt(s: string): (r: Option<(int, string)>)
    ensures r.Some? ==> |r.value.1| < |s|
  {
    var t := SkipSpaces(s);
    if t != "" && (t[0] == '-' || t[0] == '+') then
      match ReadNat(t[1..])
      case None => None
      case Some((m, rest)) => Some((if t[0] == '-' then -(m as int) else m, rest))
    else
      match ReadNat(t)
      case None => None
      case Some((m, rest)) => Some((m, rest))
  }

  lemma {:induction false} ValueOfPrint(n: nat)
    ensures Value(PrintNat(n)) == n
  {
    if n >= 10 {
      ValueOfPrint(n / 10);
      assert PrintNat(n)[..|PrintNat(n)| - 1] == PrintNat(n / 10);
    }
  }

  /** Numbers are printed without leading zeros. */
  lemma {:induction false} NoLeadingZero(n: nat)
    ensures PrintNat(n)[0] == '0' <==> n == 0
    ensures PrintNat(0) == "0"
  {
    if n >= 10 {
      NoLeadingZero(n / 10);
    }
  }

  lemma {:induction false} TakeDigitsBack(d: string, rest: string)
    requires forall k :: 0 <= k < |d| ==> IsDigit(d[k])
    requires rest == "" || !IsDigit(rest[0])
    ensures TakeDigits(d + rest) == d
  {
    if d == "" {
      assert d + rest == rest;
    } else {
      DropFirst(d, rest);
      TakeDigitsBack(d[1..], rest);
    }
  }

  lemma ReadNatBack(n: nat, rest: string)
    requires rest == "" || !IsDigit(rest[0])
    ensures ReadNat(PrintNat(n) + rest) == Some((n, rest))
  {
    ValueOfPrint(n);
    TakeDigitsBack(PrintNat(n), rest);
    assert (PrintNat(n) + rest)[|PrintNat(n)|..] == rest;
  }

  lemma ReadMinus(d: string, m: nat, rest: string)
    requires ReadNat(d + rest) == Some((m, rest))
    ensures ReadInt("-" + d + rest) == Some((-(m as int), rest))
  {
    var t := "-" + d + rest;
    assert t == "-" + (d + rest) && t[0] == '-' && t[1..] == d + rest;
  }

  /** A plus sign is read too. */
  lemma ReadPlus(n: nat, rest: string)
    requires rest == "" || !IsDigit(rest[0])
    ensures ReadInt("+" + PrintNat(n) + rest) == Some((n, rest))
  {
    var t := "+" + PrintNat(n) + rest;
    ReadNatBack(n, rest);
    assert t == "+" + (PrintNat(n) + rest) && t[0] == '+' && t[1..] == PrintNat(n) + rest;
  }

  lemma ReadUnsigned(t: string, m: nat, rest: string)
    requires t != "" && IsDigit(t[0]) && ReadNat(t) == Some((m, rest))
    ensures ReadInt(t) == Some((m, rest))
  {
  }

  /** A number is read back exactly where it was printed. */
  lemma ReadIntBack(n: int, rest: string)
    requires rest == "" || !IsDigit(rest[0])
    ensures ReadInt(PrintInt(n) + rest) == Some((n, rest))
  {
    if n < 0 {
      ReadNatBack(-n, rest);
      ReadMinus(PrintNat(-n), -n, rest);
    } else {
      ReadNatBack(n, rest);
      ReadUnsigned(PrintNat(n) + rest, n, rest);
    }
  }

  /** Two numbers on a line of their own. */
  lemma TwoIntsBack(a: int, b: int, rest: string)
    ensures var r := ReadInt(PrintInt(a) + " " + PrintInt(b) + "\n" + rest);
      r.Some? && r.value.0 == a && ReadInt(r.value.1) == Some((b, "\n" + rest))
  {
    var s2 := "\n" + rest;
    var s1 := " " + (PrintInt(b) + s2);
    Regroup(PrintInt(a), PrintInt(b), rest);
    ReadIntBack(a, s1);
    ReadWordSkips(' ', PrintInt(b) + s2);
    ReadIntBack(b, s2);
  }

  lemma Regroup(x: string, y: string, z: string)
    ensures x + " " + y + "\n" + z == x + (" " + (y + ("\n" + z)))
  {
  }

  /** Printed numbers are words. */
  lemma PrintIntClean(n: int)
    ensures Clean(PrintInt(n))
  {
  }

  /** A word if there is one; a failed read leaves the empty string, and so do the reads after it. */
  function Word(s: string): (r: (string, string))
    ensures r.0 == "" ==> r.1 == ""
    ensures r.0 != "" ==> Clean(r.0)
  {
    match ReadWord(s)
    case None => ("", "")
    case Some(r) => r
  }

  /** A number if there is one; a failed read gives 0, and the reads after it fail as well. */
  function Number(s: string): (r: (int, string)) {
    match ReadInt(s)
    case None => (0, "")
    case Some(r) => r
  }

  // ----- pairs of words, one a line -----

  function PairLine(key: string, sep: char, val: string): string {
    key + [sep] + val + "\n"
  }

  datatype Pair = Pair(key: string, val: string)

  predicate CleanPair(p: Pair) {
    Clean(p.key) && Clean(p.val)
  }

  /** The loop "while (in >> key >> val)". */
  function ReadPairs(s: string): (r: seq<Pair>)
    ensures forall k :: 0 <= k < |r| ==> CleanPair(r[k])
    decreases |s|
  {
    match ReadWord(s)
    case None => []
    case Some((key, s1)) =>
      match ReadWord(s1)
      case None => []
      case Some((val, s2)) => [Pair(key, val)] + ReadPairs(s2)
  }

  lemma ReadPairsBack(key: string, sep: char, val: string, rest: string)
    requires Clean(key) && Clean(val) && IsSpace(sep)
    ensures ReadPairs(PairLine(key, sep, val) + rest) == [Pair(key, val)] + ReadPairs(rest)
  {
    var s2 := "\n" + rest;
    var s1 := [sep] + (val + s2);
    assert PairLine(key, sep, val) + rest == key + s1;
    ReadWordBack(key, s1);
    ReadWordSkips(sep, val + s2);
    ReadWordBack(val, s2);
    ReadWordSkips('\n', rest);
  }

  lemma PairsAtEnd()
    ensures ReadPairs("") == []
  {
  }

  // ----- lines -----

  /** std::getline: up to the next newline, which is dropped. */
  function GetLine(s: string): (r: (string, string))
    ensures |r.1| <= |s|
  {
    if s == "" then ("", "")
    else if s[0] == '\n' then ("", s[1..])
    else ([s[0]] + GetLine(s[1..]).0, GetLine(s[1..]).1)
  }

  predicate OneLine(s: string) {
    '\n' !in s
  }

  lemma {:induction false} GetLineBack(line: string, rest: string)
    requires OneLine(line)
    ensures GetLine(line + "\n" + rest) == (line, rest)
  {
    if line == "" {
      assert line + "\n" + rest == "\n" + rest;
    } else {
      GetLineBack(line[1..], rest);
      assert line == [line[0]] + line[1..];
      assert (line + "\n" + rest)[1..] == line[1..] + "\n" + rest;
    }
  }
}
