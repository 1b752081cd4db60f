/**
 * The QString operations the model relies on: decimal digits both ways (QString::arg and
 * QString::toInt), split on a separator character, splitting into words, and trimming.
 */
module Text {
  predicate IsDigits(s: string) {
    forall i :: 0 <= i < |s| ==> '0' <= s[i] <= '9'
  }

  function DigitChar(d: int): (c: char)
    requires 0 <= d < 10
    ensures '0' <= c <= '9' && c as int - '0' as int == d
  {
    ('0' as int + d) as char
  }

  /** QString::arg / QString::number of a non-negative int: its decimal digits, most significant first. */
  function Decimal(n: nat): (s: string)
    ensures |s| >= 1 && IsDigits(s)
  {
    if n < 10 then [DigitChar(n)] else Decimal(n / 10) + [DigitChar(n % 10)]
  }

  /** The value of a string of decimal digits. */
  function ValueOf(s: string): (v: nat)
    requires IsDigits(s)
  {
    if |s| == 0 then 0 else ValueOf(s[..|s| - 1]) * 10 + (s[|s| - 1] as int - '0' as int)
  }

  /** Reading the digits back gives the number. */
  lemma {:induction false} DecimalRoundTrip(n: nat)
    ensures ValueOf(Decimal(n)) == n
  {
    if n >= 10 {
      var s := Decimal(n);
      assert s[..|s| - 1] == Decimal(n / 10);
      DecimalRoundTrip(n / 10);
    }
  }

  const IntMax: int := 0x7fff_ffff
  const IntMin: int := -0x8000_0000

  /**
   * QString::toInt in base 10: an optional sign followed by at least one digit whose value fits
   * a 32-bit int; anything else, an overflow included, gives 0.
   */
  function ToInt(s: string): (v: int)
    ensures IntMin <= v <= IntMax
    ensures IsDigits(s) && |s| > 0 && ValueOf(s) <= IntMax ==> v == ValueOf(s)
    ensures IsDigits(s) && |s| > 0 && ValueOf(s) > IntMax ==> v == 0
    ensures |s| > 1 && (s[0] == '-' || s[0] == '+') && IsDigits(s[1..]) ==>
      var x: int := if s[0] == '-' then 0 - ValueOf(s[1..]) else ValueOf(s[1..]);
      v == (if IntMin <= x <= IntMax then x else 0)
    ensures |s| == 0 || (!IsDigits(s) && s[0] != '-' && s[0] != '+') ==> v == 0
    ensures |s| > 0 && (s[0] == '-' || s[0] == '+') && (|s| == 1 || !IsDigits(s[1..])) ==> v == 0
  {
    if |s| == 0 then 0
    else
      var negative := s[0] == '-';
      var digits := if s[0] == '-' || s[0] == '+' then s[1..] else s;
      if |digits| == 0 || !IsDigits(digits) then 0
      else
        var value: int := if negative then 0 - ValueOf(digits) as int else ValueOf(digits);
        if IntMin <= value <= IntMax then value else 0
  }

  /** toInt reads back what number() writes, for every non-negative int. */
  lemma ToIntOfDecimal(n: nat)
    requires n <= IntMax
    ensures ToInt(Decimal(n)) == n
  {
    DecimalRoundTrip(n);
  }

  /**
   * toInt reads a signed number() back: "-n" down to the least int and "+n" up to the greatest,
   * so a face field "-1" reads as -1.
   */
  lemma ToIntOfSignedDecimal(n: nat)
    ensures n <= -IntMin ==> ToInt(['-'] + Decimal(n)) == 0 - n as int
    ensures n <= IntMax ==> ToInt(['+'] + Decimal(n)) == n
    ensures n > -IntMin ==> ToInt(['-'] + Decimal(n)) == 0
  {
    DecimalRoundTrip(n);
    assert (['-'] + Decimal(n))[1..] == Decimal(n);
    assert (['+'] + Decimal(n))[1..] == Decimal(n);
  }

  /** QString::split(c) keeping empty parts: the pieces between the separators, at least one. */
  function Split(s: string, c: char): (r: seq<string>)
    ensures |r| >= 1
    ensures forall i :: 0 <= i < |r| ==> c !in r[i]
    ensures |s| > 0 && s[0] != c ==> |r[0]| > 0 && r[0][0] == s[0]
  {
    if |s| == 0 then [""]
    else
      var rest := Split(s[1..], c);
      if s[0] == c then [""] + rest else [[s[0]] + rest[0]] + rest[1..]
  }

  /** QStringList::join(c): the pieces with the separator between each two. */
  function Join(parts: seq<string>, c: char): string
    requires |parts| >= 1
  {
    if |parts| == 1 then parts[0] else parts[0] + [c] + Join(parts[1..], c)
  }

  /** An empty first piece joins to a leading separator. */
  lemma JoinEmptyFirst(rest: seq<string>, c: char)
    requires |rest| >= 1
    ensures Join([""] + rest, c) == [c] + Join(rest, c)
  {
    assert ([""] + rest)[1..] == rest;
  }

  /** A character put in front of the first piece comes first in the join. */
  lemma JoinConsFirst(x: char, rest: seq<string>, c: char)
    requires |rest| >= 1
    ensures Join([[x] + rest[0]] + rest[1..], c) == [x] + Join(rest, c)
  {
    var r := [[x] + rest[0]] + rest[1..];
    if |rest| == 1 {
      assert r == [[x] + rest[0]];
    } else {
      assert r[1..] == rest[1..];
      assert Join(r, c) == [x] + (rest[0] + [c] + Join(rest[1..], c));
    }
  }

  /** Joining the pieces of a split with the same separator gives the string back. */
  lemma {:induction false} JoinSplit(s: string, c: char)
    ensures Join(Split(s, c), c) == s
  {
    if |s| > 0 {
      var rest := Split(s[1..], c);
      JoinSplit(s[1..], c);
      if s[0] == c {
        JoinEmptyFirst(rest, c);
      } else {
        JoinConsFirst(s[0], rest, c);
      }
      assert s == [s[0]] + s[1..];
    }
  }

  /** The parts that are not empty, in order. */
  function NonEmpty(parts: seq<string>): (r: seq<string>)
    ensures forall i :: 0 <= i < |r| ==> r[i] != "" && r[i] in parts
    ensures |parts| > 0 && parts[0] != "" ==> |r| > 0 && r[0] == parts[0]
  {
    if |parts| == 0 then []
    else if parts[0] == "" then NonEmpty(parts[1..])
    else [parts[0]] + NonEmpty(parts[1..])
  }

  /** QString::split(' ', QString::SkipEmptyParts): the words between spaces, none empty. */
  function Words(s: string): (r: seq<string>)
    ensures forall i :: 0 <= i < |r| ==> r[i] != "" && ' ' !in r[i]
    ensures |s| > 0 && s[0] != ' ' ==> |r| > 0 && r[0][0] == s[0]
  {
    NonEmpty(Split(s, ' '))
  }

  /** The ASCII characters QString::trimmed removes: space, tab, line feed, carriage return, vertical tab, form feed. */
  predicate IsSpace(c: char) {
    c == ' ' || c == '\t' || c == '\n' || c == '\r' || c == '\U{0B}' || c == '\U{0C}'
  }

  function TrimLeft(s: string): (r: string)
    ensures |r| <= |s| && r == s[|s| - |r|..]
    ensures |r| > 0 ==> !IsSpace(r[0])
    ensures forall i :: 0 <= i < |s| - |r| ==> IsSpace(s[i])
  {
    if |s| > 0 && IsSpace(s[0]) then TrimLeft(s[1..]) else s
  }

  function TrimRight(s: string): (r: string)
    ensures |r| <= |s| && r == s[..|r|]
    ensures |r| > 0 ==> !IsSpace(r[|r| - 1])
    ensures forall i :: |r| <= i < |s| ==> IsSpace(s[i])
  {
    if |s| > 0 && IsSpace(s[|s| - 1]) then TrimRight(s[..|s| - 1]) else s
  }

  /** QString::trimmed: the string without white space at either end. */
  function Trim(s: string): (r: string)
    ensures |r| > 0 ==> !IsSpace(r[0]) && !IsSpace(r[|r| - 1])
    ensures |r| <= |s| - Lead(s) && r == s[Lead(s)..Lead(s) + |r|]
    ensures forall i :: 0 <= i < Lead(s) || Lead(s) + |r| <= i < |s| ==> IsSpace(s[i])
  {
    TrimRight(TrimLeft(s))
  }

  /** How many white-space characters lead the string. */
  function Lead(s: string): (n: nat)
    ensures n <= |s|
  {
    |s| - |TrimLeft(s)|
  }

  /** Trimming a trimmed string changes nothing. */
  lemma TrimIdempotent(s: string)
    ensures Trim(Trim(s)) == Trim(s)
  {
    var t := Trim(s);
    if |t| > 0 {
      assert TrimLeft(t) == t;
      assert TrimRight(t) == t;
    }
  }
}
