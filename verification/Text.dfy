/** The string operations of the Go standard library that the repository calls. */
module Text {
  import opened Common

  /** unicode.IsSpace */
  predicate IsSpace(c: char) {
    || '\t' <= c <= '\r' || c == ' ' || c == '\U{85}' || c == '\U{A0}' || c == '\U{1680}'
    || '\U{2000}' <= c <= '\U{200A}' || c == '\U{2028}' || c == '\U{2029}' || c == '\U{202F}'
    || c == '\U{205F}' || c == '\U{3000}'
  }

  function TrimLeft(s: string): (r: string)
    ensures r == [] || !IsSpace(r[0])
    ensures |r| <= |s| && r == s[|s| - |r|..]
    ensures forall i :: 0 <= i < |s| - |r| ==> IsSpace(s[i])
  {
    if s == [] || !IsSpace(s[0]) then s else TrimLeft(s[1..])
  }

  function TrimRight(s: string): (r: string)
    ensures r == [] || !IsSpace(r[|r| - 1])
    ensures |r| <= |s| && r == s[..|r|]
    ensures forall i :: |r| <= i < |s| ==> IsSpace(s[i])
  {
    if s == [] || !IsSpace(s[|s| - 1]) then s else TrimRight(s[..|s| - 1])
  }

  /** strings.TrimSpace */
  function TrimSpace(s: string): string {
    TrimRight(TrimLeft(s))
  }

  predicate Trimmed(s: string) {
    s == [] || (!IsSpace(s[0]) && !IsSpace(s[|s| - 1]))
  }

  /** TrimSpace yields a trimmed string, leaves trimmed strings alone, and
      yields the empty string exactly for blank input. */
  lemma TrimSpaceMeaning(s: string)
    ensures Trimmed(TrimSpace(s))
    ensures Trimmed(s) ==> TrimSpace(s) == s
    ensures TrimSpace(s) == [] <==> forall i :: 0 <= i < |s| ==> IsSpace(s[i])
  {
    var l := TrimLeft(s);
    var r := TrimRight(l);
    if r != [] {
      assert r[0] == l[0] && !IsSpace(l[0]);
      var k := |s| - |l|;
      assert l[0] == s[k];
    }
  }

  /** strings.Split for a one-character separator. */
  function Split(s: string, sep: char): (parts: seq<string>)
    ensures |parts| >= 1
  {
    if s == [] then [[]]
    else
      var rest := Split(s[1..], sep);
      if s[0] == sep then [[]] + rest
      else [[s[0]] + rest[0]] + rest[1..]
  }

  /** strings.Join for a one-character separator. */
  function Join(parts: seq<string>, sep: char): string {
    if parts == [] then []
    else if |parts| == 1 then parts[0]
    else parts[0] + [sep] + Join(parts[1..], sep)
  }

  lemma {:induction false} SplitPlain(s: string, sep: char)
    requires sep !in s
    ensures Split(s, sep) == [s]
  {
    if s != [] {
      SplitPlain(s[1..], sep);
      assert [s[0]] + s[1..] == s;
    }
  }

  lemma {:induction false} SplitHead(p: string, rest: string, sep: char)
    requires sep !in p
    ensures Split(p + [sep] + rest, sep) == [p] + Split(rest, sep)
  {
    var s := p + [sep] + rest;
    if p == [] {
      assert s[1..] == rest;
    } else {
      assert s[1..] == p[1..] + [sep] + rest;
      SplitHead(p[1..], rest, sep);
      assert [p[0]] + p[1..] == p;
    }
  }

  /** Splitting undoes joining when no part holds the separator. */
  lemma {:induction false} SplitJoin(parts: seq<string>, sep: char)
    requires parts != []
    requires forall p :: p in parts ==> sep !in p
    ensures Split(Join(parts, sep), sep) == parts
  {
    if |parts| == 1 {
      SplitPlain(parts[0], sep);
    } else {
      SplitJoin(parts[1..], sep);
      SplitHead(parts[0], Join(parts[1..], sep), sep);
    }
  }

  predicate IsDigit(c: char) {
    '0' <= c <= '9'
  }

  function Digit(n: nat): char
    requires n < 10
  {
    n as char + '0'
  }

  /** Decimal rendering of a natural number, as by the verb %d. */
  function Decimal(n: nat): (s: string)
    ensures s != [] && forall i :: 0 <= i < |s| ==> IsDigit(s[i])
    decreases n
  {
    if n < 10 then [Digit(n)] else Decimal(n / 10) + [Digit(n % 10)]
  }

  /** Decimal rendering of an integer, as by the verb %d. */
  function DecimalInt(n: int): (s: string)
    ensures s != []
    ensures n >= 0 ==> s == Decimal(n)
    ensures n < 0 ==> s == "-" + Decimal(-n)
  {
    if n < 0 then "-" + Decimal(-n) else Decimal(n)
  }

  function DigitOf(c: char): nat
    requires IsDigit(c)
  {
    assert c as int >= 48;
    c as int - 48
  }

  /** Value of a string of decimal digits. */
  function DigitsValue(s: string): nat
    requires forall i :: 0 <= i < |s| ==> IsDigit(s[i])
  {
    if s == [] then 0
    else 10 * DigitsValue(s[..|s| - 1]) + DigitOf(s[|s| - 1])
  }

  /** strconv.ParseInt with base 10 and 32 bits: an optional sign, at least one
      digit, nothing else, and the value in range. */
  function ParseInt32(s: string): Option<int> {
    var negative := s != [] && s[0] == '-';
    var digits := if s != [] && (s[0] == '-' || s[0] == '+') then s[1..] else s;
    if digits == [] || exists i :: 0 <= i < |digits| && !IsDigit(digits[i]) then None
    else
      var d: int := DigitsValue(digits);
      var v := if negative then -d else d;
      if -0x8000_0000 <= v < 0x8000_0000 then Some(v) else None
  }

  lemma {:induction false} DecimalValue(n: nat)
    ensures DigitsValue(Decimal(n)) == n
    decreases n
  {
    var s := Decimal(n);
    if n < 10 {
      assert s[..|s| - 1] == [];
    } else {
      DecimalValue(n / 10);
      assert s[..|s| - 1] == Decimal(n / 10);
    }
  }

  /** ParseInt undoes %d on every 32-bit integer. */
  lemma ParseDecimal(n: int)
    requires -0x8000_0000 <= n < 0x8000_0000
    ensures ParseInt32(DecimalInt(n)) == Some(n)
  {
    var s := DecimalInt(n);
    if n < 0 {
      DecimalValue(-n);
      assert s[1..] == Decimal(-n);
    } else {
      DecimalValue(n);
      assert IsDigit(s[0]);
    }
  }

  lemma DecimalInjective(a: int, b: int)
    requires DecimalInt(a) == DecimalInt(b)
    ensures a == b
  {
    var sa, sb := DecimalInt(a), DecimalInt(b);
    assert a < 0 <==> sa[0] == '-' by {
      if a >= 0 { assert IsDigit(Decimal(a)[0]); }
    }
    assert b < 0 <==> sb[0] == '-' by {
      if b >= 0 { assert IsDigit(Decimal(b)[0]); }
    }
    if a < 0 {
      assert sa[1..] == Decimal(-a) && sb[1..] == Decimal(-b);
      DecimalValue(-a);
      DecimalValue(-b);
    } else {
      DecimalValue(a);
      DecimalValue(b);
    }
  }
}
