/**
 * The few pieces of java.lang semantics the core depends on: fixed-width
 * casts, decimal rendering and parsing of ints, and String.split / indexOf /
 * startsWith / endsWith on single-character separators.
 */
module JavaLang {
  import opened Wrappers

  const INT_MIN: int := -0x8000_0000
  const INT_MAX: int := 0x7fff_ffff
  const TWO_32: int := 0x1_0000_0000

  predicate IsInt32(n: int) { INT_MIN <= n <= INT_MAX }

  /** Java's narrowing cast `(int) x` of a long: keep the low 32 bits, two's complement. */
  function ToInt32(x: int): (r: int)
    ensures IsInt32(r)
    ensures (x - r) % TWO_32 == 0
    ensures IsInt32(x) ==> r == x
  {
    var m := x % TWO_32;
    if m > INT_MAX then m - TWO_32 else m
  }

  /** Java's narrowing cast `(byte) x` of an int: keep the low 8 bits, two's complement. */
  function ToByte(x: int): (r: int)
    ensures -128 <= r < 128
    ensures (x - r) % 256 == 0
    ensures -128 <= x < 128 ==> r == x
  {
    var m := x % 256;
    if m > 127 then m - 256 else m
  }

  /** Java's `/` on longs, which truncates toward zero (Dafny's `/` is Euclidean). */
  function JavaDiv(a: int, b: int): (q: int)
    requires b > 0
    ensures a >= 0 ==> q == a / b
    ensures a < 0 ==> q == -((-a) / b)
  {
    if a >= 0 then a / b else -((-a) / b)
  }

  // ---------------------------------------------------------------- decimal

  predicate IsDigit(c: char) { '0' <= c <= '9' }

  predicate AllDigits(s: string) { forall i :: 0 <= i < |s| ==> IsDigit(s[i]) }

  function DigitChar(d: nat): (c: char)
    requires d < 10
    ensures IsDigit(c) && c as int - '0' as int == d
  {
    (d + '0' as int) as char
  }

  /** The value of a string of decimal digits, most significant first. */
  function DigitsValue(s: string): nat
    requires AllDigits(s)
  {
    if s == [] then 0 else 10 * DigitsValue(s[..|s| - 1]) + (s[|s| - 1] as int - '0' as int)
  }

  /** Decimal digits of n without leading zeros ("0" for zero), as Integer.toString writes them. */
  function Digits(n: nat): (s: string)
    ensures |s| > 0 && AllDigits(s)
  {
    if n < 10 then [DigitChar(n)] else Digits(n / 10) + [DigitChar(n % 10)]
  }

  lemma {:induction false} DigitsValueOfDigits(n: nat)
    ensures DigitsValue(Digits(n)) == n
  {
    if n >= 10 {
      DigitsValueOfDigits(n / 10);
      var s := Digits(n);
      assert s[..|s| - 1] == Digits(n / 10);
    }
  }

  /** Integer.toString / String.valueOf(int): an optional '-' then the digits of |n|. */
  function IntToString(n: int): (s: string)
    ensures |s| > 0 && s[0] != '+'
    ensures n >= 0 <==> IsDigit(s[0])
    ensures n < 0 <==> s[0] == '-'
  {
    if n < 0 then "-" + Digits(-n) else Digits(n)
  }

  /**
   * Integer.valueOf(String): an optional '+' or '-', then one or more
   * decimal digits whose value lies in the int range; None stands for the
   * NumberFormatException thrown otherwise.
   */
  function ParseInt(s: string): (r: Option<int>)
    ensures r.Some? ==> IsInt32(r.value)
    ensures r.Some? ==> |s| > 0
  {
    var signed := |s| > 0 && (s[0] == '-' || s[0] == '+');
    var body := if signed then s[1..] else s;
    if body == [] || !AllDigits(body) then None
    else
      var v: int := if signed && s[0] == '-' then 0 - DigitsValue(body) as int else DigitsValue(body);
      if IsInt32(v) then Some(v) else None
  }

  /** Integer.toString writes only digits and a leading '-'. */
  lemma IntToStringChars(n: int)
    ensures forall i :: 0 <= i < |IntToString(n)| ==> IsDigit(IntToString(n)[i]) || IntToString(n)[i] == '-'
  {
    if n < 0 {
      assert IntToString(n)[1..] == Digits(-n);
    }
  }

  /** Rendering an int and parsing it back gives the same int. */
  lemma ParseIntToString(n: int)
    requires IsInt32(n)
    ensures ParseInt(IntToString(n)) == Some(n)
  {
    var s := IntToString(n);
    if n < 0 {
      assert s[1..] == Digits(-n);
      DigitsValueOfDigits(-n);
    } else {
      DigitsValueOfDigits(n);
    }
  }

  // ---------------------------------------------------------------- strings

  predicate StartsWith(s: string, prefix: string) { |prefix| <= |s| && s[..|prefix|] == prefix }

  predicate EndsWith(s: string, suffix: string) { |suffix| <= |s| && s[|s| - |suffix|..] == suffix }

  /** String.indexOf(char): the first position of c in s, or -1. */
  function IndexOf(s: string, c: char): (i: int)
    ensures -1 <= i < |s|
    ensures i == -1 <==> c !in s
    ensures i >= 0 ==> s[i] == c && c !in s[..i]
  {
    if s == [] then -1
    else if s[0] == c then 0
    else
      var j := IndexOf(s[1..], c);
      if j == -1 then -1
      else
        assert s[..j + 1] == [s[0]] + s[1..][..j];
        j + 1
  }

  /** Every piece of s between occurrences of c, empty ones included. */
  function Pieces(s: string, c: char): (r: seq<string>)
    ensures |r| >= 1
  {
    if s == [] then [""]
    else
      var rest := Pieces(s[1..], c);
      if s[0] == c then [""] + rest else [[s[0]] + rest[0]] + rest[1..]
  }

  function DropTrailingEmpty(ps: seq<string>): (r: seq<string>)
    ensures r <= ps
    ensures r == [] || r[|r| - 1] != ""
  {
    if ps != [] && ps[|ps| - 1] == "" then DropTrailingEmpty(ps[..|ps| - 1]) else ps
  }

  /**
   * String.split on a one-character pattern with no regex meaning, limit 0:
   * the input itself when c does not occur, else the pieces with trailing
   * empty strings removed.
   */
  function Split(s: string, c: char): seq<string>
  {
    if c !in s then [s] else DropTrailingEmpty(Pieces(s, c))
  }

  /** The parts separated by c, as a StringBuilder loop that appends a separator before every part but the first builds it. */
  function Join(parts: seq<string>, c: char): string
  {
    if parts == [] then "" else if |parts| == 1 then parts[0] else parts[0] + [c] + Join(parts[1..], c)
  }

  lemma {:induction false} PiecesOfNoSeparator(a: string, c: char)
    requires c !in a
    ensures Pieces(a, c) == [a]
  {
    if a != [] {
      PiecesOfNoSeparator(a[1..], c);
      assert [a[0]] + a[1..] == a;
    }
  }

  lemma {:induction false} PiecesOfPrefix(a: string, c: char, rest: string)
    requires c !in a
    ensures Pieces(a + [c] + rest, c) == [a] + Pieces(rest, c)
  {
    if a == [] {
      assert a + [c] + rest == [c] + rest;
      assert ([c] + rest)[1..] == rest;
    } else {
      var s := a + [c] + rest;
      assert s[1..] == a[1..] + [c] + rest;
      PiecesOfPrefix(a[1..], c, rest);
      assert [a[0]] + a[1..] == a;
    }
  }

  lemma {:induction false} PiecesOfJoin(parts: seq<string>, c: char)
    requires parts != []
    requires forall i :: 0 <= i < |parts| ==> c !in parts[i]
    ensures Pieces(Join(parts, c), c) == parts
  {
    if |parts| == 1 {
      PiecesOfNoSeparator(parts[0], c);
    } else {
      PiecesOfJoin(parts[1..], c);
      PiecesOfPrefix(parts[0], c, Join(parts[1..], c));
    }
  }

  /** Splitting a join of non-empty, separator-free parts gives the parts back. */
  lemma SplitJoin(parts: seq<string>, c: char)
    requires parts != []
    requires forall i :: 0 <= i < |parts| ==> parts[i] != "" && c !in parts[i]
    ensures Split(Join(parts, c), c) == parts
  {
    PiecesOfJoin(parts, c);
    if |parts| > 1 {
      var j := Join(parts, c);
      assert j[|parts[0]|] == c;
    }
  }
}
