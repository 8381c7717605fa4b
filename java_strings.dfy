/**
 * The few java.lang.String and java.lang.Integer operations the instrumenter
 * depends on: Integer.toString, Integer.parseInt, String.split with a
 * one-character separator, and String.hashCode over UTF-16 code units in
 * 32-bit arithmetic.
 */
module JavaStrings {
  import opened Wrappers

  const IntMin: int := -0x8000_0000
  const IntMax: int := 0x7FFF_FFFF
  const TwoTo32: int := 0x1_0000_0000

  /** A value that fits in a Java `int`. */
  predicate InInt32(n: int) {
    IntMin <= n <= IntMax
  }

  /** The exceptions the modelled Java code can throw. */
  datatype JavaException =
    | NumberFormatException        // Integer.parseInt on a malformed string
    | IndexOutOfBoundsException    // String.substring or an array index out of range

  predicate IsDigit(c: char) {
    '0' <= c <= '9'
  }

  predicate AllDigits(s: string) {
    forall i :: 0 <= i < |s| ==> IsDigit(s[i])
  }

  function DigitValue(c: char): (d: nat)
    requires IsDigit(c)
    ensures d < 10
  {
    (c as int) - ('0' as int)
  }

  function DigitChar(d: nat): (c: char)
    requires d < 10
    ensures IsDigit(c) && DigitValue(c) == d
  {
    (('0' as int) + d) as char
  }

  /** The decimal digits of n, most significant first, without leading zeros. */
  function NatToDecimal(n: nat): (s: string)
    ensures |s| >= 1 && AllDigits(s)
    ensures s[0] == '0' ==> n == 0
  {
    if n < 10 then [DigitChar(n)] else NatToDecimal(n / 10) + [DigitChar(n % 10)]
  }

  /** Integer.toString(int): an optional minus sign followed by the decimal digits. */
  function IntToString(n: int): (s: string)
  {
    if n < 0 then "-" + NatToDecimal(-n) else NatToDecimal(n)
  }

  /** The number a string of decimal digits denotes. */
  function DecimalValue(s: string): (v: nat)
    requires AllDigits(s)
  {
    if s == [] then 0 else 10 * DecimalValue(s[..|s| - 1]) + DigitValue(s[|s| - 1])
  }

  /**
   * Integer.parseInt(String): an optional sign followed by at least one
   * ASCII decimal digit, denoting a value that fits in an `int`; anything
   * else raises NumberFormatException. (Java also takes the other Unicode
   * decimal digits; this model does not.)
   */
  function ParseInt(s: string): (r: Result<int, JavaException>)
    ensures r.Ok? ==> InInt32(r.value)
    ensures r.Thrown? ==> r.exception == NumberFormatException
    ensures r.Ok? ==> |s| >= 1
  {
    if |s| == 0 then Thrown(NumberFormatException)
    else if s[0] == '-' || s[0] == '+' then
      if |s| == 1 || !AllDigits(s[1..]) then Thrown(NumberFormatException)
      else
        var v: int := if s[0] == '-' then 0 - (DecimalValue(s[1..]) as int) else DecimalValue(s[1..]);
        if InInt32(v) then Ok(v) else Thrown(NumberFormatException)
    else if AllDigits(s) && InInt32(DecimalValue(s)) then Ok(DecimalValue(s))
    else Thrown(NumberFormatException)
  }

  lemma {:induction false} DecimalRoundTrip(n: nat)
    ensures DecimalValue(NatToDecimal(n)) == n
  {
    if n >= 10 {
      var s := NatToDecimal(n);
      assert s[..|s| - 1] == NatToDecimal(n / 10);
      DecimalRoundTrip(n / 10);
    }
  }

  /** Integer.parseInt inverts Integer.toString on every `int`. */
  lemma ParseIntOfToString(n: int)
    requires InInt32(n)
    ensures ParseInt(IntToString(n)) == Ok(n)
  {
    var m: nat := if n < 0 then -n else n;
    DecimalRoundTrip(m);
    var s := IntToString(n);
    if n < 0 {
      assert s[1..] == NatToDecimal(m);
    }
  }

  /** The rendering starts with '-' exactly for a negative number, and the digits follow it. */
  lemma IntToStringSign(n: int)
    ensures var s := IntToString(n);
            && |s| >= 1 && (s[0] == '-' <==> n < 0)
            && (n < 0 ==> s[1..] == NatToDecimal(-n))
            && (n >= 0 ==> s == NatToDecimal(n))
  {
    var s := IntToString(n);
    if n < 0 {
      assert s == "-" + NatToDecimal(-n);
      assert s[1..] == NatToDecimal(-n);
    } else {
      assert IsDigit(s[0]);
    }
  }

  /** Integer.toString never produces the given character unless it is a digit or '-'. */
  lemma IntToStringChars(n: int, c: char)
    requires c != '-' && !IsDigit(c)
    ensures c !in IntToString(n)
  {
  }

  /** Every piece of s between occurrences of sep, empty pieces included. */
  function Pieces(s: string, sep: char): (r: seq<string>)
    ensures |r| >= 1
    ensures forall i :: 0 <= i < |r| ==> sep !in r[i]
  {
    if s == [] then [[]]
    else
      var rest := Pieces(s[1..], sep);
      if s[0] == sep then [[]] + rest else [[s[0]] + rest[0]] + rest[1..]
  }

  /** The pieces joined back together with sep between them. */
  function Join(ps: seq<string>, sep: char): string
    requires |ps| >= 1
  {
    if |ps| == 1 then ps[0] else ps[0] + [sep] + Join(ps[1..], sep)
  }

  lemma {:induction false} JoinPieces(s: string, sep: char)
    ensures Join(Pieces(s, sep), sep) == s
  {
    if s != [] {
      JoinPieces(s[1..], sep);
      var rest := Pieces(s[1..], sep);
      if s[0] != sep && |rest| > 1 {
        assert Join([[s[0]] + rest[0]] + rest[1..], sep)
            == [s[0]] + rest[0] + [sep] + Join(rest[1..], sep);
      }
    }
  }

  lemma {:induction false} PiecesJoin(ps: seq<string>, sep: char)
    requires |ps| >= 1
    requires forall i :: 0 <= i < |ps| ==> sep !in ps[i]
    ensures Pieces(Join(ps, sep), sep) == ps
  {
    if |ps| == 1 {
      PiecesOfSepFree(ps[0], sep);
    } else {
      PiecesJoin(ps[1..], sep);
      PiecesAppend(ps[0], Join(ps[1..], sep), sep);
      assert [ps[0]] + ps[1..] == ps;
    }
  }

  lemma {:induction false} PiecesOfSepFree(s: string, sep: char)
    requires sep !in s
    ensures Pieces(s, sep) == [s]
  {
    if s != [] {
      assert s[0] != sep && sep !in s[1..];
      PiecesOfSepFree(s[1..], sep);
      assert [s[0]] + s[1..] == s;
    }
  }

  lemma {:induction false} PiecesAppend(a: string, b: string, sep: char)
    requires sep !in a
    ensures Pieces(a + [sep] + b, sep) == [a] + Pieces(b, sep)
  {
    if a == [] {
      assert a + [sep] + b == [sep] + b;
      assert ([sep] + b)[1..] == b;
    } else {
      assert (a + [sep] + b)[1..] == a[1..] + [sep] + b;
      PiecesAppend(a[1..], b, sep);
      assert [a[0]] + a[1..] == a;
    }
  }

  /** Two or more pieces joined together contain the separator. */
  lemma JoinHasSep(ps: seq<string>, sep: char)
    requires |ps| >= 2
    ensures sep in Join(ps, sep)
  {
    assert Join(ps, sep)[|ps[0]|] == sep;
  }

  /** The pieces with every trailing empty piece removed. */
  function DropTrailingEmpty(ps: seq<string>): (r: seq<string>)
    ensures r <= ps
    ensures r == [] || r[|r| - 1] != []
    ensures forall i :: |r| <= i < |ps| ==> ps[i] == []
  {
    if ps == [] || ps[|ps| - 1] != [] then ps else DropTrailingEmpty(ps[..|ps| - 1])
  }

  /**
   * String.split(regex) where the regex is a single literal character: when
   * the separator does not occur the whole string is the only piece (even when
   * it is empty); otherwise the pieces with trailing empty pieces removed.
   */
  function Split(s: string, sep: char): (r: seq<string>)
    ensures forall i :: 0 <= i < |r| ==> sep !in r[i]
    ensures sep !in s ==> r == [s]
    ensures sep in s ==> r <= Pieces(s, sep)
  {
    if sep !in s then [s] else DropTrailingEmpty(Pieces(s, sep))
  }

  /** A Java `int` as the unsigned 32-bit value with the same bits, and back. */
  function ToInt32(u: nat): (n: int)
    requires u < TwoTo32
    ensures InInt32(n) && (n - u) % TwoTo32 == 0
  {
    if u <= IntMax then u else u - TwoTo32
  }

  /** A mathematical integer reduced to a Java `int`: two's-complement wrap-around. */
  function Wrap32(n: int): (r: int)
    ensures InInt32(r)
    ensures InInt32(n) ==> r == n
  {
    ToInt32(n % TwoTo32)
  }

  /** The wrapped int differs from the integer by a multiple of 2^32. */
  lemma Wrap32Congruent(n: int)
    ensures (Wrap32(n) - n) % TwoTo32 == 0
  {
  }

  /** Two ints that agree modulo 2^32 are the same int. */
  lemma Int32Unique(x: int, y: int)
    requires InInt32(x) && InInt32(y) && (x - y) % TwoTo32 == 0
    ensures x == y
  {
  }

  /**
   * Wrapping an intermediate sum changes nothing: adding to an int that has
   * already wrapped gives the int of the whole sum.
   */
  lemma Wrap32Add(a: int, b: int)
    ensures Wrap32(Wrap32(a) + b) == Wrap32(a + b)
  {
    var w := Wrap32(a);
    Wrap32Congruent(a);
    Wrap32Congruent(w + b);
    Wrap32Congruent(a + b);
    var q1 := (w - a) / TwoTo32;
    var q2 := (Wrap32(w + b) - (w + b)) / TwoTo32;
    var q3 := (Wrap32(a + b) - (a + b)) / TwoTo32;
    assert Wrap32(w + b) - Wrap32(a + b) == (q1 + q2 - q3) * TwoTo32;
    Int32Unique(Wrap32(w + b), Wrap32(a + b));
  }

  /**
   * The UTF-16 code units of one character, as a Java String stores it: one
   * unit up to U+FFFF, otherwise a high and a low surrogate.
   */
  function Utf16Units(c: char): (u: seq<nat>)
    ensures 1 <= |u| <= 2 && (|u| == 1 <==> (c as int) < 0x1_0000)
    ensures forall i :: 0 <= i < |u| ==> u[i] < 0x1_0000
  {
    if (c as int) < 0x1_0000 then [c as int]
    else
      var v := (c as int) - 0x1_0000;
      [0xD800 + v / 0x400, 0xDC00 + v % 0x400]
  }

  /** The UTF-16 code units of a string. */
  function Utf16(s: string): seq<nat> {
    if s == [] then [] else Utf16(s[..|s| - 1]) + Utf16Units(s[|s| - 1])
  }

  /** s[0]*31^(n-1) + ... + s[n-1] over code units, modulo 2^32. */
  function UnitsHash(u: seq<nat>): (h: nat)
    ensures h < TwoTo32
  {
    if u == [] then 0 else (31 * UnitsHash(u[..|u| - 1]) + u[|u| - 1]) % TwoTo32
  }

  /**
   * String.hashCode: the 31-polynomial over the string's UTF-16 code units,
   * evaluated with 32-bit wrap-around.
   */
  function HashCode(s: string): (h: int)
    ensures InInt32(h)
  {
    ToInt32(UnitsHash(Utf16(s)))
  }

  lemma {:induction false} Utf16Append(a: string, b: string)
    ensures Utf16(a + b) == Utf16(a) + Utf16(b)
    decreases |b|
  {
    if b == [] {
      assert a + b == a;
    } else {
      var b' := b[..|b| - 1];
      assert (a + b)[..|a + b| - 1] == a + b';
      assert (a + b)[|a + b| - 1] == b[|b| - 1];
      Utf16Append(a, b');
    }
  }

  /** The hash of a longer unit sequence depends on its prefix only through the prefix's hash. */
  lemma {:induction false} UnitsHashExtends(u: seq<nat>, v: seq<nat>, w: seq<nat>)
    requires UnitsHash(u) == UnitsHash(v)
    ensures UnitsHash(u + w) == UnitsHash(v + w)
    decreases |w|
  {
    if w == [] {
      assert u + w == u && v + w == v;
    } else {
      var w' := w[..|w| - 1];
      assert (u + w)[..|u + w| - 1] == u + w';
      assert (v + w)[..|v + w| - 1] == v + w';
      assert (u + w)[|u + w| - 1] == w[|w| - 1] == (v + w)[|v + w| - 1];
      UnitsHashExtends(u, v, w');
    }
  }

  /** Strings whose hashes agree keep agreeing when the same suffix is appended. */
  lemma HashCodeExtends(a: string, b: string, s: string)
    requires UnitsHash(Utf16(a)) == UnitsHash(Utf16(b))
    ensures HashCode(a + s) == HashCode(b + s)
  {
    Utf16Append(a, s);
    Utf16Append(b, s);
    UnitsHashExtends(Utf16(a), Utf16(b), Utf16(s));
  }

  /** The code units of a two-character string below U+10000. */
  lemma Utf16OfPair(s: string)
    requires |s| == 2 && (s[0] as int) < 0x1_0000 && (s[1] as int) < 0x1_0000
    ensures Utf16(s) == [s[0] as int, s[1] as int]
  {
    var first := s[..1];
    assert first[..0] == [] && first[0] == s[0];
    assert Utf16(first) == [s[0] as int];
    assert Utf16(s) == Utf16(first) + Utf16Units(s[1]);
  }

  lemma UnitsHashOfPair(x: nat, y: nat)
    requires x < 0x1_0000 && y < 0x1_0000
    ensures UnitsHash([x, y]) == 31 * x + y
  {
    assert [x, y][..1] == [x];
    assert [x][..0] == [];
    assert UnitsHash([x]) == x;
    assert UnitsHash([x, y]) == (31 * x + y) % TwoTo32;
  }

  /** "Aa" and "BB" have the same hash, and so does every pair of strings they begin. */
  lemma HashCodeAaBB(s: string)
    ensures HashCode("Aa" + s) == HashCode("BB" + s)
  {
    Utf16OfPair("Aa");
    Utf16OfPair("BB");
    UnitsHashOfPair('A' as int, 'a' as int);
    UnitsHashOfPair('B' as int, 'B' as int);
    HashCodeExtends("Aa", "BB", s);
  }

  /**
   * A character above U+FFFF is hashed as its surrogate pair:
   * "\U{1F600}".hashCode() is 31 * 0xD83D + 0xDE00.
   */
  lemma HashCodeOfSupplementary()
    ensures HashCode("\U{1F600}") == 31 * 0xD83D + 0xDE00
  {
    var s := "\U{1F600}";
    assert Utf16Units(s[0]) == [0xD83D, 0xDE00];
    assert Utf16(s) == [0xD83D, 0xDE00] by {
      assert s[..0] == [];
    }
    var u := [0xD83D, 0xDE00];
    assert u[..1][..0] == [];
    assert UnitsHash(u[..1]) == 0xD83D;
  }

  /**
   * Splitting what Join built gives the pieces back, provided no piece
   * contains the separator and the last one is not empty (split drops
   * trailing empty pieces).
   */
  lemma SplitJoin(ps: seq<string>, sep: char)
    requires |ps| >= 1 && ps[|ps| - 1] != []
    requires forall i :: 0 <= i < |ps| ==> sep !in ps[i]
    ensures Split(Join(ps, sep), sep) == ps
  {
    PiecesJoin(ps, sep);
    if |ps| >= 2 {
      JoinHasSep(ps, sep);
    }
  }
}
