/** Argument lines (server/client.go) and decimal sizes (server/util.go). */
module Args {
  import opened Base

  // ----- fields of an argument line -----

  /** The longest prefix of `s` holding no separator. */
  function Word(s: Bytes): (w: Bytes)
    ensures |w| <= |s| && w == s[..|w|] && NoSpace(w)
    ensures |w| < |s| ==> IsSpace(s[|w|])
    ensures s != [] && !IsSpace(s[0]) ==> w != []
  {
    if s == [] || IsSpace(s[0]) then [] else [s[0]] + Word(s[1..])
  }

  /** The maximal separator-free pieces of `s`, from left to right. */
  function Fields(s: Bytes): seq<Bytes> {
    if s == [] then []
    else if IsSpace(s[0]) then Fields(s[1..])
    else [Word(s)] + Fields(s[|Word(s)|..])
  }

  /** A separator-free piece followed by the end or by a separator is one field. */
  lemma FieldsOfWord(w: Bytes, rest: Bytes)
    requires w != [] && NoSpace(w)
    requires rest == [] || IsSpace(rest[0])
    ensures Fields(w + rest) == [w] + Fields(rest)
  {
    WordOf(w, rest);
    assert (w + rest)[|w|..] == rest;
    assert !IsSpace(w[0]) && (w + rest)[0] == w[0];
  }

  lemma {:induction false} WordOf(w: Bytes, rest: Bytes)
    requires NoSpace(w)
    requires rest == [] || IsSpace(rest[0])
    ensures Word(w + rest) == w
  {
    if w == [] {
      assert w + rest == rest;
    } else {
      WordOf(w[1..], rest);
      assert (w + rest)[1..] == w[1..] + rest;
      assert !IsSpace(w[0]);
    }
  }

  /** Words printed with single blanks between them, as "%s %s %s" does. */
  function Join(ws: seq<Bytes>): Bytes {
    if ws == [] then [] else if |ws| == 1 then ws[0] else ws[0] + (" " + Join(ws[1..]))
  }

  predicate Wordy(ws: seq<Bytes>) { forall k :: 0 <= k < |ws| ==> ws[k] != [] && NoSpace(ws[k]) }

  function NonEmpty(ws: seq<Bytes>): seq<Bytes> {
    if ws == [] then [] else (if ws[0] == [] then [] else [ws[0]]) + NonEmpty(ws[1..])
  }

  /** Reading printed words back loses exactly the empty ones. */
  lemma {:induction false} FieldsOfJoin(ws: seq<Bytes>)
    requires forall k :: 0 <= k < |ws| ==> NoSpace(ws[k])
    ensures Fields(Join(ws)) == NonEmpty(ws)
  {
    if |ws| == 1 {
      if ws[0] != [] {
        FieldsOfWord(ws[0], []);
        assert ws[0] + [] == ws[0];
      }
      assert NonEmpty(ws[1..]) == [];
    } else if |ws| > 1 {
      var rest := Join(ws[1..]);
      FieldsOfJoin(ws[1..]);
      FieldsOfWordThen(ws[0], rest);
    }
  }

  lemma FieldsOfWordThen(w: Bytes, rest: Bytes)
    requires NoSpace(w)
    ensures Fields(w + (" " + rest)) == (if w == [] then [] else [w]) + Fields(rest)
  {
    var tail := " " + rest;
    assert tail[1..] == rest;
    if w == [] {
      assert w + tail == tail;
    } else {
      FieldsOfWord(w, tail);
    }
  }

  /** Every field is a non-empty separator-free word. */
  lemma {:induction false} FieldsAreWordy(s: Bytes)
    ensures Wordy(Fields(s))
    decreases |s|
  {
    if s != [] {
      if IsSpace(s[0]) {
        FieldsAreWordy(s[1..]);
      } else {
        FieldsAreWordy(s[|Word(s)|..]);
      }
    }
  }

  // ----- decimal numbers in 64-bit arithmetic -----

  const TWO63: int := 0x8000_0000_0000_0000
  const TWO64: int := 0x1_0000_0000_0000_0000

  /** Two's complement truncation to a signed 64-bit word. */
  function Wrap64(x: int): (w: int)
    ensures -TWO63 <= w < TWO63
    ensures -TWO63 <= x < TWO63 ==> w == x
  {
    (x + TWO63) % TWO64 - TWO63
  }

  lemma WrapStep(x: int, d: int)
    ensures Wrap64(Wrap64(x) * 10 + d) == Wrap64(x * 10 + d)
  {
    var q := (x + TWO63) / TWO64;
    assert Wrap64(x) == x - q * TWO64;
    ModShift(x * 10 + d + TWO63, -10 * q);
  }

  lemma ModShift(a: int, k: int)
    ensures (a + k * TWO64) % TWO64 == a % TWO64
  {
    var q, r := a / TWO64, a % TWO64;
    assert a + k * TWO64 == (q + k) * TWO64 + r;
    DivUnique(a + k * TWO64, q + k, r);
  }

  lemma DivUnique(a: int, q: int, r: int)
    requires 0 <= r < TWO64 && a == q * TWO64 + r
    ensures a % TWO64 == r
  {
  }

  function Digit(c: char): int { c as int - '0' as int }

  predicate AllDigits(d: Bytes) { forall k :: 0 <= k < |d| ==> IsDigit(d[k]) }

  /** The number a digit string denotes. */
  function Value(d: Bytes): nat
    requires AllDigits(d)
  {
    if d == [] then 0 else 10 * Value(d[..|d| - 1]) + Digit(d[|d| - 1])
  }

  /** What parseSize and parseInt64 return: -1 unless all bytes are digits, and the value in
      64-bit arithmetic otherwise. */
  function ParseSize(d: Bytes): int {
    if d == [] || !AllDigits(d) then -1 else Wrap64(Value(d))
  }

  method ParseSizeLoop(d: Bytes) returns (n: int)
    ensures n == ParseSize(d)
  {
    if |d| == 0 {
      return -1;
    }
    n := 0;
    for i := 0 to |d|
      invariant AllDigits(d[..i])
      invariant n == Wrap64(Value(d[..i]))
    {
      var dec := d[i];
      if dec < '0' || dec > '9' {
        return -1;
      }
      assert d[..i + 1][..i] == d[..i];
      WrapStep(Value(d[..i]), Digit(dec));
      n := Wrap64(n * 10 + Digit(dec));
    }
    assert d[..|d|] == d;
  }

  /** Decimal printing of a natural number, as %d prints it. */
  function Decimal(n: nat): (d: Bytes)
    ensures d != [] && AllDigits(d)
  {
    if n < 10 then [('0' as int + n) as char]
    else Decimal(n / 10) + [('0' as int + n % 10) as char]
  }

  lemma {:induction false} ValueOfDecimal(n: nat)
    ensures Value(Decimal(n)) == n
  {
    if n >= 10 {
      ValueOfDecimal(n / 10);
      var d := Decimal(n);
      assert d[..|d| - 1] == Decimal(n / 10);
    } else {
      assert Decimal(n)[..0] == [];
    }
  }

  /** parseSize inverts decimal printing exactly up to the machine bound. */
  lemma ParseSizeOfDecimal(n: nat)
    ensures ParseSize(Decimal(n)) == n <==> n < TWO63
    ensures ParseSize(Decimal(n)) == Wrap64(n)
  {
    ValueOfDecimal(n);
  }

  /** Ten to the place. */
  lemma InDecimal()
    ensures Decimal(4096) == "4096" && ParseSize("4096") == 4096
  {
    assert Decimal(4) == "4" && Decimal(40) == "40" && Decimal(409) == "409";
    ParseSizeOfDecimal(4096);
  }

  lemma DigitsAreNoSpace(d: Bytes)
    requires AllDigits(d)
    ensures NoSpace(d)
  {
    forall k | 0 <= k < |d| ensures !IsSpace(d[k]) { assert IsDigit(d[k]); }
  }
}
