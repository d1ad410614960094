/** `itoa` of internal/server/server.go: decimal digits written backwards into a 20-byte
    array, on a 64-bit `int`. */
module Itoa {
  import opened Basics

  const MIN_INT64: int64 := -0x8000_0000_0000_0000

  function Wrap64(n: int): int64 {
    (n + 0x8000_0000_0000_0000) % 0x1_0000_0000_0000_0000 - 0x8000_0000_0000_0000
  }

  function Digit(d: int): char
    requires 0 <= d < 10
  {
    '0' + d as char
  }

  function Pow10(k: nat): nat {
    if k == 0 then 1 else 10 * Pow10(k - 1)
  }

  /** Digits of a positive number, none for zero. */
  function Digits(n: nat): string {
    if n == 0 then "" else Digits(n / 10) + [Digit(n % 10)]
  }

  function Decimal(n: int): string {
    if n == 0 then "0" else if n < 0 then "-" + Digits(-n) else Digits(n)
  }

  lemma NegationWraps(n: int)
    requires MIN_INT64 <= n < 0
    ensures Wrap64(-n) == if n == MIN_INT64 then MIN_INT64 else -n
  {}

  lemma TenToThe19()
    ensures Pow10(19) == 10_000_000_000_000_000_000
  {
    assert Pow10(4) == 10_000;
    assert Pow10(8) == 100_000_000;
    assert Pow10(12) == 1_000_000_000_000;
    assert Pow10(16) == 10_000_000_000_000_000;
  }

  lemma {:induction false} DigitsBound(n: nat, k: nat)
    requires n < Pow10(k)
    ensures |Digits(n)| <= k
    decreases k
  {
    if n > 0 {
      DigitsBound(n / 10, k - 1);
    }
  }

  /** The digit loop; it writes nothing when the negation has overflowed. One cell is
      always left for the sign. */
  method WriteDigits(buf: array<char>, n0: int64) returns (i: nat)
    requires buf.Length == 20
    modifies buf
    ensures 0 < i <= 20
    ensures buf[i..] == if n0 <= 0 then "" else Digits(n0)
  {
    var n: int := n0;
    i := buf.Length;
    ghost var text := if n0 <= 0 then "" else Digits(n0);
    if n0 > 0 {
      TenToThe19();
      DigitsBound(n0, 19);
    }
    while n > 0
      invariant i <= 20 && i + |text| >= 20 + |Digits(if n <= 0 then 0 else n)|
      invariant n0 <= 0 ==> n == n0
      invariant n0 > 0 ==> n >= 0
      invariant text == Digits(if n <= 0 then 0 else n) + buf[i..]
      decreases n
    {
      i := i - 1;
      buf[i] := Digit(n % 10);
      assert buf[i..] == [Digit(n % 10)] + buf[i + 1..];
      n := n / 10;
    }
  }

  method Itoa(n0: int64) returns (s: string)
    ensures s == if n0 == MIN_INT64 then "-" else Decimal(n0)
  {
    var n: int := n0;
    if n == 0 {
      return "0";
    }
    var buf := new char[20](_ => '\0');
    var neg := n < 0;
    if neg {
      NegationWraps(n);
      n := Wrap64(-n);
    }
    assert n == if n0 == MIN_INT64 then MIN_INT64 else if n0 < 0 then -n0 else n0;
    var i := WriteDigits(buf, n);
    if neg {
      i := i - 1;
      buf[i] := '-';
      assert buf[i..] == "-" + buf[i + 1..];
      assert buf[i + 1..] == if n0 == MIN_INT64 then "" else Digits(-n0);
    }
    return buf[i..];
  }

  // ---------------------------------------------------------------- meaning of the text

  function DigitValue(c: char): int {
    c as int - '0' as int
  }

  /** Positional value of a digit string. */
  function Value(s: string): int {
    if s == "" then 0 else 10 * Value(s[..|s| - 1]) + DigitValue(s[|s| - 1])
  }

  /** `strconv`-style reading of an optional sign and digits. */
  function Parse(s: string): int {
    if s != "" && s[0] == '-' then -Value(s[1..]) else Value(s)
  }

  lemma {:induction false} DigitsRead(n: nat)
    ensures Value(Digits(n)) == n
    ensures n > 0 ==> Digits(n) != "" && '1' <= Digits(n)[0] <= '9'
    decreases n
  {
    if n > 0 {
      var s, d := Digits(n / 10), Digit(n % 10);
      DigitsRead(n / 10);
      assert (s + [d])[..|s|] == s;
      assert DigitValue(d) == n % 10;
    }
  }

  /** Decimal text is exact and canonical. */
  lemma DecimalReadsBack(n: int)
    ensures Parse(Decimal(n)) == n
    ensures Decimal(n)[0] == '0' ==> Decimal(n) == "0" && n == 0
  {
    DigitsRead(if n < 0 then -n else n);
    if n < 0 {
      assert Decimal(n)[1..] == Digits(-n);
    } else if n == 0 {
      assert "0"[..0] == "";
    }
  }

  /** `itoa` prints a number that reads back exactly when it is not the smallest `int`,
      whose negation overflows: then only the sign is printed. */
  lemma ReadsBackUnlessMin(n: int64)
    ensures Parse(if n == MIN_INT64 then "-" else Decimal(n)) == n <==> n != MIN_INT64
  {
    DecimalReadsBack(n);
    assert Parse("-") == 0 by {
      assert "-"[1..] == "";
    }
  }
}
