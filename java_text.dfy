/**
 * The pieces of the Java platform that the club application's rules rely on,
 * written out so that their edge cases are visible: `int` wrap-around,
 * truncating division, `Integer.parseInt`, `String.format("%02d")`,
 * `String.split(":")` and `String.trim()`.
 * Strings are sequences of UTF-16 code units; digits are ASCII.
 */
module JavaText {
  import opened Wrappers

  const IntMin: int := -0x8000_0000
  const IntMax: int := 0x7FFF_FFFF

  predicate IsInt32(x: int) {
    IntMin <= x <= IntMax
  }

  /** A Java `int`. */
  type Int32 = x: int | IsInt32(x)

  /** Two's-complement wrap-around of a Java `int` result. */
  function Wrap32(x: int): (r: int)
    ensures IsInt32(r)
    ensures IsInt32(x) ==> r == x
    ensures (x - r) % 0x1_0000_0000 == 0
  {
    (x - IntMin) % 0x1_0000_0000 + IntMin
  }

  /** Java's `a / b` for a positive divisor: rounds toward zero. */
  function Quot(a: int, b: int): int
    requires b > 0
  {
    if a >= 0 then a / b else -((-a) / b)
  }

  /** Truncating division never moves away from zero, so an `int` quotient is an `int`. */
  lemma QuotBetween(a: int, b: int)
    requires b > 0
    ensures a >= 0 ==> 0 <= Quot(a, b) <= a
    ensures a < 0 ==> a <= Quot(a, b) <= 0
  {
    var m := if a >= 0 then a else -a;
    DivBetween(m, b);
  }

  lemma DivBetween(m: int, b: int)
    requires m >= 0 && b > 0
    ensures 0 <= m / b <= m
  {
    var q := m / b;
    var r := m % b;
    assert m == b * q + r && 0 <= r < b;
    MulNonneg(b - 1, q);
    assert b * q == q + (b - 1) * q;
  }

  lemma MulNonneg(x: int, y: int)
    requires x >= 0 && y >= 0
    ensures x * y >= 0
  {
  }

  /** Java's `a % b` for a positive divisor: takes the sign of `a`. */
  function Rem(a: int, b: int): (r: int)
    requires b > 0
    ensures a >= 0 ==> 0 <= r < b
    ensures a < 0 ==> -b < r <= 0
    ensures b * Quot(a, b) + r == a
  {
    a - b * Quot(a, b)
  }

  // ---------------------------------------------------------------- digits

  predicate IsDigit(c: char) {
    '0' <= c <= '9'
  }

  predicate AllDigits(s: string) {
    forall i :: 0 <= i < |s| ==> IsDigit(s[i])
  }

  function DigitChar(d: nat): (c: char)
    requires d < 10
    ensures IsDigit(c)
  {
    ('0' as int + d) as char
  }

  function DigitValue(c: char): (d: nat)
    requires IsDigit(c)
    ensures d < 10
  {
    c as int - '0' as int
  }

  /** The decimal digits of `n`, without leading zeros ("0" for zero). */
  function Digits(n: nat): (s: string)
    ensures |s| >= 1 && AllDigits(s)
    ensures n < 10 <==> |s| == 1
    ensures n < 100 <==> |s| <= 2
    decreases n
  {
    if n < 10 then [DigitChar(n)] else Digits(n / 10) + [DigitChar(n % 10)]
  }

  /** The number a string of decimal digits denotes. */
  function DigitsValue(s: string): nat
    requires AllDigits(s)
    decreases |s|
  {
    if |s| == 0 then 0 else 10 * DigitsValue(s[..|s| - 1]) + DigitValue(s[|s| - 1])
  }

  lemma {:induction false} DigitsValueOfDigits(n: nat)
    ensures DigitsValue(Digits(n)) == n
    decreases n
  {
    if n >= 10 {
      DigitsValueOfDigits(n / 10);
      var s := Digits(n);
      assert s[..|s| - 1] == Digits(n / 10);
    }
  }

  lemma {:induction false} LeadingZero(s: string)
    requires AllDigits(s)
    ensures AllDigits("0" + s) && DigitsValue("0" + s) == DigitsValue(s)
    decreases |s|
  {
    if |s| > 0 {
      var t := "0" + s;
      assert t[..|t| - 1] == "0" + s[..|s| - 1];
      LeadingZero(s[..|s| - 1]);
    }
  }

  // --------------------------------------------------- Integer.parseInt

  /**
   * `Integer.parseInt(s)`: an optional sign followed by one or more digits,
   * denoting a value inside the `int` range. `None` stands for the
   * `NumberFormatException` the method throws otherwise.
   */
  function ParseInt(s: string): (r: Option<int>)
    ensures r.Some? ==> IsInt32(r.value)
    ensures r.Some? ==> |s| > 0
  {
    if |s| == 0 then None
    else
      var body := if s[0] == '-' || s[0] == '+' then s[1..] else s;
      if |body| == 0 || !AllDigits(body) then None
      else
        var magnitude: int := DigitsValue(body);
        var v := if s[0] == '-' then -magnitude else magnitude;
        if IsInt32(v) then Some(v) else None
  }

  // ------------------------------------------ String.format("%02d", n)

  /**
   * `String.format("%02d", n)`: at least two characters, zero-padded; a
   * negative number is its sign followed by its digits ("-5", "-12").
   */
  function Format02d(n: int): (s: string)
    ensures |s| >= 2
    ensures 0 <= n < 100 <==> (|s| == 2 && AllDigits(s))
  {
    if n < 0 then
      var s := "-" + Digits(-n);
      assert !IsDigit(s[0]);
      s
    else if n < 10 then "0" + Digits(n)
    else Digits(n)
  }

  /** Parsing a `%02d` rendering gives the number back. */
  lemma ParseFormat02d(n: int)
    requires IsInt32(n)
    ensures ParseInt(Format02d(n)) == Some(n)
  {
    var s := Format02d(n);
    if n < 0 {
      var d := Digits(-n);
      DigitsValueOfDigits(-n);
      assert s == "-" + d && s[0] == '-' && s[1..] == d;
      assert ParseInt(s) == Some(n);
    } else if n < 10 {
      var d := Digits(n);
      DigitsValueOfDigits(n);
      LeadingZero(d);
      assert s == "0" + d && s[0] == '0';
      assert ParseInt(s) == Some(DigitsValue(s));
    } else {
      DigitsValueOfDigits(n);
      assert IsDigit(s[0]);
      assert ParseInt(s) == Some(DigitsValue(s));
    }
  }

  lemma Format02dHasNoSeparator(n: int, sep: char)
    requires !IsDigit(sep) && sep != '-'
    ensures sep !in Format02d(n)
  {
    var s := Format02d(n);
    assert forall i :: 0 <= i < |s| ==> IsDigit(s[i]) || s[i] == '-';
  }

  // -------------------------------------------------- String.split(":")

  /** All the pieces between occurrences of `sep`, empty ones included. */
  function SplitAll(s: string, sep: char): (parts: seq<string>)
    ensures |parts| >= 1
    decreases |s|
  {
    if |s| == 0 then [""]
    else if s[0] == sep then [""] + SplitAll(s[1..], sep)
    else
      var rest := SplitAll(s[1..], sep);
      [[s[0]] + rest[0]] + rest[1..]
  }

  function DropTrailingEmpty(parts: seq<string>): (r: seq<string>)
    ensures |r| <= |parts| && r == parts[..|r|]
    ensures |r| > 0 ==> r[|r| - 1] != ""
    decreases |parts|
  {
    if |parts| > 0 && parts[|parts| - 1] == "" then DropTrailingEmpty(parts[..|parts| - 1])
    else parts
  }

  /**
   * `s.split(sep)` for a one-character, non-special pattern: the input itself
   * when `sep` does not occur; otherwise the pieces with trailing empty pieces
   * removed (so `":".split(":")` has no element and `"10:".split(":")` one).
   */
  function Split(s: string, sep: char): (parts: seq<string>)
  {
    if sep !in s then [s] else DropTrailingEmpty(SplitAll(s, sep))
  }

  lemma {:induction false} SplitAllPrefix(a: string, t: string, sep: char)
    requires sep !in a
    ensures SplitAll(a + t, sep) == [a + SplitAll(t, sep)[0]] + SplitAll(t, sep)[1..]
    decreases |a|
  {
    if |a| > 0 {
      assert (a + t)[1..] == a[1..] + t;
      SplitAllPrefix(a[1..], t, sep);
      assert [a[0]] + (a[1..] + SplitAll(t, sep)[0]) == a + SplitAll(t, sep)[0];
    } else {
      assert a + t == t;
      assert a + SplitAll(t, sep)[0] == SplitAll(t, sep)[0];
    }
  }

  /** `(a + ":" + b).split(":")` is `[a, b]` when neither holds the separator and `b` is not empty. */
  lemma SplitTwo(a: string, b: string, sep: char)
    requires sep !in a && sep !in b && |b| > 0
    ensures Split(a + [sep] + b, sep) == [a, b]
  {
    SplitAllPrefix(b, "", sep);
    assert b + "" == b;
    assert SplitAll("", sep) == [""];
    assert SplitAll(b, sep) == [b];
    var tail := [sep] + b;
    assert tail[1..] == b;
    assert SplitAll(tail, sep) == [""] + SplitAll(b, sep) == ["", b];
    SplitAllPrefix(a, tail, sep);
    var s := a + [sep] + b;
    assert s == a + tail;
    assert SplitAll(s, sep) == [a + "", b];
    assert a + "" == a;
    assert s[|a|] == sep;
    assert DropTrailingEmpty([a, b]) == [a, b];
  }

  // --------------------------------------------------- String.compareTo

  /** `a.compareTo(b) <= 0`: code unit by code unit, a proper prefix first. */
  predicate StringLe(a: string, b: string)
    decreases |a|
  {
    |a| == 0 || (|b| > 0 && (a[0] < b[0] || (a[0] == b[0] && StringLe(a[1..], b[1..]))))
  }

  lemma {:induction false} StringLeTotal(a: string, b: string)
    ensures StringLe(a, b) || StringLe(b, a)
    decreases |a|
  {
    if |a| > 0 && |b| > 0 && a[0] == b[0] {
      StringLeTotal(a[1..], b[1..]);
    }
  }

  lemma {:induction false} StringLeTransitive(a: string, b: string, c: string)
    requires StringLe(a, b) && StringLe(b, c)
    ensures StringLe(a, c)
    decreases |a|
  {
    if |a| > 0 && a[0] == b[0] && b[0] == c[0] {
      StringLeTransitive(a[1..], b[1..], c[1..]);
    }
  }

  /** `(a + ":" + b + ":" + c).split(":")` is `[a, b, c]` when no piece holds the separator and `c` is not empty. */
  lemma SplitThree(a: string, b: string, c: string, sep: char)
    requires sep !in a && sep !in b && sep !in c && |c| > 0
    ensures Split(a + [sep] + b + [sep] + c, sep) == [a, b, c]
  {
    SplitAllPrefix(c, "", sep);
    assert c + "" == c;
    assert SplitAll("", sep) == [""];
    assert SplitAll(c, sep) == [c];
    var tail2 := [sep] + c;
    assert tail2[1..] == c;
    assert SplitAll(tail2, sep) == [""] + SplitAll(c, sep) == ["", c];
    SplitAllPrefix(b, tail2, sep);
    assert b + "" == b;
    assert SplitAll(b + tail2, sep) == [b, c];
    var tail1 := [sep] + (b + tail2);
    assert tail1[1..] == b + tail2;
    assert SplitAll(tail1, sep) == ["", b, c];
    SplitAllPrefix(a, tail1, sep);
    assert a + "" == a;
    var s := a + [sep] + b + [sep] + c;
    assert s == a + tail1;
    assert SplitAll(s, sep) == [a, b, c];
    assert s[|a|] == sep;
    assert DropTrailingEmpty([a, b, c]) == [a, b, c];
  }

  // ------------------------------------------------------- String.trim()

  /** Drops leading characters up to U+0020, as `String.trim()` does. */
  function TrimStart(s: string): (r: string)
    ensures |r| <= |s| && r == s[|s| - |r|..]
    ensures |r| > 0 ==> r[0] > ' '
    decreases |s|
  {
    if |s| > 0 && s[0] <= ' ' then TrimStart(s[1..]) else s
  }

  /** Drops trailing characters up to U+0020. */
  function TrimEnd(s: string): (r: string)
    ensures |r| <= |s| && r == s[..|r|]
    ensures |r| > 0 ==> r[|r| - 1] > ' '
    decreases |s|
  {
    if |s| > 0 && s[|s| - 1] <= ' ' then TrimEnd(s[..|s| - 1]) else s
  }

  function Trim(s: string): string {
    TrimEnd(TrimStart(s))
  }

  /** Leading blanks are dropped up to the first non-blank character. */
  lemma {:induction false} TrimStartBlankPrefix(lead: string, x: string)
    requires forall i :: 0 <= i < |lead| ==> lead[i] <= ' '
    requires |x| > 0 && x[0] > ' '
    ensures TrimStart(lead + x) == x
    decreases |lead|
  {
    if |lead| == 0 {
      assert lead + x == x;
    } else {
      assert (lead + x)[1..] == lead[1..] + x;
      TrimStartBlankPrefix(lead[1..], x);
    }
  }

  /** Trailing blanks after a non-blank character never eat into what precedes it. */
  lemma {:induction false} TrimEndKeepsPrefix(x: string, trail: string)
    requires |x| > 0 && x[|x| - 1] > ' '
    ensures |TrimEnd(x + trail)| >= |x| && TrimEnd(x + trail)[..|x|] == x
    decreases |trail|
  {
    var s := x + trail;
    if |trail| == 0 {
      assert s == x;
    } else if s[|s| - 1] <= ' ' {
      assert s[..|s| - 1] == x + trail[..|trail| - 1];
      TrimEndKeepsPrefix(x, trail[..|trail| - 1]);
    } else {
      assert s[..|x|] == x;
    }
  }

  /** A string with no blank at either end is its own trim. */
  lemma TrimOfTrimmed(s: string)
    requires |s| > 0 ==> s[0] > ' ' && s[|s| - 1] > ' '
    ensures Trim(s) == s
  {
  }
}
