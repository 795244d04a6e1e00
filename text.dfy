/** The parts of Kotlin's `String` library that the app relies on: `split`,
    `joinToString`, `startsWith`, `compareTo`, `Int.toString`, `toIntOrNull`,
    `"%02d".format` and `toBoolean`. Strings are sequences of characters. */
module Text {
  import opened Wrappers
  import opened KotlinInt

  // ---------------------------------------------------------------- split / join

  /** Kotlin `s.split(c)`: the pieces between occurrences of `c`, in order; an empty
      string gives `[""]` and a trailing separator gives a trailing empty piece. */
  function Split(s: string, c: char): (parts: seq<string>)
    ensures |parts| >= 1
    ensures forall i :: 0 <= i < |parts| ==> c !in parts[i]
  {
    if |s| == 0 then [""]
    else
      var rest := Split(s[1..], c);
      if s[0] == c then [""] + rest
      else [[s[0]] + rest[0]] + rest[1..]
  }

  /** Kotlin `parts.joinToString(sep)`. */
  function Join(parts: seq<string>, sep: char): string
  {
    if |parts| == 0 then ""
    else if |parts| == 1 then parts[0]
    else parts[0] + [sep] + Join(parts[1..], sep)
  }

  lemma {:induction false} SplitNoSeparator(s: string, c: char)
    requires c !in s
    ensures Split(s, c) == [s]
  {
    if |s| > 0 {
      SplitNoSeparator(s[1..], c);
      assert [s[0]] + s[1..] == s;
    }
  }

  lemma {:induction false} SplitAtSeparator(a: string, b: string, c: char)
    requires c !in a
    ensures Split(a + [c] + b, c) == [a] + Split(b, c)
  {
    if |a| == 0 {
      assert a + [c] + b == [c] + b;
      assert ([c] + b)[1..] == b;
    } else {
      SplitAtSeparator(a[1..], b, c);
      assert (a + [c] + b)[1..] == a[1..] + [c] + b;
      assert [a[0]] + a[1..] == a;
    }
  }

  /** Splitting what `Join` produced gives the pieces back, as long as no piece
      contains the separator. */
  lemma {:induction false} SplitJoin(parts: seq<string>, c: char)
    requires |parts| >= 1
    requires forall i :: 0 <= i < |parts| ==> c !in parts[i]
    ensures Split(Join(parts, c), c) == parts
  {
    if |parts| == 1 {
      SplitNoSeparator(parts[0], c);
    } else {
      SplitJoin(parts[1..], c);
      SplitAtSeparator(parts[0], Join(parts[1..], c), c);
      assert [parts[0]] + parts[1..] == parts;
    }
  }

  /** Kotlin `s.startsWith(prefix)`. */
  predicate StartsWith(s: string, prefix: string)
  {
    |prefix| <= |s| && s[..|prefix|] == prefix
  }

  // ---------------------------------------------------------------- compareTo

  /** `a <= b` under Kotlin's `String.compareTo`: character by character, a proper
      prefix first. */
  predicate LexLe(a: string, b: string)
  {
    |a| == 0 || (|b| > 0 && (a[0] < b[0] || (a[0] == b[0] && LexLe(a[1..], b[1..]))))
  }

  lemma {:induction false} LexLeTotal(a: string, b: string)
    ensures LexLe(a, b) || LexLe(b, a)
  {
    if |a| > 0 && |b| > 0 && a[0] == b[0] {
      LexLeTotal(a[1..], b[1..]);
    }
  }

  lemma {:induction false} LexLeTransitive(a: string, b: string, c: string)
    requires LexLe(a, b) && LexLe(b, c)
    ensures LexLe(a, c)
  {
    if |a| > 0 && a[0] == b[0] && b[0] == c[0] {
      LexLeTransitive(a[1..], b[1..], c[1..]);
    }
  }

  lemma {:induction false} LexLeAntisymmetric(a: string, b: string)
    requires LexLe(a, b) && LexLe(b, a)
    ensures a == b
  {
    if |a| > 0 {
      LexLeAntisymmetric(a[1..], b[1..]);
      assert a == [a[0]] + a[1..] && b == [b[0]] + b[1..];
    }
  }

  /** Comparing two strings that start with pieces of equal length: the first pieces
      decide, unless they are equal. */
  lemma {:induction false} LexLeAppend(a: string, b: string, x: string, y: string)
    requires |a| == |b|
    ensures LexLe(a + x, b + y) <==> (LexLe(a, b) && a != b) || (a == b && LexLe(x, y))
  {
    if |a| > 0 {
      LexLeAppend(a[1..], b[1..], x, y);
      assert (a + x)[0] == a[0] && (b + y)[0] == b[0];
      assert (a + x)[1..] == a[1..] + x && (b + y)[1..] == b[1..] + y;
      assert a == [a[0]] + a[1..] && b == [b[0]] + b[1..];
      assert a == b <==> a[0] == b[0] && a[1..] == b[1..];
    } else {
      assert a == b == [];
      assert a + x == x && b + y == y;
    }
  }

  // ---------------------------------------------------------------- numbers

  function DigitChar(d: nat): (c: char)
    requires d < 10
    ensures '0' <= c <= '9'
  {
    ['0', '1', '2', '3', '4', '5', '6', '7', '8', '9'][d]
  }

  predicate IsDigit(c: char) { '0' <= c <= '9' }

  function DigitValue(c: char): nat
    requires IsDigit(c)
  {
    c as int - '0' as int
  }

  predicate AllDigits(s: string)
  {
    forall i :: 0 <= i < |s| ==> IsDigit(s[i])
  }

  /** The decimal digits of `n`, most significant first, without leading zeros. */
  function NatToDigits(n: nat): (s: string)
    ensures |s| >= 1 && AllDigits(s)
    ensures n >= 10 ==> s[0] != '0'
  {
    if n < 10 then [DigitChar(n)] else NatToDigits(n / 10) + [DigitChar(n % 10)]
  }

  /** The value of a string of decimal digits. */
  function DigitsValue(s: string): nat
    requires AllDigits(s)
  {
    if |s| == 0 then 0 else 10 * DigitsValue(s[..|s| - 1]) + DigitValue(s[|s| - 1])
  }

  lemma {:induction false} DigitsValueOfNatToDigits(n: nat)
    ensures DigitsValue(NatToDigits(n)) == n
  {
    var s := NatToDigits(n);
    if n >= 10 {
      DigitsValueOfNatToDigits(n / 10);
      assert s[..|s| - 1] == NatToDigits(n / 10);
    }
  }

  /** Kotlin `n.toString()` for an `Int`. */
  function IntToString(n: int): (s: string)
    ensures |s| >= 1
    ensures n >= 0 ==> s == NatToDigits(n)
    ensures n < 0 ==> s[0] == '-' && s[1..] == NatToDigits(-n)
  {
    if n < 0 then "-" + NatToDigits(-n) else NatToDigits(n)
  }

  /** Kotlin `s.toIntOrNull()` (and `s.toInt()`, which throws where this gives
      `None`): an optional sign followed by at least one digit, within the range of
      `Int`. */
  function ParseInt(s: string): (r: Option<Int32>)
    ensures r.Some? ==> |s| >= 1
    ensures r.Some? ==> (s[0] == '-' || s[0] == '+' || IsDigit(s[0])) && forall i :: 0 < i < |s| ==> IsDigit(s[i])
    ensures r.Some? ==> exists i :: 0 <= i < |s| && IsDigit(s[i])
  {
    if |s| == 0 then None
    else
      var signed := s[0] == '-' || s[0] == '+';
      var digits := if signed then s[1..] else s;
      if |digits| == 0 || !AllDigits(digits) then None
      else
        var v: int := if s[0] == '-' then -(DigitsValue(digits) as int) else DigitsValue(digits);
        if IntMin <= v <= IntMax then Some(v) else None
  }

  /** Printing an `Int` and parsing it back gives the same `Int`. */
  lemma ParseIntToString(n: Int32)
    ensures ParseInt(IntToString(n)) == Some(n)
  {
    var s := IntToString(n);
    if n < 0 {
      var m: nat := -(n as int);
      DigitsValueOfNatToDigits(m);
    } else {
      DigitsValueOfNatToDigits(n);
    }
  }

  /** `IntToString` is one-to-one. */
  lemma IntToStringInjective(a: Int32, b: Int32)
    requires IntToString(a) == IntToString(b)
    ensures a == b
  {
    ParseIntToString(a);
    ParseIntToString(b);
  }

  /** Kotlin `"%02d".format(n)` for a non-negative `n`: at least two digits,
      zero-padded on the left. */
  function Format02(n: nat): (s: string)
    ensures AllDigits(s) && |s| >= 2
  {
    if n < 10 then "0" + NatToDigits(n) else NatToDigits(n)
  }

  lemma Format02TwoDigits(n: nat)
    requires n < 100
    ensures Format02(n) == [DigitChar(n / 10), DigitChar(n % 10)]
  {
    if n >= 10 {
      assert NatToDigits(n / 10) == [DigitChar(n / 10)];
    }
  }

  lemma DigitCharOrder(a: nat, b: nat)
    requires a < 10 && b < 10
    ensures DigitChar(a) <= DigitChar(b) <==> a <= b
    ensures DigitChar(a) == DigitChar(b) <==> a == b
  {
  }

  lemma PlaceValueOrder(a: nat, b: nat)
    ensures a <= b <==> a / 10 < b / 10 || (a / 10 == b / 10 && a % 10 <= b % 10)
  {
  }

  /** Two numbers printed with the same number of digits compare as strings as
      they compare as numbers. */
  lemma {:induction false} NatToDigitsOrder(a: nat, b: nat)
    requires |NatToDigits(a)| == |NatToDigits(b)|
    ensures LexLe(NatToDigits(a), NatToDigits(b)) <==> a <= b
    ensures NatToDigits(a) == NatToDigits(b) <==> a == b
  {
    DigitsValueOfNatToDigits(a);
    DigitsValueOfNatToDigits(b);
    if a >= 10 && b >= 10 {
      NatToDigitsOrder(a / 10, b / 10);
      LexLeAppend(NatToDigits(a / 10), NatToDigits(b / 10), [DigitChar(a % 10)], [DigitChar(b % 10)]);
      DigitCharOrder(a % 10, b % 10);
      PlaceValueOrder(a, b);
    } else if a < 10 && b < 10 {
      DigitCharOrder(a, b);
    }
  }

  /** Two-character strings compare by their first character, then their second. */
  lemma TwoCharOrder(c1: char, c2: char, d1: char, d2: char)
    ensures LexLe([c1, c2], [d1, d2]) <==> c1 < d1 || (c1 == d1 && c2 <= d2)
  {
    LexLeAppend([c1], [d1], [c2], [d2]);
    assert [c1, c2] == [c1] + [c2] && [d1, d2] == [d1] + [d2];
  }

  /** Two numbers below 100 printed with `%02d` compare as strings as they compare
      as numbers. */
  lemma Format02Order(a: nat, b: nat)
    requires a < 100 && b < 100
    ensures LexLe(Format02(a), Format02(b)) <==> a <= b
    ensures Format02(a) == Format02(b) <==> a == b
  {
    var qa, ra, qb, rb := a / 10, a % 10, b / 10, b % 10;
    Format02TwoDigits(a);
    Format02TwoDigits(b);
    TwoCharOrder(DigitChar(qa), DigitChar(ra), DigitChar(qb), DigitChar(rb));
    DigitCharOrder(qa, qb);
    DigitCharOrder(ra, rb);
    PlaceValueOrder(a, b);
    assert a == 10 * qa + ra && b == 10 * qb + rb;
  }

  lemma FourDigits(n: nat)
    requires 1000 <= n <= 9999
    ensures |NatToDigits(n)| == 4
  {
    assert |NatToDigits(n / 1000)| == 1;
    assert |NatToDigits(n / 100)| == 2;
    assert |NatToDigits(n / 10)| == 3;
  }

  // ---------------------------------------------------------------- booleans

  /** Kotlin `b.toString()`. */
  function BoolToString(b: bool): string
  {
    if b then "true" else "false"
  }

  function AsciiLower(c: char): char
  {
    if 'A' <= c <= 'Z' then (c as int + 32) as char else c
  }

  /** Kotlin `s.toBoolean()`: true exactly when `s` equals "true", ignoring case. */
  predicate ToBoolean(s: string)
  {
    |s| == 4 && forall i :: 0 <= i < 4 ==> AsciiLower(s[i]) == "true"[i]
  }

  lemma ToBooleanOfBoolToString(b: bool)
    ensures ToBoolean(BoolToString(b)) == b
  {
    if !b {
      assert |BoolToString(b)| == 5;
    }
  }
}
