/**
 * Integers as PHP writes them: the decimal string an integer converts to
 * (as when a year is concatenated into a URL) and `number_format` with its
 * default arguments, which groups the digits in threes with "," and prints
 * no decimals.
 */
module Numbers {
  import opened Wrappers
  import opened Text

  predicate IsDigit(c: char) {
    '0' <= c <= '9'
  }

  predicate AllDigits(s: string) {
    forall i :: 0 <= i < |s| ==> IsDigit(s[i])
  }

  /** Digits of a natural number as PHP prints it: at least one, no leading zero. */
  predicate Canonical(s: string) {
    |s| > 0 && AllDigits(s) && (|s| > 1 ==> s[0] != '0')
  }

  function DigitChar(d: nat): (c: char)
    requires d < 10
    ensures IsDigit(c) && c as int - '0' as int == d
  {
    ('0' as int + d) as char
  }

  function DigitValue(c: char): (d: nat)
    requires IsDigit(c)
    ensures d < 10 && DigitChar(d) == c
  {
    c as int - '0' as int
  }

  /** The decimal digits of n, most significant first. */
  function Digits(n: nat): (s: string)
    ensures Canonical(s)
    ensures s[0] == '0' <==> n == 0
    decreases n
  {
    if n < 10 then [DigitChar(n)] else Digits(n / 10) + [DigitChar(n % 10)]
  }

  /** The number a string of decimal digits denotes. */
  function Value(s: string): nat
    requires AllDigits(s)
    decreases |s|
  {
    if |s| == 0 then 0 else Value(s[..|s| - 1]) * 10 + DigitValue(s[|s| - 1])
  }

  /** Reading back the digits of n gives n. */
  lemma {:induction false} ValueOfDigits(n: nat)
    ensures Value(Digits(n)) == n
    decreases n
  {
    if n >= 10 {
      ValueOfDigits(n / 10);
      var s := Digits(n);
      assert s[..|s| - 1] == Digits(n / 10);
    }
  }

  /** A canonical digit string is the digits of the number it denotes. */
  lemma {:induction false} DigitsOfValue(s: string)
    requires Canonical(s)
    ensures Digits(Value(s)) == s
    decreases |s|
  {
    if |s| > 1 {
      var p := s[..|s| - 1];
      assert p[0] == s[0];
      DigitsOfValue(p);
      assert Value(p) > 0 by {
        ValuePositive(p);
      }
      assert s == p + [s[|s| - 1]];
    }
  }

  /** A digit string that does not start with 0 denotes a positive number. */
  lemma {:induction false} ValuePositive(s: string)
    requires |s| > 0 && AllDigits(s) && s[0] != '0'
    ensures Value(s) > 0
    decreases |s|
  {
    if |s| > 1 {
      var p := s[..|s| - 1];
      assert p[0] == s[0];
      ValuePositive(p);
    }
  }

  function Abs(n: int): nat {
    if n < 0 then -n else n
  }

  /** The string PHP converts an integer to: an optional "-" and the digits. */
  function DecimalString(n: int): string {
    if n < 0 then "-" + Digits(-n) else Digits(n)
  }

  /** Reads an integer written as DecimalString writes it, and nothing else. */
  function ParseInt(s: string): Option<int> {
    if |s| > 0 && s[0] == '-' then
      if Canonical(s[1..]) && s[1] != '0' then Some(-(Value(s[1..]) as int)) else None
    else if Canonical(s) then Some(Value(s))
    else None
  }

  /** ParseInt undoes DecimalString, and accepts nothing DecimalString does not write. */
  lemma DecimalStringRoundTrip(n: int, s: string)
    ensures ParseInt(DecimalString(n)) == Some(n)
    ensures ParseInt(s) == Some(n) ==> DecimalString(n) == s
  {
    ValueOfDigits(Abs(n));
    if n < 0 {
      assert DecimalString(n)[1..] == Digits(-n);
    }
    if ParseInt(s) == Some(n) {
      if |s| > 0 && s[0] == '-' {
        DigitsOfValue(s[1..]);
        ValuePositive(s[1..]);
        assert s == "-" + s[1..];
      } else {
        DigitsOfValue(s);
      }
    }
  }

  /** The concatenation of the parts, in order. */
  function Concat(parts: seq<string>): string {
    if |parts| == 0 then "" else parts[0] + Concat(parts[1..])
  }

  /**
   * The digits of a number cut into groups of three from the right, as
   * number_format groups them: the first group has one to three digits and
   * every other group exactly three; nothing is lost or reordered.
   */
  function Groups(d: string): (gs: seq<string>)
    requires |d| > 0 && AllDigits(d)
    ensures |gs| > 0 && 1 <= |gs[0]| <= 3
    ensures |d| % 3 == 0 ==> |gs[0]| == 3
    ensures forall i :: 1 <= i < |gs| ==> |gs[i]| == 3
    ensures forall i :: 0 <= i < |gs| ==> AllDigits(gs[i])
    ensures Concat(gs) == d
    decreases |d|
  {
    if |d| <= 3 then [d]
    else
      var k := if |d| % 3 == 0 then 3 else |d| % 3;
      [d[..k]] + Groups(d[k..])
  }

  function Sign(n: int): string {
    if n < 0 then "-" else ""
  }

  /**
   * PHP number_format(n) for an integer n: a "-" for a negative number, then
   * the digit groups of |n| joined by ",".
   */
  function NumberFormat(n: int): string {
    Sign(n) + Join(Groups(Digits(Abs(n))), ",")
  }

  /** The string without its commas. */
  function StripCommas(s: string): (r: string)
    ensures |r| <= |s|
  {
    if |s| == 0 then ""
    else if s[0] == ',' then StripCommas(s[1..])
    else [s[0]] + StripCommas(s[1..])
  }

  lemma {:induction false} StripCommasAppend(a: string, b: string)
    ensures StripCommas(a + b) == StripCommas(a) + StripCommas(b)
    decreases |a|
  {
    if |a| > 0 {
      assert (a + b)[1..] == a[1..] + b;
      StripCommasAppend(a[1..], b);
    } else {
      assert a + b == b;
    }
  }

  lemma {:induction false} StripCommasOfDigits(s: string)
    requires AllDigits(s)
    ensures StripCommas(s) == s
    decreases |s|
  {
    if |s| > 0 {
      StripCommasOfDigits(s[1..]);
      assert s == [s[0]] + s[1..];
    }
  }

  /** Removing the separators from digit groups joined by "," gives their concatenation. */
  lemma {:induction false} StripCommasJoin(gs: seq<string>)
    requires forall i :: 0 <= i < |gs| ==> AllDigits(gs[i])
    ensures StripCommas(Join(gs, ",")) == Concat(gs)
    decreases |gs|
  {
    if |gs| == 1 {
      StripCommasOfDigits(gs[0]);
      assert Concat(gs) == gs[0] + "";
    } else if |gs| > 1 {
      StripCommasJoin(gs[1..]);
      StripCommasOfDigits(gs[0]);
      StripCommasAppend(gs[0] + ",", Join(gs[1..], ","));
      StripCommasAppend(gs[0], ",");
    }
  }

  /** Removing the thousands separators from number_format(n) gives the plain decimal string of n. */
  lemma NumberFormatDigits(n: int)
    ensures StripCommas(NumberFormat(n)) == DecimalString(n)
    ensures ParseInt(StripCommas(NumberFormat(n))) == Some(n)
  {
    var gs := Groups(Digits(Abs(n)));
    StripCommasJoin(gs);
    StripCommasAppend(Sign(n), Join(gs, ","));
    DecimalStringRoundTrip(n, "");
  }

  /** number_format(n) without its sign, if any. */
  function Unsigned(r: string): string {
    if |r| > 0 && r[0] == '-' then r[1..] else r
  }

  /** Cutting the unsigned part of number_format(n) at its commas gives back the digit groups of |n|. */
  lemma SplitNumberFormat(n: int)
    ensures Split(Unsigned(NumberFormat(n)), ",") == Groups(Digits(Abs(n)))
  {
    var gs := Groups(Digits(Abs(n)));
    forall i | 0 <= i < |gs|
      ensures SepFree(gs[i], ",")
    {
      AvoidsFirstIsSepFree(gs[i], ",");
    }
    SplitJoin(gs, ",");
    assert Join(gs, ",")[0] == gs[0][0];
    assert Unsigned(NumberFormat(n)) == Join(gs, ",");
  }

  /**
   * number_format(n) is an optional "-", present exactly when n is negative,
   * followed by digit groups separated by ",": the first group has one to
   * three digits, every later group three, and together they are the digits
   * of |n|.
   */
  lemma NumberFormatGroups(n: int)
    ensures var r := NumberFormat(n);
      |r| > 0 && (r[0] == '-' <==> n < 0)
    ensures var gs := Split(Unsigned(NumberFormat(n)), ",");
      1 <= |gs[0]| <= 3 && (forall i :: 1 <= i < |gs| ==> |gs[i]| == 3) &&
      (forall i :: 0 <= i < |gs| ==> AllDigits(gs[i])) &&
      Concat(gs) == Digits(Abs(n))
  {
    SplitNumberFormat(n);
    var gs := Groups(Digits(Abs(n)));
    assert Join(gs, ",")[0] == gs[0][0];
  }

  /** Every "," of a string is followed by a digit. */
  predicate CommasBeforeDigits(s: string) {
    forall i :: 0 <= i < |s| && s[i] == ',' ==> i + 1 < |s| && IsDigit(s[i + 1])
  }

  /** Non-empty digit groups joined by "," hold only digits and commas, each comma before a digit. */
  lemma {:induction false} JoinGroupsShape(gs: seq<string>)
    requires |gs| > 0
    requires forall i :: 0 <= i < |gs| ==> |gs[i]| > 0 && AllDigits(gs[i])
    ensures var r := Join(gs, ",");
      |r| > 0 && IsDigit(r[0]) && CommasBeforeDigits(r) &&
      forall i :: 0 <= i < |r| ==> IsDigit(r[i]) || r[i] == ','
    decreases |gs|
  {
    if |gs| > 1 {
      JoinGroupsShape(gs[1..]);
      var t := Join(gs[1..], ",");
      var r := gs[0] + "," + t;
      assert Join(gs, ",") == r;
      forall i | 0 <= i < |r|
        ensures IsDigit(r[i]) || r[i] == ','
        ensures r[i] == ',' ==> i + 1 < |r| && IsDigit(r[i + 1])
      {
        if i < |gs[0]| {
          assert r[i] == gs[0][i];
          if i + 1 < |gs[0]| {
            assert r[i + 1] == gs[0][i + 1];
          }
        } else if i > |gs[0]| {
          assert r[i] == t[i - |gs[0]| - 1];
          if i + 1 < |r| {
            assert r[i + 1] == t[i - |gs[0]|];
          }
        } else {
          assert r[i + 1] == t[0];
        }
      }
    }
  }

  /**
   * number_format(n) holds only digits and commas after an optional leading
   * "-", and every comma stands before a digit.
   */
  lemma NumberFormatShape(n: int)
    ensures var r := NumberFormat(n);
      |r| > 0 && CommasBeforeDigits(r) &&
      forall i :: 0 <= i < |r| ==> IsDigit(r[i]) || r[i] == ',' || (i == 0 && r[i] == '-')
  {
    var gs := Groups(Digits(Abs(n)));
    JoinGroupsShape(gs);
    var j := Join(gs, ",");
    var r := NumberFormat(n);
    assert r == Sign(n) + j;
    if n < 0 {
      forall i | 0 <= i < |r|
        ensures IsDigit(r[i]) || r[i] == ',' || (i == 0 && r[i] == '-')
        ensures r[i] == ',' ==> i + 1 < |r| && IsDigit(r[i + 1])
      {
        if i > 0 {
          assert r[i] == j[i - 1];
          if i + 1 < |r| {
            assert r[i + 1] == j[i];
          }
        }
      }
    }
  }

  lemma DigitsExample()
    ensures Digits(1234) == "1234" && Digits(1234567) == "1234567"
  {
    assert Digits(1) == "1";
    assert Digits(12) == Digits(1) + "2";
    assert Digits(123) == Digits(12) + "3";
    assert Digits(1234) == Digits(123) + "4";
    assert Digits(12345) == Digits(1234) + "5";
    assert Digits(123456) == Digits(12345) + "6";
    assert Digits(1234567) == Digits(123456) + "7";
  }

  lemma GroupsExample()
    ensures Groups("1234") == ["1", "234"]
    ensures Groups("1234567") == ["1", "234", "567"]
  {
    assert "1234"[..1] == "1" && "1234"[1..] == "234";
    assert "234567"[..3] == "234" && "234567"[3..] == "567";
    assert Groups("234567") == ["234", "567"];
    assert "1234567"[..1] == "1" && "1234567"[1..] == "234567";
  }

  /** Two sample values: 1234567 prints as 1,234,567 and -1234 as -1,234. */
  lemma NumberFormatExample()
    ensures NumberFormat(1234567) == "1,234,567"
    ensures NumberFormat(-1234) == "-1,234"
  {
    DigitsExample();
    GroupsExample();
    assert Join(["1", "234", "567"], ",") == "1,234,567";
    assert Join(["1", "234"], ",") == "1,234";
  }
}
