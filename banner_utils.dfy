/** `format_facts_count` of banner_utils.py: a count of facts in words,
    with the plural chosen by the count. The decimal rendering of an integer
    (Python's `str(int)`) is defined here together with its parser, so that
    the rendering can be shown to lose nothing. */
module BannerUtils {
  import opened Wrappers

  predicate IsDigit(c: char) {
    '0' <= c <= '9'
  }

  function DigitChar(d: nat): (c: char)
    requires d < 10
    ensures IsDigit(c)
  {
    ('0' as int + d) as char
  }

  function DigitValue(c: char): nat
    requires IsDigit(c)
  {
    c as int - '0' as int
  }

  /** The decimal digits of `n`, most significant first, without leading zeros */
  function NatDigits(n: nat): (s: string)
    ensures s != [] && forall i :: 0 <= i < |s| ==> IsDigit(s[i])
    decreases n
  {
    if n < 10 then [DigitChar(n)] else NatDigits(n / 10) + [DigitChar(n % 10)]
  }

  /** `str(n)`: a minus sign for negative numbers, then the digits */
  function Decimal(n: int): string {
    if n < 0 then "-" + NatDigits(-n) else NatDigits(n)
  }

  /** The value of a non-empty string of digits */
  function ParseNat(s: string): Option<nat>
    decreases |s|
  {
    if s == [] || !IsDigit(s[|s| - 1]) then None
    else if |s| == 1 then Some(DigitValue(s[0]))
    else
      match ParseNat(s[..|s| - 1])
      case Some(high) => Some(high * 10 + DigitValue(s[|s| - 1]))
      case None => None
  }

  /** `int(s)` restricted to an optional minus sign followed by digits */
  function ParseInt(s: string): Option<int> {
    if s != [] && s[0] == '-' then
      match ParseNat(s[1..])
      case Some(m) => Some(-(m as int))
      case None => None
    else
      match ParseNat(s)
      case Some(m) => Some(m)
      case None => None
  }

  lemma {:induction false} ParseNatDigits(n: nat)
    ensures ParseNat(NatDigits(n)) == Some(n)
    decreases n
  {
    if n >= 10 {
      ParseNatDigits(n / 10);
      var s := NatDigits(n);
      assert s[..|s| - 1] == NatDigits(n / 10);
      assert DigitValue(DigitChar(n % 10)) == n % 10;
    } else {
      assert DigitValue(DigitChar(n)) == n;
    }
  }

  /** Parsing undoes the decimal rendering */
  lemma ParseDecimal(n: int)
    ensures ParseInt(Decimal(n)) == Some(n)
  {
    if n < 0 {
      var t := NatDigits(-n);
      ParseNatDigits(-n);
      assert Decimal(n) == "-" + t;
      assert ("-" + t)[1..] == t;
      assert ParseNat(t) == Some(-n);
    } else {
      var s := NatDigits(n);
      ParseNatDigits(n);
      assert s[0] != '-' by {
        assert IsDigit(s[0]);
      }
      assert Decimal(n) == s;
    }
  }

  /** `format_facts_count(count)` */
  function FormatFactsCount(count: int): (r: string)
    ensures r != []
    ensures count == 0 <==> r == "no facts"
    ensures count == 1 <==> r == "1 fact"
    ensures count != 0 ==> Decimal(count) <= r
    ensures count != 0 && count != 1 ==> r == Decimal(count) + " facts"
  {
    if count == 0 then "no facts"
    else if count == 1 then "1 fact"
    else
      assert Decimal(count) + " facts" != "no facts" by {
        var d := Decimal(count);
        assert IsDigit(NatDigits(if count < 0 then -count else count)[0]);
        assert (d + " facts")[0] == d[0] && d[0] != 'n';
      }
      assert Decimal(count) + " facts" != "1 fact" by {
        assert |Decimal(count) + " facts"| >= 7;
      }
      Decimal(count) + " facts"
  }

  /** Reads a count back from its wording */
  function CountOf(s: string): Option<int> {
    if s == "no facts" then Some(0)
    else if s == "1 fact" then Some(1)
    else if |s| >= 6 && s[|s| - 6..] == " facts" then ParseInt(s[..|s| - 6])
    else None
  }

  /** The wording names its count unambiguously: reading it back gives the
      count, so different counts are never worded alike */
  lemma CountOfFormat(count: int)
    ensures CountOf(FormatFactsCount(count)) == Some(count)
  {
    if count != 0 && count != 1 {
      var r := FormatFactsCount(count);
      ParseDecimal(count);
      assert r[..|r| - 6] == Decimal(count);
      assert r[|r| - 6..] == " facts";
    }
  }

  lemma FormatInjective(a: int, b: int)
    requires FormatFactsCount(a) == FormatFactsCount(b)
    ensures a == b
  {
    CountOfFormat(a);
    CountOfFormat(b);
  }
}
