/**
 * Decimal text of integers, as the plugin produces it: `String.valueOf(int)`
 * (also used by string concatenation) and `String.format("%,d", int)`, whose
 * `,` flag inserts a grouping separator every three digits. Each printer has a
 * parser as its left inverse, which is how the summary line is shown to be
 * unambiguous.
 */
module Decimal {
  import opened Wrappers

  predicate IsDigit(c: char)
  {
    '0' <= c <= '9'
  }

  predicate AllDigits(s: string)
  {
    forall i | 0 <= i < |s| :: IsDigit(s[i])
  }

  function DigitValue(c: char): nat
    requires IsDigit(c)
  {
    c as int - '0' as int
  }

  function DigitChar(d: nat): (c: char)
    requires d < 10
    ensures IsDigit(c) && DigitValue(c) == d
  {
    ('0' as int + d) as char
  }

  /** Shortest decimal digits of `n`: at least one digit and no leading zero. */
  function NatToString(n: nat): (r: string)
    ensures |r| >= 1 && AllDigits(r)
    ensures r[0] == '0' <==> n == 0
    decreases n
  {
    if n < 10 then [DigitChar(n)] else NatToString(n / 10) + [DigitChar(n % 10)]
  }

  /** Text `String.valueOf` gives an int: a minus sign for negatives, then the digits. */
  predicate IsIntText(s: string)
  {
    || (|s| >= 1 && AllDigits(s))
    || (|s| >= 2 && s[0] == '-' && AllDigits(s[1..]))
  }

  function IntToString(i: int): (r: string)
    ensures IsIntText(r)
    ensures r[0] == '-' <==> i < 0
  {
    if i < 0 then "-" + NatToString(-i) else NatToString(i)
  }

  /** Value of a digit string, most significant digit first. */
  function DigitsValue(s: string): nat
    requires AllDigits(s)
  {
    if |s| == 0 then 0 else DigitsValue(s[..|s| - 1]) * 10 + DigitValue(s[|s| - 1])
  }

  function ParseNat(s: string): Option<nat>
  {
    if |s| >= 1 && AllDigits(s) then Some(DigitsValue(s)) else None
  }

  function ParseInt(s: string): Option<int>
  {
    if |s| >= 1 && s[0] == '-' then
      match ParseNat(s[1..])
      case Some(n) => Some(-(n as int))
      case None => None
    else
      match ParseNat(s)
      case Some(n) => Some(n)
      case None => None
  }

  lemma {:induction false} NatRoundTrip(n: nat)
    ensures ParseNat(NatToString(n)) == Some(n)
  {
    var s := NatToString(n);
    if n < 10 {
      assert s[..|s| - 1] == [];
    } else {
      NatRoundTrip(n / 10);
      assert s[..|s| - 1] == NatToString(n / 10);
      assert DigitsValue(s) == (n / 10) * 10 + n % 10;
    }
  }

  /** Parsing undoes printing, so distinct counts print differently. */
  lemma IntRoundTrip(i: int)
    ensures ParseInt(IntToString(i)) == Some(i)
  {
    if i < 0 {
      NatRoundTrip(-i);
      assert IntToString(i)[1..] == NatToString(-i);
    } else {
      NatRoundTrip(i);
    }
  }

  /** A character that is neither a digit nor '-' never occurs in an int's text. */
  lemma IntTextAvoids(s: string, c: char)
    requires IsIntText(s)
    requires !IsDigit(c) && c != '-'
    ensures c !in s
  {
    if !AllDigits(s) {
      assert s == [s[0]] + s[1..];
    }
  }

  // ---------------------------------------------------------------- grouping

  /**
   * Inserts ',' before each group of three digits counted from the right,
   * which is what the `,` flag of java.util.Formatter does to the digit
   * string in a locale whose grouping size is 3 and separator is ','.
   */
  function GroupDigits(d: string): string
    decreases |d|
  {
    if |d| <= 3 then d else GroupDigits(d[..|d| - 3]) + "," + d[|d| - 3..]
  }

  /**
   * `String.format("%,d", i)`: grouping only inserts separators into the
   * text `String.valueOf` gives.
   */
  function GroupInt(i: int): (r: string)
    ensures |r| >= 1 && (r[0] == '-' <==> i < 0)
    ensures RemoveCommas(r) == IntToString(i)
  {
    var n: nat := if i < 0 then -i else i;
    GroupDigitsUngroup(NatToString(n));
    GroupDigitsGrouped(NatToString(n));
    GroupedChars(GroupDigits(NatToString(n)), '-');
    if i < 0 then
      RemoveCommasAppend("-", GroupDigits(NatToString(n)));
      assert RemoveCommas("-") == "-" by { assert "-"[..0] == []; }
      "-" + GroupDigits(NatToString(n))
    else GroupDigits(NatToString(n))
  }

  /** One to three leading digits, then groups of exactly three digits each preceded by ','. */
  predicate ProperlyGrouped(s: string)
    decreases |s|
  {
    || (1 <= |s| <= 3 && AllDigits(s))
    || (|s| >= 5 && s[|s| - 4] == ',' && AllDigits(s[|s| - 3..]) && ProperlyGrouped(s[..|s| - 4]))
  }

  function RemoveCommas(s: string): (r: string)
    ensures ',' !in r
  {
    if |s| == 0 then []
    else RemoveCommas(s[..|s| - 1]) + (if s[|s| - 1] == ',' then [] else [s[|s| - 1]])
  }

  function ParseGrouped(s: string): Option<int>
  {
    if |s| >= 1 && s[0] == '-' then
      if ProperlyGrouped(s[1..]) then
        match ParseNat(RemoveCommas(s[1..]))
        case Some(n) => Some(-(n as int))
        case None => None
      else None
    else if ProperlyGrouped(s) then
      match ParseNat(RemoveCommas(s))
      case Some(n) => Some(n)
      case None => None
    else None
  }

  lemma {:induction false} RemoveCommasAppend(a: string, b: string)
    ensures RemoveCommas(a + b) == RemoveCommas(a) + RemoveCommas(b)
    decreases |b|
  {
    if |b| == 0 {
      assert a + b == a;
    } else {
      var b' := b[..|b| - 1];
      assert (a + b)[..|a + b| - 1] == a + b';
      RemoveCommasAppend(a, b');
    }
  }

  lemma {:induction false} RemoveCommasOfDigits(d: string)
    requires AllDigits(d)
    ensures RemoveCommas(d) == d
    decreases |d|
  {
    if |d| > 0 {
      RemoveCommasOfDigits(d[..|d| - 1]);
      assert d[..|d| - 1] + [d[|d| - 1]] == d;
    }
  }

  lemma RemoveTrailingComma(g: string)
    ensures RemoveCommas(g + ",") == RemoveCommas(g)
  {
    assert (g + ",")[..|g + ","| - 1] == g;
  }

  /** Grouping a non-empty digit string gives a properly grouped string. */
  lemma {:induction false} GroupDigitsGrouped(d: string)
    requires |d| >= 1 && AllDigits(d)
    ensures ProperlyGrouped(GroupDigits(d))
    decreases |d|
  {
    if |d| > 3 {
      var hi, lo := d[..|d| - 3], d[|d| - 3..];
      GroupDigitsGrouped(hi);
      var g := GroupDigits(hi);
      var r := g + "," + lo;
      assert r[..|r| - 4] == g;
      assert r[|r| - 3..] == lo;
      assert r[|r| - 4] == ',';
    }
  }

  /** Deleting the separators from grouped digits gives the digits back. */
  lemma {:induction false} GroupDigitsUngroup(d: string)
    requires AllDigits(d)
    ensures RemoveCommas(GroupDigits(d)) == d
    decreases |d|
  {
    if |d| <= 3 {
      RemoveCommasOfDigits(d);
    } else {
      var hi, lo := d[..|d| - 3], d[|d| - 3..];
      GroupDigitsUngroup(hi);
      var g := GroupDigits(hi);
      assert GroupDigits(d) == (g + ",") + lo;
      RemoveCommasAppend(g + ",", lo);
      RemoveTrailingComma(g);
      RemoveCommasOfDigits(lo);
      assert hi + lo == d;
    }
  }

  /** Every character of a properly grouped string is a digit or ','. */
  lemma {:induction false} GroupedChars(s: string, c: char)
    requires ProperlyGrouped(s)
    requires !IsDigit(c) && c != ','
    ensures c !in s
    decreases |s|
  {
    if |s| >= 5 && s[|s| - 4] == ',' && AllDigits(s[|s| - 3..]) && ProperlyGrouped(s[..|s| - 4]) {
      GroupedChars(s[..|s| - 4], c);
      assert s == s[..|s| - 4] + [s[|s| - 4]] + s[|s| - 3..];
    }
  }

  /** The grouped text of `i` is read back as `i`. */
  lemma GroupedRoundTrip(i: int)
    ensures ParseGrouped(GroupInt(i)) == Some(i)
  {
    var n: nat := if i < 0 then -i else i;
    var d := NatToString(n);
    GroupDigitsGrouped(d);
    GroupDigitsUngroup(d);
    NatRoundTrip(n);
    if i < 0 {
      assert GroupInt(i)[1..] == GroupDigits(d);
    } else {
      var g := GroupDigits(d);
      if |g| >= 1 && g[0] == '-' {
        GroupedChars(g, '-');
        assert false;
      }
    }
  }

  /** A character that is neither a digit, ',' nor '-' never occurs in grouped text. */
  lemma GroupedAvoids(i: int, c: char)
    requires !IsDigit(c) && c != ',' && c != '-'
    ensures c !in GroupInt(i)
  {
    var n: nat := if i < 0 then -i else i;
    GroupDigitsGrouped(NatToString(n));
    GroupedChars(GroupDigits(NatToString(n)), c);
  }

}
