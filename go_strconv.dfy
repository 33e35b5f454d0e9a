/** Decimal integers as Go reads and writes them: `strconv.Atoi` on a
    64-bit platform, and the `%d` rendering of `fmt` (the same text as
    `strconv.Itoa`).
 */
module GoStrconv {
  import opened Outcomes

  /** Bounds of Go's `int` on a 64-bit platform. */
  const MinInt: int := -0x8000_0000_0000_0000
  const MaxInt: int := 0x7FFF_FFFF_FFFF_FFFF

  predicate IsDigit(c: char) {
    '0' <= c <= '9'
  }

  predicate AllDigits(s: string) {
    forall i :: 0 <= i < |s| ==> IsDigit(s[i])
  }

  function DigitValue(c: char): (d: nat)
    requires IsDigit(c)
    ensures d < 10
  {
    (c as int) - ('0' as int)
  }

  function DigitChar(d: nat): (c: char)
    requires d < 10
    ensures IsDigit(c) && DigitValue(c) == d
  {
    (('0' as int) + d) as char
  }

  /** The value of a run of decimal digits, most significant first. */
  function DigitsValue(ds: string): nat
    requires AllDigits(ds)
  {
    if ds == [] then 0 else DigitsValue(ds[..|ds| - 1]) * 10 + DigitValue(ds[|ds| - 1])
  }

  /** The decimal digits of `n`, without leading zeros. */
  function Digits(n: nat): (ds: string)
    ensures |ds| >= 1 && AllDigits(ds)
    ensures ds[0] != '0' || n == 0
    ensures DigitsValue(ds) == n
  {
    if n < 10 then [DigitChar(n)]
    else
      var ds := Digits(n / 10) + [DigitChar(n % 10)];
      assert ds[..|ds| - 1] == Digits(n / 10);
      ds
  }

  /** `%d` of an `int`: a minus sign for negative numbers, then the digits. */
  function FormatInt(n: int): (s: string)
    ensures |s| >= 1
    ensures s[0] == '-' <==> n < 0
    ensures var d := if n < 0 then s[1..] else s;
      && |d| >= 1 && AllDigits(d) && (d[0] != '0' || n == 0)
      && DigitsValue(d) == (if n < 0 then -n else n)
  {
    if n < 0 then "-" + Digits(-n) else Digits(n)
  }

  /** `strconv.Atoi`: an optional `+` or `-`, then one or more decimal digits
      (leading zeros allowed), whose value must fit a 64-bit `int`; anything
      else, the empty string included, is an error. */
  function Atoi(s: string): (r: Option<int>)
    ensures r.Some? ==> MinInt <= r.value <= MaxInt
    ensures r.Some? ==> |s| >= 1 && (IsDigit(s[0]) || s[0] == '+' || s[0] == '-')
    ensures r.Some? ==>
      var d := if s[0] == '-' || s[0] == '+' then s[1..] else s;
      && |d| >= 1 && AllDigits(d)
      && r.value == (if s[0] == '-' then -(DigitsValue(d) as int) else DigitsValue(d) as int)
    ensures var d := if |s| > 0 && (s[0] == '-' || s[0] == '+') then s[1..] else s;
      |d| == 0 || !AllDigits(d) ==> r.None?
    ensures var d := if |s| > 0 && (s[0] == '-' || s[0] == '+') then s[1..] else s;
      |d| >= 1 && AllDigits(d)
      && MinInt <= (if s[0] == '-' then -(DigitsValue(d) as int) else DigitsValue(d) as int) <= MaxInt
      ==> r.Some?
  {
    var signed := |s| > 0 && (s[0] == '-' || s[0] == '+');
    var digits := if signed then s[1..] else s;
    if |digits| == 0 || !AllDigits(digits) then None
    else
      var v: int := if signed && s[0] == '-' then -(DigitsValue(digits) as int) else DigitsValue(digits);
      if MinInt <= v <= MaxInt then Some(v) else None
  }

  /** Reading back a rendered `int` gives the same number. */
  lemma AtoiOfFormatInt(n: int)
    requires MinInt <= n <= MaxInt
    ensures Atoi(FormatInt(n)) == Some(n)
  {
    var s := FormatInt(n);
    var d := if n < 0 then s[1..] else s;
    assert s[0] != '+' && (s[0] == '-' <==> n < 0);
    assert d == (if s[0] == '-' || s[0] == '+' then s[1..] else s);
    assert (if s[0] == '-' then -(DigitsValue(d) as int) else DigitsValue(d) as int) == n;
  }

  /** A run of digits that does not start with `0` has a positive value. */
  lemma {:induction false} LeadingDigitPositive(ds: string)
    requires |ds| >= 1 && AllDigits(ds) && ds[0] != '0'
    ensures DigitsValue(ds) > 0
    decreases |ds|
  {
    if |ds| > 1 {
      var init := ds[..|ds| - 1];
      LeadingDigitPositive(init);
    }
  }

  /** Rendering the value of a canonical digit run (no leading zero) gives
      the run back. */
  lemma {:induction false} DigitsOfValue(ds: string)
    requires |ds| >= 1 && AllDigits(ds) && (ds[0] != '0' || |ds| == 1)
    ensures Digits(DigitsValue(ds)) == ds
    decreases |ds|
  {
    var last := ds[|ds| - 1];
    if |ds| == 1 {
      assert DigitChar(DigitValue(last)) == last;
    } else {
      var init := ds[..|ds| - 1];
      LeadingDigitPositive(init);
      DigitsOfValue(init);
      var v := DigitsValue(ds);
      assert v / 10 == DigitsValue(init) && v % 10 == DigitValue(last);
      assert DigitChar(DigitValue(last)) == last;
      assert ds == init + [last];
    }
  }

  /** The other direction of the round trip: a canonical decimal text
      (no `+`, no leading zero, no `-0`) that `Atoi` accepts is exactly the
      rendering of its value. */
  lemma FormatIntOfAtoi(s: string)
    requires Atoi(s).Some?
    requires s[0] != '+'
    requires s[0] == '-' ==> |s| >= 2 && s[1] != '0'
    requires IsDigit(s[0]) ==> s[0] != '0' || |s| == 1
    ensures FormatInt(Atoi(s).value) == s
  {
    if s[0] == '-' {
      DigitsOfValue(s[1..]);
      LeadingDigitPositive(s[1..]);
    } else {
      DigitsOfValue(s);
    }
  }
}
