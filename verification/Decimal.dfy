/** Decimal text of counters: strconv.FormatInt and strconv.ParseInt in base 10. */
module Decimal {
  import opened Wrappers
  import Int64

  function DigitChar(d: nat): (c: char)
    requires d < 10
    ensures '0' <= c <= '9'
  {
    '0' + d as char
  }

  predicate IsDigit(c: char) {
    '0' <= c <= '9'
  }

  /** The digits of a number, most significant first, without leading zeros. */
  function Digits(n: nat): (s: string)
    ensures s != [] && forall i :: 0 <= i < |s| ==> IsDigit(s[i])
  {
    if n < 10 then [DigitChar(n)] else Digits(n / 10) + [DigitChar(n % 10)]
  }

  function Format(n: int): string {
    if n < 0 then "-" + Digits(-n) else Digits(n)
  }

  /** The number a digit string denotes; None for an empty string or a non-digit. */
  function Magnitude(s: string): Option<nat> {
    if s == [] || !IsDigit(s[|s| - 1]) then None
    else
      var d := (s[|s| - 1] - '0') as nat;
      if |s| == 1 then Some(d)
      else match Magnitude(s[..|s| - 1])
           case None => None
           case Some(m) => Some(10 * m + d)
  }

  /** An optional sign and digits, in the range of int64. */
  function Parse(s: string): Option<int> {
    var negative := s != [] && s[0] == '-';
    var digits := if s != [] && (s[0] == '-' || s[0] == '+') then s[1..] else s;
    match Magnitude(digits)
    case None => None
    case Some(m) =>
      var n: int := if negative then -(m as int) else m;
      if Int64.InRange(n) then Some(n) else None
  }

  /** Base ten: a digit appended to digits is worth ten times them plus itself. */
  lemma DigitsAreBaseTen(n: nat, d: nat)
    requires d < 10
    ensures Digits(d) == ["0123456789"[d]]
    ensures n > 0 ==> Digits(10 * n + d) == Digits(n) + Digits(d)
  {
    assert (10 * n + d) / 10 == n && (10 * n + d) % 10 == d;
  }

  /** What ParseInt accepts and what not: a plus sign and leading zeros, but no bare
      sign, no empty text and nothing that is not a digit. */
  lemma ParseAccepts(s: string)
    requires s != "" && forall i :: 0 <= i < |s| ==> IsDigit(s[i])
    ensures Parse("+" + s) == Parse(s) == Parse("0" + s)
    ensures Parse("-" + s).Some? && Parse(s).Some? ==> Parse("-" + s).value == -Parse(s).value
    ensures Parse("") == Parse("+") == Parse("-") == None
  {
    assert ("+" + s)[1..] == s && ("-" + s)[1..] == s && ("+")[1..] == "" && ("-")[1..] == "";
    LeadingZero(s);
    hide Magnitude;
    assert IsDigit(s[0]);
  }

  lemma {:induction false} LeadingZero(s: string)
    requires s != "" && forall i :: 0 <= i < |s| ==> IsDigit(s[i])
    ensures Magnitude("0" + s) == Magnitude(s) && Magnitude("") == None
  {
    var z := "0" + s;
    assert z[..|z| - 1] == "0" + s[..|s| - 1];
    if |s| > 1 {
      LeadingZero(s[..|s| - 1]);
    } else {
      assert z[..1] == "0" && Magnitude("0") == Some(0);
    }
  }

  lemma {:induction false} NonDigitIsRefused(s: string, i: nat)
    requires i < |s| && !IsDigit(s[i])
    ensures Magnitude(s) == None
  {
    if i < |s| - 1 {
      NonDigitIsRefused(s[..|s| - 1], i);
    }
  }

  lemma {:induction false} MagnitudeOfDigits(n: nat)
    ensures Magnitude(Digits(n)) == Some(n)
  {
    var s := Digits(n);
    if n >= 10 {
      MagnitudeOfDigits(n / 10);
      assert s[..|s| - 1] == Digits(n / 10);
    }
  }

  /** Parsing undoes printing exactly on the int64 numbers. */
  lemma ParseUndoesFormat(n: int)
    ensures Parse(Format(n)) == if Int64.InRange(n) then Some(n) else None
  {
    hide Magnitude, Digits;
    if n < 0 {
      MagnitudeOfDigits(-n);
      assert Format(n)[1..] == Digits(-n);
    } else {
      MagnitudeOfDigits(n);
      assert IsDigit(Digits(n)[0]);
    }
  }
}
