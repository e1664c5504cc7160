/** Signed decimal integers: the `%d` verb and strconv.ParseInt(s, 10, 64). */
module Decimal {
  import opened Wrappers
  import opened Words

  predicate IsDigit(c: char) {
    '0' <= c <= '9'
  }

  predicate AllDigits(s: string) {
    forall i | 0 <= i < |s| :: IsDigit(s[i])
  }

  function DigitChar(d: nat): (c: char)
    requires d < 10
    ensures IsDigit(c)
  {
    '0' + d as char
  }

  function FormatNat(n: nat): (s: string)
    ensures s != "" && AllDigits(s)
  {
    if n < 10 then [DigitChar(n)] else FormatNat(n / 10) + [DigitChar(n % 10)]
  }

  function Format(n: int): (s: string)
    ensures s != ""
    ensures n >= 0 ==> AllDigits(s)
    ensures n < 0 ==> s[0] == '-' && AllDigits(s[1..])
  {
    if n < 0 then "-" + FormatNat(-n) else FormatNat(n)
  }

  /** Value of a digit string, most significant digit first. */
  function Digits(s: string): nat
    requires AllDigits(s)
  {
    if s == "" then 0 else Digits(s[..|s| - 1]) * 10 + (s[|s| - 1] - '0') as nat
  }

  function ParseDigits(s: string): Option<nat> {
    if s != "" && AllDigits(s) then Some(Digits(s)) else None
  }

  /** One optional sign, at least one digit, and a value within 64 bits. */
  function ParseInt(s: string): (r: Option<int>)
    ensures r.Some? ==> IsInt64(r.value)
  {
    if s == "" then None
    else
      var negative := s[0] == '-';
      var body := if negative || s[0] == '+' then s[1..] else s;
      match ParseDigits(body)
      case None => None
      case Some(m) =>
        var v: int := if negative then 0 - m else m;
        if IsInt64(v) then Some(v) else None
  }

  lemma {:induction false} DigitsOfFormat(n: nat)
    ensures Digits(FormatNat(n)) == n
  {
    if n >= 10 {
      DigitsOfFormat(n / 10);
      assert FormatNat(n)[..|FormatNat(n)| - 1] == FormatNat(n / 10);
    } else {
      assert FormatNat(n)[..0] == "";
    }
  }

  /** Decimal notation: a leading minus, then the digits, the last one in front of none. */
  lemma FormatIs(n: int)
    ensures n < 0 ==> Format(n) == "-" + Format(-n)
    ensures 0 <= n < 10 ==> Format(n) == [['0', '1', '2', '3', '4', '5', '6', '7', '8', '9'][n]]
    ensures n >= 10 ==> Format(n) == Format(n / 10) + Format(n % 10)
  {
  }

  lemma Int64Is(n: int)
    ensures IsInt64(n) <==> -9223372036854775808 <= n <= 9223372036854775807
  {
  }

  /** Printing and parsing back is the identity on 64-bit integers. */
  lemma ParseFormat(n: int)
    requires IsInt64(n)
    ensures ParseInt(Format(n)) == Some(n)
  {
    if n < 0 {
      DigitsOfFormat(-n);
      assert Format(n)[1..] == FormatNat(-n);
    } else {
      DigitsOfFormat(n);
    }
  }

  /** A number too large for 64 bits is refused, not truncated. */
  lemma ParseOutOfRange(n: int)
    requires !IsInt64(n)
    ensures ParseInt(Format(n)) == None
  {
    if n < 0 {
      DigitsOfFormat(-n);
      assert Format(n)[1..] == FormatNat(-n);
    } else {
      DigitsOfFormat(n);
    }
  }

  /** What parses: an optional sign, at least one digit, nothing else, and a value within 64 bits. */
  lemma ParseIntIff(s: string)
    ensures var signed := s != "" && (s[0] == '-' || s[0] == '+');
            var body := if signed then s[1..] else s;
            && (ParseInt(s).Some? ==> body != "" && forall i | 0 <= i < |body| :: '0' <= body[i] <= '9')
            && (body != "" && (forall i | 0 <= i < |body| :: '0' <= body[i] <= '9') ==>
                  var m: int := if s[0] == '-' then 0 - Digits(body) else Digits(body);
                  ParseInt(s) == if -0x8000_0000_0000_0000 <= m < 0x8000_0000_0000_0000 then Some(m) else None)
  {
  }

  /** Digits weigh ten times the ones to their right. */
  lemma DigitsAppend(s: string, c: char)
    requires AllDigits(s) && '0' <= c <= '9'
    ensures AllDigits(s + [c]) && Digits(s + [c]) == Digits(s) * 10 + (c as int - '0' as int)
  {
    assert (s + [c])[..|s|] == s;
  }
}
