/** Go's base-10 integer formatting (`%d`) and `strconv.ParseInt(s, 10, 64)`. */
module Decimal {
  import opened Common

  const MIN_INT64: int := -0x8000_0000_0000_0000
  const MAX_INT64: int := 0x7fff_ffff_ffff_ffff

  function Digit(d: nat): char
    requires d < 10
  {
    ('0' as int + d) as char
  }

  function FormatNat(n: nat): string {
    if n < 10 then [Digit(n)] else FormatNat(n / 10) + [Digit(n % 10)]
  }

  function FormatInt(n: int): string {
    if n < 0 then "-" + FormatNat(-n) else FormatNat(n)
  }

  /** The value of a non-empty string of ASCII digits, None for anything else. */
  function ParseDigits(s: string): Option<nat> {
    if s == "" then None
    else
      var last := s[|s| - 1];
      if !('0' <= last <= '9') then None
      else
        var d := last as int - '0' as int;
        if |s| == 1 then Some(d)
        else match ParseDigits(s[..|s| - 1])
          case None => None
          case Some(hi) => Some(10 * hi + d)
  }

  /** An optional sign followed by digits. */
  function ParseSigned(s: string): Option<int> {
    if s == "" then None
    else
      var digits := ParseDigits(if s[0] == '-' || s[0] == '+' then s[1..] else s);
      if digits.None? then None
      else if s[0] == '-' then Some(0 - digits.value)
      else Some(digits.value)
  }

  /** Out-of-range values are an error, as are malformed ones. */
  function ParseInt64(s: string): Option<int> {
    match ParseSigned(s)
    case None => None
    case Some(v) => if MIN_INT64 <= v <= MAX_INT64 then Some(v) else None
  }

  lemma {:induction false} ParseFormatNat(n: nat)
    ensures FormatNat(n) != "" && '0' <= FormatNat(n)[0] <= '9'
    ensures ParseDigits(FormatNat(n)) == Some(n)
  {
    if n >= 10 {
      var s := FormatNat(n);
      ParseFormatNat(n / 10);
      assert s[..|s| - 1] == FormatNat(n / 10);
    }
  }

  lemma {:induction false} ParseFormat(n: int)
    ensures ParseSigned(FormatInt(n)) == Some(n)
  {
    if n < 0 {
      ParseFormatNat(-n);
      assert FormatInt(n)[1..] == FormatNat(-n);
    } else {
      ParseFormatNat(n);
    }
  }

  /** What the relay writes as `outbox_id` the worker reads back unchanged. */
  lemma ParseInt64RoundTrip(n: int)
    ensures ParseInt64(FormatInt(n)) == if MIN_INT64 <= n <= MAX_INT64 then Some(n) else None
  {
    ParseFormat(n);
  }

  lemma FormatInjective(a: int, b: int)
    requires FormatInt(a) == FormatInt(b)
    ensures a == b
  {
    ParseFormat(a);
    ParseFormat(b);
  }

  lemma {:induction false} FormatNatDigits(n: nat)
    ensures forall i :: 0 <= i < |FormatNat(n)| ==> '0' <= FormatNat(n)[i] <= '9'
  {
    if n >= 10 { FormatNatDigits(n / 10); }
  }

  /** Decimal notation: the ten digits, the last digit of a longer number after the rest, and
      a minus sign for negative numbers. */
  lemma FormatIsDecimal(n: nat)
    ensures n < 10 ==> FormatInt(n) == ["0123456789"[n]]
    ensures n >= 10 ==> FormatInt(n) == FormatInt(n / 10) + ["0123456789"[n % 10]]
    ensures n >= 1 ==> FormatInt(0 - n) == "-" + FormatInt(n)
  {
  }

  /** What ParseInt makes of signs, of text that is no number, and of the ends of its range. */
  lemma ParseInt64Cases(s: string)
    ensures ParseInt64("") == ParseInt64("-") == ParseInt64("+") == None
    ensures s != "" && !('0' <= s[|s| - 1] <= '9') ==> ParseInt64(s) == None
    ensures s != "" && '0' <= s[0] <= '9' ==> ParseInt64("+" + s) == ParseInt64(s)
    ensures ParseInt64(s).Some? ==> -0x8000_0000_0000_0000 <= ParseInt64(s).value <= 0x7fff_ffff_ffff_ffff
  {
    if s != "" {
      var digits := if s[0] == '-' || s[0] == '+' then s[1..] else s;
      assert digits != "" ==> digits[|digits| - 1] == s[|s| - 1];
      assert ("+" + s)[1..] == s;
    }
  }

  lemma FormatHasNoColon(n: int)
    ensures ':' !in FormatInt(n)
  {
    FormatNatDigits(if n < 0 then -n else n);
  }
}
