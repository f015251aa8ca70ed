/** How a configured lifetime such as `15m` or `7d` is read. */
module Expiry {

  predicate IsDigit(c: char) {
    '0' <= c <= '9'
  }

  /** `parseInt(s, 10)` of digits. */
  function Value(s: string): nat
    requires forall i | 0 <= i < |s| :: IsDigit(s[i])
  {
    if s == "" then 0
    else
      assert IsDigit(s[|s| - 1]);
      10 * Value(s[..|s| - 1]) + (s[|s| - 1] as int - '0' as int)
  }

  /** The seconds in a unit; 0 for a character that is none. */
  function Unit(c: char): nat {
    match c
    case 's' => 1
    case 'm' => 60
    case 'h' => 60 * 60
    case 'd' => 60 * 60 * 24
    case _ => 0
  }

  const DEFAULT_SECONDS := 900

  /** `parseExpiry`. */
  function ParseExpiry(expiry: string): nat {
    var n := |expiry| - 1;
    if n < 1 || Unit(expiry[n]) == 0 || exists i :: 0 <= i < n && !IsDigit(expiry[i]) then DEFAULT_SECONDS
    else Value(expiry[..n]) * Unit(expiry[n])
  }

  /** A number in decimal, without leading zeros. */
  function Decimal(n: nat): (s: string)
    ensures s != "" && forall i | 0 <= i < |s| :: IsDigit(s[i])
  {
    (if n < 10 then "" else Decimal(n / 10)) + [('0' as int + n % 10) as char]
  }

  lemma {:induction false} ValueOfDecimal(n: nat)
    ensures Value(Decimal(n)) == n
  {
    var s := Decimal(n);
    if n < 10 {
      assert s[..|s| - 1] == "";
    } else {
      ValueOfDecimal(n / 10);
      assert s[..|s| - 1] == Decimal(n / 10);
    }
  }

  function Zeros(k: nat): (s: string)
    ensures |s| == k && forall i | 0 <= i < k :: s[i] == '0'
  {
    seq(k, _ => '0')
  }

  lemma {:induction false} ValuePadded(k: nat, s: string)
    requires forall i | 0 <= i < |s| :: IsDigit(s[i])
    ensures Value(Zeros(k) + s) == Value(s)
  {
    var padded := Zeros(k) + s;
    if s != "" {
      ValuePadded(k, s[..|s| - 1]);
      assert padded[..|padded| - 1] == Zeros(k) + s[..|s| - 1];
    } else if k > 0 {
      ValuePadded(k - 1, "");
      assert padded[..|padded| - 1] == Zeros(k - 1) + "";
    }
  }

  /** One or more digits and a unit. */
  predicate IsLifetime(s: string) {
    |s| >= 2 && s[|s| - 1] in {'s', 'm', 'h', 'd'} && forall i | 0 <= i < |s| - 1 :: IsDigit(s[i])
  }

  /** A number written in decimal, with or without leading zeros, and a unit is read as that many seconds, minutes, hours or
      days; whatever is not of this form is read as a quarter of an hour. */
  lemma ParseExpiryRoundTrip(n: nat, zeros: nat, other: string)
    ensures ParseExpiry(Zeros(zeros) + Decimal(n) + "s") == n
    ensures ParseExpiry(Zeros(zeros) + Decimal(n) + "m") == 60 * n
    ensures ParseExpiry(Zeros(zeros) + Decimal(n) + "h") == 3600 * n
    ensures ParseExpiry(Zeros(zeros) + Decimal(n) + "d") == 86400 * n
    ensures !IsLifetime(other) ==> ParseExpiry(other) == 15 * 60
  {
    ReadInUnits(n, zeros, 's', 1);
    ReadInUnits(n, zeros, 'm', 60);
    ReadInUnits(n, zeros, 'h', 3600);
    ReadInUnits(n, zeros, 'd', 86400);
    if !IsLifetime(other) { OtherTextIsDefault(other); }
    hide ParseExpiry, Decimal, Zeros, IsLifetime, Unit;
  }

  lemma OtherTextIsDefault(other: string)
    requires !IsLifetime(other)
    ensures ParseExpiry(other) == 15 * 60
  {
  }

  lemma ReadInUnits(n: nat, zeros: nat, unit: char, seconds: nat)
    requires Unit(unit) == seconds != 0
    ensures ParseExpiry(Zeros(zeros) + Decimal(n) + [unit]) == seconds * n
  {
    var digits := Zeros(zeros) + Decimal(n);
    var s := digits + [unit];
    assert s[..|s| - 1] == digits && forall i | 0 <= i < |digits| :: IsDigit(digits[i]);
    ValueOfDecimal(n);
    ValuePadded(zeros, Decimal(n));
  }
}
