/**
 * Go's time.Duration as integer nanoseconds, the conversions the
 * presentation shells apply to it (int(d.Hours()), int(d.Minutes()) % 60)
 * and the "%02dh%02dm" rendering of a time span, with a parser that
 * inverts that rendering.
 */
module Durations {
  import opened Base

  /** A signed count of nanoseconds. */
  type Duration = int

  const Second: Duration := 1_000_000_000
  const Minute: Duration := 60_000_000_000
  const Hour: Duration := 3_600_000_000_000

  /** Integer quotient truncated toward zero: Go's `/`, and int() of a float quotient. */
  function Quo(a: int, b: int): int
    requires b > 0
  {
    if a >= 0 then a / b else -((-a) / b)
  }

  /** Remainder with the sign of the dividend: Go's `%`. */
  function Rem(a: int, b: int): int
    requires b > 0
  {
    if a >= 0 then a % b else -((-a) % b)
  }

  /** int(d.Hours()) */
  function WholeHours(d: Duration): int {
    Quo(d, Hour)
  }

  /** int(d.Minutes()) % 60 */
  function MinuteOfHour(d: Duration): int {
    Rem(Quo(d, Minute), 60)
  }

  /**
   * For a span that is not negative, the two displayed fields are the span
   * rounded down to the minute: whole hours plus 0..59 minutes.
   */
  lemma ClockFields(d: Duration)
    requires d >= 0
    ensures WholeHours(d) >= 0 && 0 <= MinuteOfHour(d) < 60
    ensures WholeHours(d) * Hour + MinuteOfHour(d) * Minute <= d
    ensures d < WholeHours(d) * Hour + MinuteOfHour(d) * Minute + Minute
  {
    var q, r := d / Minute, d % Minute;
    var h, m := q / 60, q % 60;
    assert d == q * Minute + r;
    assert q == h * 60 + m;
    assert d == h * Hour + (m * Minute + r);
    assert 0 <= m * Minute + r < Hour;
    assert d / Hour == h;
  }

  // ---------------------------------------------------------------------
  // Decimal digits

  predicate IsDigit(c: char) {
    '0' <= c <= '9'
  }

  predicate AllDigits(s: string) {
    forall i :: 0 <= i < |s| ==> IsDigit(s[i])
  }

  function DigitChar(n: nat): (c: char)
    requires n < 10
    ensures IsDigit(c)
  {
    ('0' as int + n) as char
  }

  function DigitValue(c: char): nat
    requires IsDigit(c)
  {
    c as int - '0' as int
  }

  /** The decimal numeral of n, without leading zeros (fmt's %d). */
  function Decimal(n: nat): (s: string)
    ensures |s| >= 1 && AllDigits(s)
    decreases n
  {
    if n < 10 then [DigitChar(n)] else Decimal(n / 10) + [DigitChar(n % 10)]
  }

  /** The value of a string of decimal digits. */
  function ParseNat(s: string): nat
    requires AllDigits(s)
    decreases |s|
  {
    if s == [] then 0 else 10 * ParseNat(s[..|s| - 1]) + DigitValue(s[|s| - 1])
  }

  lemma {:induction false} ParseDecimal(n: nat)
    ensures ParseNat(Decimal(n)) == n
    decreases n
  {
    var s := Decimal(n);
    if n >= 10 {
      ParseDecimal(n / 10);
      assert s[..|s| - 1] == Decimal(n / 10);
    }
  }

  /** fmt's %02d: at least two characters, zero padded; a sign counts toward the width. */
  function Pad2(n: int): string {
    if n >= 10 then Decimal(n)
    else if n >= 0 then "0" + Decimal(n)
    else "-" + Decimal(-n)
  }

  lemma Pad2Digits(n: int)
    requires n >= 0
    ensures |Pad2(n)| >= 2 && AllDigits(Pad2(n)) && ParseNat(Pad2(n)) == n
  {
    ParseDecimal(n);
    if n < 10 {
      var s := Pad2(n);
      assert s == ['0', DigitChar(n)];
      assert s[..1] == ['0'];
      assert ParseNat(['0']) == 0 by {
        assert ['0'][..0] == [];
      }
    } else {
      var s := Decimal(n);
      assert s == Decimal(n / 10) + [DigitChar(n % 10)];
    }
  }

  /** fmt.Sprintf("%02dh%02dm", int(d.Hours()), int(d.Minutes())%60) */
  function HoursMinutes(d: Duration): (s: string)
    ensures |s| >= 4 && s[|s| - 1] == 'm'
  {
    Pad2(WholeHours(d)) + "h" + Pad2(MinuteOfHour(d)) + "m"
  }

  /** formatDuration in internal/pkg/gui: -1 stands for a missing identity. */
  function FormatDuration(d: Duration): (s: string)
    ensures s == "missing" <==> d == -1
  {
    if d == -1 then "missing" else HoursMinutes(d)
  }

  // ---------------------------------------------------------------------
  // Reading a rendered span back

  /** Position of the first c in s, or |s| when there is none. */
  function IndexOf(s: string, c: char): (i: nat)
    ensures i <= |s|
    ensures i < |s| ==> s[i] == c
    ensures forall j :: 0 <= j < i ==> s[j] != c
  {
    if s == [] then 0 else if s[0] == c then 0 else 1 + IndexOf(s[1..], c)
  }

  /** Reads "<hours>h<minutes>m" back into its two numbers. */
  function ParseHoursMinutes(s: string): Option<(nat, nat)> {
    var i := IndexOf(s, 'h');
    if i < |s| && i + 2 <= |s| && s[|s| - 1] == 'm'
       && AllDigits(s[..i]) && AllDigits(s[i + 1..|s| - 1])
    then Some((ParseNat(s[..i]), ParseNat(s[i + 1..|s| - 1])))
    else None
  }

  /** The rendering of a non-negative span reads back as its hours and minute-of-hour. */
  lemma HoursMinutesRoundTrip(d: Duration)
    requires d >= 0
    ensures ParseHoursMinutes(HoursMinutes(d)) == Some((WholeHours(d), MinuteOfHour(d)))
  {
    ClockFields(d);
    var hs, ms := Pad2(WholeHours(d)), Pad2(MinuteOfHour(d));
    Pad2Digits(WholeHours(d));
    Pad2Digits(MinuteOfHour(d));
    var s := HoursMinutes(d);
    assert s == hs + "h" + ms + "m";
    assert s[|hs|] == 'h';
    forall j | 0 <= j < |hs| ensures s[j] != 'h' {
      assert s[j] == hs[j];
    }
    assert IndexOf(s, 'h') == |hs|;
    assert s[..|hs|] == hs;
    assert s[|hs| + 1..|s| - 1] == ms;
  }
}
