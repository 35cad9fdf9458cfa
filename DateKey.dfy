/** The per-day key of the productivity histogram: the unpadded string
    `year + "-" + (month + 1) + "-" + day` built by template concatenation.
    Its partner is a parser; the round trip shows that two completion dates
    share a key exactly when they fall on the same calendar day. */
module DateKey {
  import opened Calendar

  predicate IsDigit(c: char)
  {
    '0' <= c <= '9'
  }

  predicate AllDigits(s: string)
  {
    forall i :: 0 <= i < |s| ==> IsDigit(s[i])
  }

  predicate NoDash(s: string)
  {
    forall i :: 0 <= i < |s| ==> s[i] != '-'
  }

  function DigitChar(d: nat): char
    requires d < 10
  {
    (('0' as int) + d) as char
  }

  function DigitValue(c: char): nat
  {
    if IsDigit(c) then (c as int) - ('0' as int) else 0
  }

  /** Decimal rendering of a natural number, without leading zeros. */
  function NatToString(n: nat): (s: string)
    ensures |s| >= 1 && AllDigits(s)
    ensures NoDash(s)
    decreases n
  {
    if n < 10 then [DigitChar(n)]
    else NatToString(n / 10) + [DigitChar(n % 10)]
  }

  /** Decimal reading of a digit string. */
  function StringToNat(s: string): nat
    decreases |s|
  {
    if |s| == 0 then 0
    else StringToNat(s[..|s| - 1]) * 10 + DigitValue(s[|s| - 1])
  }

  lemma {:induction false} NatToStringRoundTrip(n: nat)
    ensures StringToNat(NatToString(n)) == n
    decreases n
  {
    var s := NatToString(n);
    if n >= 10 {
      NatToStringRoundTrip(n / 10);
      assert s[..|s| - 1] == NatToString(n / 10);
    }
  }

  /** How a template literal renders an integer: a minus sign for negatives. */
  function IntToString(i: int): string
  {
    if i < 0 then "-" + NatToString(-i) else NatToString(i)
  }

  function ParseInt(s: string): int
  {
    if |s| > 0 && s[0] == '-' then -(StringToNat(s[1..]) as int) else StringToNat(s)
  }

  lemma IntToStringRoundTrip(i: int)
    ensures ParseInt(IntToString(i)) == i
  {
    if i < 0 {
      NatToStringRoundTrip(-i);
      assert IntToString(i)[1..] == NatToString(-i);
    } else {
      NatToStringRoundTrip(i);
    }
  }

  /** Splits at the last '-': what comes before it and what comes after. */
  function SplitAtLastDash(s: string): (string, string)
    decreases |s|
  {
    if |s| == 0 then ("", "")
    else if s[|s| - 1] == '-' then (s[..|s| - 1], "")
    else
      var (before, after) := SplitAtLastDash(s[..|s| - 1]);
      (before, after + [s[|s| - 1]])
  }

  lemma {:induction false} SplitAtLastDashOf(x: string, a: string)
    requires NoDash(a)
    ensures SplitAtLastDash(x + "-" + a) == (x, a)
    decreases |a|
  {
    var s := x + "-" + a;
    if |a| == 0 {
      assert s[..|s| - 1] == x;
    } else {
      var a' := a[..|a| - 1];
      assert s[..|s| - 1] == x + "-" + a';
      assert s[|s| - 1] == a[|a| - 1];
      SplitAtLastDashOf(x, a');
      assert a' + [a[|a| - 1]] == a;
    }
  }

  /** The productivity key of a completion date (controllers/projectController.js:532-534). */
  function DayKey(d: Date): string
  {
    IntToString(d.year) + "-" + NatToString(d.month + 1) + "-" + NatToString(d.day)
  }

  function ParseDayKey(s: string): DateFields
  {
    var (rest, dayPart) := SplitAtLastDash(s);
    var (yearPart, monthPart) := SplitAtLastDash(rest);
    DateFields(ParseInt(yearPart), StringToNat(monthPart) - 1, StringToNat(dayPart))
  }

  lemma DayKeyRoundTrip(d: Date)
    ensures ParseDayKey(DayKey(d)) == d
  {
    var y, m, dd := IntToString(d.year), NatToString(d.month + 1), NatToString(d.day);
    assert DayKey(d) == (y + "-" + m) + "-" + dd;
    SplitAtLastDashOf(y + "-" + m, dd);
    SplitAtLastDashOf(y, m);
    IntToStringRoundTrip(d.year);
    NatToStringRoundTrip(d.month + 1);
    NatToStringRoundTrip(d.day);
  }

  /** Two dates share a key exactly when they are the same calendar day. */
  lemma DayKeyInjective(d1: Date, d2: Date)
    ensures DayKey(d1) == DayKey(d2) <==> d1 == d2
  {
    DayKeyRoundTrip(d1);
    DayKeyRoundTrip(d2);
  }
}
