/** The "HH:mm" codec (local-time.util.ts). */
module LocalTime {
  import opened Strings

  const MINUTES_PER_DAY: int := 1440

  predicate IsValidLocalTime(s: string) {
    && |s| == 5 && s[2] == ':' && IsDigit(s[0]) && IsDigit(s[1]) && IsDigit(s[3]) && IsDigit(s[4])
    && (s[0] <= '1' || (s[0] == '2' && s[1] <= '3'))
    && s[3] <= '5'
  }

  function LocalTimeToMinutes(s: string): int
    requires IsValidLocalTime(s)
  {
    (DigitValue(s[0]) * 10 + DigitValue(s[1])) * 60 + DigitValue(s[3]) * 10 + DigitValue(s[4])
  }

  /** A number below 100 padded to two digits. */
  function PadTwo(n: nat): string
    requires n < 100
  {
    [('0' as int + n / 10) as char, ('0' as int + n % 10) as char]
  }

  function MinutesToLocalTime(totalMinutes: nat): string {
    PadTwo((totalMinutes / 60) % 24) + ":" + PadTwo(totalMinutes % 60)
  }

  lemma PadTwoDigits(n: nat)
    requires n < 100
    ensures IsDigit(PadTwo(n)[0]) && IsDigit(PadTwo(n)[1])
    ensures DigitValue(PadTwo(n)[0]) * 10 + DigitValue(PadTwo(n)[1]) == n
    ensures DigitValue(PadTwo(n)[0]) == n / 10
  {
  }

  /** Encoding wraps at midnight, so decoding returns the minute exactly within one day. */
  lemma MinutesRoundTrip(m: nat)
    ensures IsValidLocalTime(MinutesToLocalTime(m))
    ensures LocalTimeToMinutes(MinutesToLocalTime(m)) == m % MINUTES_PER_DAY
    ensures LocalTimeToMinutes(MinutesToLocalTime(m)) == m <==> m < MINUTES_PER_DAY
  {
    var hours, minutes := (m / 60) % 24, m % 60;
    PadTwoDigits(hours);
    PadTwoDigits(minutes);
    HoursAndMinutes(m);
  }

  lemma HoursAndMinutes(m: nat)
    ensures (m / 60) % 24 * 60 + m % 60 == m % MINUTES_PER_DAY
  {
    var q, r := m / 60, m % 60;
    var d, h := q / 24, q % 24;
    assert m == 60 * q + r && q == 24 * d + h;
    DayRemainder(m, d, 60 * h + r);
  }

  lemma DayRemainder(m: nat, d: nat, rest: nat)
    requires m == MINUTES_PER_DAY * d + rest && rest < MINUTES_PER_DAY
    ensures m % MINUTES_PER_DAY == rest
  {
  }

  lemma LocalTimeRoundTrip(s: string)
    requires IsValidLocalTime(s)
    ensures 0 <= LocalTimeToMinutes(s) < MINUTES_PER_DAY
    ensures MinutesToLocalTime(LocalTimeToMinutes(s)) == s
  {
    var hours := DigitValue(s[0]) * 10 + DigitValue(s[1]);
    var minutes := DigitValue(s[3]) * 10 + DigitValue(s[4]);
    var m := LocalTimeToMinutes(s);
    assert 0 <= hours < 24 && 0 <= minutes < 60 && m == hours * 60 + minutes;
    assert m / 60 == hours && m % 60 == minutes;
    assert PadTwo(hours) == [s[0], s[1]] && PadTwo(minutes) == [s[3], s[4]];
  }

  function CompareLocalTimes(a: string, b: string): int {
    if Less(a, b) then -1 else if Less(b, a) then 1 else 0
  }

  /** Comparing the strings compares the times. */
  lemma CompareIsNumeric(a: string, b: string)
    requires IsValidLocalTime(a) && IsValidLocalTime(b)
    ensures CompareLocalTimes(a, b) < 0 <==> LocalTimeToMinutes(a) < LocalTimeToMinutes(b)
    ensures CompareLocalTimes(a, b) == 0 <==> a == b
  {
    LeqTotal(a, b);
    LeqUnfolds(a, b);
    LocalTimeRoundTrip(a);
    LocalTimeRoundTrip(b);
  }

  lemma {:induction false} LeqUnfolds(a: string, b: string)
    requires |a| == 5 && |b| == 5 && a[2] == b[2]
    ensures Leq(a, b) <==>
      || a[0] < b[0]
      || (a[0] == b[0] && (a[1] < b[1] || (a[1] == b[1] && (a[3] < b[3] || (a[3] == b[3] && a[4] <= b[4])))))
  {
    assert Leq(a, b) == (a[0] < b[0] || (a[0] == b[0] && Leq(a[1..], b[1..])));
    assert Leq(a[1..], b[1..]) == (a[1] < b[1] || (a[1] == b[1] && Leq(a[1..][1..], b[1..][1..])));
    assert a[1..][1..] == a[2..] && b[1..][1..] == b[2..] && a[2..][1..] == a[3..] && b[2..][1..] == b[3..];
    assert Leq(a[2..], b[2..]) == Leq(a[3..], b[3..]);
    assert a[3..][1..] == a[4..] && b[3..][1..] == b[4..] && a[4..][1..] == [] && b[4..][1..] == [];
    assert Leq(a[3..], b[3..]) == (a[3] < b[3] || (a[3] == b[3] && Leq(a[4..], b[4..])));
    assert Leq(a[4..], b[4..]) == (a[4] < b[4] || (a[4] == b[4] && Leq(a[4..][1..], b[4..][1..])));
  }
}
