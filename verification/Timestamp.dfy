/** The UTC timestamp text (`format_unix_ms` in `crates/rollout-cli/src/infer.rs`). */
module Timestamp {
  import opened Civil

  predicate FitsU64(x: int) {
    0 <= x < 0x1_0000_0000_0000_0000
  }

  // ---------- Decimal text ----------

  predicate AllDigits(s: string) {
    forall i :: 0 <= i < |s| ==> '0' <= s[i] <= '9'
  }

  function Digits(n: nat): (s: string)
    ensures AllDigits(s) && |s| > 0
  {
    var last := [(n % 10) as char + '0'];
    if n < 10 then last else Digits(n / 10) + last
  }

  /** `{n:0w}` */
  function Pad(n: nat, w: nat): (s: string)
    ensures AllDigits(s) && |s| > 0
  {
    if |Digits(n)| >= w then Digits(n) else PadTo(Digits(n), w)
  }

  function PadTo(s: string, w: nat): (r: string)
    requires AllDigits(s) && |s| > 0
    ensures AllDigits(r) && |r| == if |s| < w then w else |s|
    decreases w - |s|
  {
    if |s| >= w then s else PadTo("0" + s, w)
  }

  /** `{n:04}` on a signed number: the sign counts towards the width. */
  function PadYear(n: int): string {
    if n < 0 then "-" + Pad(-n, 3) else Pad(n, 4)
  }

  function Value(s: string): nat
    requires AllDigits(s)
  {
    if s == "" then 0 else Value(s[..|s| - 1]) * 10 + (s[|s| - 1] as nat - '0' as nat)
  }

  lemma {:induction false} DigitsValue(n: nat)
    ensures Value(Digits(n)) == n
  {
    var s := Digits(n);
    var last := [(n % 10) as char + '0'];
    if n >= 10 {
      DigitsValue(n / 10);
      assert s[..|s| - 1] == Digits(n / 10);
    } else {
      assert s[..|s| - 1] == "";
    }
    assert s[|s| - 1] == last[0];
  }

  lemma {:induction false} LeadingZero(s: string)
    requires AllDigits(s)
    ensures AllDigits("0" + s) && Value("0" + s) == Value(s)
    decreases |s|
  {
    var t := "0" + s;
    if s == "" {
      assert t[..|t| - 1] == "";
    } else {
      LeadingZero(s[..|s| - 1]);
      assert t[..|t| - 1] == "0" + s[..|s| - 1];
    }
  }

  lemma {:induction false} PadToValue(s: string, w: nat)
    requires AllDigits(s) && |s| > 0
    ensures Value(PadTo(s, w)) == Value(s)
    decreases w - |s|
  {
    if |s| < w {
      LeadingZero(s);
      PadToValue("0" + s, w);
    }
  }

  lemma PadValue(n: nat, w: nat)
    ensures Value(Pad(n, w)) == n
  {
    DigitsValue(n);
    PadToValue(Digits(n), w);
  }

  function Pow10(k: nat): nat {
    if k == 0 then 1 else 10 * Pow10(k - 1)
  }

  lemma {:induction false} DigitsLength(n: nat, w: nat)
    requires w > 0 && n < Pow10(w)
    ensures |Digits(n)| <= w
  {
    if n >= 10 {
      assert w > 1;
      DigitsLength(n / 10, w - 1);
    }
  }

  lemma PadLength(n: nat, w: nat)
    requires w > 0 && n < Pow10(w)
    ensures |Pad(n, w)| == w
  {
    DigitsLength(n, w);
  }

  // ---------- The timestamp ----------

  datatype Clock = Clock(hour: nat, minute: nat, second: nat, millis: nat)

  function DateOf(unixMs: nat): Date
    requires FitsU64(unixMs)
  {
    var days := unixMs / 1000 / 86_400;
    CivilFromDays(if FitsI64(days) then days else 0)
  }

  function ClockOf(unixMs: nat): Clock {
    var rem := unixMs / 1000 % 86_400;
    Clock(rem / 3600, rem % 3600 / 60, rem % 60, unixMs % 1000)
  }

  /** Everything after the year. */
  function Tail(d: Date, c: Clock): string {
    "-" + Pad(d.month, 2) + "-" + Pad(d.day, 2) + "T" + Pad(c.hour, 2) + ":" + Pad(c.minute, 2) + ":"
    + Pad(c.second, 2) + "." + Pad(c.millis, 3) + "Z"
  }

  function FormatUnixMs(unixMs: nat): string
    requires FitsU64(unixMs)
  {
    PadYear(DateOf(unixMs).year) + Tail(DateOf(unixMs), ClockOf(unixMs))
  }

  const TAIL_LENGTH: nat := 20

  /** Separators in place and digits everywhere else, behind a year of four digits or more. */
  predicate WellFormed(s: string) {
    |s| >= TAIL_LENGTH + 4 &&
    var y := |s| - TAIL_LENGTH;
    var t := s[y..];
    && AllDigits(s[..y])
    && t[0] == '-' && t[3] == '-' && t[6] == 'T' && t[9] == ':' && t[12] == ':' && t[15] == '.' && t[19] == 'Z'
    && AllDigits(t[1..3]) && AllDigits(t[4..6]) && AllDigits(t[7..9]) && AllDigits(t[10..12])
    && AllDigits(t[13..15]) && AllDigits(t[16..19])
  }

  function ReadDate(s: string): Date
    requires WellFormed(s)
  {
    var y := |s| - TAIL_LENGTH;
    Date(Value(s[..y]), Value(s[y..][1..3]), Value(s[y..][4..6]))
  }

  function ReadClock(s: string): Clock
    requires WellFormed(s)
  {
    var t := s[|s| - TAIL_LENGTH..];
    Clock(Value(t[7..9]), Value(t[10..12]), Value(t[13..15]), Value(t[16..19]))
  }

  function ClockMs(c: Clock): nat {
    ((c.hour * 60 + c.minute) * 60 + c.second) * 1000 + c.millis
  }

  /** The instant a date and a time of day stand for. */
  function Instant(d: Date, c: Clock): int {
    DayNumber(d) * 86_400_000 + ClockMs(c)
  }

  predicate ValidClock(c: Clock) {
    c.hour < 24 && c.minute < 60 && c.second < 60 && c.millis < 1000
  }

  lemma ClockFields(unixMs: nat)
    ensures ValidClock(ClockOf(unixMs))
    ensures unixMs == unixMs / 1000 / 86_400 * 86_400_000 + ClockMs(ClockOf(unixMs))
  {
    var secs := unixMs / 1000;
    var rem := secs % 86_400;
    assert unixMs == secs * 1000 + unixMs % 1000;
    assert secs == secs / 86_400 * 86_400 + rem;
    assert rem == rem / 3600 * 3600 + rem % 3600;
    assert rem % 3600 == rem % 3600 / 60 * 60 + rem % 3600 % 60;
    assert rem % 3600 % 60 == rem % 60;
  }

  /** For every 64-bit millisecond count the year fits its cast and the fields recombine. */
  lemma FieldsRecombine(unixMs: nat)
    requires FitsU64(unixMs)
    ensures Valid(DateOf(unixMs)) && DateOf(unixMs).year >= 1970 && ValidClock(ClockOf(unixMs))
    ensures Instant(DateOf(unixMs), ClockOf(unixMs)) == unixMs
  {
    var days := unixMs / 1000 / 86_400;
    assert 0 <= days <= 213_503_982_334;
    InvertsExactly(days);
    ClockFields(unixMs);
    var d := DateOf(unixMs);
    if d.year < 1970 {
      Monotone(d, Date(1970, 1, 1));
    }
  }

  lemma TailReads(d: Date, c: Clock)
    requires Valid(d) && ValidClock(c)
    ensures var t := Tail(d, c);
      && |t| == TAIL_LENGTH
      && t[0] == '-' && t[3] == '-' && t[6] == 'T' && t[9] == ':' && t[12] == ':' && t[15] == '.' && t[19] == 'Z'
      && t[1..3] == Pad(d.month, 2) && t[4..6] == Pad(d.day, 2) && t[7..9] == Pad(c.hour, 2)
      && t[10..12] == Pad(c.minute, 2) && t[13..15] == Pad(c.second, 2) && t[16..19] == Pad(c.millis, 3)
  {
    assert Pow10(2) == 100 && Pow10(3) == 1000;
    PadLength(d.month, 2);
    PadLength(d.day, 2);
    PadLength(c.hour, 2);
    PadLength(c.minute, 2);
    PadLength(c.second, 2);
    PadLength(c.millis, 3);
  }

  /** The text reads back as the very instant it was made from, so no two instants share one. */
  lemma TextRoundTrip(unixMs: nat)
    requires FitsU64(unixMs)
    ensures var s := FormatUnixMs(unixMs);
      && WellFormed(s)
      && ReadDate(s) == DateOf(unixMs) && ReadClock(s) == ClockOf(unixMs)
      && Instant(ReadDate(s), ReadClock(s)) == unixMs
  {
    var d, c, s := DateOf(unixMs), ClockOf(unixMs), FormatUnixMs(unixMs);
    FieldsRecombine(unixMs);
    TailReads(d, c);
    var year := Pad(d.year, 4);
    assert |year| >= 4;
    assert s[..|s| - TAIL_LENGTH] == year && s[|s| - TAIL_LENGTH..] == Tail(d, c);
    PadValue(d.year, 4);
    PadValue(d.month, 2);
    PadValue(d.day, 2);
    PadValue(c.hour, 2);
    PadValue(c.minute, 2);
    PadValue(c.second, 2);
    PadValue(c.millis, 3);
  }
}
