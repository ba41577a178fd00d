/** `formatDate`: how long ago a post was created, as "just now", "N unit(s)
    ago" below a week, or the absolute date from a week on. The clock and the
    locale-formatted absolute date are parameters; the elapsed time is in
    whole milliseconds. */
module Helper {
  import opened Common

  const MinuteMs := 60000
  const HourMs := 3600000
  const DayMs := 86400000
  const WeekMs := 604800000

  datatype Unit = Minutes | Hours | Days

  function UnitMs(u: Unit): nat
  {
    match u
    case Minutes => MinuteMs
    case Hours => HourMs
    case Days => DayMs
  }

  function UnitName(u: Unit): string
  {
    match u
    case Minutes => "minute"
    case Hours => "hour"
    case Days => "day"
  }

  /** Which of the four branches an elapsed time falls in, with the count
      of whole units in the relative branches. */
  datatype Age = JustNow | Ago(n: nat, unit: Unit) | OnDate

  /** The branch thresholds: under a minute (a date in the future included),
      under an hour, under a day, under a week, and the rest. The count is
      the number of whole units elapsed. */
  function Classify(elapsed: int): (a: Age)
    ensures a.JustNow? <==> elapsed < MinuteMs
    ensures a.OnDate? <==> elapsed >= WeekMs
    ensures a.Ago? ==> (a.unit == Minutes <==> elapsed < HourMs)
    ensures a.Ago? ==> (a.unit == Days <==> elapsed >= DayMs)
    ensures a.Ago? ==> a.n * UnitMs(a.unit) <= elapsed < (a.n + 1) * UnitMs(a.unit)
  {
    if elapsed < MinuteMs then JustNow
    else if elapsed < HourMs then Ago(elapsed / MinuteMs, Minutes)
    else if elapsed < DayMs then Ago(elapsed / HourMs, Hours)
    else if elapsed < WeekMs then Ago(elapsed / DayMs, Days)
    else OnDate
  }

  /** The count shown is at least one and below the next unit's size:
      1 to 59 minutes, 1 to 23 hours, 1 to 6 days. */
  lemma AgoBounds(elapsed: int)
    requires Classify(elapsed).Ago?
    ensures 1 <= Classify(elapsed).n
    ensures Classify(elapsed).unit == Minutes ==> Classify(elapsed).n <= 59
    ensures Classify(elapsed).unit == Hours ==> Classify(elapsed).n <= 23
    ensures Classify(elapsed).unit == Days ==> Classify(elapsed).n <= 6
  {
  }

  function Digit(d: nat): char
    requires d < 10
  {
    "0123456789"[d]
  }

  predicate IsDigit(c: char)
  {
    '0' <= c <= '9'
  }

  /** The decimal rendering of a count, as a template literal prints it. */
  function NatToString(n: nat): (s: string)
    ensures |s| >= 1
    ensures forall i :: 0 <= i < |s| ==> IsDigit(s[i])
  {
    if n < 10 then [Digit(n)] else NatToString(n / 10) + [Digit(n % 10)]
  }

  function DigitsValue(s: string): nat
    requires forall i :: 0 <= i < |s| ==> IsDigit(s[i])
  {
    if s == [] then 0
    else
      var last := s[|s| - 1];
      assert IsDigit(last);
      DigitsValue(s[..|s| - 1]) * 10 + (last as int - '0' as int)
  }

  lemma {:induction false} DigitsValueOfNatToString(n: nat)
    ensures DigitsValue(NatToString(n)) == n
  {
    if n >= 10 {
      DigitsValueOfNatToString(n / 10);
      var s := NatToString(n);
      assert s[..|s| - 1] == NatToString(n / 10);
    }
  }

  /** The longest prefix of `s` made of decimal digits. */
  function LeadingDigits(s: string): (r: string)
    ensures |r| <= |s| && r == s[..|r|]
    ensures forall i :: 0 <= i < |r| ==> IsDigit(r[i])
  {
    if s == [] || !IsDigit(s[0]) then [] else [s[0]] + LeadingDigits(s[1..])
  }

  lemma {:induction false} LeadingDigitsOf(digits: string, rest: string)
    requires forall i :: 0 <= i < |digits| ==> IsDigit(digits[i])
    requires rest != [] && !IsDigit(rest[0])
    ensures LeadingDigits(digits + rest) == digits
  {
    if digits != [] {
      assert (digits + rest)[1..] == digits[1..] + rest;
      LeadingDigitsOf(digits[1..], rest);
    } else {
      assert digits + rest == rest;
    }
  }

  /** The text of a classification: a relative text starts with the count's
      digits and ends in " ago". */
  function Render(a: Age, absolute: string): (r: string)
    ensures a.JustNow? ==> r == "just now"
    ensures a.OnDate? ==> r == absolute
    ensures a.Ago? ==> |NatToString(a.n)| <= |r| && r[..|NatToString(a.n)|] == NatToString(a.n)
    ensures a.Ago? ==> EndsWith(r, " ago")
  {
    match a
    case JustNow => "just now"
    case Ago(n, u) => NatToString(n) + " " + UnitName(u) + (if n > 1 then "s" else "") + " ago"
    case OnDate => absolute
  }

  /** `formatDate(date)` with `now - date` elapsed and `absolute` the
      `toLocaleDateString` text of the date. */
  function FormatDate(elapsed: int, absolute: string): (r: string)
    ensures elapsed < MinuteMs ==> r == "just now"
    ensures elapsed >= WeekMs ==> r == absolute
    ensures MinuteMs <= elapsed < WeekMs ==> EndsWith(r, " ago")
  {
    Render(Classify(elapsed), absolute)
  }

  /** The full text of each relative branch: the whole units elapsed, a
      space, the unit word, an "s" above one, and " ago". */
  lemma RelativeTexts(elapsed: int, absolute: string)
    ensures MinuteMs <= elapsed < HourMs ==>
              FormatDate(elapsed, absolute)
              == NatToString(elapsed / MinuteMs) + " minute" + (if elapsed / MinuteMs > 1 then "s" else "") + " ago"
    ensures HourMs <= elapsed < DayMs ==>
              FormatDate(elapsed, absolute)
              == NatToString(elapsed / HourMs) + " hour" + (if elapsed / HourMs > 1 then "s" else "") + " ago"
    ensures DayMs <= elapsed < WeekMs ==>
              FormatDate(elapsed, absolute)
              == NatToString(elapsed / DayMs) + " day" + (if elapsed / DayMs > 1 then "s" else "") + " ago"
  {
  }

  predicate EndsWith(s: string, suffix: string)
  {
    |suffix| <= |s| && s[|s| - |suffix|..] == suffix
  }

  /** A relative text reads back as the number of whole units elapsed: the
      digits it starts with are the floor of the elapsed time over the unit. */
  lemma ShownCountIsWholeUnits(elapsed: int, absolute: string)
    requires MinuteMs <= elapsed < WeekMs
    ensures var a := Classify(elapsed);
            DigitsValue(LeadingDigits(FormatDate(elapsed, absolute))) == elapsed / UnitMs(a.unit)
  {
    var a := Classify(elapsed);
    var tail := " " + UnitName(a.unit) + (if a.n > 1 then "s" else "") + " ago";
    assert FormatDate(elapsed, absolute) == NatToString(a.n) + tail;
    LeadingDigitsOf(NatToString(a.n), tail);
    DigitsValueOfNatToString(a.n);
  }

  /** The unit word takes an "s" exactly when the count is above one. */
  lemma PluralExactlyAboveOne(elapsed: int, absolute: string)
    requires Classify(elapsed).Ago?
    ensures EndsWith(FormatDate(elapsed, absolute), "s ago") <==> Classify(elapsed).n > 1
  {
    var a := Classify(elapsed);
    var head := NatToString(a.n) + " " + UnitName(a.unit);
    var s := FormatDate(elapsed, absolute);
    if a.n > 1 {
      assert s == head + "s ago";
    } else {
      assert s == head + " ago";
      assert s[|s| - 5] == head[|head| - 1];
    }
  }

  /** The elapsed time a classification stands for: none for "just now",
      the whole units for a relative text, a week for an absolute date. */
  function Magnitude(a: Age): nat
  {
    match a
    case JustNow => 0
    case Ago(n, u) => n * UnitMs(u)
    case OnDate => WeekMs
  }

  /** An older post never shows a younger age: the magnitude of the text
      does not decrease as the elapsed time grows. */
  lemma MagnitudeMonotone(e1: int, e2: int)
    requires e1 <= e2
    ensures Magnitude(Classify(e1)) <= Magnitude(Classify(e2))
  {
    var a1, a2 := Classify(e1), Classify(e2);
    if a1.Ago? && a2.Ago? && a1.unit == a2.unit {
      MulMono(a1.n, a2.n, UnitMs(a1.unit));
    } else if a1.Ago? && a2.Ago? {
      AgoBounds(e1);
      AgoBounds(e2);
    } else if a1.Ago? && a2.OnDate? {
      AgoBounds(e1);
    }
  }
}
