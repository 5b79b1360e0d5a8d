/**
 * `datetime.strptime(date_str, '%Y-%m-%d')`: the regular expression Python
 * builds for that format (`%Y` is `\d\d\d\d`, `%m` is `1[0-2]|0[1-9]|[1-9]`,
 * `%d` is `3[01]|[12]\d|0[1-9]|[1-9]| [1-9]`), the rule that the whole string
 * must be consumed, and the calendar check `datetime` performs afterwards.
 */
module Dates {
  import opened Optional

  datatype Date = Date(year: int, month: int, day: int)

  predicate IsDigit(c: char)
  {
    '0' <= c <= '9'
  }

  function DigitValue(c: char): nat
    requires IsDigit(c)
  {
    c as int - '0' as int
  }

  predicate AllDigits(s: string)
  {
    forall i :: 0 <= i < |s| ==> IsDigit(s[i])
  }

  /** Decimal value of a string of digits. */
  function DecimalValue(s: string): nat
    requires AllDigits(s)
    decreases |s|
  {
    if s == [] then 0 else DecimalValue(s[..|s| - 1]) * 10 + DigitValue(s[|s| - 1])
  }

  predicate IsLeapYear(y: int)
  {
    y % 4 == 0 && (y % 100 != 0 || y % 400 == 0)
  }

  function DaysInMonth(y: int, m: int): int
    requires 1 <= m <= 12
  {
    if m == 2 then (if IsLeapYear(y) then 29 else 28)
    else if m == 4 || m == 6 || m == 9 || m == 11 then 30
    else 31
  }

  /** What `datetime(year, month, day)` accepts. */
  predicate ValidDate(d: Date)
  {
    && 1 <= d.year <= 9999
    && 1 <= d.month <= 12
    && 1 <= d.day <= DaysInMonth(d.year, d.month)
  }

  /**
   * The `%m` group followed by the literal `-`: its value and the length of
   * the text it consumed (the alternatives are tried in order; one that is
   * not followed by `-` gives way to the next).
   */
  function MonthToken(s: string): Option<(int, nat)>
  {
    if |s| >= 3 && s[0] == '1' && '0' <= s[1] <= '2' && s[2] == '-' then Some((10 + DigitValue(s[1]), 2))
    else if |s| >= 3 && s[0] == '0' && '1' <= s[1] <= '9' && s[2] == '-' then Some((DigitValue(s[1]), 2))
    else if |s| >= 2 && '1' <= s[0] <= '9' && s[1] == '-' then Some((DigitValue(s[0]), 1))
    else None
  }

  /**
   * The `%d` group when it must also end the string: no alternative is a
   * proper prefix of a later one, so the string must match one alternative
   * exactly.
   */
  function DayToken(s: string): Option<int>
  {
    if |s| == 2 && s[0] == '3' && '0' <= s[1] <= '1' then Some(30 + DigitValue(s[1]))
    else if |s| == 2 && '1' <= s[0] <= '2' && IsDigit(s[1]) then Some(DigitValue(s[0]) * 10 + DigitValue(s[1]))
    else if |s| == 2 && s[0] == '0' && '1' <= s[1] <= '9' then Some(DigitValue(s[1]))
    else if |s| == 1 && '1' <= s[0] <= '9' then Some(DigitValue(s[0]))
    else if |s| == 2 && s[0] == ' ' && '1' <= s[1] <= '9' then Some(DigitValue(s[1]))
    else None
  }

  /** `datetime.strptime(s, '%Y-%m-%d')`, with `None` for the `ValueError`. */
  function ParseDate(s: string): Option<Date>
  {
    if |s| < 5 || !AllDigits(s[..4]) || s[4] != '-' then None
    else
      match MonthToken(s[5..])
      case None => None
      case Some(m) =>
        if 5 + m.1 + 1 > |s| then None
        else
          match DayToken(s[5 + m.1 + 1..])
          case None => None
          case Some(day) =>
            var d := Date(DecimalValue(s[..4]), m.0, day);
            if ValidDate(d) then Some(d) else None
  }

  /** Characters a parseable date string can contain. */
  predicate IsDateChar(c: char)
  {
    IsDigit(c) || c == '-' || c == ' '
  }

  /**
   * A string that parses is a valid calendar date written with digits,
   * hyphens and at most a padding space: in particular it has no `_`.
   */
  lemma ParseDateSound(s: string)
    requires ParseDate(s).Some?
    ensures ValidDate(ParseDate(s).value)
    ensures forall i :: 0 <= i < |s| ==> IsDateChar(s[i])
  {
    var m := MonthToken(s[5..]).value;
    var t := s[5 + m.1 + 1..];
    assert forall i :: 0 <= i < 4 ==> s[..4][i] == s[i];
    assert forall i :: 5 <= i < 5 + m.1 + 1 ==> s[i] == s[5..][i - 5];
    assert forall i :: 5 + m.1 + 1 <= i < |s| ==> s[i] == t[i - (5 + m.1 + 1)];
  }

  /** Two decimal digits of `n`, zero-padded. */
  function Pad2(n: nat): string
    requires n < 100
  {
    [('0' as int + n / 10) as char, ('0' as int + n % 10) as char]
  }

  /** Four decimal digits of `n`, zero-padded. */
  function Pad4(n: nat): string
    requires n < 10000
  {
    Pad2(n / 100) + Pad2(n % 100)
  }

  /** The canonical `YYYY-MM-DD` spelling of a date. */
  function IsoFormat(d: Date): string
    requires ValidDate(d)
  {
    Pad4(d.year) + "-" + Pad2(d.month) + "-" + Pad2(d.day)
  }

  lemma DecimalValue4(s: string)
    requires |s| == 4 && AllDigits(s)
    ensures DecimalValue(s) == ((DigitValue(s[0]) * 10 + DigitValue(s[1])) * 10 + DigitValue(s[2])) * 10 + DigitValue(s[3])
  {
    assert s[..3][..2] == s[..2];
    assert s[..2][..1] == s[..1];
    assert s[..1][..0] == [];
    assert DecimalValue(s[..1]) == DigitValue(s[0]);
    assert DecimalValue(s[..2]) == DigitValue(s[0]) * 10 + DigitValue(s[1]);
    assert DecimalValue(s[..3]) == DecimalValue(s[..2]) * 10 + DigitValue(s[2]);
    assert DecimalValue(s) == DecimalValue(s[..3]) * 10 + DigitValue(s[3]);
  }

  lemma Pad4Value(n: nat)
    requires n < 10000
    ensures AllDigits(Pad4(n)) && DecimalValue(Pad4(n)) == n
  {
    var s := Pad4(n);
    var hi, lo := n / 100, n % 100;
    assert s == Pad2(hi) + Pad2(lo);
    assert DigitValue(s[0]) == hi / 10 && DigitValue(s[1]) == hi % 10;
    assert DigitValue(s[2]) == lo / 10 && DigitValue(s[3]) == lo % 10;
    DecimalValue4(s);
    assert (hi / 10) * 10 + hi % 10 == hi;
    assert (lo / 10) * 10 + lo % 10 == lo;
    assert ((hi / 10 * 10 + hi % 10) * 10 + lo / 10) * 10 + lo % 10 == hi * 100 + lo;
  }

  /** Every valid date survives printing as `YYYY-MM-DD` and parsing back. */
  lemma ParseIsoFormat(d: Date)
    requires ValidDate(d)
    ensures ParseDate(IsoFormat(d)) == Some(d)
  {
    var s := IsoFormat(d);
    Pad4Value(d.year);
    assert s[..4] == Pad4(d.year);
    assert s[4] == '-';
    var rest := s[5..];
    assert rest == Pad2(d.month) + "-" + Pad2(d.day);
    assert MonthToken(rest) == Some((d.month, 2));
    assert s[8..] == Pad2(d.day);
    assert DayToken(Pad2(d.day)) == Some(d.day);
  }

  lemma Year2024()
    ensures AllDigits("2024") && DecimalValue("2024") == 2024
  {
    DecimalValue4("2024");
  }

  lemma Year2023()
    ensures AllDigits("2023") && DecimalValue("2023") == 2023
  {
    DecimalValue4("2023");
  }

  /** The canonical spelling of 15 March 2024 parses to that date. */
  lemma IsoExample()
    ensures ParseDate("2024-03-15") == Some(Date(2024, 3, 15))
  {
    ParseIsoFormat(Date(2024, 3, 15));
    assert Pad4(2024) == "2024";
    assert IsoFormat(Date(2024, 3, 15)) == "2024-03-15";
  }

  /** Unpadded fields are accepted, as `strptime` does. */
  lemma UnpaddedExample()
    ensures ParseDate("2024-3-5") == Some(Date(2024, 3, 5))
  {
    var s := "2024-3-5";
    assert s[..4] == "2024";
    Year2024();
    assert s[5..] == "3-5";
    assert s[7..] == "5";
  }

  /** 30 February never exists, 29 February 2023 does not either (2023 is not a leap year). */
  lemma InvalidDayExamples()
    ensures ParseDate("2024-02-30") == None
    ensures ParseDate("2023-02-29") == None
  {
    assert "2024-02-30"[..4] == "2024";
    Year2024();
    assert "2024-02-30"[5..] == "02-30";
    assert "2024-02-30"[8..] == "30";
    assert "2023-02-29"[..4] == "2023";
    Year2023();
    assert "2023-02-29"[5..] == "02-29";
    assert "2023-02-29"[8..] == "29";
  }
}
