/** The parts of Python 2's `datetime` that `_convert_time` relies on after
    parsing: building a `datetime` from the parsed fields, which checks
    their ranges, and `isoformat` of the localized result. */
module PyTime {
  import opened Wrappers
  import opened PyStr

  /** Wall-clock fields of a parsed `struct_time`, `struct_time[:6]`. */
  datatype CivilTime = CivilTime(year: int, month: int, day: int, hour: int, minute: int, second: int)

  predicate IsLeapYear(year: int) {
    year % 4 == 0 && (year % 100 != 0 || year % 400 == 0)
  }

  function DaysInMonth(year: int, month: int): (days: int)
    requires 1 <= month <= 12
    ensures 28 <= days <= 31
    ensures days == 29 <==> month == 2 && IsLeapYear(year)
  {
    if month == 2 then (if IsLeapYear(year) then 29 else 28)
    else if month == 4 || month == 6 || month == 9 || month == 11 then 30
    else 31
  }

  /** The range checks of `datetime.datetime(year, month, day, hour,
      minute, second)`; outside them it raises ValueError. `time.strptime`
      lets seconds 60 and 61 through, which these reject. */
  predicate DatetimeAccepts(t: CivilTime) {
    && 1 <= t.year <= 9999
    && 1 <= t.month <= 12
    && 1 <= t.day <= DaysInMonth(t.year, t.month)
    && 0 <= t.hour <= 23
    && 0 <= t.minute <= 59
    && 0 <= t.second <= 59
  }

  /** The first and the last day a `datetime` can hold. */
  predicate AtRangeEnd(t: CivilTime) {
    || (t.year == 1 && t.month == 1 && t.day == 1)
    || (t.year == 9999 && t.month == 12 && t.day == 31)
  }

  /** The wall clock of two times agrees. */
  predicate SameClock(a: CivilTime, b: CivilTime) {
    a.hour == b.hour && a.minute == b.minute && a.second == b.second
  }

  /** `t + timedelta(days=1)`: the next calendar day at the same clock, or
      None where `datetime` raises OverflowError. */
  function NextDay(t: CivilTime): (r: Option<CivilTime>)
    requires DatetimeAccepts(t)
    ensures r.None? <==> t.year == 9999 && t.month == 12 && t.day == 31
    ensures r.Some? ==> DatetimeAccepts(r.value) && SameClock(r.value, t)
  {
    if t.day < DaysInMonth(t.year, t.month) then Some(t.(day := t.day + 1))
    else if t.month < 12 then Some(t.(month := t.month + 1, day := 1))
    else if t.year < 9999 then Some(t.(year := t.year + 1, month := 1, day := 1))
    else None
  }

  /** `t + timedelta(days=-1)`: the previous calendar day at the same
      clock, or None where `datetime` raises OverflowError. */
  function PrevDay(t: CivilTime): (r: Option<CivilTime>)
    requires DatetimeAccepts(t)
    ensures r.None? <==> t.year == 1 && t.month == 1 && t.day == 1
    ensures r.Some? ==> DatetimeAccepts(r.value) && SameClock(r.value, t)
  {
    if t.day > 1 then Some(t.(day := t.day - 1))
    else if t.month > 1 then Some(t.(month := t.month - 1, day := DaysInMonth(t.year, t.month - 1)))
    else if t.year > 1 then Some(t.(year := t.year - 1, month := 12, day := 31))
    else None
  }

  /** Stepping a day forward and then back returns to the same time. */
  lemma NextPrevDay(t: CivilTime)
    requires DatetimeAccepts(t) && NextDay(t).Some?
    ensures PrevDay(NextDay(t).value) == Some(t)
  {
  }

  /** Stepping a day back and then forward returns to the same time. */
  lemma PrevNextDay(t: CivilTime)
    requires DatetimeAccepts(t) && PrevDay(t).Some?
    ensures NextDay(PrevDay(t).value) == Some(t)
  {
  }

  /** A step of one day either way overflows exactly on the first and the
      last day of the range. */
  lemma DayStepOverflows(t: CivilTime)
    requires DatetimeAccepts(t)
    ensures PrevDay(t).None? || NextDay(t).None? <==> AtRangeEnd(t)
  {
  }

  function Pow10(k: nat): (p: nat)
    ensures p >= 1
  {
    if k == 0 then 1 else 10 * Pow10(k - 1)
  }

  function Digit(d: nat): (c: char)
    requires d < 10
    ensures IsDigit(c) && c as int - '0' as int == d
  {
    ('0' as int + d) as char
  }

  /** The number a string of decimal digits denotes. */
  function Value(s: string): int
  {
    if s == [] then 0 else 10 * Value(s[..|s| - 1]) + (s[|s| - 1] as int - '0' as int)
  }

  /** `str(n)` of a natural number: its decimal digits, with no leading
      zero. */
  function Digits(n: nat): (s: string)
    ensures s != [] && AllDigits(s)
    ensures s[0] == '0' <==> n == 0
  {
    if n < 10 then [Digit(n)] else Digits(n / 10) + [Digit(n % 10)]
  }

  /** The digits of `n` denote `n`. */
  lemma {:induction false} DigitsValue(n: nat)
    ensures Value(Digits(n)) == n
  {
    if n >= 10 {
      var s := Digits(n);
      assert s[..|s| - 1] == Digits(n / 10);
      DigitsValue(n / 10);
    }
  }

  /** A number below 10^w has at most w digits. */
  lemma {:induction false} DigitsLength(n: nat, w: nat)
    requires 0 < w && n < Pow10(w)
    ensures |Digits(n)| <= w
  {
    if n >= 10 {
      DigitsLength(n / 10, w - 1);
    }
  }

  /** Leading zeros do not change the value. */
  lemma {:induction false} ValueZeros(k: nat, s: string)
    ensures Value(Zeros(k) + s) == Value(s)
    decreases |s|
  {
    if s == [] {
      assert Zeros(k) + s == Zeros(k);
      ZerosValue(k);
    } else {
      var t := Zeros(k) + s;
      assert t[..|t| - 1] == Zeros(k) + s[..|s| - 1];
      ValueZeros(k, s[..|s| - 1]);
    }
  }

  lemma {:induction false} ZerosValue(k: nat)
    ensures Value(Zeros(k)) == 0
  {
    if k > 0 {
      assert Zeros(k)[..k - 1] == Zeros(k - 1);
      ZerosValue(k - 1);
    }
  }

  /** `"%0*d" % (width, n)`: the digits of `n`, zero-filled to `width`. */
  function PadInt(n: nat, width: nat): (s: string)
    ensures |s| >= width
    ensures 0 < width && n < Pow10(width) ==> |s| == width
    ensures AllDigits(s)
    ensures Value(s) == n
  {
    ZFillDigitsLength(n, width);
    ZFillDigitsValue(n, width);
    ZFill(Digits(n), width)
  }

  /** Zero-filling the digits of `n` reaches exactly `width` characters
      when `n` fits. */
  lemma ZFillDigitsLength(n: nat, width: nat)
    ensures 0 < width && n < Pow10(width) ==> |ZFill(Digits(n), width)| == width
  {
    if 0 < width && n < Pow10(width) {
      DigitsLength(n, width);
    }
  }

  /** Zero-filling the digits of `n` keeps them digits, denoting `n`. */
  lemma ZFillDigitsValue(n: nat, width: nat)
    ensures AllDigits(ZFill(Digits(n), width)) && Value(ZFill(Digits(n), width)) == n
  {
    var digits := Digits(n);
    DigitsValue(n);
    if |digits| < width {
      var r := ZFill(digits, width);
      assert r == Zeros(width - |digits|) + digits;
      ValueZeros(width - |digits|, digits);
      forall i | 0 <= i < |r|
        ensures IsDigit(r[i])
      {
        if i >= width - |digits| {
          assert r[i] == digits[i - (width - |digits|)];
        }
      }
    }
  }

  /** `utcoffset()` as `isoformat` writes it: the sign, then hours and
      minutes, each at least two digits. */
  function OffsetText(minutes: int): (s: string)
    ensures |s| >= 6 && IsSign(s[0]) && s[|s| - 3] == ':'
    ensures (s[0] == '-') == (minutes < 0)
    ensures var m := if minutes < 0 then -minutes else minutes;
      && AllDigits(s[1..|s| - 3]) && Value(s[1..|s| - 3]) == m / 60
      && AllDigits(s[|s| - 2..]) && Value(s[|s| - 2..]) == m % 60
    ensures IsAsciiText(s)
  {
    var m := if minutes < 0 then -minutes else minutes;
    var hours := PadInt(m / 60, 2);
    var mins := PadInt(m % 60, 2);
    assert Pow10(2) == 100;
    OffsetLayout([if minutes < 0 then '-' else '+'], hours, mins);
    [if minutes < 0 then '-' else '+'] + hours + ":" + mins
  }

  /** Where the parts of the offset text sit, and that it is ASCII. */
  lemma OffsetLayout(sign: string, hours: string, mins: string)
    requires |sign| == 1 && sign[0] as int < 0x80 && |hours| >= 2 && |mins| == 2
    requires AllDigits(hours) && AllDigits(mins)
    ensures var s := sign + hours + ":" + mins;
      && |s| >= 6 && s[0] == sign[0] && s[|s| - 3] == ':'
      && s[1..|s| - 3] == hours && s[|s| - 2..] == mins && IsAsciiText(s)
  {
    var s := sign + hours + ":" + mins;
    assert s[1..|s| - 3] == hours;
    assert s[|s| - 2..] == mins;
    forall i | 0 <= i < |s|
      ensures s[i] as int < 0x80
    {
      if 1 <= i < |s| - 3 {
        assert s[i] == hours[i - 1];
      } else if i >= |s| - 2 {
        assert s[i] == mins[i - (|s| - 2)];
      }
    }
  }

  /** `isoformat()` of an aware `datetime` with whole seconds:
      `YYYY-MM-DDTHH:MM:SS` followed by the UTC offset. */
  function IsoFormat(t: CivilTime, offset: int): (s: string)
    requires DatetimeAccepts(t)
    ensures |s| >= 25 && IsAsciiText(s)
  {
    var year, month, day := PadInt(t.year, 4), PadInt(t.month, 2), PadInt(t.day, 2);
    var hour, minute, second := PadInt(t.hour, 2), PadInt(t.minute, 2), PadInt(t.second, 2);
    PadWidths(t);
    IsoText(year, month, day, hour, minute, second, OffsetText(offset));
    Fields(year, '-', month, day) + "T" + Fields(hour, ':', minute, second) + OffsetText(offset)
  }

  /** The text `isoformat` writes has the separators in their places, the
      six fields as digits that read back from their positions, and the
      offset at the end. */
  lemma IsoFormatFields(t: CivilTime, offset: int)
    requires DatetimeAccepts(t)
    ensures var s := IsoFormat(t, offset);
      && s[4] == '-' && s[7] == '-' && s[10] == 'T' && s[13] == ':' && s[16] == ':'
      && Value(s[..4]) == t.year && Value(s[5..7]) == t.month && Value(s[8..10]) == t.day
      && Value(s[11..13]) == t.hour && Value(s[14..16]) == t.minute && Value(s[17..19]) == t.second
      && AllDigits(s[..4]) && AllDigits(s[5..7]) && AllDigits(s[8..10])
      && AllDigits(s[11..13]) && AllDigits(s[14..16]) && AllDigits(s[17..19])
      && s[19..] == OffsetText(offset)
  {
    var year, month, day := PadInt(t.year, 4), PadInt(t.month, 2), PadInt(t.day, 2);
    var hour, minute, second := PadInt(t.hour, 2), PadInt(t.minute, 2), PadInt(t.second, 2);
    PadWidths(t);
    IsoText(year, month, day, hour, minute, second, OffsetText(offset));
  }

  /** Every field of an in-range time fits its width. */
  lemma PadWidths(t: CivilTime)
    requires DatetimeAccepts(t)
    ensures |PadInt(t.year, 4)| == 4 && |PadInt(t.month, 2)| == 2 && |PadInt(t.day, 2)| == 2
    ensures |PadInt(t.hour, 2)| == 2 && |PadInt(t.minute, 2)| == 2 && |PadInt(t.second, 2)| == 2
  {
    assert Pow10(2) == 100;
    assert Pow10(4) == 10000;
  }

  /** Three fields with a separator between each two. */
  function Fields(a: string, sep: char, b: string, c: string): string
  {
    a + [sep] + b + [sep] + c
  }

  /** Where the fields sit: the first, then the separator, then two
      two-character fields. */
  lemma FieldsLayout(a: string, sep: char, b: string, c: string)
    requires |b| == 2 && |c| == 2
    ensures var s := Fields(a, sep, b, c);
      && |s| == |a| + 6 && s[..|a|] == a && s[|a|] == sep && s[|a| + 1..|a| + 3] == b
      && s[|a| + 3] == sep && s[|a| + 4..] == c
  {
  }

  /** Digits and an ASCII separator make ASCII text. */
  lemma FieldsAscii(a: string, sep: char, b: string, c: string)
    requires sep as int < 0x80
    requires AllDigits(a) && AllDigits(b) && AllDigits(c)
    ensures IsAsciiText(Fields(a, sep, b, c))
  {
    var s := Fields(a, sep, b, c);
    forall i | 0 <= i < |s|
      ensures s[i] as int < 0x80
    {
      if i < |a| {
        assert s[i] == a[i];
      } else if i == |a| || i == |a| + |b| + 1 {
        assert s[i] == sep;
      } else if i < |a| + |b| + 1 {
        assert s[i] == b[i - |a| - 1];
      } else {
        assert s[i] == c[i - |a| - |b| - 2];
      }
    }
  }

  lemma AsciiAppend(a: string, b: string)
    requires IsAsciiText(a) && IsAsciiText(b)
    ensures IsAsciiText(a + b)
  {
    var s := a + b;
    forall i | 0 <= i < |s|
      ensures s[i] as int < 0x80
    {
      if i < |a| {
        assert s[i] == a[i];
      } else {
        assert s[i] == b[i - |a|];
      }
    }
  }

  /** The date fields, `T`, the clock fields and the offset: where each
      field sits, and that the whole is ASCII. */
  lemma IsoText(year: string, month: string, day: string, hour: string, minute: string,
                second: string, offset: string)
    requires |year| == 4 && |month| == 2 && |day| == 2 && |hour| == 2 && |minute| == 2 && |second| == 2
    requires AllDigits(year) && AllDigits(month) && AllDigits(day)
    requires AllDigits(hour) && AllDigits(minute) && AllDigits(second)
    requires |offset| >= 6 && IsAsciiText(offset)
    ensures var s := Fields(year, '-', month, day) + "T" + Fields(hour, ':', minute, second) + offset;
      && |s| >= 25 && IsAsciiText(s)
      && s[4] == '-' && s[7] == '-' && s[10] == 'T' && s[13] == ':' && s[16] == ':'
      && s[..4] == year && s[5..7] == month && s[8..10] == day
      && s[11..13] == hour && s[14..16] == minute && s[17..19] == second
      && s[19..] == offset
  {
    var date := Fields(year, '-', month, day);
    var clock := Fields(hour, ':', minute, second);
    FieldsLayout(year, '-', month, day);
    FieldsLayout(hour, ':', minute, second);
    FieldsAscii(year, '-', month, day);
    FieldsAscii(hour, ':', minute, second);
    IsoJoin(date, clock, offset);
  }

  /** Positions in `date + "T" + clock + offset` for a ten-character date
      and an eight-character clock. */
  lemma IsoJoin(date: string, clock: string, offset: string)
    requires |date| == 10 && |clock| == 8 && |offset| >= 6
    requires IsAsciiText(date) && IsAsciiText(clock) && IsAsciiText(offset)
    ensures var s := date + "T" + clock + offset;
      && |s| >= 25 && IsAsciiText(s) && s[10] == 'T' && s[19..] == offset
      && s[4] == date[4] && s[7] == date[7] && s[13] == clock[2] && s[16] == clock[5]
      && s[..4] == date[..4] && s[5..7] == date[5..7] && s[8..10] == date[8..]
      && s[11..13] == clock[..2] && s[14..16] == clock[3..5] && s[17..19] == clock[6..]
  {
    var s := date + "T" + clock + offset;
    assert s[..10] == date && s[11..19] == clock;
    AsciiAppend(date, "T");
    AsciiAppend(date + "T", clock);
    AsciiAppend(date + "T" + clock, offset);
  }
}
