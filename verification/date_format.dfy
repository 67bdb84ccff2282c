/** The `YYYYMMDD` text form of campaign and iteration dates.

    Reading uses Python's date parsing with the format `%Y%m%d`, which
    compiles the format to the regular expression `(\d\d\d\d)(1[0-2]|0[1-9]|[1-9])(3[01]|[12]\d|0[1-9]|[1-9]| [1-9])`,
    takes the first match the backtracking engine finds at the start of the
    text, rejects the text if characters remain after it, and finally rejects
    a year/month/day that is not a date. Writing formats the date with the same format. */
module DateFormat {
  import opened Wrappers
  import opened Calendar

  datatype ParseError =
    | NotText                 // the value is neither a date nor a string: `strptime` raises a type error
    | DoesNotMatchFormat      // the regular expression does not match at the start
    | UnconvertedDataRemains  // it matches, but not the whole text
    | OutOfRange              // the fields do not name a date (month 2, day 30; year 0)

  /** A raw date field as Pydantic hands it to the validator: a `date`, a
      string, or any other value the configuration holds (a number, `null`). */
  datatype DateInput = DateValue(date: ValidDate) | DateText(text: string) | DateOther

  predicate IsDigit(c: char) {
    '0' <= c <= '9'
  }

  function DigitValue(c: char): (n: int)
    requires IsDigit(c)
    ensures 0 <= n <= 9
  {
    c as int - '0' as int
  }

  function DigitChar(n: int): (c: char)
    requires 0 <= n <= 9
    ensures IsDigit(c) && DigitValue(c) == n
  {
    ('0' as int + n) as char
  }

  /** One way a field's regex alternative matches at the start of a text:
      the field's value and the number of characters it consumes. */
  datatype FieldMatch = FieldMatch(value: int, width: nat)

  /** The alternatives of `%m` = `1[0-2]|0[1-9]|[1-9]` that match at the
      start of `r`, in the order the engine tries them. */
  function MonthMatches(r: string): (ms: seq<FieldMatch>)
    ensures forall i :: 0 <= i < |ms| ==> 1 <= ms[i].width <= 2 && ms[i].width <= |r|
  {
    (if |r| >= 2 && r[0] == '1' && '0' <= r[1] <= '2' then [FieldMatch(10 + DigitValue(r[1]), 2)] else [])
    + (if |r| >= 2 && r[0] == '0' && '1' <= r[1] <= '9' then [FieldMatch(DigitValue(r[1]), 2)] else [])
    + (if |r| >= 1 && '1' <= r[0] <= '9' then [FieldMatch(DigitValue(r[0]), 1)] else [])
  }

  /** The alternatives of `%d` = `3[01]|[12]\d|0[1-9]|[1-9]| [1-9]` that
      match at the start of `r`, in the order the engine tries them. */
  function DayMatches(r: string): (ds: seq<FieldMatch>)
    ensures forall i :: 0 <= i < |ds| ==> 1 <= ds[i].width <= 2 && ds[i].width <= |r|
  {
    (if |r| >= 2 && r[0] == '3' && '0' <= r[1] <= '1' then [FieldMatch(30 + DigitValue(r[1]), 2)] else [])
    + (if |r| >= 2 && '1' <= r[0] <= '2' && IsDigit(r[1]) then [FieldMatch(10 * DigitValue(r[0]) + DigitValue(r[1]), 2)] else [])
    + (if |r| >= 2 && r[0] == '0' && '1' <= r[1] <= '9' then [FieldMatch(DigitValue(r[1]), 2)] else [])
    + (if |r| >= 1 && '1' <= r[0] <= '9' then [FieldMatch(DigitValue(r[0]), 1)] else [])
    + (if |r| >= 2 && r[0] == ' ' && '1' <= r[1] <= '9' then [FieldMatch(DigitValue(r[1]), 2)] else [])
  }

  /** Month and day found by backtracking: the first month alternative of
      `ms`, from index `i` on, after which some day alternative matches,
      paired with the first such day alternative. */
  function MatchMonthDay(r: string, ms: seq<FieldMatch>, i: nat): (m: Option<(FieldMatch, FieldMatch)>)
    requires i <= |ms|
    requires forall j :: 0 <= j < |ms| ==> ms[j].width <= |r|
    ensures m.Some? ==> m.value.0 in ms && m.value.0.width <= |r|
    ensures m.Some? ==> m.value.1 in DayMatches(r[m.value.0.width..])
    ensures m.None? <==> forall j :: i <= j < |ms| ==> DayMatches(r[ms[j].width..]) == []
    decreases |ms| - i
  {
    if i == |ms| then None
    else
      var ds := DayMatches(r[ms[i].width..]);
      if |ds| > 0 then Some((ms[i], ds[0]))
      else MatchMonthDay(r, ms, i + 1)
  }

  /** Backtracking keeps the month alternative it reaches when some day
      alternative matches after it. */
  lemma MonthKept(r: string, ms: seq<FieldMatch>, i: nat)
    requires i < |ms| && forall j :: 0 <= j < |ms| ==> ms[j].width <= |r|
    requires DayMatches(r[ms[i].width..]) != []
    ensures MatchMonthDay(r, ms, i) == Some((ms[i], DayMatches(r[ms[i].width..])[0]))
  {
  }

  /** Backtracking skips a month alternative after which no day
      alternative matches. */
  lemma MonthSkipped(r: string, ms: seq<FieldMatch>, i: nat)
    requires i < |ms| && forall j :: 0 <= j < |ms| ==> ms[j].width <= |r|
    requires DayMatches(r[ms[i].width..]) == []
    ensures MatchMonthDay(r, ms, i) == MatchMonthDay(r, ms, i + 1)
  {
  }

  function FourDigitValue(s: string): int
    requires |s| == 4 && forall i :: 0 <= i < 4 ==> IsDigit(s[i])
  {
    1000 * DigitValue(s[0]) + 100 * DigitValue(s[1]) + 10 * DigitValue(s[2]) + DigitValue(s[3])
  }

  /** Reading a string as a date in the `%Y%m%d` format, keeping only the
      date part of the result. */
  function ParseYmd(s: string): (r: Result<ValidDate, ParseError>)
    ensures r.Ok? ==> 6 <= |s| <= 8
    ensures r.Ok? ==> forall i :: 0 <= i < 4 ==> IsDigit(s[i])
    ensures r.Ok? ==> r.value.year == FourDigitValue(s[..4])
  {
    if |s| < 4 || !(forall i :: 0 <= i < 4 ==> IsDigit(s[i])) then Err(DoesNotMatchFormat)
    else
      var rest := s[4..];
      match MatchMonthDay(rest, MonthMatches(rest), 0)
      case None => Err(DoesNotMatchFormat)
      case Some((month, day)) =>
        if month.width + day.width != |rest| then Err(UnconvertedDataRemains)
        else
          var d := Date(FourDigitValue(s[..4]), month.value, day.value);
          if Valid(d) then Ok(d) else Err(OutOfRange)
  }

  /** Writing a date in the `%Y%m%d` format: year, month and day as
      zero-padded decimals. */
  function SerializeYmd(d: ValidDate): (s: string)
    ensures |s| == 8
    ensures forall i :: 0 <= i < |s| ==> IsDigit(s[i])
    ensures FourDigitValue(s[..4]) == d.year
    ensures 10 * DigitValue(s[4]) + DigitValue(s[5]) == d.month
    ensures 10 * DigitValue(s[6]) + DigitValue(s[7]) == d.day
  {
    DecimalDigits(d.year);
    [DigitChar(d.year / 1000), DigitChar(d.year / 100 % 10), DigitChar(d.year / 10 % 10), DigitChar(d.year % 10),
     DigitChar(d.month / 10), DigitChar(d.month % 10),
     DigitChar(d.day / 10), DigitChar(d.day % 10)]
  }

  /** `parse_dates`: a date passes through unchanged; an eight-character
      text without blanks is accepted exactly when it is the written form of
      a date, and then it reads as that date; a value that is neither a date
      nor a string is rejected. */
  function ParseDate(v: DateInput): (r: Result<ValidDate, ParseError>)
    ensures v.DateValue? ==> r == Ok(v.date)
    ensures v.DateOther? ==> r == Err(NotText)
    ensures v.DateText? ==> r == ParseYmd(v.text)
    ensures v.DateText? && r.Ok? ==> 6 <= |v.text| <= 8
    ensures v.DateText? && |v.text| == 8 && ' ' !in v.text ==> (r.Ok? <==> exists d: ValidDate :: SerializeYmd(d) == v.text)
    ensures v.DateText? && |v.text| == 8 && ' ' !in v.text && r.Ok? ==> SerializeYmd(r.value) == v.text
  {
    match v
    case DateValue(d) => Ok(d)
    case DateOther => Err(NotText)
    case DateText(t) =>
      ReadsExactlyWrittenForms(t);
      ParseYmd(t)
  }

  /** `serialize_dates`: the eight-digit written form, which reads back as
      the same date. */
  function SerializeDate(d: ValidDate): (s: string)
    ensures |s| == 8 && forall i :: 0 <= i < 8 ==> IsDigit(s[i])
    ensures ParseDate(DateText(s)) == Ok(d)
  {
    SerializeRoundTrip(d);
    SerializeYmd(d)
  }

  /** Among eight-character texts without blanks, exactly the written forms
      of dates are read as dates, each as the date it writes. */
  lemma ReadsExactlyWrittenForms(t: string)
    ensures |t| == 8 && ' ' !in t ==> (ParseYmd(t).Ok? <==> exists d: ValidDate :: SerializeYmd(d) == t)
    ensures |t| == 8 && ' ' !in t && ParseYmd(t).Ok? ==> SerializeYmd(ParseYmd(t).value) == t
  {
    if |t| == 8 && ' ' !in t {
      if ParseYmd(t).Ok? {
        ParseCanonical(t);
      } else if exists d: ValidDate :: SerializeYmd(d) == t {
        var d: ValidDate :| SerializeYmd(d) == t;
        SerializeRoundTrip(d);
      }
    }
  }

  lemma DecimalDigits(n: int)
    requires 0 <= n <= 9999
    ensures 1000 * (n / 1000) + 100 * (n / 100 % 10) + 10 * (n / 10 % 10) + n % 10 == n
    ensures 0 <= n / 1000 <= 9
  {
    var q1, e := n / 10, n % 10;
    var q2, c := q1 / 10, q1 % 10;
    var q3, b := q2 / 10, q2 % 10;
    assert n == 100 * q2 + (10 * c + e);
    assert n / 100 == q2;
    assert n == 1000 * q3 + (100 * b + 10 * c + e);
    assert n / 1000 == q3;
  }

  /** Reading the written form of a date gives back the same date. */
  lemma {:induction false} SerializeRoundTrip(d: ValidDate)
    ensures ParseYmd(SerializeYmd(d)) == Ok(d)
  {
    var s := SerializeYmd(d);
    DecimalDigits(d.year);
    assert FourDigitValue(s[..4]) == d.year;
    var rest := s[4..];
    assert rest == [s[4], s[5], s[6], s[7]];
    assert rest[..2] == TwoDigits(d.month) && rest[2..] == TwoDigits(d.day);
    MonthReadFirst(rest, d.month);
    DayReadFirst(rest[2..], d.day);
  }

  /** A zero-padded month is the first alternative of `%m` that matches. */
  lemma MonthReadFirst(r: string, month: int)
    requires 1 <= month <= 12 && |r| >= 2 && r[..2] == TwoDigits(month)
    ensures |MonthMatches(r)| > 0 && MonthMatches(r)[0] == FieldMatch(month, 2)
  {
    assert month == 10 * (month / 10) + month % 10;
  }

  /** A zero-padded day is the first alternative of `%d` that matches. */
  lemma DayReadFirst(r: string, day: int)
    requires 1 <= day <= 31 && r == TwoDigits(day)
    ensures |DayMatches(r)| > 0 && DayMatches(r)[0] == FieldMatch(day, 2)
  {
    assert day == 10 * (day / 10) + day % 10;
  }

  function TwoDigits(n: int): (s: string)
    requires 0 <= n <= 99
  {
    [DigitChar(n / 10), DigitChar(n % 10)]
  }

  /** The decimal places of a four-digit number are its digits. */
  lemma PlaceValues(a: int, b: int, c: int, e: int)
    requires 0 <= a <= 9 && 0 <= b <= 9 && 0 <= c <= 9 && 0 <= e <= 9
    ensures var n := 1000 * a + 100 * b + 10 * c + e;
      n / 1000 == a && n / 100 % 10 == b && n / 10 % 10 == c && n % 10 == e
  {
    var n := 1000 * a + 100 * b + 10 * c + e;
    assert n == 100 * (10 * a + b) + (10 * c + e);
    assert n / 100 == 10 * a + b;
    assert n == 10 * (100 * a + 10 * b + c) + e;
    assert n / 10 == 100 * a + 10 * b + c;
  }

  lemma FourDigitsRead(t: string)
    requires |t| == 4 && forall i :: 0 <= i < 4 ==> IsDigit(t[i])
    ensures var n := FourDigitValue(t);
      && 0 <= n <= 9999
      && [DigitChar(n / 1000), DigitChar(n / 100 % 10), DigitChar(n / 10 % 10), DigitChar(n % 10)] == t
  {
    PlaceValues(DigitValue(t[0]), DigitValue(t[1]), DigitValue(t[2]), DigitValue(t[3]));
  }

  lemma TwoWideMonthRead(r: string, m: FieldMatch)
    requires m in MonthMatches(r) && m.width == 2
    ensures 0 <= m.value <= 99 && TwoDigits(m.value) == r[..2]
  {
  }

  lemma TwoWideDayRead(r: string, m: FieldMatch)
    requires |r| == 2 && r[0] != ' '
    requires m in DayMatches(r) && m.width == 2
    ensures 0 <= m.value <= 99 && TwoDigits(m.value) == r
  {
  }

  lemma OneWideMonthRead(r: string, m: FieldMatch)
    requires m in MonthMatches(r) && m.width == 1
    ensures r[0] as int == '0' as int + m.value
  {
  }

  lemma OneWideDayRead(r: string, m: FieldMatch)
    requires m in DayMatches(r) && m.width == 1
    ensures r[0] as int == '0' as int + m.value
  {
  }

  lemma BlankDayRead(r: string, m: FieldMatch)
    requires |r| >= 2 && r[0] == ' ' && m in DayMatches(r) && m.width == 2
    ensures r[1] as int == '0' as int + m.value
  {
  }

  /** Characters 5 and 6 of `s` spell a month from 01 to 12. */
  predicate TwoDigitMonthAt(s: string) {
    |s| >= 6 && ((s[4] == '1' && '0' <= s[5] <= '2') || (s[4] == '0' && '1' <= s[5] <= '9'))
  }

  /** In a three-character month-and-day text, a month 01 to 12 followed by
      a digit 1 to 9 is the month backtracking settles on. */
  lemma TwoDigitMonthChosen(r: string)
    requires |r| == 3 && ((r[0] == '1' && '0' <= r[1] <= '2') || (r[0] == '0' && '1' <= r[1] <= '9')) && '1' <= r[2] <= '9'
    ensures MatchMonthDay(r, MonthMatches(r), 0).Some? && MatchMonthDay(r, MonthMatches(r), 0).value.0.width == 2
  {
    var ms := MonthMatches(r);
    assert ms[0].width == 2;
    assert r[2..] == [r[2]];
    assert DayMatches(r[2..]) != [];
    MonthKept(r, ms, 0);
  }

  /** A six-character text that reads as a date has a one-digit month and a
      one-digit day: `202411` is 2024-01-01. */
  lemma {:induction false} ParseSixChars(s: string)
    requires |s| == 6 && ParseYmd(s).Ok?
    ensures var d := ParseYmd(s).value;
      s[4] as int == '0' as int + d.month && s[5] as int == '0' as int + d.day
  {
    var rest := s[4..];
    var (month, day) := MatchMonthDay(rest, MonthMatches(rest), 0).value;
    assert month.width == 1 && day.width == 1;
    OneWideMonthRead(rest, month);
    OneWideDayRead(rest[1..], day);
  }

  /** A seven-character text that reads as a date. A blank after the fifth
      character makes a one-digit month and a blank-padded day
      (`20241 5` is 2024-01-05). Otherwise a month 01 to 12 in characters 5
      and 6 followed by a digit 1 to 9 is read as that month and a one-digit
      day (`2024111` is 2024-11-01); any other such text has a one-digit
      month and a two-digit day (`2024131` is 2024-01-31). */
  lemma {:induction false} ParseSevenChars(s: string)
    requires |s| == 7 && ParseYmd(s).Ok?
    ensures var d := ParseYmd(s).value;
      s[5] == ' ' ==> s[4] as int == '0' as int + d.month && s[6] as int == '0' as int + d.day
    ensures var d := ParseYmd(s).value;
      s[5] != ' ' && TwoDigitMonthAt(s) && '1' <= s[6] <= '9' ==>
        s[4..6] == TwoDigits(d.month) && s[6] as int == '0' as int + d.day
    ensures var d := ParseYmd(s).value;
      s[5] != ' ' && !(TwoDigitMonthAt(s) && '1' <= s[6] <= '9') ==>
        s[4] as int == '0' as int + d.month && s[5..] == TwoDigits(d.day)
  {
    var rest := s[4..];
    var ms := MonthMatches(rest);
    var (month, day) := MatchMonthDay(rest, ms, 0).value;
    if TwoDigitMonthAt(s) && '1' <= s[6] <= '9' {
      TwoDigitMonthChosen(rest);
    }
    if month.width == 2 {
      TwoWideMonthRead(rest, month);
      assert rest[2..] == [s[6]];
      OneWideDayRead(rest[2..], day);
    } else {
      OneWideMonthRead(rest, month);
      assert day.width == 2 && rest[1..] == s[5..];
      if s[5] == ' ' {
        BlankDayRead(rest[1..], day);
      } else {
        TwoWideDayRead(rest[1..], day);
      }
    }
  }

  /** An eight-character text with a blank after the sixth character reads
      as a two-digit month and a blank-padded day: `202401 5` is
      2024-01-05. */
  lemma {:induction false} ParseBlankPaddedDay(s: string)
    requires |s| == 8 && s[6] == ' ' && ParseYmd(s).Ok?
    ensures var d := ParseYmd(s).value;
      s[4..6] == TwoDigits(d.month) && s[7] as int == '0' as int + d.day
  {
    var rest := s[4..];
    var (month, day) := MatchMonthDay(rest, MonthMatches(rest), 0).value;
    assert month.width == 2 && day.width == 2;
    TwoWideMonthRead(rest, month);
    assert rest[2..][0] == ' ' && rest[2..][1] == s[7];
    BlankDayRead(rest[2..], day);
  }

  /** Once the month and day alternatives chosen by backtracking are known
      and use up the text, the reading is that date, if it exists. */
  lemma ReadFromMatch(s: string, month: FieldMatch, day: FieldMatch)
    requires YearDigits(s)
    requires MatchMonthDay(s[4..], MonthMatches(s[4..]), 0) == Some((month, day))
    requires month.width + day.width == |s| - 4
    ensures ParseYmd(s) == InRange(Date(FourDigitValue(s[..4]), month.value, day.value))
  {
  }

  /** The outcome of reading a date whose fields matched: the date if it
      exists, otherwise a range error. */
  function InRange(d: Date): (r: Result<ValidDate, ParseError>)
    ensures r.Ok? <==> Valid(d)
    ensures r.Ok? ==> r.value == d
  {
    if Valid(d) then Ok(d) else Err(OutOfRange)
  }

  /** Characters `i` and `i + 1` of `s` spell a two-digit day: 01 to 09, 10
      to 29, 30 or 31. */
  predicate TwoDigitDayAt(s: string, i: nat) {
    i + 2 <= |s|
    && ((s[i] == '3' && '0' <= s[i + 1] <= '1') || ('1' <= s[i] <= '2' && IsDigit(s[i + 1])) || (s[i] == '0' && '1' <= s[i + 1] <= '9'))
  }

  /** The first four characters of `s` are digits. */
  predicate YearDigits(s: string) {
    |s| >= 4 && forall i :: 0 <= i < 4 ==> IsDigit(s[i])
  }

  /** A two-digit day is the first day alternative that matches. */
  lemma TwoDigitDayFirst(r: string)
    requires |r| == 2 && TwoDigitDayAt(r, 0)
    ensures DayMatches(r) != [] && DayMatches(r)[0] == FieldMatch(10 * DigitValue(r[0]) + DigitValue(r[1]), 2)
  {
  }

  /** The month alternatives after `1` and a digit 0 to 2: the two-digit
      month first, then the month 1. */
  lemma MonthMatchesTen(r: string)
    requires |r| >= 2 && r[0] == '1' && '0' <= r[1] <= '2'
    ensures MonthMatches(r) == [FieldMatch(10 + DigitValue(r[1]), 2), FieldMatch(1, 1)]
  {
  }

  /** A digit 1 to 9 that does not start a month 10 to 12 matches only as
      a one-digit month. */
  lemma MonthMatchesOneDigit(r: string)
    requires |r| >= 2 && '1' <= r[0] <= '9' && !(r[0] == '1' && '0' <= r[1] <= '2')
    ensures MonthMatches(r) == [FieldMatch(DigitValue(r[0]), 1)]
  {
  }

  /** A single character other than a digit 1 to 9 matches no day
      alternative. */
  lemma NoDayInOneChar(r: string)
    requires |r| == 1 && !('1' <= r[0] <= '9')
    ensures DayMatches(r) == []
  {
  }

  /** After `1` and a digit 0 to 2 with no day alternative matching after
      them, backtracking settles on the month 1. */
  lemma MonthOneAfterTen(r: string)
    requires |r| == 3 && r[0] == '1' && '0' <= r[1] <= '2' && !('1' <= r[2] <= '9')
    requires DayMatches(r[1..]) != []
    ensures MatchMonthDay(r, MonthMatches(r), 0) == Some((FieldMatch(1, 1), DayMatches(r[1..])[0]))
  {
    MonthMatchesTen(r);
    assert r[2..][0] == r[2];
    NoDayInOneChar(r[2..]);
    MonthSkipped(r, MonthMatches(r), 0);
    MonthKept(r, MonthMatches(r), 1);
  }

  /** A digit 1 to 9 that does not start a month 10 to 12 is the month
      backtracking settles on when a day alternative matches after it. */
  lemma OneDigitMonthKept(r: string)
    requires |r| >= 2 && '1' <= r[0] <= '9' && !(r[0] == '1' && '0' <= r[1] <= '2')
    requires DayMatches(r[1..]) != []
    ensures MatchMonthDay(r, MonthMatches(r), 0) == Some((FieldMatch(DigitValue(r[0]), 1), DayMatches(r[1..])[0]))
  {
    MonthMatchesOneDigit(r);
    MonthKept(r, MonthMatches(r), 0);
  }

  /** Four digits and two digits 1 to 9 are accepted as a one-digit month
      and a one-digit day. */
  lemma {:induction false} SixCharsAccepted(s: string)
    requires |s| == 6 && YearDigits(s) && '1' <= s[4] <= '9' && '1' <= s[5] <= '9'
    ensures ParseYmd(s) == InRange(Date(FourDigitValue(s[..4]), DigitValue(s[4]), DigitValue(s[5])))
  {
    var rest := s[4..];
    var ms := MonthMatches(rest);
    var one := FieldMatch(DigitValue(s[4]), 1);
    var day := FieldMatch(DigitValue(s[5]), 1);
    assert rest[1..] == [s[5]] && rest[2..] == [];
    assert DayMatches(rest[1..]) == [day];
    if s[4] == '1' && s[5] <= '2' {
      assert ms == [FieldMatch(10 + DigitValue(s[5]), 2), one];
      assert DayMatches(rest[2..]) == [];
      MonthSkipped(rest, ms, 0);
      MonthKept(rest, ms, 1);
    } else {
      assert ms == [one];
      MonthKept(rest, ms, 0);
    }
    ReadFromMatch(s, one, day);
  }

  /** Four digits, a digit 1 to 9, a blank and a digit 1 to 9 are accepted
      as a one-digit month and a blank-padded day. */
  lemma {:induction false} SevenCharsBlankDayAccepted(s: string)
    requires |s| == 7 && YearDigits(s) && '1' <= s[4] <= '9' && s[5] == ' ' && '1' <= s[6] <= '9'
    ensures ParseYmd(s) == InRange(Date(FourDigitValue(s[..4]), DigitValue(s[4]), DigitValue(s[6])))
  {
    var rest := s[4..];
    var ms := MonthMatches(rest);
    var one := FieldMatch(DigitValue(s[4]), 1);
    var day := FieldMatch(DigitValue(s[6]), 2);
    assert ms == [one];
    assert rest[1..] == [' ', s[6]];
    assert DayMatches(rest[1..]) == [day];
    MonthKept(rest, ms, 0);
    ReadFromMatch(s, one, day);
  }

  /** Four digits, a month 01 to 12 and a digit 1 to 9 are accepted as that
      month and a one-digit day. */
  lemma {:induction false} SevenCharsTwoDigitMonthAccepted(s: string)
    requires |s| == 7 && YearDigits(s) && TwoDigitMonthAt(s) && '1' <= s[6] <= '9'
    ensures ParseYmd(s) == InRange(Date(FourDigitValue(s[..4]), 10 * DigitValue(s[4]) + DigitValue(s[5]), DigitValue(s[6])))
  {
    var rest := s[4..];
    var ms := MonthMatches(rest);
    var month := FieldMatch(10 * DigitValue(s[4]) + DigitValue(s[5]), 2);
    var day := FieldMatch(DigitValue(s[6]), 1);
    assert ms[0] == month;
    assert rest[2..] == [s[6]];
    assert DayMatches(rest[2..]) == [day];
    MonthKept(rest, ms, 0);
    ReadFromMatch(s, month, day);
  }

  /** Four digits, a digit 1 to 9 that cannot start a month 10 to 12, and
      a two-digit day are accepted as a one-digit month and that day. */
  lemma {:induction false} SevenCharsTwoDigitDayAccepted(s: string)
    requires |s| == 7 && YearDigits(s) && '1' <= s[4] <= '9' && !(s[4] == '1' && '0' <= s[5] <= '2')
    requires TwoDigitDayAt(s, 5)
    ensures ParseYmd(s) == InRange(Date(FourDigitValue(s[..4]), DigitValue(s[4]), 10 * DigitValue(s[5]) + DigitValue(s[6])))
  {
    var rest := s[4..];
    assert rest[1..] == [s[5], s[6]];
    TwoDigitDayFirst(rest[1..]);
    OneDigitMonthKept(rest);
    ReadFromMatch(s, FieldMatch(DigitValue(s[4]), 1), FieldMatch(10 * DigitValue(s[5]) + DigitValue(s[6]), 2));
  }

  /** Four digits, then `110` or `120`, are accepted as month 1 and day 10
      or 20: no day follows the months 11 and 12 alone, so backtracking
      falls back to the month 1. */
  lemma {:induction false} SevenCharsMonthOneAccepted(s: string)
    requires |s| == 7 && YearDigits(s) && s[4] == '1' && '1' <= s[5] <= '2' && s[6] == '0'
    ensures ParseYmd(s) == InRange(Date(FourDigitValue(s[..4]), 1, 10 * DigitValue(s[5])))
  {
    var rest := s[4..];
    assert rest[1..] == [s[5], s[6]];
    TwoDigitDayFirst(rest[1..]);
    MonthOneAfterTen(rest);
    assert DigitValue(s[6]) == 0;
    ReadFromMatch(s, FieldMatch(1, 1), FieldMatch(10 * DigitValue(s[5]) + DigitValue(s[6]), 2));
  }

  /** Four digits, a month 01 to 12, a blank and a digit 1 to 9 are accepted
      as that month and a blank-padded day. */
  lemma {:induction false} BlankPaddedDayAccepted(s: string)
    requires |s| == 8 && YearDigits(s) && TwoDigitMonthAt(s) && s[6] == ' ' && '1' <= s[7] <= '9'
    ensures ParseYmd(s) == InRange(Date(FourDigitValue(s[..4]), 10 * DigitValue(s[4]) + DigitValue(s[5]), DigitValue(s[7])))
  {
    var rest := s[4..];
    var ms := MonthMatches(rest);
    var month := FieldMatch(10 * DigitValue(s[4]) + DigitValue(s[5]), 2);
    var day := FieldMatch(DigitValue(s[7]), 2);
    assert ms[0] == month;
    assert rest[2..] == [' ', s[7]];
    assert DayMatches(rest[2..]) == [day];
    MonthKept(rest, ms, 0);
    ReadFromMatch(s, month, day);
  }

  /** An eight-character text that reads as a date has no blank except
      before its last character: a blank anywhere else is rejected. */
  lemma {:induction false} EightCharsBlankOnlyBeforeDay(s: string)
    requires |s| == 8 && ParseYmd(s).Ok?
    ensures forall i :: 0 <= i < 8 && i != 6 ==> s[i] != ' '
  {
    var rest := s[4..];
    var (month, day) := MatchMonthDay(rest, MonthMatches(rest), 0).value;
    assert month.width == 2 && day.width == 2;
    TwoWideMonthRead(rest, month);
    assert rest[2..][0] == s[6] && rest[2..][1] == s[7];
  }

  /** The converse: an eight-character text without blanks that reads as a
      date is exactly that date's written form. (Shorter texts, and texts
      with a blank-padded day, are read as the lemmas above state.) */
  lemma {:induction false} ParseCanonical(s: string)
    requires |s| == 8 && ' ' !in s
    requires ParseYmd(s).Ok?
    ensures SerializeYmd(ParseYmd(s).value) == s
  {
    var d := ParseYmd(s).value;
    var rest := s[4..];
    var (month, day) := MatchMonthDay(rest, MonthMatches(rest), 0).value;
    assert month.width == 2 && day.width == 2;
    assert d.month == month.value && d.day == day.value;
    FourDigitsRead(s[..4]);
    TwoWideMonthRead(rest, month);
    assert rest[2..][0] == s[6];
    TwoWideDayRead(rest[2..], day);
    SerializeParts(d);
    assert s == s[..4] + rest[..2] + rest[2..];
  }

  /** The written form is the year's four digits, then the month's two, then
      the day's two. */
  lemma SerializeParts(d: ValidDate)
    ensures SerializeYmd(d)
      == [DigitChar(d.year / 1000), DigitChar(d.year / 100 % 10), DigitChar(d.year / 10 % 10), DigitChar(d.year % 10)]
         + TwoDigits(d.month) + TwoDigits(d.day)
  {
  }
}
