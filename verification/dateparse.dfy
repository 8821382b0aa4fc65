/** Natural-language date entry: the phrases a user may type for a period start
    date, the check that the date is neither in the future nor too old, and the
    `YYYY-MM-DD` rendering used for storage.

    The current moment is a parameter `today` (a local day number); adding or
    subtracting days with `setDate` is day-number arithmetic. */
module DateParse {
  import opened Wrappers
  import opened Text
  import opened Calendar
  import Constants

  /** Outcome of parsing: the cancel word, a date, or `null`. */
  datatype ParseResult = CancelWord | Parsed(date: Day) | Unrecognized

  /** Weekday names, indexed by the `getDay` number (0 = Sunday). */
  const WeekdayKanji: string := "日月火水木金土"

  /** Weekday number of a one-character weekday name, -1 when it is not one. */
  function GetDayOfWeekNumber(name: char): (n: int)
    ensures -1 <= n < 7
    ensures n == -1 <==> name !in WeekdayKanji
    ensures n != -1 ==> WeekdayKanji[n] == name
  {
    if name == '日' then 0
    else if name == '月' then 1
    else if name == '火' then 2
    else if name == '水' then 3
    else if name == '木' then 4
    else if name == '金' then 5
    else if name == '土' then 6
    else -1
  }

  /** Each weekday name maps back to its own index. */
  lemma DayOfWeekNumberOfName(w: int)
    requires 0 <= w < 7
    ensures GetDayOfWeekNumber(WeekdayKanji[w]) == w
  {
  }

  // ---------------------------------------------------------------------------
  // The regular expressions, as leftmost-match scans

  /** The three pattern shapes the parser searches for. */
  datatype Pattern =
    | NumberThen(suffix: string)    // (\d+)suffix
    | WeekdayAfter(prefix: string)  // prefix の? (月|火|水|木|金|土|日)
    | MonthSlashDay                 // (\d{1,2})\/(\d{1,2})

  /** `\d{1,2}`, greedy, at a position holding a digit. */
  function ShortRun(s: string, i: nat): (k: nat)
    requires i < |s| && IsDigit(s[i])
    ensures k == 1 || k == 2
    ensures i + k <= |s| && AllDigits(s[i..i + k])
  {
    if i + 1 < |s| && IsDigit(s[i + 1]) then 2 else 1
  }

  /** The pattern matches the text starting at position i. A greedy digit run can
      only be followed by a non-digit, so backtracking into it never helps. */
  predicate MatchesAt(p: Pattern, s: string, i: nat) {
    match p
    case NumberThen(suffix) =>
      i < |s| && IsDigit(s[i]) &&
      (var e := i + DigitRun(s, i);
       e + |suffix| <= |s| && s[e..e + |suffix|] == suffix)
    case WeekdayAfter(prefix) =>
      (var j := i + |prefix|;
       j < |s| && s[i..j] == prefix &&
       (s[j] in WeekdayKanji || (s[j] == 'の' && j + 1 < |s| && s[j + 1] in WeekdayKanji)))
    case MonthSlashDay =>
      i < |s| && IsDigit(s[i]) &&
      (var j := i + ShortRun(s, i);
       j + 1 < |s| && s[j] == '/' && IsDigit(s[j + 1]))
  }

  /** Position of the leftmost match at or after `from`, as `String.prototype.match`. */
  function FirstMatch(p: Pattern, s: string, from: nat): (r: Option<nat>)
    requires from <= |s|
    ensures r.Some? ==> from <= r.value < |s| && MatchesAt(p, s, r.value)
    ensures forall j :: from <= j < |s| && (r.None? || j < r.value) ==> !MatchesAt(p, s, j)
    decreases |s| - from
  {
    if from == |s| then None
    else if MatchesAt(p, s, from) then Some(from)
    else FirstMatch(p, s, from + 1)
  }

  /** The number captured by `(\d+)` at a match position. */
  function NumberCapture(s: string, i: nat): nat
    requires i < |s|
  {
    DigitsValue(s[i..i + DigitRun(s, i)])
  }

  /** The weekday name captured after the prefix. */
  function WeekdayCapture(prefix: string, s: string, i: nat): (c: char)
    requires MatchesAt(WeekdayAfter(prefix), s, i)
    ensures c in WeekdayKanji
  {
    var j := i + |prefix|;
    if s[j] == 'の' then s[j + 1] else s[j]
  }

  /** The month and day captured by `(\d{1,2})\/(\d{1,2})`. */
  function MonthDayCapture(s: string, i: nat): (md: (nat, nat))
    requires MatchesAt(MonthSlashDay, s, i)
    ensures md.0 < 100 && md.1 < 100
  {
    var j := i + ShortRun(s, i);
    var k := ShortRun(s, j + 1);
    TwoDigitsBound(s[i..j]);
    TwoDigitsBound(s[j + 1..j + 1 + k]);
    (DigitsValue(s[i..j]), DigitsValue(s[j + 1..j + 1 + k]))
  }

  lemma TwoDigitsBound(t: string)
    requires AllDigits(t) && 1 <= |t| <= 2
    ensures DigitsValue(t) < 100
  {
    assert t[..|t| - 1] == t[..|t| - 1];
    if |t| == 2 {
      assert t[..1] == [t[0]];
      assert DigitsValue(t[..1]) == DigitValue(t[0]);
    } else {
      assert t[..0] == [];
    }
  }

  // ---------------------------------------------------------------------------
  // The individual rules

  /** `(\d+)<suffix>` whose number lies in [1, max]; a number outside lets the
      parser go on to the next rule. */
  function CountedPhrase(s: string, suffix: string, max: int): (r: Option<nat>)
    ensures r.Some? ==> 1 <= r.value <= max
  {
    match FirstMatch(NumberThen(suffix), s, 0)
    case None => None
    case Some(i) =>
      var n := NumberCapture(s, i);
      if 1 <= n <= max then Some(n) else None
  }

  /** The weekday number named after `prefix` (先週 / 今週). */
  function WeekdayPhrase(s: string, prefix: string): (r: Option<int>)
    ensures r.Some? ==> 0 <= r.value < 7
  {
    match FirstMatch(WeekdayAfter(prefix), s, 0)
    case None => None
    case Some(i) => Some(GetDayOfWeekNumber(WeekdayCapture(prefix, s, i)))
  }

  /** First day (Sunday) of the week containing day n. */
  function StartOfWeek(n: Day): Day {
    n - Weekday(n)
  }

  /** 先週の X: the day with weekday `target` in the week before the current one. */
  function LastWeekDay(today: Day, target: int): (d: Day)
    requires 0 <= target < 7
    ensures Weekday(d) == target
    ensures StartOfWeek(d) == StartOfWeek(today) - 7
    ensures 1 <= today - d <= 13
  {
    var daysBack := 7 + (Weekday(today) - target);
    WeekdayShift(today, -daysBack);
    today - daysBack
  }

  /** 今週の X: the day with weekday `target` in the current week, past or future. */
  function ThisWeekDay(today: Day, target: int): (d: Day)
    requires 0 <= target < 7
    ensures Weekday(d) == target
    ensures StartOfWeek(d) == StartOfWeek(today)
    ensures -6 <= d - today <= 6
  {
    var daysDiff := target - Weekday(today);
    WeekdayShift(today, daysDiff);
    today + daysDiff
  }

  /** `new Date(year, month - 1, day)` in the current year, kept only when it did
      not roll over into another month. */
  function MonthDayInYear(today: Day, month: int, day: int): (r: Option<Day>)
    ensures var y := CivilFromDay(today).year;
            r.Some? <==> 1 <= month <= 12 && 1 <= day <= 31 && ValidCivil(Civil(y, month, day))
    ensures r.Some? ==> CivilFromDay(r.value) == Civil(CivilFromDay(today).year, month, day)
  {
    if 1 <= month <= 12 && 1 <= day <= 31 then
      var y := CivilFromDay(today).year;
      var t := DayFromCivil(y, month, day);
      var c := CivilFromDay(t);
      OverflowChangesMonth(y, month, day);
      if c.month == month && c.day == day then
        CivilRoundTrip(Civil(y, month, day));
        Some(t)
      else None
    else None
  }

  /** The whole input has the shape `^\d{4}-\d{2}-\d{2}$`. */
  predicate IsoShape(s: string) {
    |s| == 10 && AllDigits(s[..4]) && s[4] == '-' && AllDigits(s[5..7]) && s[7] == '-'
    && AllDigits(s[8..])
  }

  function IsoFields(s: string): (c: Civil)
    requires IsoShape(s)
  {
    Civil(DigitsValue(s[..4]), DigitsValue(s[5..7]), DigitsValue(s[8..]))
  }

  /** `new Date(s + 'T00:00:00')` on an ISO-shaped input naming a real date. */
  function IsoDate(s: string): (r: Option<Day>)
    ensures r.Some? <==> IsoShape(s) && ValidCivil(IsoFields(s))
    ensures r.Some? ==> CivilFromDay(r.value) == IsoFields(s)
  {
    if IsoShape(s) && ValidCivil(IsoFields(s)) then
      var c := IsoFields(s);
      CivilRoundTrip(c);
      Some(DayFromCivil(c.year, c.month, c.day))
    else None
  }

  // ---------------------------------------------------------------------------
  // parseNaturalDate

  /** The whole-input words for today, yesterday, the day before yesterday and
      tomorrow, as an offset from today. */
  function FixedWordOffset(s: string): (r: Option<int>)
    ensures r.Some? ==> -2 <= r.value <= 1
  {
    if s == "今日" || s == "today" then Some(0)
    else if s == "昨日" || s == "yesterday" then Some(-1)
    else if s == "一昨日" || s == "おととい" then Some(-2)
    else if s == "明日" || s == "tomorrow" then Some(1)
    else None
  }

  predicate IsCancelWord(s: string) {
    s == "キャンセル" || s == "cancel"
  }

  /** The cancel check is membership in COMMANDS.CANCEL. */
  lemma CancelWordsListed(s: string)
    ensures IsCancelWord(s) <==> s in Constants.CancelWords
  {
  }

  /** The date rules, tried in order on the normalised input; a pattern whose
      number is out of range lets the next rule try. */
  function DateRules(s: string, today: Day): Option<Day> {
    var fixed := FixedWordOffset(s);
    var ago := CountedPhrase(s, "日前", Constants.MaxDaysAgo);
    var later := CountedPhrase(s, "日後", 365);
    var weeks := CountedPhrase(s, "週間前", 52);
    var lastWeek := WeekdayPhrase(s, "先週");
    var thisWeek := WeekdayPhrase(s, "今週");
    if fixed.Some? then Some(today + fixed.value)
    else if ago.Some? then Some(today - ago.value)
    else if later.Some? then Some(today + later.value)
    else if weeks.Some? then Some(today - 7 * weeks.value)
    else if lastWeek.Some? then Some(LastWeekDay(today, lastWeek.value))
    else if thisWeek.Some? then Some(ThisWeekDay(today, thisWeek.value))
    else
      var mdDate := MonthDayPhrase(s, today);
      if mdDate.Some? then mdDate else IsoDate(s)
  }

  /** `(\d{1,2})\/(\d{1,2})` read as a date of the current year. */
  function MonthDayPhrase(s: string, today: Day): (r: Option<Day>)
    ensures r.Some? ==> CivilFromDay(r.value).year == CivilFromDay(today).year
  {
    match FirstMatch(MonthSlashDay, s, 0)
    case None => None
    case Some(i) =>
      var fields := MonthDayCapture(s, i);
      MonthDayInYear(today, fields.0, fields.1)
  }

  /** `parseNaturalDate`: the input is lower-cased and trimmed, then checked for the
      cancel word and the date rules. */
  function ParseNaturalDate(input: string, today: Day): (r: ParseResult)
    ensures r == CancelWord <==> IsCancelWord(Normalize(input))
    ensures r.Parsed? ==> DateRules(Normalize(input), today) == Some(r.date)
    ensures !IsCancelWord(Normalize(input)) ==>
              (r == Unrecognized <==> DateRules(Normalize(input), today).None?)
  {
    var s := Normalize(input);
    if IsCancelWord(s) then CancelWord
    else
      match DateRules(s, today)
      case Some(d) => Parsed(d)
      case None => Unrecognized
  }

  /** A character that none of the fixed words and cancel words contains rules
      them all out. */
  lemma NotAWord(s: string, i: nat)
    requires i < |s|
    requires IsDigit(s[i]) || s[i] == '週' || s[i] == '/' || s[i] == '-'
    ensures FixedWordOffset(s) == None && !IsCancelWord(s)
  {
  }

  // ---------------------------------------------------------------------------
  // validateDate and formatDate

  /** Verdict of `validateDate`. */
  datatype DateCheck = DateOk | InvalidDate | FutureDate | OldDate

  /** A start date must exist, must not lie after today and must lie after the
      moment MAX_DAYS_AGO days back. That moment carries the current time of
      day, so a date on the day exactly MAX_DAYS_AGO days back (at midnight, or
      at an earlier clock reading) lies before it and is old. */
  function ValidateDate(date: Option<Day>, today: Day): (r: DateCheck)
    ensures r == InvalidDate <==> date.None?
    ensures r == FutureDate <==> date.Some? && date.value > today
    ensures r == OldDate <==> date.Some? && date.value <= today - Constants.MaxDaysAgo
    ensures r == DateOk <==> date.Some? && today - Constants.MaxDaysAgo < date.value <= today
  {
    match date
    case None => InvalidDate
    case Some(d) =>
      if d > today then FutureDate
      else if d <= today - Constants.MaxDaysAgo then OldDate
      else DateOk
  }

  /** `formatDate`: zero-padded `YYYY-MM-DD` of the local calendar date. */
  function FormatDate(d: Day): (s: string)
    ensures 1000 <= CivilFromDay(d).year <= 9999 ==> IsoShape(s) && IsoFields(s) == CivilFromDay(d)
  {
    var c := CivilFromDay(d);
    var s := IntToString(c.year) + "-" + Pad2(c.month) + "-" + Pad2(c.day);
    FormatFields(c, s);
    s
  }

  lemma FormatFields(c: Civil, s: string)
    requires ValidCivil(c)
    requires s == IntToString(c.year) + "-" + Pad2(c.month) + "-" + Pad2(c.day)
    ensures 1000 <= c.year <= 9999 ==> IsoShape(s) && IsoFields(s) == c
  {
    if c.year < 1000 || c.year > 9999 {
      return;
    }
    var y := NatToString(c.year);
    NatToStringLength(c.year);
    assert s[..4] == y;
    assert s[5..7] == Pad2(c.month);
    assert s[8..] == Pad2(c.day);
    NatToStringRoundTrip(c.year);
    Pad2RoundTrip(c.month);
    Pad2RoundTrip(c.day);
  }
}
