/** What the date parser does with each family of phrases, stated on whole inputs:
    which rule answers, with which date, and when the input falls through to
    `null`. */
module DateParseProperties {
  import opened Wrappers
  import opened Text
  import opened Calendar
  import Constants
  import opened DateParse

  // ---------------------------------------------------------------------------
  // Scanning facts

  /** In a number followed by a digit-free suffix, `(\d+)<other>` matches exactly
      when the suffix starts with `other`, and then at position 0. */
  lemma NumberPhraseMatch(d: string, suffix: string, other: string)
    requires AllDigits(d) && |d| >= 1
    requires forall i :: 0 <= i < |suffix| ==> !IsDigit(suffix[i])
    ensures var s := d + suffix;
            FirstMatch(NumberThen(other), s, 0)
            == (if |other| <= |suffix| && suffix[..|other|] == other then Some(0) else None)
    ensures NumberCapture(d + suffix, 0) == DigitsValue(d)
  {
    var s := d + suffix;
    var starts := |other| <= |suffix| && suffix[..|other|] == other;
    NumberCaptured(d, suffix);
    if starts {
      NumberMatchAt(d, suffix, other, 0);
    } else {
      forall i | 0 <= i < |s|
        ensures !MatchesAt(NumberThen(other), s, i)
      {
        NumberMatchAt(d, suffix, other, i);
      }
    }
  }

  /** The number captured at the start of a number followed by a digit-free
      suffix is the number. */
  lemma NumberCaptured(d: string, suffix: string)
    requires AllDigits(d) && |d| >= 1
    requires forall i :: 0 <= i < |suffix| ==> !IsDigit(suffix[i])
    ensures NumberCapture(d + suffix, 0) == DigitsValue(d)
  {
    var s := d + suffix;
    assert forall k :: 0 <= k < |d| ==> s[k] == d[k];
    assert |d| < |s| ==> s[|d|] == suffix[0];
    DigitRunFrom(s, 0, |d|);
    assert s[0..|d|] == d;
  }

  lemma NumberMatchAt(d: string, suffix: string, other: string, i: nat)
    requires AllDigits(d) && |d| >= 1
    requires forall i :: 0 <= i < |suffix| ==> !IsDigit(suffix[i])
    requires i < |d| + |suffix|
    ensures MatchesAt(NumberThen(other), d + suffix, i)
            <==> i < |d| && |other| <= |suffix| && suffix[..|other|] == other
  {
    var s := d + suffix;
    if i < |d| {
      assert forall k :: i <= k < |d| ==> s[k] == d[k];
      assert |d| < |s| ==> s[|d|] == suffix[0];
      DigitRunFrom(s, i, |d|);
      assert IsDigit(s[i]) && i + DigitRun(s, i) == |d|;
      if |other| <= |suffix| {
        assert s[|d|..|d| + |other|] == suffix[..|other|];
      }
    } else {
      assert s[i] == suffix[i - |d|];
    }
  }

  /** Without a digit, no numeric pattern matches. */
  lemma NoDigitNoNumber(s: string, suffix: string)
    requires forall i :: 0 <= i < |s| ==> !IsDigit(s[i])
    ensures FirstMatch(NumberThen(suffix), s, 0) == None
    ensures FirstMatch(MonthSlashDay, s, 0) == None
  {
  }

  /** A weekday phrase cannot match where its prefix's first character is absent. */
  lemma NoPrefixNoWeekday(s: string, prefix: string)
    requires prefix != []
    requires forall i :: 0 <= i < |s| ==> s[i] != prefix[0]
    ensures FirstMatch(WeekdayAfter(prefix), s, 0) == None
  {
    forall i | 0 <= i < |s|
      ensures !MatchesAt(WeekdayAfter(prefix), s, i)
    {
      if i + |prefix| < |s| {
        assert s[i..i + |prefix|][0] == s[i];
      }
    }
  }

  /** MM/DD needs a slash. */
  lemma NoSlashNoMonthDay(s: string)
    requires forall i :: 0 <= i < |s| ==> s[i] != '/'
    ensures FirstMatch(MonthSlashDay, s, 0) == None
  {
  }

  /** The ISO rule needs a dash at position 4. */
  lemma NoDashNoIso(s: string)
    requires forall i :: 0 <= i < |s| ==> s[i] != '-'
    ensures IsoDate(s) == None
  {
  }

  /** `N日前` with N in range answers before every later rule. */
  lemma AgoAnswers(s: string, n: nat, today: Day)
    requires FixedWordOffset(s) == None
    requires CountedPhrase(s, "日前", Constants.MaxDaysAgo) == Some(n)
    ensures DateRules(s, today) == Some(today - n)
  {
  }

  /** `N日後` answers when no earlier rule does. */
  lemma LaterAnswers(s: string, n: nat, today: Day)
    requires FixedWordOffset(s) == None
    requires CountedPhrase(s, "日前", Constants.MaxDaysAgo) == None
    requires CountedPhrase(s, "日後", 365) == Some(n)
    ensures DateRules(s, today) == Some(today + n)
  {
  }

  /** `N週間前` answers when no earlier rule does. */
  lemma WeeksAnswers(s: string, n: nat, today: Day)
    requires FixedWordOffset(s) == None
    requires CountedPhrase(s, "日前", Constants.MaxDaysAgo) == None
    requires CountedPhrase(s, "日後", 365) == None
    requires CountedPhrase(s, "週間前", 52) == Some(n)
    ensures DateRules(s, today) == Some(today - 7 * n)
  {
  }

  /** When no rule applies the chain gives no date. */
  lemma NoRuleAnswers(s: string, today: Day)
    requires FixedWordOffset(s) == None
    requires CountedPhrase(s, "日前", Constants.MaxDaysAgo) == None
    requires CountedPhrase(s, "日後", 365) == None
    requires CountedPhrase(s, "週間前", 52) == None
    requires WeekdayPhrase(s, "先週") == None && WeekdayPhrase(s, "今週") == None
    requires MonthDayPhrase(s, today) == None && IsoDate(s) == None
    ensures DateRules(s, today) == None
  {
  }

  /** How the rule chain resolves for a weekday phrase. */
  lemma ConcludeWeekday(s: string, today: Day, lastWeek: Option<int>, thisWeek: Option<int>)
    requires FixedWordOffset(s) == None
    requires CountedPhrase(s, "日前", Constants.MaxDaysAgo) == None
    requires CountedPhrase(s, "日後", 365) == None
    requires CountedPhrase(s, "週間前", 52) == None
    requires WeekdayPhrase(s, "先週") == lastWeek && WeekdayPhrase(s, "今週") == thisWeek
    requires lastWeek.Some? || thisWeek.Some?
    ensures DateRules(s, today)
            == if lastWeek.Some? then Some(LastWeekDay(today, lastWeek.value))
               else Some(ThisWeekDay(today, thisWeek.value))
  {
  }

  /** How the rule chain resolves for an explicit date. */
  lemma ConcludeExplicit(s: string, today: Day)
    requires FixedWordOffset(s) == None
    requires CountedPhrase(s, "日前", Constants.MaxDaysAgo) == None
    requires CountedPhrase(s, "日後", 365) == None
    requires CountedPhrase(s, "週間前", 52) == None
    requires WeekdayPhrase(s, "先週") == None && WeekdayPhrase(s, "今週") == None
    ensures DateRules(s, today)
            == if MonthDayPhrase(s, today).Some? then MonthDayPhrase(s, today) else IsoDate(s)
  {
  }

  /** A text in normal form that is not the cancel word parses to whatever the rule
      chain gives it. */
  lemma ParseOfRules(s: string, today: Day)
    ensures Normalize(s) == s && !IsCancelWord(s) ==>
              ParseNaturalDate(s, today)
              == if DateRules(s, today).Some? then Parsed(DateRules(s, today).value) else Unrecognized
  {
  }

  /** An empty or blank input is not a date. */
  lemma BlankInput(input: string, today: Day)
    requires Normalize(input) == []
    ensures ParseNaturalDate(input, today) == Unrecognized
  {
    var s: string := [];
    NoDigitNoNumber(s, "日前");
    NoDigitNoNumber(s, "日後");
    NoDigitNoNumber(s, "週間前");
    NoRuleAnswers(s, today);
  }

  // ---------------------------------------------------------------------------
  // Counted phrases: N日前, N日後, N週間前

  /** `N日前`, N a run of digits (leading zeros allowed): the date N days back when
      1 <= N <= MAX_DAYS_AGO; any other N makes the input fall through every rule. */
  lemma DaysAgoPhrase(digits: string, n: nat, today: Day)
    requires AllDigits(digits) && |digits| >= 1 && DigitsValue(digits) == n
    ensures ParseNaturalDate(digits + "日前", today)
            == (if 1 <= n <= Constants.MaxDaysAgo then Parsed(today - n) else Unrecognized)
  {
    CountedPhraseNormal(digits, "日前");
    DaysAgoRules(digits, n, today);
    ParseOfRules(digits + "日前", today);
  }

  lemma DaysAgoRules(digits: string, n: nat, today: Day)
    requires AllDigits(digits) && |digits| >= 1 && DigitsValue(digits) == n
    ensures DateRules(digits + "日前", today)
            == (if 1 <= n <= Constants.MaxDaysAgo then Some(today - n) else None)
  {
    CountedPhraseShape(digits, "日前");
    SuffixOrder();
    CountedOf(digits, n, "日前", "日前", Constants.MaxDaysAgo);
    CountedOf(digits, n, "日前", "日後", 365);
    CountedOf(digits, n, "日前", "週間前", 52);
    if 1 <= n <= Constants.MaxDaysAgo {
      AgoAnswers(digits + "日前", n, today);
    } else {
      NoRuleAnswers(digits + "日前", today);
    }
  }



  /** `N日後`: the date N days ahead when 1 <= N <= 365, otherwise no date. */
  lemma DaysLaterPhrase(digits: string, n: nat, today: Day)
    requires AllDigits(digits) && |digits| >= 1 && DigitsValue(digits) == n
    ensures ParseNaturalDate(digits + "日後", today)
            == (if 1 <= n <= 365 then Parsed(today + n) else Unrecognized)
  {
    CountedPhraseNormal(digits, "日後");
    DaysLaterRules(digits, n, today);
    ParseOfRules(digits + "日後", today);
  }

  lemma DaysLaterRules(digits: string, n: nat, today: Day)
    requires AllDigits(digits) && |digits| >= 1 && DigitsValue(digits) == n
    ensures DateRules(digits + "日後", today) == (if 1 <= n <= 365 then Some(today + n) else None)
  {
    CountedPhraseShape(digits, "日後");
    SuffixOrder();
    CountedOf(digits, n, "日後", "日前", Constants.MaxDaysAgo);
    CountedOf(digits, n, "日後", "日後", 365);
    CountedOf(digits, n, "日後", "週間前", 52);
    if 1 <= n <= 365 {
      LaterAnswers(digits + "日後", n, today);
    } else {
      NoRuleAnswers(digits + "日後", today);
    }
  }


  /** `N週間前`: the date N weeks back when 1 <= N <= 52, otherwise no date. */
  lemma WeeksAgoPhrase(digits: string, n: nat, today: Day)
    requires AllDigits(digits) && |digits| >= 1 && DigitsValue(digits) == n
    ensures ParseNaturalDate(digits + "週間前", today)
            == (if 1 <= n <= 52 then Parsed(today - 7 * n) else Unrecognized)
  {
    CountedPhraseNormal(digits, "週間前");
    WeeksAgoRules(digits, n, today);
    ParseOfRules(digits + "週間前", today);
  }

  lemma WeeksAgoRules(digits: string, n: nat, today: Day)
    requires AllDigits(digits) && |digits| >= 1 && DigitsValue(digits) == n
    ensures DateRules(digits + "週間前", today) == (if 1 <= n <= 52 then Some(today - 7 * n) else None)
  {
    CountedPhraseShape(digits, "週間前");
    SuffixOrder();
    CountedOf(digits, n, "週間前", "日前", Constants.MaxDaysAgo);
    CountedOf(digits, n, "週間前", "日後", 365);
    CountedOf(digits, n, "週間前", "週間前", 52);
    if 1 <= n <= 52 {
      WeeksAnswers(digits + "週間前", n, today);
    } else {
      NoRuleAnswers(digits + "週間前", today);
    }
  }


  predicate StartsWith(s: string, p: string) {
    |p| <= |s| && s[..|p|] == p
  }

  /** Which of the three counted suffixes begins with which. */
  lemma SuffixOrder()
    ensures StartsWith("日前", "日前") && !StartsWith("日前", "日後") && !StartsWith("日前", "週間前")
    ensures !StartsWith("日後", "日前") && StartsWith("日後", "日後") && !StartsWith("日後", "週間前")
    ensures !StartsWith("週間前", "日前") && !StartsWith("週間前", "日後") && StartsWith("週間前", "週間前")
  {
    assert "日後"[1] != "日前"[1];
    assert "週間前"[0] != "日前"[0];
  }

  /** The characters of a counted phrase: digits, then kanji. */
  lemma CountedPhraseChars(d: string, suffix: string)
    requires AllDigits(d) && |d| >= 1
    requires suffix == "日前" || suffix == "日後" || suffix == "週間前"
    ensures var s := d + suffix;
            (forall i :: 0 <= i < |s| ==>
               s[i] != '/' && s[i] != '-' && s[i] != '先' && s[i] != '今' && !IsAsciiUpper(s[i]))
            && IsDigit(s[0]) && !IsWhitespace(s[0]) && !IsWhitespace(s[|s| - 1])
  {
    var s := d + suffix;
    forall i | 0 <= i < |s|
      ensures s[i] != '/' && s[i] != '-' && s[i] != '先' && s[i] != '今' && !IsAsciiUpper(s[i])
    {
      if i < |d| { assert IsDigit(d[i]); } else { assert s[i] == suffix[i - |d|]; }
    }
    assert s[0] == d[0];
    assert s[|s| - 1] == suffix[|suffix| - 1];
  }

  /** A counted phrase is its own normal form and is not the cancel word. */
  lemma CountedPhraseNormal(d: string, suffix: string)
    requires AllDigits(d) && |d| >= 1
    requires suffix == "日前" || suffix == "日後" || suffix == "週間前"
    ensures Normalize(d + suffix) == d + suffix && !IsCancelWord(d + suffix)
  {
    CountedPhraseChars(d, suffix);
    NormalizeIdle(d + suffix);
    NotAWord(d + suffix, 0);
  }

  /** No rule other than the counted ones applies to a counted phrase. */
  lemma CountedPhraseShape(d: string, suffix: string)
    requires AllDigits(d) && |d| >= 1
    requires suffix == "日前" || suffix == "日後" || suffix == "週間前"
    ensures var s := d + suffix;
            FixedWordOffset(s) == None
            && WeekdayPhrase(s, "先週") == None && WeekdayPhrase(s, "今週") == None
            && (forall today :: MonthDayPhrase(s, today) == None) && IsoDate(s) == None
  {
    var s := d + suffix;
    CountedPhraseChars(d, suffix);
    NotAWord(s, 0);
    NoPrefixNoWeekday(s, "先週");
    NoPrefixNoWeekday(s, "今週");
    NoSlashNoMonthDay(s);
    NoDashNoIso(s);
  }

  /** A counted pattern applied to a number and a suffix. */
  lemma CountedOf(d: string, n: nat, suffix: string, other: string, max: int)
    requires AllDigits(d) && |d| >= 1 && DigitsValue(d) == n
    requires forall i :: 0 <= i < |suffix| ==> !IsDigit(suffix[i])
    ensures StartsWith(suffix, other) ==>
              CountedPhrase(d + suffix, other, max) == (if 1 <= n <= max then Some(n) else None)
    ensures !StartsWith(suffix, other) ==> CountedPhrase(d + suffix, other, max) == None
  {
    NumberPhraseMatch(d, suffix, other);
  }

  // ---------------------------------------------------------------------------
  // Weekday phrases: 先週の X曜日, 今週の X曜日

  /** The text of a weekday phrase. */
  function WeekdayText(prefix: string, withNo: bool, w: int): string
    requires 0 <= w < 7
  {
    prefix + (if withNo then "の" else "") + [WeekdayKanji[w]] + "曜日"
  }

  /** `先週の X曜日` (the の optional): the day with weekday X in the previous week. */
  lemma LastWeekPhrase(w: int, withNo: bool, today: Day)
    requires 0 <= w < 7
    ensures ParseNaturalDate(WeekdayText("先週", withNo, w), today) == Parsed(LastWeekDay(today, w))
  {
    var s := WeekdayText("先週", withNo, w);
    WeekdayPhraseNormal(s, "先週", withNo, w);
    WeekdayPhraseShape(s, "先週", withNo, w);
    ConcludeWeekday(s, today, Some(w), WeekdayPhrase(s, "今週"));
    ParseOfRules(s, today);
  }

  /** `今週の X曜日` (the の optional): the day with weekday X in the current week. */
  lemma ThisWeekPhrase(w: int, withNo: bool, today: Day)
    requires 0 <= w < 7
    ensures ParseNaturalDate(WeekdayText("今週", withNo, w), today) == Parsed(ThisWeekDay(today, w))
  {
    var s := WeekdayText("今週", withNo, w);
    WeekdayPhraseNormal(s, "今週", withNo, w);
    WeekdayPhraseShape(s, "今週", withNo, w);
    ConcludeWeekday(s, today, None, Some(w));
    ParseOfRules(s, today);
  }

  /** A weekday phrase is its own normal form and is not the cancel word. */
  lemma WeekdayPhraseNormal(s: string, prefix: string, withNo: bool, w: int)
    requires 0 <= w < 7
    requires prefix == "先週" || prefix == "今週"
    requires s == WeekdayText(prefix, withNo, w)
    ensures Normalize(s) == s && !IsCancelWord(s)
  {
    WeekdayPhraseChars(s, prefix, withNo, w);
    NormalizeIdle(s);
    NotAWord(s, 1);
  }

  /** A weekday phrase matches its own prefix with the right weekday, and no
      rule before it. */
  lemma WeekdayPhraseShape(s: string, prefix: string, withNo: bool, w: int)
    requires 0 <= w < 7
    requires prefix == "先週" || prefix == "今週"
    requires s == WeekdayText(prefix, withNo, w)
    ensures FixedWordOffset(s) == None
    ensures CountedPhrase(s, "日前", Constants.MaxDaysAgo) == None
    ensures CountedPhrase(s, "日後", 365) == None
    ensures CountedPhrase(s, "週間前", 52) == None
    ensures WeekdayPhrase(s, prefix) == Some(w)
    ensures prefix == "今週" ==> WeekdayPhrase(s, "先週") == None
  {
    var k := WeekdayKanji[w];
    WeekdayPhraseChars(s, prefix, withNo, w);
    NotAWord(s, 1);
    NoDigitNoNumber(s, "日前");
    NoDigitNoNumber(s, "日後");
    NoDigitNoNumber(s, "週間前");
    assert s[..2] == prefix;
    assert MatchesAt(WeekdayAfter(prefix), s, 0);
    assert WeekdayCapture(prefix, s, 0) == k;
    DayOfWeekNumberOfName(w);
    if prefix == "今週" {
      NoPrefixNoWeekday(s, "先週");
    }
  }

  lemma WeekdayPhraseChars(s: string, prefix: string, withNo: bool, w: int)
    requires 0 <= w < 7
    requires prefix == "先週" || prefix == "今週"
    requires s == WeekdayText(prefix, withNo, w)
    ensures forall i :: 0 <= i < |s| ==> !IsDigit(s[i]) && !IsAsciiUpper(s[i])
    ensures prefix == "今週" ==> forall i :: 0 <= i < |s| ==> s[i] != '先'
    ensures !IsWhitespace(s[0]) && !IsWhitespace(s[|s| - 1]) && s[1] == '週'
  {
    var k := WeekdayKanji[w];
    assert !IsDigit(k) && !IsAsciiUpper(k) && k != '先' by {
      assert w == 0 || w == 1 || w == 2 || w == 3 || w == 4 || w == 5 || w == 6;
    }
    var chars := if withNo then [prefix[0], '週', 'の', k, '曜', '日'] else [prefix[0], '週', k, '曜', '日'];
    assert s == chars;
  }

  // ---------------------------------------------------------------------------
  // Month/day: M/D

  /** `M/D` with one- or two-digit numbers: that day of the current year when it is
      a real date, otherwise not a date (a 31st of a short month does not roll
      over). */
  lemma MonthDayParse(ms: string, ds: string, today: Day)
    requires AllDigits(ms) && 1 <= |ms| <= 2 && AllDigits(ds) && 1 <= |ds| <= 2
    ensures var y := CivilFromDay(today).year;
            var m := DigitsValue(ms);
            var d := DigitsValue(ds);
            ParseNaturalDate(ms + "/" + ds, today)
            == (if 1 <= m <= 12 && 1 <= d <= 31 && ValidCivil(Civil(y, m, d))
                then Parsed(DayFromCivil(y, m, d)) else Unrecognized)
  {
    var s := ms + "/" + ds;
    MonthDayChars(ms, ds, s);
    NormalizeIdle(s);
    NotAWord(s, 0);
    MonthDayRules(ms, ds, today);
    ParseOfRules(s, today);
  }

  lemma MonthDayRules(ms: string, ds: string, today: Day)
    requires AllDigits(ms) && 1 <= |ms| <= 2 && AllDigits(ds) && 1 <= |ds| <= 2
    ensures var y := CivilFromDay(today).year;
            var m := DigitsValue(ms);
            var d := DigitsValue(ds);
            DateRules(ms + "/" + ds, today)
            == (if 1 <= m <= 12 && 1 <= d <= 31 && ValidCivil(Civil(y, m, d))
                then Some(DayFromCivil(y, m, d)) else None)
  {
    var s := ms + "/" + ds;
    MonthDayShape(ms, ds, s);
    MonthDayCaptured(ms, ds, s, today);
    ConcludeExplicit(s, today);
    var y := CivilFromDay(today).year;
    var m := DigitsValue(ms);
    var d := DigitsValue(ds);
    if 1 <= m <= 12 && 1 <= d <= 31 && ValidCivil(Civil(y, m, d)) {
      CivilRoundTrip(Civil(y, m, d));
    }
  }

  /** No rule before the month/day rule matches `M/D`. */
  lemma MonthDayShape(ms: string, ds: string, s: string)
    requires AllDigits(ms) && 1 <= |ms| <= 2 && AllDigits(ds) && 1 <= |ds| <= 2
    requires s == ms + "/" + ds
    ensures FixedWordOffset(s) == None
    ensures CountedPhrase(s, "日前", Constants.MaxDaysAgo) == None
    ensures CountedPhrase(s, "日後", 365) == None
    ensures CountedPhrase(s, "週間前", 52) == None
    ensures WeekdayPhrase(s, "先週") == None && WeekdayPhrase(s, "今週") == None
    ensures IsoDate(s) == None
  {
    MonthDayChars(ms, ds, s);
    NotAWord(s, 0);
    NumberOnlyBefore(s, "日前", '/');
    NumberOnlyBefore(s, "日後", '/');
    NumberOnlyBefore(s, "週間前", '/');
    NoPrefixNoWeekday(s, "先週");
    NoPrefixNoWeekday(s, "今週");
  }

  lemma MonthDayChars(ms: string, ds: string, s: string)
    requires AllDigits(ms) && 1 <= |ms| <= 2 && AllDigits(ds) && 1 <= |ds| <= 2
    requires s == ms + "/" + ds
    ensures forall i :: 0 <= i < |s| ==> IsDigit(s[i]) || s[i] == '/'
    ensures !IsoShape(s)
    ensures IsDigit(s[0]) && IsDigit(s[|s| - 1])
  {
    forall i | 0 <= i < |s|
      ensures IsDigit(s[i]) || s[i] == '/'
    {
      if i < |ms| { assert s[i] == ms[i]; }
      else if i > |ms| { assert s[i] == ds[i - |ms| - 1]; }
    }
    assert s[0] == ms[0] && s[|s| - 1] == ds[|ds| - 1];
  }

  /** The month/day rule reads back the two numbers. */
  lemma MonthDayCaptured(ms: string, ds: string, s: string, today: Day)
    requires AllDigits(ms) && 1 <= |ms| <= 2 && AllDigits(ds) && 1 <= |ds| <= 2
    requires s == ms + "/" + ds
    ensures MonthDayPhrase(s, today) == MonthDayInYear(today, DigitsValue(ms), DigitsValue(ds))
  {
    assert s[|ms|] == '/';
    assert ShortRun(s, 0) == |ms|;
    assert MatchesAt(MonthSlashDay, s, 0);
    assert ShortRun(s, |ms| + 1) == |ds|;
    assert s[0..|ms|] == ms;
    assert s[|ms| + 1..|ms| + 1 + |ds|] == ds;
    assert MonthDayCapture(s, 0) == (DigitsValue(ms), DigitsValue(ds));
  }

  // ---------------------------------------------------------------------------
  // YYYY-MM-DD

  /** A stored `YYYY-MM-DD` date (four-digit year) reads back as the same day. */
  lemma FormatDateParse(n: Day, today: Day)
    requires 1000 <= CivilFromDay(n).year <= 9999
    ensures ParseNaturalDate(FormatDate(n), today) == Parsed(n)
  {
    var s := FormatDate(n);
    FormattedChars(s);
    NormalizeIdle(s);
    NotAWord(s, 0);
    FormatDateRules(n, today);
    ParseOfRules(s, today);
  }

  lemma FormatDateRules(n: Day, today: Day)
    requires 1000 <= CivilFromDay(n).year <= 9999
    ensures DateRules(FormatDate(n), today) == Some(n)
  {
    var s := FormatDate(n);
    FormattedShape(s);
    ConcludeExplicit(s, today);
    CivilRoundTrip(CivilFromDay(n));
  }

  lemma FormattedChars(s: string)
    requires IsoShape(s)
    ensures forall i :: 0 <= i < |s| ==> IsDigit(s[i]) || s[i] == '-'
  {
    forall i | 0 <= i < |s|
      ensures IsDigit(s[i]) || s[i] == '-'
    {
      if i < 4 { assert s[i] == s[..4][i]; }
      else if 4 < i < 7 { assert s[i] == s[5..7][i - 5]; }
      else if 7 < i { assert s[i] == s[8..][i - 8]; }
    }
  }

  /** Only the ISO rule can match an ISO-shaped text. */
  lemma FormattedShape(s: string)
    requires IsoShape(s)
    ensures FixedWordOffset(s) == None
    ensures CountedPhrase(s, "日前", Constants.MaxDaysAgo) == None
    ensures CountedPhrase(s, "日後", 365) == None
    ensures CountedPhrase(s, "週間前", 52) == None
    ensures WeekdayPhrase(s, "先週") == None && WeekdayPhrase(s, "今週") == None
    ensures forall today :: MonthDayPhrase(s, today) == None
  {
    FormattedChars(s);
    NotAWord(s, 0);
    NumberOnlyBefore(s, "日前", '-');
    NumberOnlyBefore(s, "日後", '-');
    NumberOnlyBefore(s, "週間前", '-');
    NoPrefixNoWeekday(s, "先週");
    NoPrefixNoWeekday(s, "今週");
    NoSlashNoMonthDay(s);
  }

  /** In a text made of digits and one separator character, a number is never
      followed by a suffix that starts with anything else. */
  lemma NumberOnlyBefore(s: string, suffix: string, sep: char)
    requires suffix != [] && !IsDigit(suffix[0]) && suffix[0] != sep
    requires forall i :: 0 <= i < |s| ==> IsDigit(s[i]) || s[i] == sep
    ensures CountedPhrase(s, suffix, Constants.MaxDaysAgo) == None
    ensures CountedPhrase(s, suffix, 365) == None
    ensures CountedPhrase(s, suffix, 52) == None
  {
    forall i | 0 <= i < |s|
      ensures !MatchesAt(NumberThen(suffix), s, i)
    {
      if IsDigit(s[i]) {
        var e := i + DigitRun(s, i);
        if e + |suffix| <= |s| {
          assert s[e..e + |suffix|][0] == s[e];
        }
      }
    }
  }

  /** Relative phrases that point back less than a year always pass the date check;
      phrases pointing ahead never do. */
  lemma RelativeDatesValidity(n: nat, today: Day)
    ensures 1 <= n < Constants.MaxDaysAgo ==>
              ValidateDate(Some(today - n), today) == DateOk
    ensures 1 <= n ==> ValidateDate(Some(today + n), today) == FutureDate
    ensures 1 <= n <= 52 ==> ValidateDate(Some(today - 7 * n), today) == DateOk
  {
  }
}
