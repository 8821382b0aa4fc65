# Menstrual-cycle LINE bot: a Dafny model of its core

The bot lets a user record period start dates by chat message and keep cycle settings: cycle length, period length, and a notification switch. It answers with predictions: the next period, the ovulation day, the fertile window and the current phase of the cycle. It links the user to web pages, one of which shows a six-cycle forecast. Two users can become partners through a six-character invite code, so that one is notified when the other records a start.

This project models that core as pure Dafny functions over immutable values.

- **Days.** A calendar date is an integer day number, with day 0 = 1970-01-01. Gregorian conversion goes both ways (`Calendar`). "Today", the clock, the random source and the web base address are parameters.
- **Store.** The database is one value. `Store.Account` is a user's settings document, pending-input flag and period records. `Partner.PartnerDb` holds the invite codes and the partnerships as sequences. The codes are in creation order, which is the order the newest-code query sorts by. The partnerships are in creation order too. The source queries them without an order, so there the database visits them in document-id order (see "## Left out"). A store call that can fail is modelled by a boolean that says whether it does.

The modules follow the program:

| module | models |
|---|---|
| `Text` | `toLowerCase`, `trim`, `parseInt`, decimal rendering and padding |
| `Calendar` | `new Date(y, m - 1, d)`, `getFullYear`/`getMonth`/`getDate`, `getDay` |
| `Constants` | limits, defaults, record statuses, input-flag types |
| `CycleMath` | the prediction engine of `dateUtils.js` |
| `Store` | the settings and records reads and writes |
| `DateParse`, `DateParseProperties` | `parseNaturalDate`, `validateDate`, `formatDate`, and what they promise |
| `Forecast` | the calendar page data with its six-cycle forecast |
| `CycleInfo` | the ovulation, current-status and history replies |
| `DateEntry` | conversational start-date entry and the partner-notification choice |
| `SettingsEntry` | setting prompts and answers, the notification toggle, bulk update, `validateSettings` |
| `Partner` | invite codes, acceptance, partnerships, partner lookup and removal |
| `Router` | event filter, setup gate, pending-input flag, command table, web links |

## Model

| member | source | states |
|---|---|---|
| Constants.LimitsAndDefaultsConsistent | functions/src/config/constants.js:18-37 | The cycle limits [21, 35] and period limits [3, 7] are non-empty ranges. The default cycle 28 and period 5 lie inside them, and notifications default to on. |
| Constants.RecordStatusName | functions/src/config/constants.js:48-52 | Every record status is stored under a name that reads back as that same status. |
| Constants.FlagTypeName | functions/src/config/constants.js:41-45 | Every input-flag type is stored under a name that reads back as that same type. |
| Constants.ParseNamesInverse | functions/src/config/constants.js:41-52 | A stored name is recognised only as the value it is the name of. |
| Constants.NamesDistinct | functions/src/config/constants.js:41-52 | The three record statuses have three distinct names, and so do the three flag types. |
| Text.ToLower | functions/index.js:290 | Lower-casing keeps the length, changes only ASCII capitals, and leaves no ASCII capital behind. |
| Text.Trim | functions/index.js:213 | The trimmed text is a contiguous piece of the input with no white space at either end, and everything cut off on either side is white space. |
| Text.TrimIdempotent | functions/index.js:213 | Trimming an already trimmed text changes nothing. The router trims a message that the event handler has already trimmed. |
| Text.NatToStringRoundTrip | functions/src/utils/dateUtils.js:188-192 | Reading back the decimal rendering of a number gives the number. |
| Text.Pad2RoundTrip | functions/src/utils/dateUtils.js:189-191 | Reading back a zero-padded two-digit field gives the number. |
| Text.ParseInt | functions/src/handlers/settingsHandler.js:112 | `parseInt` skips leading white space and takes an optional sign. Text that then starts with no digit gives NaN, and so does a sign followed by no digit. A decimal digit that is not the start of `0x` gives a number. |
| Text.ParseIntValue | functions/src/handlers/settingsHandler.js:112 | After the leading white space, the number read is the value of the whole run of decimal digits. |
| Text.ParseIntSignedValue | functions/src/handlers/settingsHandler.js:112 | After a `+` the number is the value of the digit run that follows, and after a `-` it is that value negated. |
| Text.ParseIntOfRendered | functions/src/handlers/settingsHandler.js:112 | A rendered number followed by a suffix that starts with no digit, such as `28日`, parses back to the number. |
| Calendar.DaysInMonth | functions/src/utils/dateUtils.js:116-121 | A month has 28 to 31 days, and 29 exactly for February of a leap year. |
| Calendar.CivilFromDay | functions/src/utils/dateUtils.js:188-192 | The civil date read from a day number is a real date, and it converts back to the same day number. |
| Calendar.CivilRoundTrip | functions/src/utils/dateUtils.js:116-121 | Converting a real date to a day number and back gives the same year, month and day. |
| Calendar.DayFromCivilInjective | functions/src/utils/dateUtils.js:116-121 | Two real dates with the same day number are the same date. |
| Calendar.MonthRollover | functions/src/utils/dateUtils.js:116-119 | The day after the last day of a month is day 1 of the next month, in the next year after December. |
| Calendar.OverflowChangesMonth | functions/src/utils/dateUtils.js:116-121 | A built date keeps its month and day exactly when the triple is a real date. A day past the month's end rolls into the next month. |
| Calendar.WeekdayShift | functions/src/utils/dateUtils.js:84-107 | Moving a date by k days moves its weekday by k modulo 7. |
| CycleMath.PredictedDates | functions/src/utils/dateUtils.js:242-266 | A missing start or missing settings is an error, not a null. Otherwise the predicted period counts exactly `period` days, start included, and the next start is `cycle` days after the start. |
| CycleMath.OvulationDate | functions/src/utils/dateUtils.js:276-307 | No result without a start or with cycle 0. Otherwise ovulation is 14 days before the next period. The fertile window runs from 5 days before it to 1 day after, 7 days in all. fertileStart < ovulation < fertileEnd < next period. |
| CycleMath.CurrentCyclePhase | functions/src/utils/dateUtils.js:316-374 | No result without a start or when period or cycle is 0. Otherwise the phase is that of the day offset from the start, and daysInPhase is one more than daysSinceStart. |
| CycleMath.PhaseIntervals | functions/src/utils/dateUtils.js:332-359 | With settings inside the limits, the phases partition the days into intervals: unknown before the start, menstrual below `period`, follicular below 13, ovulation 13 to 16, luteal below `cycle`, then overdue. The computed phase is the one whose interval holds the day. |
| CycleMath.PhaseMonotone | functions/src/utils/dateUtils.js:332-359 | With settings inside the limits, the phase never goes back as the days advance. |
| CycleMath.DaysUntilNextPeriod | functions/src/utils/dateUtils.js:382-403 | No result without a start or with cycle 0. Otherwise today plus daysUntil is the next start, and the period is overdue exactly when today is after it. |
| CycleMath.OverdueFlagLagsPhase | functions/src/utils/dateUtils.js:348-397 | The overdue phase and the overdue flag differ on exactly one day: the predicted start itself, where the phase is already overdue and the flag is not yet set. |
| CycleMath.MenstrualRemainingDays | functions/src/handlers/cycleInfoHandler.js:213-217 | In the menstrual phase the days left, period minus daysSinceStart, lie between 1 and the period length. |
| CycleMath.PredictionsAgree | functions/src/utils/dateUtils.js:242-403 | The three predictions agree on the next start. With valid settings the predicted period is exactly the run of menstrual days, and the ovulation day falls after it and before the next start. |
| CycleMath.GeneratePeriodDetails | functions/src/utils/dateUtils.js:411-457 | No result without a record or settings. actualDays is the recorded length with both ends counted, or the configured length when no end was recorded. Accuracy is high exactly when actualDays is within one day of the setting. The ovulation, phase and next-period parts are those of the record's start. |
| CycleMath.PredictedRecordIsAccurate | functions/src/utils/dateUtils.js:423-451 | A record that ends on its predicted end has the configured length and high accuracy. |
| Store.SettingsOf | functions/src/utils/firestoreUtils.js:53-85 | A user without a document gets the default settings. |
| Store.UpdateUserSetting | functions/src/utils/firestoreUtils.js:93-110 | The update fails exactly when the user has no document. Otherwise only the named setting changes, and the setup flag, the other settings, the input flag and the records are kept. |
| Store.SaveRecord | functions/src/utils/firestoreUtils.js:117-142 | Saving adds exactly one record, active, after all earlier ones, and keeps everything else. |
| Store.ActiveRecords | functions/src/utils/firestoreUtils.js:156-162 | The records kept are exactly the active ones. |
| Store.ActiveRecordsAppend | functions/src/utils/firestoreUtils.js:156-162 | Keeping the active records of two stretches of the collection one after the other gives those of the joined collection. So the kept records keep their stored order and multiplicity. |
| Store.RecentRecords | functions/src/utils/firestoreUtils.js:150-177 | At most `limit` active records are returned, newest first: entry i is the i-th most recently created active record. |
| Store.SortByStartDesc | functions/src/handlers/webHandler.js:65-69 | The calendar query returns the same records as a permutation, ordered by start date, newest first. |
| Store.SortedHeadIsLatest | functions/src/handlers/webHandler.js:115-116 | The first record of that order has the latest start date of all. |
| DateParse.GetDayOfWeekNumber | functions/src/utils/dateUtils.js:145-150 | A weekday kanji maps to its Sunday-based index. Anything else maps to -1. |
| DateParse.DayOfWeekNumberOfName | functions/src/utils/dateUtils.js:145-150 | Each of the seven weekday names maps back to its own index. |
| DateParse.LastWeekDay | functions/src/utils/dateUtils.js:84-95 | `先週の X`: the day of weekday X in the week before today's, 1 to 13 days back. |
| DateParse.ThisWeekDay | functions/src/utils/dateUtils.js:98-109 | `今週の X`: the day of weekday X in today's week, at most 6 days either way. |
| DateParse.MonthDayInYear | functions/src/utils/dateUtils.js:112-123 | `M/D` gives a date only when it is a real date of the current year, and the date found has exactly that month and day. |
| DateParse.IsoDate | functions/src/utils/dateUtils.js:126-131 | An input of the whole-text shape `YYYY-MM-DD` naming a real date gives that date. No other input does. |
| DateParse.FixedWordOffset | functions/src/utils/dateUtils.js:25-48 | The fixed words put the date 2 days back to 1 day ahead of today. |
| DateParse.CancelWordsListed | functions/src/utils/dateUtils.js:20-22 | The cancel check is membership in the cancel list. |
| DateParse.ParseNaturalDate | functions/src/utils/dateUtils.js:10-138 | The result is the cancel marker exactly for a cancel word after lower-casing and trimming. For any other text, a date is one the rule chain gives for the normalised text, and the text is unrecognised exactly when no rule gives a date. |
| DateParse.ValidateDate | functions/src/utils/dateUtils.js:157-177 | Invalid exactly without a date, and future exactly for a day after today. Old exactly for the day 365 days back and anything earlier. Accepted exactly for the days after that, up to today. |
| DateParse.FormatDate | functions/src/utils/dateUtils.js:184-193 | For a four-digit year the output has the shape `YYYY-MM-DD`, and its fields are the date's year, month and day. |
| DateParseProperties.DaysAgoPhrase | functions/src/utils/dateUtils.js:51-59 | `N日前`, leading zeros allowed, gives today − N for 1 ≤ N ≤ 365. Any other N matches no rule at all. |
| DateParseProperties.DaysLaterPhrase | functions/src/utils/dateUtils.js:62-70 | `N日後` gives today + N for 1 ≤ N ≤ 365, and no date otherwise. |
| DateParseProperties.WeeksAgoPhrase | functions/src/utils/dateUtils.js:73-81 | `N週間前` gives today − 7N for 1 ≤ N ≤ 52, and no date otherwise. |
| DateParseProperties.LastWeekPhrase | functions/src/utils/dateUtils.js:84-95 | `先週の X曜日`, with or without `の`, parses to the day of weekday X in the previous week. |
| DateParseProperties.ThisWeekPhrase | functions/src/utils/dateUtils.js:98-109 | `今週の X曜日`, with or without `の`, parses to the day of weekday X in the current week. |
| DateParseProperties.MonthDayParse | functions/src/utils/dateUtils.js:112-123 | `M/D` with one or two digits each parses to that day of the current year when it is real. Otherwise, such as `2/30`, it is no date. |
| DateParseProperties.FormatDateParse | functions/src/utils/dateUtils.js:126-131 | A date formatted as `YYYY-MM-DD` with a four-digit year parses back to the same day. |
| DateParseProperties.BlankInput | functions/src/utils/dateUtils.js:11-18 | An empty or blank input is not a date. |
| DateParseProperties.RelativeDatesValidity | functions/src/utils/dateUtils.js:157-177 | `N日前` with N below 365 and `N週間前` with N up to 52 always pass the date check. Any day ahead of today fails it as a future date. |
| Forecast.FuturePredictions | functions/src/handlers/webHandler.js:128-152 | Exactly six entries, numbered 1 to 6. Entry i starts i cycles after the last start and lasts `period` days, with its ovulation 14 days before its start. Consecutive entries are one cycle apart. |
| Forecast.GetCalendarData | functions/src/handlers/webHandler.js:60-168 | 404 exactly without settings. With no active record, the settings and no predictions. Otherwise a 500 exactly when the cycle is 0. Any other answer holds the active records sorted newest start first, one formatted entry per record. The predictions are anchored at the first of them: a next period of `period` days one cycle later, and that next period as the first of six forecast entries. Entry i starts i cycles after the anchor, lasts the period, and has its ovulation 14 days before its start. The fertile window spans seven days and ends before the next period. |
| Forecast.FormatRecord | functions/src/handlers/webHandler.js:98-111 | A record reaches the page with its own start and end dates, marked as an actual record. Its duration is there exactly when one is stored and is not zero. |
| CycleInfo.OvulationTimingOf | functions/src/handlers/cycleInfoHandler.js:129-136 | Ahead, today or passed by the sign of the days to ovulation, with the day count adding up to the ovulation day. |
| CycleInfo.FertileStatusOf | functions/src/handlers/cycleInfoHandler.js:144-151 | In the window exactly when today lies between its ends, both included. Upcoming exactly before it, with the days to its first day. Otherwise ended. |
| CycleInfo.TimingAndWindowAgree | functions/src/handlers/cycleInfoHandler.js:129-151 | On the ovulation day the window is open. More than five days before it the window is upcoming. Two or more days after it the window has ended. |
| CycleInfo.ShowOvulationInfo | functions/src/handlers/cycleInfoHandler.js:94-169 | No-records reply exactly without active records. An error exactly when the cycle is 0. Otherwise the report is for the newest record's ovulation. |
| CycleInfo.CurrentStatus | functions/src/handlers/cycleInfoHandler.js:198-270 | An error exactly when period or cycle is 0. Otherwise the phase and the next-period figures are those of the phase and next-period calculations for the start. The days left of the period are shown exactly in the menstrual phase, as the period length minus the days since the start, between 1 and the period length. The days late are shown exactly when overdue, counted from the predicted start. The next period is shown while today is not past it. |
| CycleInfo.ShowCurrentStatus | functions/src/handlers/cycleInfoHandler.js:177-275 | No-records reply exactly without active records. Otherwise the status of the newest record. |
| CycleInfo.Gaps | functions/src/handlers/cycleInfoHandler.js:329-332 | One gap per consecutive pair of a newest-first list: the newer start minus the older one. |
| CycleInfo.RoundedMean | functions/src/handlers/cycleInfoHandler.js:341 | `Math.round(total / count)`: the nearest integer to the mean, halves rounded up. |
| CycleInfo.RoundedMeanBounds | functions/src/handlers/cycleInfoHandler.js:334-341 | The rounded mean of gaps in [21, 40] lies in [21, 40]. |
| CycleInfo.SumPlausibleGaps | functions/src/handlers/cycleInfoHandler.js:329-338 | The loop total and count are the sum and number of the gaps in [21, 40]. |
| CycleInfo.HistoryStatistics | functions/src/handlers/cycleInfoHandler.js:322-351 | Statistics exactly for two or more records. An average exactly when some gap is plausible, and it is the rounded mean of the plausible gaps, between 21 and 40. The setting is accurate exactly when within two days of the average. |
| CycleInfo.HistoryEntries | functions/src/handlers/cycleInfoHandler.js:300-319 | One entry per record in order. Each except the oldest carries the days since the next older record. |
| CycleInfo.ShowDetailedHistory | functions/src/handlers/cycleInfoHandler.js:283-361 | No-records reply exactly without active records. Otherwise the at most three newest records, each with its start date and its gap to the next older one. The statistics are those of the shown starts: an average exactly when some gap is plausible, equal to the rounded mean, and a verdict of accurate exactly when the setting is within two days of it. |
| DateEntry.StartDateInput | functions/src/handlers/dateInputHandler.js:29-44 | The next message is awaited as a start date: a date-input flag is set and nothing else changes. |
| DateEntry.ReadDate | functions/src/handlers/dateInputHandler.js:53-60 | A cancel word exactly for the cancel list. A date exactly when the phrase parser gives one, and it is that date. |
| DateEntry.HandleDate | functions/src/handlers/dateInputHandler.js:49-139 | Cancel clears the flag. An unreadable date, a future date, or a date 365 or more days back is refused with nothing written and the flag kept. An accepted date is saved active with end and next start from the settings, and the flag is cleared. A failed save clears the flag and reports an error. |
| DateEntry.SavedRecordIsNewest | functions/src/handlers/dateInputHandler.js:84-98 | After a save the newest active record is the one just saved, and the earlier active records are kept before it. |
| DateEntry.SavedPredictionsMatchPhases | functions/src/handlers/dateInputHandler.js:84-93 | With valid settings the saved start day and predicted end are menstrual days, and the day after the end is not. |
| DateEntry.NotificationTarget | functions/src/handlers/dateInputHandler.js:145-169 | A partner is notified exactly when one exists and has notifications on, and it is that partner. |
| DateEntry.UnknownPartnerIsNotified | functions/src/handlers/dateInputHandler.js:163-166 | A partner without a document reads as the defaults, so is notified. |
| SettingsEntry.CheckUserSettings | functions/src/handlers/settingsHandler.js:21-44 | The summary shows the stored settings, or the defaults for a user without a document. |
| SettingsEntry.StartSetting | functions/src/handlers/settingsHandler.js:51-94 | The prompt sets the flag that routes the next message to that setting's handler, and nothing else changes. |
| SettingsEntry.ReadAnswer | functions/src/handlers/settingsHandler.js:107-112 | Cancel is recognised before any number. Otherwise the answer is the number `parseInt` finds in the trimmed text, or none. |
| SettingsEntry.HandleAnswer | functions/src/handlers/settingsHandler.js:102-204 | Cancel clears the flag. A missing or out-of-range value is refused with nothing written. A value in range updates that one setting and clears the flag. A failed write clears the flag and reports an error. |
| SettingsEntry.HandleSettingKeepsValid | functions/src/handlers/settingsHandler.js:115-128 | No answer takes valid settings outside the limits, and no answer touches the records. |
| SettingsEntry.TypedValueStored | functions/src/handlers/settingsHandler.js:112-128 | A number in range typed with a unit suffix such as `日` is stored as that number. |
| SettingsEntry.PromptExamplesAccepted | functions/src/config/constants.js:81-97 | Values the prompts give as examples are accepted: 28 for the cycle, even typed as `28日`, and 5 for the period. |
| SettingsEntry.ToggleNotifications | functions/src/handlers/settingsHandler.js:211-236 | The stored switch is negated and nothing else changes. Without a document it is an error and nothing changes. |
| SettingsEntry.ToggleTwiceRestores | functions/src/handlers/settingsHandler.js:215-218 | Toggling twice gives back the account as it was. |
| SettingsEntry.UpdateMultipleSettings | functions/src/handlers/settingsHandler.js:244-280 | Both values are checked against the limits before any write. Out of range, or without a document, nothing is written and the answer is false. Otherwise exactly the given fields change. |
| SettingsEntry.RequestedInOrder | functions/src/handlers/settingsHandler.js:262-273 | Writing the requested fields one by one gives the requested settings. |
| SettingsEntry.ValidateSettingsAsWritten | functions/src/handlers/settingsHandler.js:287-316 | The validator as written: valid exactly when there are no errors. |
| SettingsEntry.NaNCycleAccepted | functions/src/handlers/settingsHandler.js:290-296 | A NaN cycle passes the check as written, though it is no number within the limits. |
| SettingsEntry.ValidateSettings | functions/src/handlers/settingsHandler.js:287-316 | With the range check read as "a number within the limits", valid exactly when every given field is well-formed. The errors name exactly the fields that are not. |
| SettingsEntry.ValidationDiffersOnlyOnNaN | functions/src/handlers/settingsHandler.js:287-316 | Without NaN the validator as written and the corrected one agree. |
| Partner.PartnershipIdSymmetric | functions/src/handlers/partnerHandler.js:613-617 | The partnership id does not depend on who invited whom. It is the smaller id, `_`, and the larger. |
| Partner.PartnerOf | functions/src/handlers/partnerHandler.js:458-478 | No partner exactly when no active partnership holds the user. Otherwise the other member of the first one that does. |
| Partner.PartnerOfSymmetric | functions/src/handlers/partnerHandler.js:458-478 | When everyone has at most one partner, the partner's partner is the user. |
| Partner.PartnerOfUnique | functions/src/handlers/partnerHandler.js:458-478 | When exactly one active partnership holds the user, wherever it sits in the collection, the partner is its other member. |
| Partner.SetPartnership | functions/src/handlers/partnerHandler.js:246-260 | Writing a partnership under its id adds it and keeps every partnership under another id. |
| Partner.ExtractInviteCode | functions/src/handlers/partnerHandler.js:143-153 | No code exactly when the keyword-and-six-characters pattern matches nowhere. Otherwise the code is the six characters after the leftmost match, upper-cased, which are six characters of A-Z0-9. |
| Partner.ExtractTypedCode | functions/src/handlers/partnerHandler.js:143-153 | A code typed after the keyword, with any white space and in either case, is read back as the code. |
| Partner.ProcessInviteAcceptance | functions/src/handlers/partnerHandler.js:197-282 | The checks come in order. The own-code refusal is given exactly for the acceptor's own code. The already-partnered refusal is given exactly when the acceptor has a partner and the code is not their own. The unknown-code refusal is given exactly for a missing code when the acceptor has no partner. For an existing code of another user and an acceptor without a partner: not-active exactly when the code is not active; expired exactly when active but past its expiry, and then only that code becomes expired; accepted otherwise. On acceptance the partnership inviter-acceptor is written under its id and the code is marked used by the acceptor. A refusal creates no partnership. |
| Partner.MarkExpired | functions/src/handlers/partnerHandler.js:640-651 | The document of the code gets status expired. Every other field and document is kept. |
| Partner.MarkUsed | functions/src/handlers/partnerHandler.js:624-635 | The document of the code gets status used and the user who used it. Every other document is kept. |
| Partner.AcceptancePairsUsers | functions/src/handlers/partnerHandler.js:246-263 | After acceptance, when the inviter had no partner, the two users are each other's partner, and everyone still has at most one. |
| Partner.InviterCanGainSecondPartner | functions/src/handlers/partnerHandler.js:206-213 | Acceptance checks only the acceptor's partner, so an old active code can give its inviter a second partner. |
| Partner.OnePartnerAfterSet | functions/src/handlers/partnerHandler.js:246-260 | Writing a partnership between two unpartnered users keeps one partner each. |
| Partner.UseInviteCode | functions/src/handlers/partnerHandler.js:138-162 | A message without a well-formed code is refused with no lookup and no change. Otherwise the extracted code goes through acceptance. |
| Partner.InvalidateUserInviteCodes | functions/src/handlers/partnerHandler.js:655-674 | Exactly the user's active codes become invalidated, with their other fields kept. Every other code is kept as it was. |
| Partner.InvalidateIdempotent | functions/src/handlers/partnerHandler.js:655-674 | Invalidating twice is invalidating once. |
| Partner.RemovePartner | functions/src/handlers/partnerHandler.js:337-381 | Without a partner nothing changes. Otherwise the store is refused exactly when no document has the partnership's id. On removal only the first document with that id becomes inactive, and every other partnership is kept. The active codes of both members become invalidated, and every other code is kept. |
| Partner.RemoveLeavesNoPartner | functions/src/handlers/partnerHandler.js:337-381 | When every partnership sits under its own id, removal succeeds and leaves the user without a partner. |
| Partner.RandomCode | functions/src/handlers/partnerHandler.js:598-605 | A generated code is six characters of the alphabet A-Z0-9, one per random draw. |
| Partner.EveryCodeReachable | functions/src/handlers/partnerHandler.js:598-605 | Every six-character code of that alphabet can be generated. |
| Partner.CreateUniqueInviteCode | functions/src/handlers/partnerHandler.js:576-592 | Success exactly when one of the ten attempts draws an unused code, and the result is the first such code. |
| Partner.LatestActiveCode | functions/src/handlers/partnerHandler.js:510-539 | The newest active code of the user, or none exactly when there is none. |
| Partner.GenerateInviteCode | functions/src/handlers/partnerHandler.js:12-75 | Refused exactly when the user has a partner, and then nothing changes. An unexpired active code is handed out again with nothing changed. Otherwise a fresh unused code valid for 24 hours is stored after the existing ones. Partnerships never change. |
| Partner.GenerateInviteCodeCases | functions/src/handlers/partnerHandler.js:12-75 | For a user without a partner, the newest active code is handed out exactly when it is unexpired. Generation fails exactly when all ten drawn codes are taken. When a new code is stored or generation fails, every earlier code is kept, except that an expired newest code is marked expired. |
| Router.PagePath | functions/index.js:133-141 | A known page has its own path. Any other name leads to `/`. |
| Router.PagePathsDistinct | functions/index.js:133-141 | A path leads back to the page it was built for, and an unknown page to none. |
| Router.BaseUrl | functions/index.js:100-131 | The base address is `https://<id>.web.app` for a non-empty project id. |
| Router.WebLink | functions/index.js:93-152 | The link is the base address, the page path and the token query, in that order. |
| Router.TokenPayloadSplits | functions/index.js:58-62 | For a user id without a colon, the token text splits back into the id and the time. |
| Router.EnsureUserExists | functions/src/utils/firestoreUtils.js:12-46 | A new user gets a document with the default settings and the setup not completed. An existing user and all other users are left as they were. |
| Router.Classify | functions/index.js:290-433 | The exact-word commands are tried in order, then the invite pattern, then the partner commands, then a greeting anywhere in the text, and otherwise the default reply. |
| Router.StartDateOnlyByOneWord | functions/index.js:341-382 | Conversational start-date entry is reached by `生理開始日` and nothing else. `開始日を入力` is taken by the web entry page tried before it. |
| Router.LowerCaseInviteRouted | functions/index.js:410-412 | The invite pattern is tried on the message as sent, with case ignored, so a code typed in lower case is routed and read in upper case. |
| Router.LongInviteMessage | functions/index.js:410-412 | A message longer than every command word that matches the invite pattern is an invite. |
| Router.AnswerPrompt | functions/index.js:439-471 | The flag type picks the handler: date input to the date handler, a setting to the setting handler. An unknown type resets the session. |
| Router.HandleInputResponse | functions/index.js:439-471 | An answer to a prompt changes only the answering user's account and never the partner data. |
| Router.SettingFlagAnswered | functions/index.js:449-453 | A setting flag hands the message to that setting's handler. |
| Router.NotifiedOnlyOnSave | functions/src/handlers/dateInputHandler.js:95-112 | A partner is notified only of a start date that was saved. |
| Router.RunCommand | functions/index.js:293-433 | Web-page commands change nothing and answer with a link. Text-only commands change nothing. No command is ignored or answered with the setup prompt. |
| Router.RouteCommand | functions/index.js:256-434 | The setup gate comes first, then a pending flag, then the command table. |
| Router.HandleEvent | functions/index.js:207-248 | Exactly the non-text events are ignored, with nothing changed. A text is trimmed, its user's document created when missing, and the text routed. |
| Router.NeverIgnored | functions/index.js:256-434 | Every text message gets an answer. |
| Router.NewUserIsGated | functions/index.js:260-282 | A first message from a new user, other than the basic words, gets the setup prompt. |
| Router.FlagOverridesCommands | functions/index.js:284-288 | After setup, a pending flag takes the next message whatever it says, even a command word. |
| Router.SettingConversation | functions/index.js:393-399 | Starting a setting conversation and answering it delivers the answer to that setting's handler. |

## Left out

- Time of day, time zone and daylight saving time: days are whole day numbers, and "today" is a parameter.
- DateParse.ValidateDate: treats the day exactly 365 days back as old. The source compares against the moment 365 days back at the current time of day. An M/D or ISO date stands for local midnight, so on that day it is old, unless the check runs at exactly midnight. A relative phrase such as `365日前` carries the time it was read, so it passes only when both clock readings fall in the same millisecond.
- DateEntry.HandleDate: refuses the day exactly 365 days back as too old, for the reason given for DateParse.ValidateDate.
- Partner.PartnerOf: takes the first involving partnership in creation order. The source's query has no order, so the database gives documents in id order. The two choices differ only when a user has two active partnerships, which Partner.InviterCanGainSecondPartner shows can happen. With at most one partnership per user the answer does not depend on the order (Partner.PartnerOfUnique). The same choice carries into Partner.RemovePartner and DateEntry.NotificationTarget.
- SettingsEntry.UpdateMultipleSettings: requests carry whole numbers and booleans only. The source checks only `< MIN || > MAX`, so it passes and writes NaN, a fraction such as 28.5 or a string such as "30". The NaN case is shown under "## Findings" for `validateSettings`.
- Text.ToLower: lowers ASCII capitals only, while JavaScript's `toLowerCase` also lowers non-ASCII capitals. Every word the bot compares against is ASCII or has no case, so no command outcome changes.
- DateParse.IsoDate: a `YYYY-MM-DD` text naming an impossible day is no date here. The JavaScript engine's lenient string parsing of such dates is engine-specific.
- DateParse.FormatDate: states its shape only for four-digit years. The invalid-date text `日付不明` cannot arise from a day number.
- Message texts, emoji and the help text's ranges are left out. Replies are outcome constructors.
- LINE and network I/O are left out: the webhook, reply and push sending, and the rich menu. The partner push is represented only by whom it would go to, so a failing push cannot change the reply.
- Link tokens: their base64 encoding and verification are not part of this model. Only the payload text is modelled.
- Diagnostic commands reply with text only and are modelled as such: test, debug, notification test, partner debug, and the data-check commands `checkUserData`/`checkUserDataSimple`.
- The extra fields written with an input flag, and the `lastActiveAt` and time-zone fields of the user document, are left out.
- String order is by character. JavaScript compares UTF-16 code units, which differs only outside the basic plane.
- Record order: the order the database gives records with equal start dates is any order.
- Store faults: only the faults that change an outcome are modelled. These are a failing record save, an unreadable setup check or flag, and a field update of a missing document.
- Forecast.GetCalendarData: its 500 reply covers only the throw a cycle of 0 causes. Other throws come from the store, which is not modelled. The 404 branch is kept, with settings as an option, though `getUserSettings` falls back to the defaults and never returns nothing.
- `showPeriodInfo` is not part of this model. No command routes to it, nor to the period-info, ovulation-info, current-status and history word lists; the modelled cycle-info replies stand for their logic.
- `generateInviteLiffLink`, `acceptLiffInvite`, the support settings, `notifyPartnerRegistration` and `notifyPartnerRemoval` are not part of this model. They are web and push entry points outside the chat flow.
- Partner.AcceptancePairsUsers: assumes the inviter had no partner. The source does not check this, as Partner.InviterCanGainSecondPartner shows.

## Findings

| source | as written | input that shows it | evidently intended | confidence | as-written member | corrected member |
|---|---|---|---|---|---|---|
| functions/src/handlers/settingsHandler.js:290-296 | a value of type number fails only if `< MIN` or `> MAX`; both comparisons are false for NaN | `{cycle: NaN}` is reported valid | a cycle or period must be a number within the limits | high (not executed) | SettingsEntry.ValidateSettingsAsWritten, SettingsEntry.NaNCycleAccepted | SettingsEntry.ValidateSettings |
