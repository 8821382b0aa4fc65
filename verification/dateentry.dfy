/** Recording a period start: the prompt, the typed answer (a cancel word or a
    date phrase), the checks on the date, the stored record with its predicted end
    and next start, and the choice of partner to notify. */
module DateEntry {
  import opened Wrappers
  import opened Text
  import opened Calendar
  import opened Constants
  import opened CycleMath
  import opened Store
  import DateParse
  import Partner

  /** `startDateInput`: the next message is awaited as a start date. */
  function StartDateInput(a: Account): (r: Account)
    ensures r.doc == a.doc && r.records == a.records
    ensures r.flag.Some? && r.flag.value.status == "waiting_date"
    ensures ParseFlagType(r.flag.value.kind) == Some(DateInput)
  {
    SetInputFlag(a, InputFlag(FlagTypeName(DateInput), "waiting_date"))
  }

  /** How an answer to the date prompt reads: a cancel word, a date, or neither. */
  datatype DateAnswer = DateCancel | DateRead(date: Day) | DateUnreadable

  function ReadDate(input: string, today: Day): (ans: DateAnswer)
    ensures ans == DateCancel <==> DateParse.IsCancelWord(Normalize(input))
    ensures ans.DateRead? <==> DateParse.ParseNaturalDate(input, today).Parsed?
    ensures ans.DateRead? ==> DateParse.ParseNaturalDate(input, today) == DateParse.Parsed(ans.date)
  {
    if DateParse.IsCancelWord(Normalize(input)) then DateCancel
    else
      match DateParse.ParseNaturalDate(input, today)
      case Parsed(d) => DateRead(d)
      case _ => DateUnreadable
  }

  datatype DateReply =
    | DateCancelled
    | DateNotUnderstood
    | DateInFuture
    | DateTooOld
    | RecordSaved(record: StoredRecord)
    | DateSaveError

  /** The record stored for a start date: predicted end and next start from the
      user's settings, no duration, active, with the text as typed. */
  function NewRecord(a: Account, d: Day, input: string): StoredRecord {
    var p := PredictedDates(Some(d), Some(SettingsOf(a))).value;
    StoredRecord(d, Some(p.endDate), Some(p.nextStartDate), None, Active, input)
  }

  /** `handleDateInput` once the answer is read. A cancel word clears the flag. A
      date that is missing, in the future or a year or more back is refused
      and nothing is written, so the user is still asked. An accepted date is
      saved with its predictions and the flag cleared; when the save fails the
      flag is cleared and an error is shown. */
  function HandleDate(a: Account, ans: DateAnswer, input: string, today: Day, saveFails: bool): (r: (Account, DateReply))
    ensures r.1 == DateCancelled <==> ans == DateCancel
    ensures r.1 == DateCancelled ==> r.0 == ClearInputFlag(a)
    ensures r.1 == DateNotUnderstood <==> ans == DateUnreadable
    ensures r.1 == DateInFuture <==> ans.DateRead? && ans.date > today
    ensures r.1 == DateTooOld <==> ans.DateRead? && ans.date <= today - MaxDaysAgo
    ensures r.1 in {DateNotUnderstood, DateInFuture, DateTooOld} ==> r.0 == a
    ensures var accepted := ans.DateRead? && today - MaxDaysAgo < ans.date <= today;
            (r.1.RecordSaved? <==> accepted && !saveFails)
            && (r.1 == DateSaveError <==> accepted && saveFails)
    ensures r.1 == DateSaveError ==> r.0 == ClearInputFlag(a)
    ensures r.1.RecordSaved? ==>
              var s, rec := SettingsOf(a), r.1.record;
              rec.startDate == ans.date && rec.status == Active && rec.originalInput == input
              && rec.endDate.Some? && InclusiveSpan(rec.startDate, rec.endDate.value) == s.period
              && rec.nextPredictedStart.Some? && rec.nextPredictedStart.value - rec.startDate == s.cycle
              && r.0 == ClearInputFlag(SaveRecord(a, rec))
  {
    match ans
    case DateCancel => (ClearInputFlag(a), DateCancelled)
    case DateUnreadable => (a, DateNotUnderstood)
    case DateRead(d) =>
      match DateParse.ValidateDate(Some(d), today)
      case FutureDate => (a, DateInFuture)
      case OldDate => (a, DateTooOld)
      case InvalidDate => (a, DateNotUnderstood)
      case DateOk =>
        if saveFails then (ClearInputFlag(a), DateSaveError)
        else
          var rec := NewRecord(a, d, input);
          (ClearInputFlag(SaveRecord(a, rec)), RecordSaved(rec))
  }

  /** `handleDateInput`: the answer is read, then handled. */
  function HandleDateInput(a: Account, input: string, today: Day, saveFails: bool): (Account, DateReply) {
    HandleDate(a, ReadDate(input, today), input, today, saveFails)
  }

  /** Active records after one more active record: the same list, extended. */
  lemma {:induction false} ActiveAppend(rs: seq<StoredRecord>, r: StoredRecord)
    requires r.status == Active
    ensures ActiveRecords(rs + [r]) == ActiveRecords(rs) + [r]
    decreases |rs|
  {
    if |rs| == 0 {
      assert rs + [r] == [r];
      assert ActiveRecords([r][1..]) == [];
    } else {
      assert (rs + [r])[0] == rs[0] && (rs + [r])[1..] == rs[1..] + [r];
      ActiveAppend(rs[1..], r);
    }
  }

  /** A saved start date is what the status pages read next: the newest record
      is the one just saved. */
  lemma SavedRecordIsNewest(a: Account, ans: DateAnswer, input: string, today: Day)
    requires HandleDate(a, ans, input, today, false).1.RecordSaved?
    ensures var (a', reply) := HandleDate(a, ans, input, today, false);
            RecentRecords(a', 1) == [reply.record]
            && ActiveRecords(a'.records) == ActiveRecords(a.records) + [reply.record]
  {
    var (a', reply) := HandleDate(a, ans, input, today, false);
    ActiveAppend(a.records, reply.record);
    assert a'.records == a.records + [reply.record];
  }

  /** With valid settings the saved prediction agrees with the phase model: the
      saved start is a menstrual day and the predicted end is its last one. */
  lemma SavedPredictionsMatchPhases(a: Account, ans: DateAnswer, input: string, today: Day)
    requires ValidSettings(SettingsOf(a))
    requires HandleDate(a, ans, input, today, false).1.RecordSaved?
    ensures var rec, s := HandleDate(a, ans, input, today, false).1.record, SettingsOf(a);
            PhaseOf(0, s.period, s.cycle) == Menstrual
            && PhaseOf(rec.endDate.value - rec.startDate, s.period, s.cycle) == Menstrual
            && PhaseOf(rec.endDate.value - rec.startDate + 1, s.period, s.cycle) != Menstrual
  {
  }

  // ---------------------------------------------------------------------------
  // sendPartnerNotification

  /** The partner to notify of a saved start: none without a partner, and none
      when the partner has switched notifications off. */
  function NotificationTarget(users: map<UserId, Account>, ps: seq<Partner.Partnership>, u: UserId): (r: Option<UserId>)
    ensures r.Some? <==> Partner.PartnerOf(ps, u).Some? && SettingsOf(AccountOf(users, Partner.PartnerOf(ps, u).value)).notifications
    ensures r.Some? ==> r == Partner.PartnerOf(ps, u)
  {
    match Partner.PartnerOf(ps, u)
    case None => None
    case Some(p) => if SettingsOf(AccountOf(users, p)).notifications then Some(p) else None
  }

  /** A partner never seen by the bot gets the default settings, under which
      notifications are on. */
  lemma UnknownPartnerIsNotified(users: map<UserId, Account>, ps: seq<Partner.Partnership>, u: UserId)
    requires Partner.PartnerOf(ps, u).Some? && Partner.PartnerOf(ps, u).value !in users
    ensures NotificationTarget(users, ps, u) == Partner.PartnerOf(ps, u)
  {
  }
}
