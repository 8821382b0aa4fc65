/** The cycle arithmetic of the date utilities: predicted end and next start of a
    period, the ovulation day and fertile window, the phase of the cycle on a given
    day, the days left until the next period, and the per-record summary.

    Dates are day numbers and the current day is the parameter `today`; a
    millisecond difference divided by the length of a day and rounded is the
    difference of day numbers. A numeric argument that JavaScript treats as falsy
    (missing or 0) is 0 here. */
module CycleMath {
  import opened Wrappers
  import opened Calendar
  import Constants

  /** The per-user settings document. */
  datatype Settings = Settings(cycle: int, period: int, notifications: bool)

  /** The settings given to a user who has none stored. */
  const DefaultSettings: Settings :=
    Settings(Constants.DefaultCycle, Constants.DefaultPeriod, Constants.DefaultNotifications)

  /** Settings inside the limits the settings handlers enforce. */
  predicate ValidSettings(s: Settings) {
    Constants.CycleInRange(s.cycle) && Constants.PeriodInRange(s.period)
  }

  /** Number of days from `first` to `last`, both counted. */
  function InclusiveSpan(first: Day, last: Day): int {
    last - first + 1
  }

  function Abs(x: int): (r: nat)
    ensures r == x || r == -x
  {
    if x < 0 then -x else x
  }

  // ---------------------------------------------------------------------------
  // calculatePredictedDates

  datatype Predicted = Predicted(endDate: Day, nextStartDate: Day)

  /** The predicted last day of the period (the start being day 1) and the next
      start; a missing argument is an error, not a null result. */
  function PredictedDates(start: Option<Day>, settings: Option<Settings>): (r: Result<Predicted>)
    ensures r.Success? <==> start.Some? && settings.Some?
    ensures r.Success? ==>
              InclusiveSpan(start.value, r.value.endDate) == settings.value.period
              && r.value.nextStartDate - start.value == settings.value.cycle
  {
    if start.None? || settings.None? then Failure("Invalid parameters for date calculation")
    else
      var s := start.value;
      Success(Predicted(s + settings.value.period - 1, s + settings.value.cycle))
  }

  // ---------------------------------------------------------------------------
  // calculateOvulationDate

  /** Days from ovulation to the next period. */
  const LutealLength: int := 14

  datatype Ovulation = Ovulation(ovulationDate: Day, fertileStart: Day, fertileEnd: Day, nextPeriodDate: Day)

  /** Ovulation 14 days before the next period; fertile from 5 days before to
      1 day after it. */
  function OvulationDate(start: Option<Day>, cycle: int): (r: Option<Ovulation>)
    ensures r.Some? <==> start.Some? && cycle != 0
    ensures r.Some? ==>
              var o := r.value;
              o.nextPeriodDate - start.value == cycle
              && o.nextPeriodDate - o.ovulationDate == LutealLength
              && o.fertileStart < o.ovulationDate < o.fertileEnd < o.nextPeriodDate
              && InclusiveSpan(o.fertileStart, o.fertileEnd) == 7
  {
    if start.None? || cycle == 0 then None
    else
      var next := start.value + cycle;
      var ovulation := next - LutealLength;
      Some(Ovulation(ovulation, ovulation - 5, ovulation + 1, next))
  }

  // ---------------------------------------------------------------------------
  // getCurrentCyclePhase

  datatype Phase = Unknown | Menstrual | Follicular | OvulationPhase | Luteal | Overdue

  /** The phase on day d of the cycle (d = 0 on the start day), tried in the
      source's order. */
  function PhaseOf(d: int, period: int, cycle: int): Phase {
    if d < 0 then Unknown
    else if d < period then Menstrual
    else if d < 13 then Follicular
    else if 13 <= d <= 16 then OvulationPhase
    else if d < cycle then Luteal
    else Overdue
  }

  datatype PhaseInfo = PhaseInfo(phase: Phase, daysSinceStart: int, daysInPhase: int)

  function CurrentCyclePhase(start: Option<Day>, period: int, cycle: int, today: Day): (r: Option<PhaseInfo>)
    ensures r.Some? <==> start.Some? && period != 0 && cycle != 0
    ensures r.Some? ==>
              today - r.value.daysSinceStart == start.value
              && r.value.daysInPhase == r.value.daysSinceStart + 1
              && r.value.phase == PhaseOf(today - start.value, period, cycle)
  {
    if start.None? || period == 0 || cycle == 0 then None
    else
      var d := today - start.value;
      Some(PhaseInfo(PhaseOf(d, period, cycle), d, d + 1))
  }

  /** The phases as day intervals, for settings within the limits: each phase is
      its own interval, independent of the order the source tests them in. */
  predicate InPhase(p: Phase, d: int, period: int, cycle: int) {
    match p
    case Unknown => d < 0
    case Menstrual => 0 <= d < period
    case Follicular => period <= d < 13
    case OvulationPhase => 13 <= d <= 16
    case Luteal => 17 <= d < cycle
    case Overdue => cycle <= d
  }

  /** With valid settings the intervals partition the days: the phase the source
      computes is the one whose interval contains the day, and no other. */
  lemma PhaseIntervals(d: int, period: int, cycle: int, p: Phase)
    requires Constants.PeriodInRange(period) && Constants.CycleInRange(cycle)
    ensures PhaseOf(d, period, cycle) == p <==> InPhase(p, d, period, cycle)
  {
  }

  /** Position of a phase in the course of a cycle. */
  function PhaseRank(p: Phase): nat {
    match p
    case Unknown => 0
    case Menstrual => 1
    case Follicular => 2
    case OvulationPhase => 3
    case Luteal => 4
    case Overdue => 5
  }

  /** With valid settings, the phase never goes back as the days advance. */
  lemma PhaseMonotone(d1: int, d2: int, period: int, cycle: int)
    requires Constants.PeriodInRange(period) && Constants.CycleInRange(cycle)
    requires d1 <= d2
    ensures PhaseRank(PhaseOf(d1, period, cycle)) <= PhaseRank(PhaseOf(d2, period, cycle))
  {
  }

  // ---------------------------------------------------------------------------
  // getDaysUntilNextPeriod

  datatype NextPeriod = NextPeriod(nextPeriodDate: Day, daysUntil: int, isOverdue: bool)

  function DaysUntilNextPeriod(start: Option<Day>, cycle: int, today: Day): (r: Option<NextPeriod>)
    ensures r.Some? <==> start.Some? && cycle != 0
    ensures r.Some? ==>
              r.value.nextPeriodDate - start.value == cycle
              && today + r.value.daysUntil == r.value.nextPeriodDate
              && (r.value.isOverdue <==> today > r.value.nextPeriodDate)
  {
    if start.None? || cycle == 0 then None
    else
      var next := start.value + cycle;
      var daysUntil := next - today;
      Some(NextPeriod(next, daysUntil, daysUntil < 0))
  }

  /** The overdue flag and the overdue phase disagree on exactly one day: on the
      predicted start itself the phase is already overdue while the flag is not
      yet set. */
  lemma OverdueFlagLagsPhase(start: Day, period: int, cycle: int, today: Day)
    requires Constants.PeriodInRange(period) && Constants.CycleInRange(cycle)
    ensures var info := CurrentCyclePhase(Some(start), period, cycle, today).value;
            var next := DaysUntilNextPeriod(Some(start), cycle, today).value;
            (next.isOverdue ==> info.phase == Overdue)
            && (info.phase == Overdue && !next.isOverdue <==> today == next.nextPeriodDate)
  {
  }

  /** In the menstrual phase the days left of the period, period - daysSinceStart,
      lie between 1 and the period length. */
  lemma MenstrualRemainingDays(start: Day, period: int, cycle: int, today: Day)
    requires period != 0 && cycle != 0
    requires CurrentCyclePhase(Some(start), period, cycle, today).value.phase == Menstrual
    ensures var d := CurrentCyclePhase(Some(start), period, cycle, today).value.daysSinceStart;
            1 <= period - d <= period
  {
  }

  // ---------------------------------------------------------------------------
  // Relations between the predictions

  /** All three functions agree on the next start, and with valid settings the
      predicted period is exactly the run of menstrual days: every day from the
      start to the predicted end is menstrual, the day after it is not, and the
      ovulation day comes after the period and before the next one. */
  lemma PredictionsAgree(start: Day, settings: Settings, today: Day)
    requires ValidSettings(settings)
    ensures var p := PredictedDates(Some(start), Some(settings)).value;
            var o := OvulationDate(Some(start), settings.cycle).value;
            var n := DaysUntilNextPeriod(Some(start), settings.cycle, today).value;
            p.nextStartDate == o.nextPeriodDate == n.nextPeriodDate
            && (start <= today <= p.endDate <==>
                PhaseOf(today - start, settings.period, settings.cycle) == Menstrual)
            && p.endDate < o.ovulationDate < p.nextStartDate
  {
  }

  // ---------------------------------------------------------------------------
  // generatePeriodDetails

  datatype Accuracy = High | Medium

  /** A stored period record: start day and optional end day. */
  datatype PeriodRecord = PeriodRecord(startDate: Day, endDate: Option<Day>)

  datatype PeriodDetails = PeriodDetails(
    startDate: Day,
    endDate: Option<Day>,
    actualDays: int,
    predictedDays: int,
    ovulationInfo: Option<Ovulation>,
    cyclePhase: Option<PhaseInfo>,
    nextPeriodInfo: Option<NextPeriod>,
    accuracy: Accuracy)

  /** The length actually recorded (the start being day 1), or the configured
      length when no end was recorded, and whether it is within a day of the
      configured length. */
  function GeneratePeriodDetails(record: Option<PeriodRecord>, settings: Option<Settings>, today: Day)
    : (r: Option<PeriodDetails>)
    ensures r.Some? <==> record.Some? && settings.Some?
    ensures r.Some? ==>
              var rec, s, det := record.value, settings.value, r.value;
              det.startDate == rec.startDate && det.endDate == rec.endDate
              && (rec.endDate.Some? ==> det.actualDays == InclusiveSpan(rec.startDate, rec.endDate.value))
              && (rec.endDate.None? ==> det.actualDays == s.period)
              && det.predictedDays == s.period
              && (det.accuracy == High <==> Abs(det.actualDays - s.period) <= 1)
              && det.ovulationInfo == OvulationDate(Some(rec.startDate), s.cycle)
              && det.cyclePhase == CurrentCyclePhase(Some(rec.startDate), s.period, s.cycle, today)
              && det.nextPeriodInfo == DaysUntilNextPeriod(Some(rec.startDate), s.cycle, today)
  {
    if record.None? || settings.None? then None
    else
      var rec, s := record.value, settings.value;
      var actualDays := match rec.endDate
        case Some(e) => e - rec.startDate + 1
        case None => s.period;
      Some(PeriodDetails(
        rec.startDate, rec.endDate, actualDays, s.period,
        OvulationDate(Some(rec.startDate), s.cycle),
        CurrentCyclePhase(Some(rec.startDate), s.period, s.cycle, today),
        DaysUntilNextPeriod(Some(rec.startDate), s.cycle, today),
        if Abs(actualDays - s.period) <= 1 then High else Medium))
  }

  /** A record whose end is the predicted end has exactly the configured length
      and high accuracy. */
  lemma PredictedRecordIsAccurate(start: Day, settings: Settings, today: Day)
    ensures var p := PredictedDates(Some(start), Some(settings)).value;
            var det := GeneratePeriodDetails(Some(PeriodRecord(start, Some(p.endDate))), Some(settings), today).value;
            det.actualDays == settings.period && det.accuracy == High
  {
  }
}
