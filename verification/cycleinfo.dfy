/** The chat reports about the current cycle: the ovulation report with its
    fertile-window status, the current-status report, and the detailed history
    with its average cycle length. */
module CycleInfo {
  import opened Wrappers
  import opened Calendar
  import opened CycleMath
  import opened Store

  // ---------------------------------------------------------------------------
  // showOvulationInfo

  /** Where today lies relative to the ovulation day. */
  datatype OvulationTiming = OvulationAhead(daysLeft: nat) | OvulationToday | OvulationPassed(daysAgo: nat)

  /** Classified by the sign of the days from today to the ovulation day. */
  function OvulationTimingOf(ovulation: Day, today: Day): (t: OvulationTiming)
    ensures t.OvulationAhead? <==> today < ovulation
    ensures t.OvulationToday? <==> today == ovulation
    ensures t.OvulationAhead? ==> today + t.daysLeft == ovulation
    ensures t.OvulationPassed? ==> ovulation + t.daysAgo == today
  {
    var daysToOvulation := ovulation - today;
    if daysToOvulation > 0 then OvulationAhead(daysToOvulation)
    else if daysToOvulation == 0 then OvulationToday
    else OvulationPassed(-daysToOvulation)
  }

  datatype FertileStatus = InFertileWindow | FertileUpcoming(daysLeft: nat) | FertileEnded

  /** The window is inclusive at both ends; before it the report counts the days
      to its first day. */
  function FertileStatusOf(o: Ovulation, today: Day): (f: FertileStatus)
    ensures f == InFertileWindow <==> o.fertileStart <= today <= o.fertileEnd
    ensures f.FertileUpcoming? <==> today < o.fertileStart
    ensures f.FertileUpcoming? ==> today + f.daysLeft == o.fertileStart
  {
    if o.fertileStart <= today && today <= o.fertileEnd then InFertileWindow
    else if today < o.fertileStart then FertileUpcoming(o.fertileStart - today)
    else FertileEnded
  }

  /** The two classifications agree: on the ovulation day the window is open;
      more than five days ahead of it the window is still to come, five days
      before it; two or more days after it the window has closed. */
  lemma TimingAndWindowAgree(start: Day, cycle: int, today: Day)
    requires cycle != 0
    ensures var o := OvulationDate(Some(start), cycle).value;
            var t := OvulationTimingOf(o.ovulationDate, today);
            var f := FertileStatusOf(o, today);
            (t == OvulationToday ==> f == InFertileWindow)
            && (t.OvulationAhead? && t.daysLeft > 5 ==> f == FertileUpcoming(t.daysLeft - 5))
            && (t.OvulationPassed? && t.daysAgo >= 2 ==> f == FertileEnded)
            && (f == InFertileWindow ==> o.ovulationDate - 5 <= today <= o.ovulationDate + 1)
  {
  }

  datatype OvulationReport =
    | OvulationNoRecords
    | OvulationError
    | OvulationShown(info: Ovulation, timing: OvulationTiming, fertile: FertileStatus)

  /** The ovulation report for the newest record (by creation). */
  function ShowOvulationInfo(a: Account, today: Day): (r: OvulationReport)
    ensures r == OvulationNoRecords <==> ActiveRecords(a.records) == []
    ensures r == OvulationError <==> ActiveRecords(a.records) != [] && SettingsOf(a).cycle == 0
    ensures r.OvulationShown? ==>
              var act := ActiveRecords(a.records);
              r.info == OvulationDate(Some(act[|act| - 1].startDate), SettingsOf(a).cycle).value
              && r.timing == OvulationTimingOf(r.info.ovulationDate, today)
              && r.fertile == FertileStatusOf(r.info, today)
  {
    var records := RecentRecords(a, 1);
    if |records| == 0 then OvulationNoRecords
    else
      match OvulationDate(Some(records[0].startDate), SettingsOf(a).cycle)
      case None => OvulationError
      case Some(o) => OvulationShown(o, OvulationTimingOf(o.ovulationDate, today), FertileStatusOf(o, today))
  }

  // ---------------------------------------------------------------------------
  // showCurrentStatus

  datatype StatusReport =
    | StatusNoRecords
    | StatusError
    | StatusShown(
        phase: PhaseInfo,
        next: NextPeriod,
        menstrualDaysLeft: Option<int>,
        daysLate: Option<nat>,
        showsNextPeriod: bool)

  function CurrentStatus(start: Day, settings: Settings, today: Day): (r: StatusReport)
    ensures r == StatusError <==> settings.period == 0 || settings.cycle == 0
    ensures r.StatusShown? ==>
              (r.menstrualDaysLeft.Some? <==> r.phase.phase == Menstrual)
              && (r.menstrualDaysLeft.Some? ==> 1 <= r.menstrualDaysLeft.value <= settings.period)
              && (r.daysLate.Some? <==> r.phase.phase == Overdue)
              && (r.daysLate.Some? ==> r.daysLate.value == today - r.next.nextPeriodDate)
              && (r.showsNextPeriod <==> today <= r.next.nextPeriodDate)
    ensures r.StatusShown? ==>
              Some(r.phase) == CurrentCyclePhase(Some(start), settings.period, settings.cycle, today)
              && Some(r.next) == DaysUntilNextPeriod(Some(start), settings.cycle, today)
              && (r.menstrualDaysLeft.Some? ==>
                    r.menstrualDaysLeft.value == settings.period - r.phase.daysSinceStart)
  {
    var cyclePhase := CurrentCyclePhase(Some(start), settings.period, settings.cycle, today);
    var nextPeriodInfo := DaysUntilNextPeriod(Some(start), settings.cycle, today);
    if cyclePhase.None? || nextPeriodInfo.None? then StatusError
    else
      var p, n := cyclePhase.value, nextPeriodInfo.value;
      StatusShown(
        p, n,
        if p.phase == Menstrual then Some(settings.period - p.daysSinceStart) else None,
        if p.phase == Overdue then Some(Abs(n.daysUntil)) else None,
        !n.isOverdue)
  }

  /** `showCurrentStatus` for the newest record (by creation). */
  function ShowCurrentStatus(a: Account, today: Day): (r: StatusReport)
    ensures r == StatusNoRecords <==> ActiveRecords(a.records) == []
    ensures r != StatusNoRecords ==>
              var act := ActiveRecords(a.records);
              r == CurrentStatus(act[|act| - 1].startDate, SettingsOf(a), today)
  {
    var records := RecentRecords(a, 1);
    if |records| == 0 then StatusNoRecords
    else CurrentStatus(records[0].startDate, SettingsOf(a), today)
  }

  // ---------------------------------------------------------------------------
  // showDetailedHistory

  /** How many of the newest records the history shows. */
  const HistoryLimit: nat := 3
  /** Gaps outside this range are left out of the average. */
  const GapMin: int := 21
  const GapMax: int := 40
  /** The largest difference between average and setting called accurate. */
  const AccuracyTolerance: int := 2

  /** Days between consecutive starts of a newest-first list. */
  function Gaps(starts: seq<Day>): (gs: seq<int>)
    ensures |gs| == if |starts| == 0 then 0 else |starts| - 1
    ensures forall i :: 0 <= i < |gs| ==> starts[i + 1] + gs[i] == starts[i]
  {
    if |starts| < 2 then []
    else [starts[0] - starts[1]] + Gaps(starts[1..])
  }

  predicate Plausible(gap: int) {
    GapMin <= gap <= GapMax
  }

  /** Sum and count of the plausible gaps, as reference definitions. */
  function PlausibleSum(gs: seq<int>): int {
    if |gs| == 0 then 0
    else PlausibleSum(gs[..|gs| - 1]) + (if Plausible(gs[|gs| - 1]) then gs[|gs| - 1] else 0)
  }

  function PlausibleCount(gs: seq<int>): nat {
    if |gs| == 0 then 0
    else PlausibleCount(gs[..|gs| - 1]) + (if Plausible(gs[|gs| - 1]) then 1 else 0)
  }

  lemma {:induction false} PlausibleSumBounds(gs: seq<int>)
    ensures GapMin * PlausibleCount(gs) <= PlausibleSum(gs) <= GapMax * PlausibleCount(gs)
  {
    if |gs| > 0 {
      PlausibleSumBounds(gs[..|gs| - 1]);
    }
  }

  /** `Math.round(total / count)`: the nearest integer, halves rounded up. */
  function RoundedMean(total: int, count: int): (avg: int)
    requires count > 0
    ensures 2 * count * avg - count <= 2 * total < 2 * count * avg + count
  {
    var q := (2 * total + count) / (2 * count);
    assert 2 * count * q <= 2 * total + count < 2 * count * q + 2 * count;
    q
  }

  /** A mean of gaps in [21, 40], rounded, lies in [21, 40]. */
  lemma RoundedMeanBounds(total: int, count: int)
    requires count > 0
    requires GapMin * count <= total <= GapMax * count
    ensures GapMin <= RoundedMean(total, count) <= GapMax
  {
    var avg := RoundedMean(total, count);
    assert count * (2 * avg - 2 * GapMin + 1) > 0;
    assert count * (2 * avg - 2 * GapMax - 1) <= 0;
    ProductSign(count, 2 * avg - 2 * GapMin + 1);
    ProductSign(count, 2 * avg - 2 * GapMax - 1);
  }

  lemma ProductSign(c: int, x: int)
    requires c > 0
    ensures x <= 0 ==> c * x <= 0
    ensures x > 0 ==> c * x > 0
  {
  }

  /** The totals loop of the statistics block. */
  method SumPlausibleGaps(gs: seq<int>) returns (total: int, count: nat)
    ensures total == PlausibleSum(gs) && count == PlausibleCount(gs)
  {
    total, count := 0, 0;
    var i := 0;
    while i < |gs|
      invariant 0 <= i <= |gs|
      invariant total == PlausibleSum(gs[..i]) && count == PlausibleCount(gs[..i])
    {
      assert gs[..i + 1][..i] == gs[..i];
      if GapMin <= gs[i] && gs[i] <= GapMax {
        total := total + gs[i];
        count := count + 1;
      }
      i := i + 1;
    }
    assert gs[..i] == gs;
  }

  datatype Verdict = Accurate | ReviewSuggested

  /** The statistics block: an average only when some gap is plausible. */
  datatype Stats = Stats(averageCycle: Option<int>, verdict: Option<Verdict>)

  /** What the statistics block shows for a newest-first list of starts: nothing
      for fewer than two records; otherwise an average exactly when some gap is
      plausible, that average being the rounded mean of the plausible gaps, and
      the verdict "accurate" exactly when the setting is within two days of it. */
  predicate StatsFor(stats: Option<Stats>, starts: seq<Day>, settings: Settings) {
    (stats.Some? <==> |starts| >= 2)
    && (stats.Some? ==>
          var gs := Gaps(starts);
          var st := stats.value;
          (st.averageCycle.Some? <==> PlausibleCount(gs) > 0)
          && (st.verdict.Some? <==> st.averageCycle.Some?)
          && (st.averageCycle.Some? ==>
                var avg, c, t := st.averageCycle.value, PlausibleCount(gs), PlausibleSum(gs);
                2 * c * avg - c <= 2 * t < 2 * c * avg + c
                && (st.verdict == Some(Accurate) <==> Abs(avg - settings.cycle) <= AccuracyTolerance)))
  }

  /** The statistics of a newest-first list of starts, shown for two or more
      records; the average is the rounded mean of the plausible gaps and the
      setting is accurate when within two days of it. */
  method HistoryStatistics(starts: seq<Day>, settings: Settings) returns (stats: Option<Stats>)
    ensures stats.Some? <==> |starts| >= 2
    ensures StatsFor(stats, starts, settings)
    ensures stats.Some? && stats.value.averageCycle.Some? ==>
              GapMin <= stats.value.averageCycle.value <= GapMax
  {
    if |starts| < 2 {
      return None;
    }
    var gs := Gaps(starts);
    var total, count := SumPlausibleGaps(gs);
    if count == 0 {
      return Some(Stats(None, None));
    }
    PlausibleSumBounds(gs);
    var avg := RoundedMean(total, count);
    RoundedMeanBounds(total, count);
    var verdict := if Abs(avg - settings.cycle) <= AccuracyTolerance then Accurate else ReviewSuggested;
    return Some(Stats(Some(avg), Some(verdict)));
  }

  /** One history entry: the record's details and, except for the oldest shown,
      the days since the record after it. */
  datatype HistoryEntry = HistoryEntry(details: PeriodDetails, daysSincePrevious: Option<int>)

  datatype HistoryReport = HistoryNoRecords | HistoryShown(entries: seq<HistoryEntry>, stats: Option<Stats>)

  function StartsOf(rs: seq<StoredRecord>): (starts: seq<Day>)
    ensures |starts| == |rs|
    ensures forall i :: 0 <= i < |rs| ==> starts[i] == rs[i].startDate
  {
    seq(|rs|, i requires 0 <= i < |rs| => rs[i].startDate)
  }

  function HistoryEntryAt(rs: seq<StoredRecord>, i: nat, settings: Settings, today: Day): (e: HistoryEntry)
    requires i < |rs|
    ensures e.details.startDate == rs[i].startDate
    ensures e.daysSincePrevious.Some? <==> i + 1 < |rs|
    ensures i + 1 < |rs| ==> e.daysSincePrevious.value == rs[i].startDate - rs[i + 1].startDate
  {
    var r := rs[i];
    var details := GeneratePeriodDetails(Some(PeriodRecord(r.startDate, r.endDate)), Some(settings), today).value;
    HistoryEntry(details, if i + 1 < |rs| then Some(r.startDate - rs[i + 1].startDate) else None)
  }

  /** One entry per record, in the same order, each with the days since the next
      older record. */
  function HistoryEntries(rs: seq<StoredRecord>, settings: Settings, today: Day): (es: seq<HistoryEntry>)
    ensures |es| == |rs|
    ensures forall i :: 0 <= i < |rs| ==>
              es[i].details.startDate == rs[i].startDate
              && (es[i].daysSincePrevious.Some? <==> i + 1 < |rs|)
    ensures forall i :: 0 <= i < |rs| - 1 ==> es[i].daysSincePrevious == Some(Gaps(StartsOf(rs))[i])
  {
    seq(|rs|, i requires 0 <= i < |rs| => HistoryEntryAt(rs, i, settings, today))
  }

  /** `showDetailedHistory`: the three newest records (by creation), each with its
      details and its gap to the next older one, and the statistics over them. */
  method ShowDetailedHistory(a: Account, today: Day) returns (r: HistoryReport)
    ensures r == HistoryNoRecords <==> ActiveRecords(a.records) == []
    ensures r.HistoryShown? ==>
              var shown := RecentRecords(a, HistoryLimit);
              |r.entries| == |shown| <= HistoryLimit
              && (forall i :: 0 <= i < |shown| ==>
                    r.entries[i].details.startDate == shown[i].startDate
                    && (r.entries[i].daysSincePrevious.Some? <==> i + 1 < |shown|))
              && (forall i :: 0 <= i < |shown| - 1 ==>
                    r.entries[i].daysSincePrevious == Some(Gaps(StartsOf(shown))[i]))
              && (r.stats.Some? <==> |shown| >= 2)
              && StatsFor(r.stats, StartsOf(shown), SettingsOf(a))
  {
    var records := RecentRecords(a, HistoryLimit);
    if |records| == 0 {
      return HistoryNoRecords;
    }
    var settings := SettingsOf(a);
    var stats := HistoryStatistics(StartsOf(records), settings);
    r := HistoryShown(HistoryEntries(records, settings, today), stats);
  }
}
