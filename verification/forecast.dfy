/** The computation behind the calendar page: the user's active records newest
    first, the next predicted period, the ovulation window and a forecast of the
    next six cycles, all anchored at the latest start date. */
module Forecast {
  import opened Wrappers
  import opened Calendar
  import opened CycleMath
  import opened Store

  /** Number of future cycles in the forecast series. */
  const ForecastCycles: nat := 6

  /** A run of days, both ends included. */
  datatype Window = Window(startDate: Day, endDate: Day)

  /** A record as the page receives it; a missing or zero duration is absent. */
  datatype FormattedRecord = FormattedRecord(startDate: Day, endDate: Option<Day>, duration: Option<int>, isActualRecord: bool)

  /** Entry `cycle` of the forecast: the predicted period and its ovulation day. */
  datatype FuturePrediction = FuturePrediction(cycle: nat, period: Window, ovulation: Day)

  datatype OvulationView = OvulationView(date: Day, fertileStart: Day, fertileEnd: Day)

  datatype Predictions = Predictions(
    nextPeriod: Window,
    ovulation: Option<OvulationView>,
    futurePredictions: seq<FuturePrediction>)

  datatype CalendarData =
    | NoRecords(settings: Settings)
    | WithRecords(
        settings: Settings,
        records: seq<FormattedRecord>,
        predictions: Predictions,
        currentPhase: Option<PhaseInfo>)

  /** The HTTP outcome: the data, 404 without settings, or 500 when the
      computation throws. */
  datatype Response = Ok(data: CalendarData) | NotFound | ServerError

  /** A stored record as the page receives it: same dates, and a duration only
      when one is stored and is not zero. */
  function FormatRecord(r: StoredRecord): (f: FormattedRecord)
    ensures f.startDate == r.startDate && f.endDate == r.endDate && f.isActualRecord
    ensures f.duration.Some? <==> r.duration.Some? && r.duration.value != 0
    ensures f.duration.Some? ==> f.duration == r.duration
  {
    var duration := if r.duration.Some? && r.duration.value != 0 then r.duration else None;
    FormattedRecord(r.startDate, r.endDate, duration, true)
  }

  /** The period of forecast entry i, for i from 1, and its ovulation day. */
  function PredictionAt(last: Day, cycle: int, period: int, i: nat): FuturePrediction {
    var start := last + cycle * i;
    FuturePrediction(i, Window(start, start + period - 1), start - LutealLength)
  }

  /** The six-entry forecast: entry i starts i cycles after the last start, lasts
      the period length, and has its ovulation 14 days before its start;
      consecutive entries are one cycle apart. */
  method FuturePredictions(last: Day, cycle: int, period: int) returns (fs: seq<FuturePrediction>)
    ensures |fs| == ForecastCycles
    ensures forall i :: 0 <= i < |fs| ==>
              fs[i].cycle == i + 1
              && fs[i].period.startDate == last + cycle * (i + 1)
              && InclusiveSpan(fs[i].period.startDate, fs[i].period.endDate) == period
              && fs[i].period.startDate - fs[i].ovulation == LutealLength
    ensures forall i :: 0 < i < |fs| ==> fs[i].period.startDate - fs[i - 1].period.startDate == cycle
  {
    fs := [];
    var cycleCount := 1;
    while cycleCount <= ForecastCycles
      invariant 1 <= cycleCount <= ForecastCycles + 1
      invariant |fs| == cycleCount - 1
      invariant forall i :: 0 <= i < |fs| ==> fs[i] == PredictionAt(last, cycle, period, i + 1)
    {
      fs := fs + [PredictionAt(last, cycle, period, cycleCount)];
      cycleCount := cycleCount + 1;
    }
    forall i | 0 < i < |fs|
      ensures fs[i].period.startDate - fs[i - 1].period.startDate == cycle
    {
      assert cycle * (i + 1) == cycle * i + cycle;
    }
  }

  /** `getCalendarData`: with settings and at least one active record, the page
      gets those records newest first and predictions anchored at the first of
      them; the next period is the first forecast entry. Without records there
      are no predictions; a cycle of 0 makes the next-period computation throw. */
  method GetCalendarData(settings: Option<Settings>, stored: seq<StoredRecord>, today: Day)
    returns (resp: Response)
    ensures resp == NotFound <==> settings.None?
    ensures settings.Some? && ActiveRecords(stored) == [] ==> resp == Ok(NoRecords(settings.value))
    ensures settings.Some? && ActiveRecords(stored) != [] ==>
              (resp == ServerError <==> settings.value.cycle == 0)
    ensures resp.Ok? && resp.data.WithRecords? ==>
              var s, d := settings.value, resp.data;
              var recs, p := d.records, d.predictions;
              var active := ActiveRecords(stored);
              d.settings == s
              && |recs| == |active| > 0
              && (forall i, j :: 0 <= i < j < |recs| ==> recs[i].startDate >= recs[j].startDate)
              && (forall r :: r in active ==> recs[0].startDate >= r.startDate)
              && p.nextPeriod.startDate == recs[0].startDate + s.cycle
              && InclusiveSpan(p.nextPeriod.startDate, p.nextPeriod.endDate) == s.period
              && |p.futurePredictions| == ForecastCycles
              && p.futurePredictions[0].period == p.nextPeriod
              && p.ovulation.Some?
              && p.nextPeriod.startDate - p.ovulation.value.date == LutealLength
              && p.ovulation.value.fertileStart < p.ovulation.value.date < p.ovulation.value.fertileEnd
              && d.currentPhase == CurrentCyclePhase(Some(recs[0].startDate), s.period, s.cycle, today)
    ensures resp.Ok? && resp.data.WithRecords? ==>
              var sorted := SortByStartDesc(ActiveRecords(stored));
              |resp.data.records| == |sorted|
              && forall i :: 0 <= i < |sorted| ==> resp.data.records[i] == FormatRecord(sorted[i])
    ensures resp.Ok? && resp.data.WithRecords? ==>
              var s, d := settings.value, resp.data;
              var fp, o := d.predictions.futurePredictions, d.predictions.ovulation;
              (forall i :: 0 <= i < |fp| ==>
                 fp[i].cycle == i + 1
                 && fp[i].period.startDate == d.records[0].startDate + s.cycle * (i + 1)
                 && InclusiveSpan(fp[i].period.startDate, fp[i].period.endDate) == s.period
                 && fp[i].period.startDate - fp[i].ovulation == LutealLength)
              && o.Some? && InclusiveSpan(o.value.fertileStart, o.value.fertileEnd) == 7
              && o.value.fertileEnd < d.predictions.nextPeriod.startDate
  {
    if settings.None? {
      return NotFound;
    }
    var s := settings.value;
    var active := ActiveRecords(stored);
    if active == [] {
      return Ok(NoRecords(s));
    }
    var sorted := SortByStartDesc(active);
    SortedHeadIsLatest(active);
    var records := seq(|sorted|, i requires 0 <= i < |sorted| => FormatRecord(sorted[i]));
    var last := sorted[0].startDate;
    var nextPeriodInfo := DaysUntilNextPeriod(Some(last), s.cycle, today);
    var ovulationInfo := OvulationDate(Some(last), s.cycle);
    var cyclePhase := CurrentCyclePhase(Some(last), s.period, s.cycle, today);
    if nextPeriodInfo.None? {
      // reading a field of the null next-period result throws
      return ServerError;
    }
    var nextStart := nextPeriodInfo.value.nextPeriodDate;
    var nextPeriod := Window(nextStart, nextStart + s.period - 1);
    var future := FuturePredictions(last, s.cycle, s.period);
    var ovulation := match ovulationInfo
      case Some(o) => Some(OvulationView(o.ovulationDate, o.fertileStart, o.fertileEnd))
      case None => None;
    assert nextStart == last + s.cycle;
    assert ovulation.Some? && nextStart - ovulation.value.date == LutealLength;
    assert future[0].period.startDate == last + s.cycle * 1 == nextStart;
    assert future[0].period == nextPeriod;
    assert forall i :: 0 <= i < |records| ==> records[i].startDate == sorted[i].startDate;
    resp := Ok(WithRecords(s, records, Predictions(nextPeriod, ovulation, future), cyclePhase));
  }
}
