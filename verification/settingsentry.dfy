/** The settings conversation: showing the settings, asking for a new cycle or
    period length, reading the typed answer, switching notifications, and the
    two helpers for changing several settings at once. */
module SettingsEntry {
  import opened Wrappers
  import opened Text
  import opened Constants
  import opened CycleMath
  import opened Store
  import DateParse

  /** The two numeric settings a user can type. */
  datatype NumericSetting = CycleLength | PeriodLength

  predicate InLimits(k: NumericSetting, v: int) {
    match k
    case CycleLength => CycleInRange(v)
    case PeriodLength => PeriodInRange(v)
  }

  function UpdateOf(k: NumericSetting, v: int): SettingUpdate {
    match k
    case CycleLength => SetCycle(v)
    case PeriodLength => SetPeriod(v)
  }

  /** The stored value of a numeric setting. */
  function ValueOf(s: Settings, k: NumericSetting): int {
    match k
    case CycleLength => s.cycle
    case PeriodLength => s.period
  }

  /** The flag type that routes the next message to the handler for a setting. */
  function FlagFor(k: NumericSetting): FlagType {
    match k
    case CycleLength => CycleSetting
    case PeriodLength => PeriodSetting
  }

  // ---------------------------------------------------------------------------
  // checkUserSettings

  /** What the settings summary shows. */
  datatype SettingsView = SettingsView(cycle: int, period: int, notificationsOn: bool)

  /** `checkUserSettings`: the stored settings, or the defaults for a user with
      no document. */
  function CheckUserSettings(a: Account): (v: SettingsView)
    ensures a.doc.Some? ==> v == SettingsView(a.doc.value.settings.cycle, a.doc.value.settings.period, a.doc.value.settings.notifications)
    ensures a.doc.None? ==> v == SettingsView(DefaultCycle, DefaultPeriod, DefaultNotifications)
  {
    var s := SettingsOf(a);
    SettingsView(s.cycle, s.period, s.notifications)
  }

  // ---------------------------------------------------------------------------
  // startCycleSetting and startPeriodSetting

  /** The prompt is sent and the next message is awaited as the new value. */
  function StartSetting(a: Account, k: NumericSetting): (r: Account)
    ensures r.doc == a.doc && r.records == a.records
    ensures r.flag.Some? && r.flag.value.status == "waiting_input"
    ensures ParseFlagType(r.flag.value.kind) == Some(FlagFor(k))
  {
    SetInputFlag(a, InputFlag(FlagTypeName(FlagFor(k)), "waiting_input"))
  }

  // ---------------------------------------------------------------------------
  // handleCycleSetting and handlePeriodSetting

  /** How an answer to a setting prompt reads: a cancel word, or the number
      `parseInt` finds in the trimmed text, or no number. */
  datatype Answer = CancelAnswer | NumberAnswer(n: int) | NotANumber

  function ReadAnswer(input: string): (ans: Answer)
    ensures ans == CancelAnswer <==> DateParse.IsCancelWord(Normalize(input))
    ensures ans != CancelAnswer ==> (ans.NumberAnswer? <==> ParseInt(Trim(input)).Some?)
    ensures ans.NumberAnswer? ==> ParseInt(Trim(input)) == Some(ans.n)
  {
    if DateParse.IsCancelWord(Normalize(input)) then CancelAnswer
    else
      match ParseInt(Trim(input))
      case None => NotANumber
      case Some(n) => NumberAnswer(n)
  }

  datatype SettingReply =
    | SettingCancelled
    | InvalidValue(setting: NumericSetting)
    | SettingUpdated(setting: NumericSetting, value: int)
    | SettingError

  /** The handling of an answer to a setting prompt. A cancel word clears the
      flag. A value that is missing or outside the limits is refused and nothing
      is written, so the user is still asked. A value inside the limits is stored
      and the flag cleared. When the store write fails the flag is cleared and an
      error is shown. */
  function HandleAnswer(a: Account, k: NumericSetting, ans: Answer): (r: (Account, SettingReply))
    ensures r.1 == SettingCancelled <==> ans == CancelAnswer
    ensures r.1.InvalidValue? <==> ans == NotANumber || (ans.NumberAnswer? && !InLimits(k, ans.n))
    ensures r.1.SettingUpdated? ==> ans == NumberAnswer(r.1.value)
    ensures r.1 == SettingCancelled ==> r.0 == ClearInputFlag(a)
    ensures r.1.InvalidValue? ==> r.0 == a && r.1.setting == k
    ensures r.1.SettingUpdated? ==>
              r.1.setting == k && InLimits(k, r.1.value) && a.doc.Some?
              && r.0 == ClearInputFlag(UpdateUserSetting(a, UpdateOf(k, r.1.value)).value)
              && ValueOf(SettingsOf(r.0), k) == r.1.value
    ensures r.1 == SettingError ==> ans.NumberAnswer? && InLimits(k, ans.n) && a.doc.None? && r.0 == ClearInputFlag(a)
  {
    match ans
    case CancelAnswer => (ClearInputFlag(a), SettingCancelled)
    case NotANumber => (a, InvalidValue(k))
    case NumberAnswer(v) =>
      if !InLimits(k, v) then (a, InvalidValue(k))
      else StoreValue(a, k, v)
  }

  /** `handleCycleSetting` and `handlePeriodSetting`: the answer is read, then
      handled. */
  function HandleSetting(a: Account, k: NumericSetting, input: string): (Account, SettingReply) {
    HandleAnswer(a, k, ReadAnswer(input))
  }

  /** Writing an accepted value: the setting is updated and the flag cleared, or
      the write fails and only the flag is cleared. */
  function StoreValue(a: Account, k: NumericSetting, v: int): (r: (Account, SettingReply))
    ensures r.1 == SettingUpdated(k, v) || r.1 == SettingError
    ensures r.1 == SettingError <==> a.doc.None?
    ensures r.1.SettingUpdated? ==>
              r.0 == ClearInputFlag(UpdateUserSetting(a, UpdateOf(k, v)).value)
              && ValueOf(SettingsOf(r.0), k) == v
    ensures r.1 == SettingError ==> r.0 == ClearInputFlag(a)
  {
    match UpdateUserSetting(a, UpdateOf(k, v))
    case Failure(_) => (ClearInputFlag(a), SettingError)
    case Success(a') => (ClearInputFlag(a'), SettingUpdated(k, v))
  }

  /** Answers never take a setting outside its limits: valid settings stay
      valid, and the records are never touched. */
  lemma HandleSettingKeepsValid(a: Account, k: NumericSetting, ans: Answer)
    requires ValidSettings(SettingsOf(a))
    ensures var r := HandleAnswer(a, k, ans);
            ValidSettings(SettingsOf(r.0)) && r.0.records == a.records
  {
  }

  /** A positive number typed with a unit, such as `28日`, reads as that
      number. */
  lemma TypedNumberRead(v: nat, unit: string)
    requires v > 0
    requires unit == [] || (!IsDigit(unit[0]) && !IsWhitespace(unit[|unit| - 1]))
    ensures ReadAnswer(NatToString(v) + unit) == NumberAnswer(v)
  {
    var d := NatToString(v);
    var s := d + unit;
    assert !DateParse.IsCancelWord(Normalize(s)) by {
      assert s[0] == d[0] && IsDigit(d[0]);
      DigitLedNotCancel(s);
    }
    assert Trim(s) == s by {
      assert s[0] == d[0] && IsDigit(d[0]);
      assert s[|s| - 1] == if unit == [] then d[|d| - 1] else unit[|unit| - 1];
      TrimmedNumber(s);
    }
    assert ParseInt(s) == Some(v) by {
      ParseIntOfRendered(v, unit);
    }
    ReadNumber(s, v);
  }

  lemma ReadNumber(s: string, v: int)
    requires !DateParse.IsCancelWord(Normalize(s))
    requires Trim(s) == s && ParseInt(s) == Some(v)
    ensures ReadAnswer(s) == NumberAnswer(v)
  {
  }

  /** Text with no white space at either end is its own trimmed form. */
  lemma TrimmedNumber(s: string)
    requires |s| > 0 && !IsWhitespace(s[0]) && !IsWhitespace(s[|s| - 1])
    ensures Trim(s) == s
  {
    TrimStartIdle(s);
    TrimEndIdle(s);
  }

  /** Text that starts with a digit is no cancel word. */
  lemma DigitLedNotCancel(s: string)
    requires |s| > 0 && IsDigit(s[0])
    ensures !DateParse.IsCancelWord(Normalize(s))
  {
    var t := ToLower(s);
    assert t[0] == s[0];
    TrimStartIdle(t);
    var r := TrimEnd(t);
    assert Normalize(s) == r;
    assert |r| > 0 && r[0] == s[0];
    assert r != "キャンセル" && r != "cancel" by {
      assert "キャンセル"[0] == 'キ' && "cancel"[0] == 'c';
    }
  }

  /** A number in the limits typed with a unit is stored as that number. */
  lemma TypedValueStored(a: Account, k: NumericSetting, v: nat, unit: string)
    requires a.doc.Some?
    requires InLimits(k, v)
    requires unit == [] || (!IsDigit(unit[0]) && !IsWhitespace(unit[|unit| - 1]))
    ensures HandleSetting(a, k, NatToString(v) + unit).1 == SettingUpdated(k, v)
  {
    TypedNumberRead(v, unit);
  }

  /** The examples the prompts give, `28` for the cycle and `5` for the period,
      are accepted, with or without the unit. */
  lemma PromptExamplesAccepted(a: Account)
    requires a.doc.Some?
    ensures HandleSetting(a, CycleLength, "28日").1 == SettingUpdated(CycleLength, 28)
    ensures HandleSetting(a, PeriodLength, "5").1 == SettingUpdated(PeriodLength, 5)
  {
    assert NatToString(28) + "日" == "28日";
    assert NatToString(5) + "" == "5";
    TypedValueStored(a, CycleLength, 28, "日");
    TypedValueStored(a, PeriodLength, 5, "");
  }

  // ---------------------------------------------------------------------------
  // toggleNotificationSetting

  datatype ToggleReply = NotificationsOn | NotificationsOff | ToggleError

  /** `toggleNotificationSetting`: the stored switch is flipped; with no user
      document the write fails and nothing changes. */
  function ToggleNotifications(a: Account): (r: (Account, ToggleReply))
    ensures r.1 == ToggleError <==> a.doc.None?
    ensures r.1 == ToggleError ==> r.0 == a
    ensures r.1 != ToggleError ==>
              SettingsOf(r.0) == SettingsOf(a).(notifications := !SettingsOf(a).notifications)
              && (r.1 == NotificationsOn <==> SettingsOf(r.0).notifications)
              && r.0.flag == a.flag && r.0.records == a.records
  {
    var on := !SettingsOf(a).notifications;
    match UpdateUserSetting(a, SetNotifications(on))
    case Failure(_) => (a, ToggleError)
    case Success(a') => (a', if on then NotificationsOn else NotificationsOff)
  }

  /** Switching twice gives back the account as it was. */
  lemma ToggleTwiceRestores(a: Account)
    requires a.doc.Some?
    ensures ToggleNotifications(ToggleNotifications(a).0).0 == a
  {
  }

  // ---------------------------------------------------------------------------
  // updateMultipleSettings

  /** The fields given to the bulk update; an absent field is left alone. */
  datatype SettingsRequest = SettingsRequest(cycle: Option<int>, period: Option<int>, notifications: Option<bool>)

  /** The field updates a request asks for, in the order they are written. */
  function RequestedUpdates(req: SettingsRequest): (us: seq<SettingUpdate>)
    ensures |us| <= 3
  {
    (if req.cycle.Some? then [SetCycle(req.cycle.value)] else [])
    + (if req.period.Some? then [SetPeriod(req.period.value)] else [])
    + (if req.notifications.Some? then [SetNotifications(req.notifications.value)] else [])
  }

  /** The settings once a request is applied. */
  function Requested(s: Settings, req: SettingsRequest): Settings {
    Settings(
      if req.cycle.Some? then req.cycle.value else s.cycle,
      if req.period.Some? then req.period.value else s.period,
      if req.notifications.Some? then req.notifications.value else s.notifications)
  }

  function ApplyAll(s: Settings, us: seq<SettingUpdate>): Settings
    decreases |us|
  {
    if |us| == 0 then s else ApplyAll(ApplyUpdate(s, us[0]), us[1..])
  }

  /** `updateMultipleSettings`: every given cycle and period is checked against
      the limits before anything is written; then the fields are written one by
      one. It answers false, having written nothing, when a value is out of the
      limits or the user has no document to update. */
  method UpdateMultipleSettings(a: Account, req: SettingsRequest) returns (a': Account, ok: bool)
    ensures var limitsOk := (req.cycle.Some? ==> CycleInRange(req.cycle.value))
                            && (req.period.Some? ==> PeriodInRange(req.period.value));
            ok <==> limitsOk && (a.doc.Some? || RequestedUpdates(req) == [])
    ensures !ok ==> a' == a
    ensures ok ==> a'.flag == a.flag && a'.records == a.records
                   && SettingsOf(a') == (if a.doc.Some? then Requested(SettingsOf(a), req) else SettingsOf(a))
  {
    if req.cycle.Some? && !CycleInRange(req.cycle.value) {
      return a, false;
    }
    if req.period.Some? && !PeriodInRange(req.period.value) {
      return a, false;
    }
    var updates := RequestedUpdates(req);
    a' := a;
    var i := 0;
    while i < |updates|
      invariant 0 <= i <= |updates|
      invariant a'.flag == a.flag && a'.records == a.records && (a'.doc.Some? <==> a.doc.Some?)
      invariant a.doc.Some? ==> ApplyAll(SettingsOf(a'), updates[i..]) == ApplyAll(SettingsOf(a), updates)
      invariant a.doc.None? ==> a' == a && i == 0
    {
      var r := UpdateUserSetting(a', updates[i]);
      if r.Failure? {
        return a, false;
      }
      assert updates[i..][1..] == updates[i + 1..];
      a' := r.value;
      i := i + 1;
    }
    if a.doc.Some? {
      assert updates[i..] == [];
      RequestedInOrder(SettingsOf(a), req);
    }
    ok := true;
  }

  /** Writing the requested updates in order gives the requested settings. */
  lemma RequestedInOrder(s: Settings, req: SettingsRequest)
    ensures ApplyAll(s, RequestedUpdates(req)) == Requested(s, req)
  {
    var c := if req.cycle.Some? then [SetCycle(req.cycle.value)] else [];
    var p := if req.period.Some? then [SetPeriod(req.period.value)] else [];
    var n := if req.notifications.Some? then [SetNotifications(req.notifications.value)] else [];
    ApplyAllAppend(s, c, p + n);
    ApplyAllAppend(ApplyAll(s, c), p, n);
    assert c + p + n == c + (p + n);
  }

  lemma {:induction false} ApplyAllAppend(s: Settings, us: seq<SettingUpdate>, vs: seq<SettingUpdate>)
    ensures ApplyAll(s, us + vs) == ApplyAll(ApplyAll(s, us), vs)
    decreases |us|
  {
    if |us| == 0 {
      assert us + vs == vs;
    } else {
      var s' := ApplyUpdate(s, us[0]);
      assert (us + vs)[0] == us[0] && (us + vs)[1..] == us[1..] + vs;
      assert ApplyAll(s, us + vs) == ApplyAll(s', us[1..] + vs);
      ApplyAllAppend(s', us[1..], vs);
    }
  }

  // ---------------------------------------------------------------------------
  // validateSettings

  /** A JavaScript value as the validator sees it. */
  datatype JsValue = JsNumber(x: real) | JsNaN | JsInfinity(negative: bool) | JsBool(b: bool) | JsOtherType

  /** The object given to the validator; an absent key is `undefined`. */
  datatype SettingsInput = SettingsInput(cycle: Option<JsValue>, period: Option<JsValue>, notifications: Option<JsValue>)

  datatype SettingField = CycleField | PeriodField | NotificationsField

  datatype Validation = Validation(isValid: bool, errors: seq<SettingField>)

  /** JavaScript's `v < bound` for a number-typed value: false whenever `NaN` is
      involved. */
  predicate JsLess(v: JsValue, bound: int) {
    match v
    case JsNumber(x) => x < bound as real
    case JsInfinity(negative) => negative
    case _ => false
  }

  predicate JsGreater(v: JsValue, bound: int) {
    match v
    case JsNumber(x) => x > bound as real
    case JsInfinity(negative) => !negative
    case _ => false
  }

  predicate IsNumberType(v: JsValue) {
    v.JsNumber? || v.JsNaN? || v.JsInfinity?
  }

  /** The range check as written: a number-typed value fails only when a
      comparison with a limit holds. */
  predicate NumberPassesAsWritten(v: JsValue, min: int, max: int) {
    !(!IsNumberType(v) || JsLess(v, min) || JsGreater(v, max))
  }

  /** A number between the limits. */
  predicate NumberBetween(v: JsValue, min: int, max: int) {
    v.JsNumber? && min as real <= v.x <= max as real
  }

  function FieldErrors(input: SettingsInput, passes: (JsValue, int, int) -> bool): (errors: seq<SettingField>)
  {
    (if input.cycle.Some? && !passes(input.cycle.value, CycleMin, CycleMax) then [CycleField] else [])
    + (if input.period.Some? && !passes(input.period.value, PeriodMin, PeriodMax) then [PeriodField] else [])
    + (if input.notifications.Some? && !input.notifications.value.JsBool? then [NotificationsField] else [])
  }

  /** `validateSettings` as written: `NaN` is of type number and fails neither
      comparison, so it passes. */
  function ValidateSettingsAsWritten(input: SettingsInput): (v: Validation)
    ensures v.isValid <==> v.errors == []
  {
    var errors := FieldErrors(input, NumberPassesAsWritten);
    Validation(errors == [], errors)
  }

  /** A `NaN` cycle is reported valid. */
  lemma NaNCycleAccepted()
    ensures ValidateSettingsAsWritten(SettingsInput(Some(JsNaN), None, None)).isValid
    ensures !CheckFieldsValid(SettingsInput(Some(JsNaN), None, None))
  {
  }

  /** What a valid settings object is: each given cycle and period a number
      within its limits, each given switch a boolean. */
  predicate CheckFieldsValid(input: SettingsInput) {
    (input.cycle.Some? ==> NumberBetween(input.cycle.value, CycleMin, CycleMax))
    && (input.period.Some? ==> NumberBetween(input.period.value, PeriodMin, PeriodMax))
    && (input.notifications.Some? ==> input.notifications.value.JsBool?)
  }

  /** `validateSettings` with the range check read as "a number within the
      limits": the errors name exactly the fields that break it, in key order. */
  function ValidateSettings(input: SettingsInput): (v: Validation)
    ensures v.isValid <==> CheckFieldsValid(input)
    ensures v.isValid <==> v.errors == []
    ensures CycleField in v.errors <==> input.cycle.Some? && !NumberBetween(input.cycle.value, CycleMin, CycleMax)
    ensures PeriodField in v.errors <==> input.period.Some? && !NumberBetween(input.period.value, PeriodMin, PeriodMax)
    ensures NotificationsField in v.errors <==> input.notifications.Some? && !input.notifications.value.JsBool?
  {
    var errors := FieldErrors(input, NumberBetween);
    Validation(errors == [], errors)
  }

  /** The two checks differ only on `NaN`. */
  lemma ValidationDiffersOnlyOnNaN(input: SettingsInput)
    requires input.cycle != Some(JsNaN) && input.period != Some(JsNaN)
    ensures ValidateSettingsAsWritten(input) == ValidateSettings(input)
  {
    assert forall v: JsValue, lo: int, hi: int :: v != JsNaN ==> (NumberPassesAsWritten(v, lo, hi) <==> NumberBetween(v, lo, hi));
  }
}
