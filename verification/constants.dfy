/** Application constants: setting limits, defaults, record statuses, input-flag
    types and the command words the router compares messages against. */
module Constants {
  import opened Wrappers

  // Setting limits (LIMITS)
  const CycleMin: int := 21
  const CycleMax: int := 35
  const PeriodMin: int := 3
  const PeriodMax: int := 7
  /** How far back a start date may lie (LIMITS.DATE_HISTORY.MAX_DAYS_AGO). */
  const MaxDaysAgo: int := 365

  // Defaults given to a new user (DEFAULT_SETTINGS)
  const DefaultCycle: int := 28
  const DefaultPeriod: int := 5
  const DefaultNotifications: bool := true

  predicate CycleInRange(c: int) {
    CycleMin <= c <= CycleMax
  }

  predicate PeriodInRange(p: int) {
    PeriodMin <= p <= PeriodMax
  }

  /** The limits are non-empty ranges and the defaults lie inside them. */
  lemma LimitsAndDefaultsConsistent()
    ensures CycleMin <= CycleMax && PeriodMin <= PeriodMax
    ensures CycleInRange(DefaultCycle) && PeriodInRange(DefaultPeriod)
    ensures DefaultNotifications
  {
  }

  /** RECORD_STATUS */
  datatype RecordStatus = Active | Modified | Deleted

  function RecordStatusName(s: RecordStatus): (name: string)
    ensures ParseRecordStatus(name) == Some(s)
  {
    match s
    case Active => "active"
    case Modified => "modified"
    case Deleted => "deleted"
  }

  function ParseRecordStatus(name: string): Option<RecordStatus> {
    if name == "active" then Some(Active)
    else if name == "modified" then Some(Modified)
    else if name == "deleted" then Some(Deleted)
    else None
  }

  /** INPUT_FLAG_TYPES: which conversational input the bot is waiting for. */
  datatype FlagType = DateInput | CycleSetting | PeriodSetting

  function FlagTypeName(t: FlagType): (name: string)
    ensures ParseFlagType(name) == Some(t)
  {
    match t
    case DateInput => "date_input"
    case CycleSetting => "cycle_setting"
    case PeriodSetting => "period_setting"
  }

  function ParseFlagType(name: string): Option<FlagType> {
    if name == "date_input" then Some(DateInput)
    else if name == "cycle_setting" then Some(CycleSetting)
    else if name == "period_setting" then Some(PeriodSetting)
    else None
  }

  /** A stored name is read back only as the value it was written for. */
  lemma ParseNamesInverse(name: string)
    ensures ParseRecordStatus(name).Some? ==> RecordStatusName(ParseRecordStatus(name).value) == name
    ensures ParseFlagType(name).Some? ==> FlagTypeName(ParseFlagType(name).value) == name
  {
  }

  /** Distinct statuses and distinct flag types have distinct stored names. */
  lemma NamesDistinct(a: RecordStatus, b: RecordStatus, f: FlagType, g: FlagType)
    ensures a != b ==> RecordStatusName(a) != RecordStatusName(b)
    ensures f != g ==> FlagTypeName(f) != FlagTypeName(g)
  {
  }

  // Command words (COMMANDS)
  const HelpWords: seq<string> := ["ヘルプ", "help"]
  const TestWords: seq<string> := ["テスト", "test"]
  const StartDateInputWords: seq<string> := ["開始日を入力", "生理開始日"]
  const DataCheckWords: seq<string> := ["データ確認"]
  const InviteCodeGenerateWords: seq<string> := ["招待コード生成"]
  const PartnerCheckWords: seq<string> := ["パートナー確認"]
  const PartnerRemoveWords: seq<string> := ["パートナー解除"]
  const SettingsCheckWords: seq<string> := ["設定確認"]
  const CycleSettingWords: seq<string> := ["周期設定"]
  const PeriodSettingWords: seq<string> := ["期間設定"]
  const NotificationSettingWords: seq<string> := ["通知設定"]
  const CancelWords: seq<string> := ["キャンセル", "cancel"]
  const GreetingWords: seq<string> := ["こんにちは", "hello"]
  /** The keyword that introduces an invite code (COMMANDS.INVITE_CODE_USE). */
  const InviteKeyword: string := "招待コード"
}
