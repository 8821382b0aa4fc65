/** The message router: which events are handled, the initial-setup gate, the
    pending-input flag that takes over the next message, and the command table,
    tried in order. Also the links into the web pages.

    The whole database is one value: the per-user accounts and the partner
    collections. The clock, the random oracle, the link token and the web base
    address come in with the event, as does the choice of which store calls
    fail. */
module Router {
  import opened Wrappers
  import opened Text
  import opened Calendar
  import opened Constants
  import opened CycleMath
  import opened Store
  import Partner
  import SettingsEntry
  import DateEntry

  datatype Db = Db(users: map<UserId, Account>, partners: Partner.PartnerDb)

  function WithAccount(db: Db, u: UserId, a: Account): Db {
    db.(users := db.users[u := a])
  }

  /** Storing twice for the same user keeps only the second account. */
  lemma WithAccountTwice(db: Db, u: UserId, a: Account, b: Account)
    ensures WithAccount(WithAccount(db, u, a), u, b) == WithAccount(db, u, b)
  {
    assert db.users[u := a][u := b] == db.users[u := b];
  }

  // ---------------------------------------------------------------------------
  // Web links

  /** The pages the bot links to, by name, and the path of each. */
  const PageNames: seq<string> := ["setup", "dashboard", "calendar", "settings", "entry"]

  /** `pageUrls[page] || '/'`. */
  function PagePath(page: string): (p: string)
    ensures p == "/" <==> page !in PageNames
    ensures page in PageNames ==> p == "/" + page + "/"
  {
    if page == "setup" then "/setup/"
    else if page == "dashboard" then "/dashboard/"
    else if page == "calendar" then "/calendar/"
    else if page == "settings" then "/settings/"
    else if page == "entry" then "/entry/"
    else "/"
  }

  /** The page a path leads to. */
  function PageOfPath(p: string): Option<string> {
    if |p| >= 2 && p[0] == '/' && p[|p| - 1] == '/' && p[1..|p| - 1] in PageNames then Some(p[1..|p| - 1]) else None
  }

  /** Every known page has its own path, and an unknown page leads to the root. */
  lemma PagePathsDistinct(page: string)
    ensures PageOfPath(PagePath(page)) == if page in PageNames then Some(page) else None
  {
    if page in PageNames {
      var p := PagePath(page);
      assert p[1..|p| - 1] == page;
    }
  }

  /** `https://<project>.web.app`, the project id found by the first source that
      gives a non-empty one, else the built-in id. */
  function BaseUrl(fromConfig: Option<string>, fromEnv: Option<string>, fromApp: Option<string>): (url: string)
    ensures exists id :: url == "https://" + id + ".web.app" && |id| > 0
  {
    var id :=
      if fromConfig.Some? && fromConfig.value != "" then fromConfig.value
      else if fromEnv.Some? && fromEnv.value != "" then fromEnv.value
      else if fromApp.Some? && fromApp.value != "" then fromApp.value
      else "menstrual-tracking-app";
    "https://" + id + ".web.app"
  }

  /** `generateWebUILink`: base address, page path, and the token as query. */
  function WebLink(base: string, page: string, token: string): (link: string)
    ensures link == base + PagePath(page) + "?token=" + token
    ensures |link| > |base| && link[..|base|] == base
  {
    base + PagePath(page) + "?token=" + token
  }

  /** The text a link token encodes, before base64: the user id and the time. */
  function TokenPayload(u: UserId, now: nat): string {
    u + ":" + NatToString(now)
  }

  /** For a user id without a colon, the payload splits back into the id and the
      time at its first colon. */
  lemma TokenPayloadSplits(u: UserId, now: nat)
    requires forall i :: 0 <= i < |u| ==> u[i] != ':'
    ensures var p := TokenPayload(u, now);
            p[|u|] == ':' && p[..|u|] == u
            && (forall i :: 0 <= i < |u| ==> p[i] != ':')
            && DigitsValue(p[|u| + 1..]) == now
  {
    var p := TokenPayload(u, now);
    assert p[|u| + 1..] == NatToString(now);
    NatToStringRoundTrip(now);
  }

  // ---------------------------------------------------------------------------
  // Users and the setup gate

  /** `ensureUserExists`: a user seen for the first time gets a document with
      the default settings and without a completed setup. */
  function EnsureUserExists(db: Db, u: UserId): (r: Db)
    ensures AccountOf(r.users, u).doc.Some?
    ensures AccountOf(db.users, u).doc.Some? ==> r == db
    ensures AccountOf(db.users, u).doc.None? ==>
              AccountOf(r.users, u) == AccountOf(db.users, u).(doc := Some(UserDoc(DefaultSettings, false)))
    ensures r.partners == db.partners && forall v :: v != u ==> AccountOf(r.users, v) == AccountOf(db.users, v)
  {
    var a := AccountOf(db.users, u);
    if a.doc.Some? then db else WithAccount(db, u, a.(doc := Some(UserDoc(DefaultSettings, false))))
  }

  /** `needsInitialSetup`: a user without a document, or whose setup is not
      marked complete, or whose document cannot be read. */
  predicate NeedsInitialSetup(a: Account, readFails: bool) {
    readFails || a.doc.None? || !a.doc.value.initialSetupCompleted
  }

  /** The words a user who still needs setup may send. */
  const BasicWords: seq<string> := ["ヘルプ", "help", "テスト", "test", "こんにちは", "hello"]

  // ---------------------------------------------------------------------------
  // The command table

  datatype Command =
    | SettingsPageCmd | DashboardCmd | CalendarCmd | EntryPageCmd
    | HelpCmd | TestCmd | DebugCmd | NotifyTestCmd | PartnerDebugCmd
    | StartDateCmd | DataCheckCmd
    | SettingsCheckCmd | CycleSettingCmd | PeriodSettingCmd | NotificationCmd
    | InviteGenerateCmd | InviteUseCmd | PartnerCheckCmd | PartnerRemoveCmd
    | GreetingCmd | DefaultCmd

  /** The words of the commands matched by equality. */
  function Words(c: Command): seq<string> {
    match c
    case SettingsPageCmd => ["設定ページ", "設定画面", "設定"]
    case DashboardCmd => ["ダッシュボード", "状況確認", "現在の状況"]
    case CalendarCmd => ["カレンダー", "カレンダー表示"]
    case EntryPageCmd => ["開始日を入力", "生理開始", "記録する"]
    case HelpCmd => HelpWords
    case TestCmd => TestWords
    case DebugCmd => ["デバッグ", "debug"]
    case NotifyTestCmd => ["パートナー通知テスト", "通知テスト"]
    case PartnerDebugCmd => ["パートナーデバッグ", "パートナー詳細"]
    case StartDateCmd => StartDateInputWords
    case DataCheckCmd => DataCheckWords
    case SettingsCheckCmd => SettingsCheckWords
    case CycleSettingCmd => CycleSettingWords
    case PeriodSettingCmd => PeriodSettingWords
    case NotificationCmd => NotificationSettingWords
    case InviteGenerateCmd => InviteCodeGenerateWords
    case PartnerCheckCmd => PartnerCheckWords
    case PartnerRemoveCmd => PartnerRemoveWords
    case _ => []
  }

  /** The commands matched by equality, in the order they are tried; the invite
      pattern is tried between the last two groups. */
  const ExactBeforeInvite: seq<Command> := [
    SettingsPageCmd, DashboardCmd, CalendarCmd, EntryPageCmd,
    HelpCmd, TestCmd, DebugCmd, NotifyTestCmd, PartnerDebugCmd,
    StartDateCmd, DataCheckCmd,
    SettingsCheckCmd, CycleSettingCmd, PeriodSettingCmd, NotificationCmd,
    InviteGenerateCmd]
  const ExactAfterInvite: seq<Command> := [PartnerCheckCmd, PartnerRemoveCmd]

  /** The two groups are disjoint and hold none of the commands chosen by other
      means. */
  lemma TableCommands()
    ensures forall i :: 0 <= i < |ExactBeforeInvite| ==>
              ExactBeforeInvite[i] !in {InviteUseCmd, PartnerCheckCmd, PartnerRemoveCmd, GreetingCmd, DefaultCmd}
    ensures forall i :: 0 <= i < |ExactAfterInvite| ==> ExactAfterInvite[i] !in {InviteUseCmd, GreetingCmd, DefaultCmd}
  {
  }

  /** Index of the first command from `from` on whose words contain msg. */
  function FirstExact(cs: seq<Command>, msg: string, from: nat): (r: Option<nat>)
    requires from <= |cs|
    ensures r.Some? ==> from <= r.value < |cs| && msg in Words(cs[r.value])
    ensures forall j :: from <= j < |cs| && (r.None? || j < r.value) ==> msg !in Words(cs[j])
    decreases |cs| - from
  {
    if from == |cs| then None
    else if msg in Words(cs[from]) then Some(from)
    else FirstExact(cs, msg, from + 1)
  }

  /** The lookup finds the first command from `from` on whose words hold msg. */
  lemma {:induction false} FirstExactAt(cs: seq<Command>, msg: string, from: nat, k: nat)
    requires from <= k < |cs| && msg in Words(cs[k])
    requires forall j :: from <= j < k ==> msg !in Words(cs[j])
    ensures FirstExact(cs, msg, from) == Some(k)
    decreases k - from
  {
    if from < k {
      FirstExactAt(cs, msg, from + 1, k);
    }
  }

  /** `msg.includes(g)` for some greeting g. */
  predicate HasGreeting(msg: string) {
    exists g, k :: g in GreetingWords && 0 <= k <= |msg| && InfixAt(msg, k, g)
  }

  /** The command selected by the lower-cased, trimmed text `msg`, where `invite`
      tells whether the message as sent matches the invite pattern: the exact
      commands in order, then the invite pattern, then the two partner commands,
      then a greeting anywhere in the text, else the default reply. */
  function Classify(msg: string, invite: bool): (c: Command)
    ensures var before, after := FirstExact(ExactBeforeInvite, msg, 0), FirstExact(ExactAfterInvite, msg, 0);
            (before.Some? ==> c == ExactBeforeInvite[before.value])
            && (c == InviteUseCmd <==> before.None? && invite)
            && (before.None? && !invite && after.Some? ==> c == ExactAfterInvite[after.value])
            && (c == GreetingCmd <==> before.None? && !invite && after.None? && HasGreeting(msg))
            && (c == DefaultCmd <==> before.None? && !invite && after.None? && !HasGreeting(msg))
  {
    TableCommands();
    match FirstExact(ExactBeforeInvite, msg, 0)
    case Some(i) => ExactBeforeInvite[i]
    case None =>
      if invite then InviteUseCmd
      else
        match FirstExact(ExactAfterInvite, msg, 0)
        case Some(i) => ExactAfterInvite[i]
        case None => if HasGreeting(msg) then GreetingCmd else DefaultCmd
  }

  /** The words are compared with the lower-cased, trimmed message; the invite
      pattern is tried on the message as sent. */
  function CommandOf(message: string): Command {
    Classify(Normalize(message), Partner.ExtractInviteCode(message).Some?)
  }

  /** `生理開始日` starts the conversational start-date entry. */
  lemma StartDateWordSelects(invite: bool)
    ensures Classify("生理開始日", invite) == StartDateCmd
  {
    var w := "生理開始日";
    assert forall j :: 0 <= j < 9 ==> w !in Words(ExactBeforeInvite[j]);
    FirstExactAt(ExactBeforeInvite, w, 0, 9);
  }

  /** No other text starts it: `開始日を入力`, the other start-date word, is
      taken by the web entry page tried before. */
  lemma StartDateOnlyFromWord(msg: string, invite: bool)
    requires Classify(msg, invite) == StartDateCmd
    ensures msg == "生理開始日"
  {
    var i := FirstExact(ExactBeforeInvite, msg, 0).value;
    assert ExactBeforeInvite[i] == StartDateCmd;
    assert i == 9;
    assert msg !in Words(ExactBeforeInvite[3]);
  }

  /** A conversational start-date entry is reached by `生理開始日` and by
      nothing else. */
  lemma StartDateOnlyByOneWord(msg: string, invite: bool)
    ensures Classify(msg, invite) == StartDateCmd <==> msg == "生理開始日"
  {
    if msg == "生理開始日" {
      StartDateWordSelects(invite);
    }
    if Classify(msg, invite) == StartDateCmd {
      StartDateOnlyFromWord(msg, invite);
    }
  }

  // ---------------------------------------------------------------------------
  // Routing

  /** What comes with an event besides the message: the day and time, the random
      oracle, the link parts, and which store reads or writes fail. */
  datatype Env = Env(
    today: Day,
    now: Partner.Time,
    random: nat -> Partner.CodeDraws,
    baseUrl: string,
    token: string,
    setupReadFails: bool,
    flagReadFails: bool,
    saveFails: bool)

  datatype Outcome =
    | Ignored
    | SetupPrompt(link: string)
    | DateAnswered(date: DateEntry.DateReply, notify: Option<UserId>)
    | SettingAnswered(setting: SettingsEntry.SettingReply)
    | SessionReset
    | WebPage(link: string)
    | DatePrompt
    | SettingPrompt(prompted: SettingsEntry.NumericSetting)
    | SettingsShown(view: SettingsEntry.SettingsView)
    | NotificationsToggled(toggle: SettingsEntry.ToggleReply)
    | InviteGenerated(generated: Partner.GenerateOutcome)
    | InviteUsed(used: Partner.UseOutcome)
    | PartnerShown(partner: Option<UserId>)
    | PartnerRemoved(removed: Partner.RemoveOutcome)
    | TextReply(command: Command)

  /** `handleInputResponse` for the user's own account: the flag's type names
      the handler for the message; a type the bot does not know clears the flag. */
  function AnswerPrompt(db: Db, u: UserId, message: string, flag: InputFlag, env: Env): (r: (Account, Outcome))
    ensures r.1.DateAnswered? <==> ParseFlagType(flag.kind) == Some(DateInput)
    ensures r.1.SettingAnswered? <==> ParseFlagType(flag.kind) in {Some(CycleSetting), Some(PeriodSetting)}
    ensures r.1 == SessionReset <==> ParseFlagType(flag.kind).None?
    ensures r.1.DateAnswered? || r.1.SettingAnswered? || r.1 == SessionReset
  {
    var a := AccountOf(db.users, u);
    match ParseFlagType(flag.kind)
    case Some(DateInput) =>
      var (a', reply) := DateEntry.HandleDateInput(a, message, env.today, env.saveFails);
      var notify := if reply.RecordSaved? then DateEntry.NotificationTarget(db.users, db.partners.partnerships, u) else None;
      (a', DateAnswered(reply, notify))
    case Some(CycleSetting) =>
      var (a', reply) := SettingsEntry.HandleSetting(a, SettingsEntry.CycleLength, message);
      (a', SettingAnswered(reply))
    case Some(PeriodSetting) =>
      var (a', reply) := SettingsEntry.HandleSetting(a, SettingsEntry.PeriodLength, message);
      (a', SettingAnswered(reply))
    case None => (ClearInputFlag(a), SessionReset)
  }

  /** `handleInputResponse`: the answer changes only the answering user's
      account. */
  function HandleInputResponse(db: Db, u: UserId, message: string, flag: InputFlag, env: Env): (r: (Db, Outcome))
    ensures r.0.partners == db.partners && r.0.users.Keys == db.users.Keys + {u}
    ensures forall v :: v != u ==> AccountOf(r.0.users, v) == AccountOf(db.users, v)
    ensures r.1.DateAnswered? || r.1.SettingAnswered? || r.1 == SessionReset
  {
    var (a', out) := AnswerPrompt(db, u, message, flag, env);
    (WithAccount(db, u, a'), out)
  }

  /** A setting flag hands the message to that setting's handler. */
  lemma SettingFlagAnswered(db: Db, u: UserId, message: string, flag: InputFlag, env: Env, k: SettingsEntry.NumericSetting)
    requires ParseFlagType(flag.kind) == Some(SettingsEntry.FlagFor(k))
    ensures var h := SettingsEntry.HandleSetting(AccountOf(db.users, u), k, message);
            HandleInputResponse(db, u, message, flag, env) == (WithAccount(db, u, h.0), SettingAnswered(h.1))
  {
    var h := SettingsEntry.HandleSetting(AccountOf(db.users, u), k, message);
    assert AnswerPrompt(db, u, message, flag, env) == (h.0, SettingAnswered(h.1)) by {
      if k == SettingsEntry.CycleLength {
        assert ParseFlagType(flag.kind) == Some(CycleSetting);
      } else {
        assert ParseFlagType(flag.kind) == Some(PeriodSetting);
      }
    }
  }

  /** The partner is notified only of a saved start date. */
  lemma NotifiedOnlyOnSave(db: Db, u: UserId, message: string, flag: InputFlag, env: Env)
    ensures var r := AnswerPrompt(db, u, message, flag, env);
            r.1.DateAnswered? && r.1.notify.Some? ==> r.1.date.RecordSaved?
  {
  }

  /** The effect of a command. */
  function RunCommand(db: Db, u: UserId, c: Command, message: string, env: Env): (r: (Db, Outcome))
    ensures c in {SettingsPageCmd, DashboardCmd, CalendarCmd, EntryPageCmd} ==> r.0 == db && r.1.WebPage?
    ensures c in {HelpCmd, TestCmd, DebugCmd, NotifyTestCmd, PartnerDebugCmd, DataCheckCmd, GreetingCmd, DefaultCmd}
            ==> r == (db, TextReply(c))
    ensures r.1 != Ignored && !r.1.SetupPrompt?
  {
    var a := AccountOf(db.users, u);
    match c
    case SettingsPageCmd => (db, WebPage(WebLink(env.baseUrl, "setup", env.token)))
    case DashboardCmd => (db, WebPage(WebLink(env.baseUrl, "dashboard", env.token)))
    case CalendarCmd => (db, WebPage(WebLink(env.baseUrl, "calendar", env.token)))
    case EntryPageCmd => (db, WebPage(WebLink(env.baseUrl, "entry", env.token)))
    case StartDateCmd => (WithAccount(db, u, DateEntry.StartDateInput(a)), DatePrompt)
    case SettingsCheckCmd => (db, SettingsShown(SettingsEntry.CheckUserSettings(a)))
    case CycleSettingCmd => (WithAccount(db, u, SettingsEntry.StartSetting(a, SettingsEntry.CycleLength)), SettingPrompt(SettingsEntry.CycleLength))
    case PeriodSettingCmd => (WithAccount(db, u, SettingsEntry.StartSetting(a, SettingsEntry.PeriodLength)), SettingPrompt(SettingsEntry.PeriodLength))
    case NotificationCmd =>
      var (a', t) := SettingsEntry.ToggleNotifications(a);
      (WithAccount(db, u, a'), NotificationsToggled(t))
    case InviteGenerateCmd =>
      var (p, g) := Partner.GenerateInviteCode(db.partners, u, env.now, env.random);
      (db.(partners := p), InviteGenerated(g))
    case InviteUseCmd =>
      var (p, o) := Partner.UseInviteCode(db.partners, u, message, env.now);
      (db.(partners := p), InviteUsed(o))
    case PartnerCheckCmd => (db, PartnerShown(Partner.PartnerOf(db.partners.partnerships, u)))
    case PartnerRemoveCmd =>
      var (p, o) := Partner.RemovePartner(db.partners, u);
      (db.(partners := p), PartnerRemoved(o))
    case _ => (db, TextReply(c))
  }

  /** `routeCommandWithWebUI`: the setup gate first, then a pending input flag,
      then the command table. */
  function RouteCommand(db: Db, u: UserId, message: string, env: Env): (r: (Db, Outcome))
    ensures var a := AccountOf(db.users, u);
            var gated := NeedsInitialSetup(a, env.setupReadFails) && ToLower(message) !in BasicWords;
            var flag := if env.flagReadFails then None else a.flag;
            (r.1.SetupPrompt? <==> gated)
            && (gated ==> r == (db, SetupPrompt(WebLink(env.baseUrl, "setup", env.token))))
            && (!gated && flag.Some? ==> r == HandleInputResponse(db, u, message, flag.value, env))
            && (!gated && flag.None? ==> r == RunCommand(db, u, CommandOf(message), message, env))
  {
    var a := AccountOf(db.users, u);
    if NeedsInitialSetup(a, env.setupReadFails) && ToLower(message) !in BasicWords then
      (db, SetupPrompt(WebLink(env.baseUrl, "setup", env.token)))
    else
      var flag := if env.flagReadFails then None else a.flag;
      match flag
      case Some(f) => HandleInputResponse(db, u, message, f, env)
      case None => RunCommand(db, u, CommandOf(message), message, env)
  }

  datatype Event = TextMessage(userId: UserId, text: string) | OtherEvent

  /** `handleEvent`: anything but a text message is ignored; otherwise the text
      is trimmed, the user's document is created when missing, and the message
      is routed. */
  function HandleEvent(db: Db, ev: Event, env: Env): (r: (Db, Outcome))
    ensures r.1 == Ignored <==> ev.OtherEvent?
    ensures ev.OtherEvent? ==> r.0 == db
    ensures ev.TextMessage? ==> r == RouteCommand(EnsureUserExists(db, ev.userId), ev.userId, Trim(ev.text), env)
  {
    match ev
    case OtherEvent => (db, Ignored)
    case TextMessage(u, text) =>
      NeverIgnored(EnsureUserExists(db, u), u, Trim(text), env);
      RouteCommand(EnsureUserExists(db, u), u, Trim(text), env)
  }

  /** Every text message gets an answer of some kind. */
  lemma NeverIgnored(db: Db, u: UserId, message: string, env: Env)
    ensures RouteCommand(db, u, message, env).1 != Ignored
  {
    var a := AccountOf(db.users, u);
    var flag := if env.flagReadFails then None else a.flag;
    var r := RouteCommand(db, u, message, env);
    if NeedsInitialSetup(a, env.setupReadFails) && ToLower(message) !in BasicWords {
      assert r.1.SetupPrompt?;
    } else if flag.Some? {
      assert r == HandleInputResponse(db, u, message, flag.value, env);
    } else {
      assert r == RunCommand(db, u, CommandOf(message), message, env);
    }
  }

  // ---------------------------------------------------------------------------
  // Routing properties

  /** A first message from a new user, other than the basic words, gets the
      setup prompt and leaves everything but the new document alone. */
  lemma NewUserIsGated(db: Db, u: UserId, text: string, env: Env)
    requires AccountOf(db.users, u).doc.None?
    requires ToLower(Trim(text)) !in BasicWords
    ensures var r := HandleEvent(db, TextMessage(u, text), env);
            r.1.SetupPrompt? && r.0 == EnsureUserExists(db, u)
  {
  }

  /** Once setup is complete, a pending flag takes the next message whatever it
      says, even a command word. */
  lemma FlagOverridesCommands(db: Db, u: UserId, message: string, env: Env)
    requires AccountOf(db.users, u).doc.Some? && AccountOf(db.users, u).doc.value.initialSetupCompleted
    requires !env.setupReadFails && !env.flagReadFails
    requires AccountOf(db.users, u).flag.Some?
    ensures RouteCommand(db, u, message, env) == HandleInputResponse(db, u, message, AccountOf(db.users, u).flag.value, env)
  {
  }

  /** A pending setting prompt takes the next message as that setting's value. */
  lemma SettingFlagRouted(db: Db, u: UserId, k: SettingsEntry.NumericSetting, answer: string, env: Env)
    requires AccountOf(db.users, u).doc.Some? && AccountOf(db.users, u).doc.value.initialSetupCompleted
    requires !env.setupReadFails && !env.flagReadFails
    requires AccountOf(db.users, u).flag.Some?
    requires ParseFlagType(AccountOf(db.users, u).flag.value.kind) == Some(SettingsEntry.FlagFor(k))
    ensures var h := SettingsEntry.HandleSetting(AccountOf(db.users, u), k, answer);
            RouteCommand(db, u, answer, env) == (WithAccount(db, u, h.0), SettingAnswered(h.1))
  {
    FlagOverridesCommands(db, u, answer, env);
    SettingFlagAnswered(db, u, answer, AccountOf(db.users, u).flag.value, env, k);
  }

  /** Starting a setting conversation and answering it: the answer reaches the
      setting handler through the flag. */
  lemma SettingConversation(db: Db, u: UserId, k: SettingsEntry.NumericSetting, answer: string, env: Env)
    requires AccountOf(db.users, u).doc.Some? && AccountOf(db.users, u).doc.value.initialSetupCompleted
    requires !env.setupReadFails && !env.flagReadFails
    ensures var a := SettingsEntry.StartSetting(AccountOf(db.users, u), k);
            var h := SettingsEntry.HandleSetting(a, k, answer);
            RouteCommand(WithAccount(db, u, a), u, answer, env) == (WithAccount(db, u, h.0), SettingAnswered(h.1))
  {
    var a := SettingsEntry.StartSetting(AccountOf(db.users, u), k);
    var db' := WithAccount(db, u, a);
    var h := SettingsEntry.HandleSetting(a, k, answer);
    assert AccountOf(db'.users, u) == a;
    SettingFlagRouted(db', u, k, answer, env);
    WithAccountTwice(db, u, a, h.0);
  }

  /** Every word of the command table is at most ten characters long. */
  lemma WordsAreShort(c: Command, w: string)
    requires w in Words(c)
    ensures |w| <= 10
  {
  }

  /** A message longer than every command word that matches the invite
      pattern is an invite. */
  lemma LongInviteMessage(msg: string)
    requires |msg| > 10
    ensures Classify(msg, true) == InviteUseCmd
  {
    var before := FirstExact(ExactBeforeInvite, msg, 0);
    if before.Some? {
      WordsAreShort(ExactBeforeInvite[before.value], msg);
    }
  }

  /** The lower-case typing of a code is already lower-cased and trimmed. */
  lemma TypedInviteNormal(code: string)
    requires Partner.CodeShaped(code)
    ensures Normalize(InviteKeyword + " " + ToLower(code)) == InviteKeyword + " " + ToLower(code)
  {
    var m := InviteKeyword + " " + ToLower(code);
    assert forall i :: 0 <= i < |m| ==> !IsAsciiUpper(m[i]) by {
      forall i | 0 <= i < |m|
        ensures !IsAsciiUpper(m[i])
      {
        if i >= 6 {
          assert m[i] == ToLower(code)[i - 6];
        }
      }
    }
    assert m[11] == LowerChar(code[5]);
    NormalizeIdle(m);
  }

  /** The invite pattern is tried on the message as sent, with case ignored, so
      a lower-case code is still recognised and read in upper case. */
  lemma LowerCaseInviteRouted(code: string)
    requires Partner.CodeShaped(code)
    ensures CommandOf(InviteKeyword + " " + ToLower(code)) == InviteUseCmd
    ensures Partner.ExtractInviteCode(InviteKeyword + " " + ToLower(code)) == Some(code)
  {
    var m := InviteKeyword + " " + ToLower(code);
    Partner.ExtractTypedCode(code, " ", true);
    TypedInviteNormal(code);
    LongInviteMessage(m);
  }
}
