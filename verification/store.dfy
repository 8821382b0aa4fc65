/** The per-user part of the database the handlers read and write, as an
    immutable value: the user document with its settings, the pending-input flag,
    and the period records.

    Records are kept in the order they were created, so "newest first by creation
    time" is the reverse of that order. */
module Store {
  import opened Wrappers
  import opened Calendar
  import opened Constants
  import CycleMath

  type UserId = string

  /** A stored period record; `duration` is written only by the web pages. */
  datatype StoredRecord = StoredRecord(
    startDate: Day,
    endDate: Option<Day>,
    nextPredictedStart: Option<Day>,
    duration: Option<int>,
    status: RecordStatus,
    originalInput: string)

  /** The pending-input document: the stored type name (which need not be one the
      bot knows) and a status word. */
  datatype InputFlag = InputFlag(kind: string, status: string)

  datatype UserDoc = UserDoc(settings: CycleMath.Settings, initialSetupCompleted: bool)

  /** Everything stored for one user; a user never seen has no document, no flag
      and no records. */
  datatype Account = Account(doc: Option<UserDoc>, flag: Option<InputFlag>, records: seq<StoredRecord>)

  const NoAccount: Account := Account(None, None, [])

  function AccountOf(users: map<UserId, Account>, id: UserId): Account {
    if id in users then users[id] else NoAccount
  }

  // ---------------------------------------------------------------------------
  // Settings

  /** `getUserSettings`: the stored settings, or the defaults when the user has
      no document. It never fails. */
  function SettingsOf(a: Account): (s: CycleMath.Settings)
    ensures a.doc.None? ==> s == CycleMath.DefaultSettings
  {
    match a.doc
    case Some(d) => d.settings
    case None => CycleMath.DefaultSettings
  }

  /** One `settings.<key>` field update. */
  datatype SettingUpdate = SetCycle(cycle: int) | SetPeriod(period: int) | SetNotifications(on: bool)

  function ApplyUpdate(s: CycleMath.Settings, u: SettingUpdate): CycleMath.Settings {
    match u
    case SetCycle(c) => s.(cycle := c)
    case SetPeriod(p) => s.(period := p)
    case SetNotifications(on) => s.(notifications := on)
  }

  /** `updateUserSetting`: a field update of the user document, which fails when
      the document does not exist. Only the named field changes. */
  function UpdateUserSetting(a: Account, u: SettingUpdate): (r: Result<Account>)
    ensures r.Success? <==> a.doc.Some?
    ensures r.Success? ==>
              var s, t := SettingsOf(a), SettingsOf(r.value);
              r.value.flag == a.flag && r.value.records == a.records
              && r.value.doc.Some?
              && r.value.doc.value.initialSetupCompleted == a.doc.value.initialSetupCompleted
              && (if u.SetCycle? then t.cycle == u.cycle else t.cycle == s.cycle)
              && (if u.SetPeriod? then t.period == u.period else t.period == s.period)
              && (if u.SetNotifications? then t.notifications == u.on else t.notifications == s.notifications)
  {
    match a.doc
    case None => Failure("No document to update")
    case Some(d) => Success(a.(doc := Some(d.(settings := ApplyUpdate(d.settings, u)))))
  }

  // ---------------------------------------------------------------------------
  // Input flag

  function SetInputFlag(a: Account, f: InputFlag): Account {
    a.(flag := Some(f))
  }

  /** `clearInputFlag` deletes the flag; it never reports a failure. */
  function ClearInputFlag(a: Account): Account {
    a.(flag := None)
  }

  // ---------------------------------------------------------------------------
  // Records

  /** `saveRecord`: the record is added as active, after all earlier ones. */
  function SaveRecord(a: Account, rec: StoredRecord): (r: Account)
    ensures r.doc == a.doc && r.flag == a.flag
    ensures |r.records| == |a.records| + 1
    ensures r.records[..|a.records|] == a.records && r.records[|a.records|] == rec.(status := Active)
  {
    a.(records := a.records + [rec.(status := Active)])
  }

  /** The active records, in stored order. */
  function ActiveRecords(rs: seq<StoredRecord>): (out: seq<StoredRecord>)
    ensures |out| <= |rs|
    ensures forall r :: r in out <==> r in rs && r.status == Active
  {
    if |rs| == 0 then []
    else if rs[0].status == Active then [rs[0]] + ActiveRecords(rs[1..])
    else ActiveRecords(rs[1..])
  }

  /** Filtering distributes over concatenation: the records kept from two
      stretches of the collection are those kept from each, in stored order. */
  lemma {:induction false} ActiveRecordsAppend(xs: seq<StoredRecord>, ys: seq<StoredRecord>)
    ensures ActiveRecords(xs + ys) == ActiveRecords(xs) + ActiveRecords(ys)
  {
    if |xs| > 0 {
      assert (xs + ys)[1..] == xs[1..] + ys;
      ActiveRecordsAppend(xs[1..], ys);
    } else {
      assert xs + ys == ys;
    }
  }

  /** `getUserRecords(userId, limit)`: the active records, newest created first,
      at most `limit` of them. */
  function RecentRecords(a: Account, limit: nat): (out: seq<StoredRecord>)
    ensures var act := ActiveRecords(a.records);
            |out| == (if limit < |act| then limit else |act|)
            && forall i :: 0 <= i < |out| ==> out[i] == act[|act| - 1 - i]
  {
    var act := ActiveRecords(a.records);
    NewestFirst(act, limit)
  }

  function NewestFirst(rs: seq<StoredRecord>, limit: nat): (out: seq<StoredRecord>)
    ensures |out| == (if limit < |rs| then limit else |rs|)
    ensures forall i :: 0 <= i < |out| ==> out[i] == rs[|rs| - 1 - i]
  {
    if limit == 0 || |rs| == 0 then []
    else [rs[|rs| - 1]] + NewestFirst(rs[..|rs| - 1], limit - 1)
  }

  /** Newest start date first. */
  predicate SortedByStartDesc(rs: seq<StoredRecord>) {
    forall i, j :: 0 <= i < j < |rs| ==> rs[i].startDate >= rs[j].startDate
  }

  function InsertByStart(r: StoredRecord, rs: seq<StoredRecord>): (out: seq<StoredRecord>)
    requires SortedByStartDesc(rs)
    ensures SortedByStartDesc(out)
    ensures multiset(out) == multiset(rs) + multiset{r}
    ensures |out| == |rs| + 1 && (out[0] == r || (|rs| > 0 && out[0] == rs[0]))
  {
    if |rs| == 0 || r.startDate >= rs[0].startDate then [r] + rs
    else
      assert rs == [rs[0]] + rs[1..];
      [rs[0]] + InsertByStart(r, rs[1..])
  }

  /** The records ordered by start date, newest first (the `orderBy('startDate',
      'desc')` of the calendar query); the order among equal start dates is the
      database's and is not modelled beyond being some order. */
  function SortByStartDesc(rs: seq<StoredRecord>): (out: seq<StoredRecord>)
    ensures SortedByStartDesc(out)
    ensures multiset(out) == multiset(rs)
  {
    if |rs| == 0 then []
    else
      assert rs == [rs[0]] + rs[1..];
      InsertByStart(rs[0], SortByStartDesc(rs[1..]))
  }

  /** The first record of the sorted list has the latest start date of all. */
  lemma SortedHeadIsLatest(rs: seq<StoredRecord>)
    requires |rs| > 0
    ensures |SortByStartDesc(rs)| == |rs|
    ensures forall r :: r in rs ==> SortByStartDesc(rs)[0].startDate >= r.startDate
  {
    var out := SortByStartDesc(rs);
    assert |out| == |multiset(out)| == |multiset(rs)| == |rs|;
    forall r | r in rs
      ensures out[0].startDate >= r.startDate
    {
      assert r in multiset(out);
      var k :| 0 <= k < |out| && out[k] == r;
    }
  }
}
