/** The monitor record, the history entry and the one check step that both
    `GyuniMonitor` variants share (gyni-monitor/js/main.js and the class inside
    js/main.js differ only in how a record is created, in the history cap and in
    what stopping does; those live in GyniMain and SiteMain). */
module MonitorRecords {
  import opened Common

  datatype Status = Waiting | Checking | Checked | Changed | Error

  /** The name a status is stored under in a record. */
  function StatusName(s: Status): string
  {
    match s
    case Waiting => "waiting"
    case Checking => "checking"
    case Checked => "checked"
    case Changed => "changed"
    case Error => "error"
  }

  /** Looking a stored status name up among the five (`texts[status]`, `icons[status]`). */
  function ParseStatus(name: string): (r: Option<Status>)
    ensures r.Some? ==> StatusName(r.value) == name
    ensures r.None? ==> forall s :: StatusName(s) != name
  {
    if name == "waiting" then Some(Waiting)
    else if name == "checking" then Some(Checking)
    else if name == "checked" then Some(Checked)
    else if name == "changed" then Some(Changed)
    else if name == "error" then Some(Error)
    else None
  }

  const UnknownStatusText := "알 수 없음"

  function StatusLabel(s: Status): string
  {
    match s
    case Waiting => "대기 중"
    case Checking => "확인 중..."
    case Checked => "확인 완료"
    case Changed => "변화 감지!"
    case Error => "오류 발생"
  }

  /** `getStatusText(status)`: the Korean label of a stored status name, with a
      fallback for a name that is none of the five. */
  function StatusText(name: string): (t: string)
    ensures t == UnknownStatusText <==> forall s :: StatusName(s) != name
  {
    match ParseStatus(name)
    case None => UnknownStatusText
    case Some(s) => StatusLabel(s)
  }

  function StatusIconOf(s: Status): string
  {
    match s
    case Waiting => "<i class=\"fas fa-clock\"></i>"
    case Checking => "<i class=\"fas fa-spinner fa-spin\"></i>"
    case Checked => "<i class=\"fas fa-check-circle\"></i>"
    case Changed => "<i class=\"fas fa-exclamation-triangle\"></i>"
    case Error => "<i class=\"fas fa-times-circle\"></i>"
  }

  /** `getStatusIcon(status)`: the icon markup of a status name; an unknown name
      shows the `waiting` clock. */
  function StatusIcon(name: string): (icon: string)
    ensures (forall s :: StatusName(s) != name) ==> icon == StatusIconOf(Waiting)
    ensures forall s :: StatusName(s) == name ==> icon == StatusIconOf(s)
  {
    match ParseStatus(name)
    case None => StatusIconOf(Waiting)
    case Some(s) => StatusIconOf(s)
  }

  /** Each of the five statuses has a label of its own: the label tells the status. */
  lemma StatusTextIdentifiesStatus(a: Status, b: Status)
    ensures StatusText(StatusName(a)) == StatusLabel(a)
    ensures StatusText(StatusName(a)) == StatusText(StatusName(b)) ==> a == b
  {
  }

  /** A board the user ticked: `{path, name, isSpecial}`. */
  datatype Board = Board(path: string, name: string, isSpecial: bool)

  /** A monitor id is the string `Date.now().toString() + '_' + board.path`.
      The decimal stamp contains no '_', so the string and the pair determine
      each other; the pair is kept. */
  datatype MonitorId = MonitorId(stamp: int, boardPath: string)

  /** One watched board. Timestamps are milliseconds since the epoch. */
  datatype Monitor = Monitor(
    id: MonitorId,
    boardPath: string,
    boardName: string,
    url: string,
    interval: int,
    autoCheck: bool,
    lastCheck: Option<int>,
    lastContent: Option<string>,
    status: Status,
    created: int,
    isSpecial: bool)

  /** One detected change; `monitorId` may outlive the monitor it names. */
  datatype HistoryEntry = HistoryEntry(
    id: int,
    monitorId: MonitorId,
    boardName: string,
    url: string,
    timestamp: int,
    changeType: Option<string>,
    message: string,
    icon: string)

  /** What the board data source answers for one check: a content
      fingerprint, or a failure (the `catch` branch). */
  datatype CheckOutcome = Fetched(content: string) | Failed

  /** The two places the variants differ in recording a change: the history cap
      and whether the entry carries a `changeType`. */
  datatype HistoryPolicy = HistoryPolicy(cap: nat, changeType: Option<string>)

  /** The collections a check reads and writes. */
  datatype MonitorState = MonitorState(monitors: seq<Monitor>, history: seq<HistoryEntry>)

  const SiteRoot := "http://www.gyuni-jungmiso.com/"

  function BoardUrl(path: string): string { SiteRoot + path }

  /** `monitor.lastContent` is truthy: set, and not the empty string. */
  predicate HasBaseline(m: Monitor)
  {
    m.lastContent.Some? && m.lastContent.value != ""
  }

  /** `monitor.lastContent && monitor.lastContent !== response.content`. */
  predicate IsChange(m: Monitor, outcome: CheckOutcome)
  {
    outcome.Fetched? && HasBaseline(m) && m.lastContent.value != outcome.content
  }

  /** A record that a check has just finished with. */
  predicate Settled(m: Monitor, now: int)
  {
    m.status in {Checked, Changed, Error} && m.lastCheck == Some(now)
  }

  /** The record as `checkWebsite` leaves it. */
  function AfterCheck(m: Monitor, outcome: CheckOutcome, now: int): (r: Monitor)
    ensures Settled(r, now)
    ensures r.status == Changed <==> IsChange(m, outcome)
    ensures r.status == Error <==> outcome.Failed?
    ensures outcome.Failed? ==> r.lastContent == m.lastContent
    ensures outcome.Fetched? ==> r.lastContent == Some(outcome.content)
    ensures r.(status := m.status, lastCheck := m.lastCheck, lastContent := m.lastContent) == m
  {
    match outcome
    case Failed => m.(status := Error, lastCheck := Some(now))
    case Fetched(content) =>
      m.(lastCheck := Some(now),
         status := if IsChange(m, outcome) then Changed else Checked,
         lastContent := Some(content))
  }

  /** `simulateWebsiteCheck`: a drawn new fingerprint, or else the previous one
      (`monitor.lastContent || 'initial_content'`). */
  function SimulatedCheck(m: Monitor, drawn: Option<string>): (r: CheckOutcome)
    ensures r.Fetched?
    ensures drawn.None? ==> !IsChange(m, r)
    ensures drawn.None? && !HasBaseline(m) ==> r.content == "initial_content"
  {
    Fetched(if drawn.Some? then drawn.value
            else if HasBaseline(m) then m.lastContent.value
            else "initial_content")
  }

  /** Message and icon of a change notice (`handleContentChange`'s switch);
      an absent change type is the js/main.js form, which always reports a new post. */
  function ChangeNotice(changeType: Option<string>, boardName: string): (notice: (string, string))
    ensures changeType in {None, Some("new_post")} ==> notice.1 == "📝"
    ensures changeType !in {None, Some("new_post")} ==> notice.1 == "🔍"
  {
    if changeType == None || changeType == Some("new_post")
    then (boardName + "에 새 글이 올라왔습니다! 📝", "📝")
    else (boardName + "에서 변화가 감지되었습니다 🔍", "🔍")
  }

  function ChangeEntry(m: Monitor, changeType: Option<string>, now: int): HistoryEntry
  {
    var notice := ChangeNotice(changeType, m.boardName);
    HistoryEntry(now, m.id, m.boardName, m.url, now, changeType, notice.0, notice.1)
  }

  /** `monitors.find(m => m.id === id)`, as the index of the first match. */
  function FindIndex(ms: seq<Monitor>, id: MonitorId): (r: Option<nat>)
    ensures r.Some? ==> r.value < |ms| && ms[r.value].id == id
    ensures r.Some? ==> forall j :: 0 <= j < r.value ==> ms[j].id != id
    ensures r.None? <==> forall j :: 0 <= j < |ms| ==> ms[j].id != id
  {
    FirstIndex(ms, (m: Monitor) => m.id == id)
  }

  ghost predicate UniqueIds(ms: seq<Monitor>)
  {
    forall a, b :: 0 <= a < b < |ms| ==> ms[a].id != ms[b].id
  }

  /** In a collection without repeated ids, `find` lands on the one record with that id. */
  lemma FindUnique(ms: seq<Monitor>, j: nat)
    requires UniqueIds(ms) && j < |ms|
    ensures FindIndex(ms, ms[j].id) == Some(j)
  {
  }

  /** The ids of a collection, in order (`monitors.map(m => m.id)`). */
  function IdsOf(ms: seq<Monitor>): (ids: seq<MonitorId>)
    ensures |ids| == |ms|
    ensures forall j :: 0 <= j < |ms| ==> ids[j] == ms[j].id
  {
    seq(|ms|, j requires 0 <= j < |ms| => ms[j].id)
  }

  /** The ids the records created for `boards` at time `now` get. */
  function BoardIds(boards: seq<Board>, now: int): set<MonitorId>
  {
    set b | b in boards :: MonitorId(now, b.path)
  }

  lemma BoardIdsStep(boards: seq<Board>, i: nat, now: int)
    requires i < |boards|
    ensures BoardIds(boards[..i + 1], now) == BoardIds(boards[..i], now) + {MonitorId(now, boards[i].path)}
  {
    assert boards[..i + 1] == boards[..i] + [boards[i]];
  }

  /** The ids of the records that restoring re-arms: those with `autoCheck`. */
  function AutoCheckIds(ms: seq<Monitor>): set<MonitorId>
  {
    set j | 0 <= j < |ms| && ms[j].autoCheck :: ms[j].id
  }

  lemma AutoCheckIdsStep(ms: seq<Monitor>, i: nat)
    requires i < |ms|
    ensures AutoCheckIds(ms[..i + 1]) == AutoCheckIds(ms[..i]) + (if ms[i].autoCheck then {ms[i].id} else {})
  {
    var a, b := ms[..i + 1], ms[..i];
    assert forall j :: 0 <= j < i ==> a[j] == b[j];
  }

  /** One `checkWebsite(id)`: an unknown id changes nothing; otherwise the first
      record with that id is settled, and a detected change prepends one entry
      to the capped history. */
  function Check(s: MonitorState, id: MonitorId, outcome: CheckOutcome, now: int, policy: HistoryPolicy): (t: MonitorState)
    ensures |t.monitors| == |s.monitors|
    ensures forall j :: 0 <= j < |s.monitors| ==>
      t.monitors[j] == s.monitors[j] || (s.monitors[j].id == id && t.monitors[j] == AfterCheck(s.monitors[j], outcome, now))
  {
    match FindIndex(s.monitors, id)
    case None => s
    case Some(i) =>
      var m := s.monitors[i];
      var history :=
        if IsChange(m, outcome) then PushCapped(s.history, ChangeEntry(m, policy.changeType, now), policy.cap)
        else s.history;
      MonitorState(s.monitors[i := AfterCheck(m, outcome, now)], history)
  }

  /** `Check` at the index `FindIndex` found: that record is settled and the
      history grows only when the check reports a change. */
  lemma CheckFound(s: MonitorState, id: MonitorId, outcome: CheckOutcome, now: int, policy: HistoryPolicy, i: nat)
    requires FindIndex(s.monitors, id) == Some(i)
    ensures i < |s.monitors|
    ensures Check(s, id, outcome, now, policy)
         == MonitorState(s.monitors[i := AfterCheck(s.monitors[i], outcome, now)],
              if IsChange(s.monitors[i], outcome) then PushCapped(s.history, ChangeEntry(s.monitors[i], policy.changeType, now), policy.cap)
              else s.history)
  {
  }

  /** Checking an id no record has is a no-op: nothing is created or changed. */
  lemma CheckUnknownIsNoOp(s: MonitorState, id: MonitorId, outcome: CheckOutcome, now: int, policy: HistoryPolicy)
    requires forall j :: 0 <= j < |s.monitors| ==> s.monitors[j].id != id
    ensures Check(s, id, outcome, now, policy) == s
  {
  }

  /** A monitor's first completed check (no fingerprint yet) never reports a
      change and adds no history entry; a successful one stores the fingerprint. */
  lemma FirstCheckNeverChanged(s: MonitorState, i: nat, outcome: CheckOutcome, now: int, policy: HistoryPolicy)
    requires i < |s.monitors| && FindIndex(s.monitors, s.monitors[i].id) == Some(i)
    requires s.monitors[i].lastContent.None?
    ensures var t := Check(s, s.monitors[i].id, outcome, now, policy);
      && t.monitors[i].status in {Checked, Error}
      && t.history == s.history
      && (outcome.Fetched? ==> t.monitors[i].status == Checked && t.monitors[i].lastContent == Some(outcome.content))
  {
  }

  /** A new fingerprint that differs from a stored one ends in `changed`, stores
      the new fingerprint and prepends exactly one entry naming that monitor,
      keeping the earlier entries in order and dropping only the oldest. */
  lemma ChangeIsRecorded(s: MonitorState, i: nat, content: string, now: int, policy: HistoryPolicy)
    requires i < |s.monitors| && FindIndex(s.monitors, s.monitors[i].id) == Some(i)
    requires HasBaseline(s.monitors[i]) && s.monitors[i].lastContent.value != content
    requires 0 < policy.cap
    ensures var t := Check(s, s.monitors[i].id, Fetched(content), now, policy);
      && t.monitors[i].status == Changed
      && t.monitors[i].lastContent == Some(content)
      && |t.history| == Min(|s.history| + 1, policy.cap)
      && t.history[0].monitorId == s.monitors[i].id
      && t.history[0].timestamp == now
      && t.history[1..] == s.history[..|t.history| - 1]
  {
  }

  /** A failed check marks the record `error` and stamps it, but keeps its
      fingerprint and leaves the history alone. */
  lemma FailureKeepsFingerprint(s: MonitorState, i: nat, now: int, policy: HistoryPolicy)
    requires i < |s.monitors| && FindIndex(s.monitors, s.monitors[i].id) == Some(i)
    ensures var t := Check(s, s.monitors[i].id, Failed, now, policy);
      && t.monitors[i].status == Error
      && t.monitors[i].lastCheck == Some(now)
      && t.monitors[i].lastContent == s.monitors[i].lastContent
      && t.history == s.history
  {
  }

  /** A history within its cap stays within it, and whatever a check adds is
      one entry at the front. */
  lemma HistoryStaysCapped(s: MonitorState, id: MonitorId, outcome: CheckOutcome, now: int, policy: HistoryPolicy)
    requires 0 < policy.cap && |s.history| <= policy.cap
    ensures var t := Check(s, id, outcome, now, policy);
      && |t.history| <= policy.cap
      && (t.history == s.history || t.history[1..] == s.history[..|t.history| - 1])
  {
  }

  /** `monitors.filter(m => m.id !== id)`. */
  function WithoutMonitor(ms: seq<Monitor>, id: MonitorId): (r: seq<Monitor>)
    ensures forall j :: 0 <= j < |r| ==> r[j].id != id && r[j] in ms
    ensures forall j :: 0 <= j < |ms| && ms[j].id != id ==> ms[j] in r
    ensures (forall j :: 0 <= j < |ms| ==> ms[j].id != id) ==> r == ms
    decreases |ms|
  {
    if ms == [] then []
    else (if ms[0].id != id then [ms[0]] else []) + WithoutMonitor(ms[1..], id)
  }

  /** In a collection without repeated ids, removing a monitor by id takes out
      exactly that record and keeps every other one, in order. */
  lemma {:induction false} WithoutMonitorRemovesExactlyOne(ms: seq<Monitor>, i: nat)
    requires i < |ms| && UniqueIds(ms)
    ensures WithoutMonitor(ms, ms[i].id) == RemoveAt(ms, i)
    decreases |ms|
  {
    var id := ms[i].id;
    var tail := ms[1..];
    if i == 0 {
      assert forall j :: 0 <= j < |tail| ==> tail[j].id != id;
      assert WithoutMonitor(ms, id) == WithoutMonitor(tail, id);
      assert RemoveAt(ms, 0) == tail;
    } else {
      assert ms[0].id != id;
      assert WithoutMonitor(ms, id) == [ms[0]] + WithoutMonitor(tail, id);
      assert tail[i - 1] == ms[i];
      assert UniqueIds(tail) by {
        forall a, b | 0 <= a < b < |tail|
          ensures tail[a].id != tail[b].id
        {
          assert tail[a] == ms[a + 1] && tail[b] == ms[b + 1];
        }
      }
      WithoutMonitorRemovesExactlyOne(tail, i - 1);
      RemoveAtCons(ms, i);
    }
  }

  /** A removed monitor stays removed: a later check of its id is a no-op. */
  lemma CheckAfterRemoveIsNoOp(s: MonitorState, id: MonitorId, outcome: CheckOutcome, now: int, policy: HistoryPolicy)
    ensures var r := MonitorState(WithoutMonitor(s.monitors, id), s.history);
      Check(r, id, outcome, now, policy) == r
  {
    var r := MonitorState(WithoutMonitor(s.monitors, id), s.history);
  }

  /** `checkAllMonitors`: every id of the snapshot is checked, one after the other. */
  function CheckAll(s: MonitorState, ids: seq<MonitorId>, outcomes: seq<CheckOutcome>, now: int, policy: HistoryPolicy): (t: MonitorState)
    requires |ids| == |outcomes|
    decreases |ids|
  {
    if ids == [] then s
    else CheckAll(Check(s, ids[0], outcomes[0], now, policy), ids[1..], outcomes[1..], now, policy)
  }

  /** One turn of `checkAllMonitors`' loop: the rest of the run from the k-th id. */
  lemma CheckAllStep(s: MonitorState, ids: seq<MonitorId>, outcomes: seq<CheckOutcome>, k: nat, now: int, policy: HistoryPolicy)
    requires k < |ids| == |outcomes|
    ensures CheckAll(s, ids[k..], outcomes[k..], now, policy)
         == CheckAll(Check(s, ids[k], outcomes[k], now, policy), ids[k + 1..], outcomes[k + 1..], now, policy)
  {
    assert ids[k..][1..] == ids[k + 1..] && outcomes[k..][1..] == outcomes[k + 1..];
  }

  /** Checking a list of ids settles every record whose id is on the list and
      keeps every already settled record settled, whatever the outcomes. */
  lemma {:induction false} CheckAllSettles(s: MonitorState, ids: seq<MonitorId>, outcomes: seq<CheckOutcome>, now: int, policy: HistoryPolicy)
    requires |ids| == |outcomes|
    requires UniqueIds(s.monitors)
    ensures var t := CheckAll(s, ids, outcomes, now, policy);
      && |t.monitors| == |s.monitors|
      && (forall j :: 0 <= j < |s.monitors| ==> t.monitors[j].id == s.monitors[j].id)
      && (forall j :: 0 <= j < |s.monitors| && (s.monitors[j].id in ids || Settled(s.monitors[j], now)) ==>
            Settled(t.monitors[j], now))
    decreases |ids|
  {
    if ids != [] {
      var s1 := Check(s, ids[0], outcomes[0], now, policy);
      assert forall j :: 0 <= j < |s.monitors| ==> s1.monitors[j].id == s.monitors[j].id;
      CheckAllSettles(s1, ids[1..], outcomes[1..], now, policy);
      forall j | 0 <= j < |s.monitors| && s.monitors[j].id == ids[0]
        ensures Settled(s1.monitors[j], now)
      {
        FindUnique(s.monitors, j);
      }
      forall j | 0 <= j < |s.monitors| && s.monitors[j].id in ids
        ensures s.monitors[j].id == ids[0] || s.monitors[j].id in ids[1..]
      {
      }
    }
  }

  /** `checkAllMonitors` resolves with every monitor settled, whichever checks
      failed, provided no two monitors share an id. */
  lemma CheckAllMonitorsSettlesEvery(s: MonitorState, outcomes: seq<CheckOutcome>, now: int, policy: HistoryPolicy)
    requires |outcomes| == |s.monitors|
    requires UniqueIds(s.monitors)
    ensures var t := CheckAll(s, IdsOf(s.monitors), outcomes, now, policy);
      |t.monitors| == |s.monitors| && forall j :: 0 <= j < |t.monitors| ==> Settled(t.monitors[j], now)
  {
    var ids := IdsOf(s.monitors);
    CheckAllSettles(s, ids, outcomes, now, policy);
    forall j | 0 <= j < |s.monitors|
      ensures s.monitors[j].id in ids
    {
      assert ids[j] == s.monitors[j].id;
    }
  }
}
