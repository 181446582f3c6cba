/** The admin panel of gyni-monitor/js/admin.js: the `AdminPanel` object with
    its capped newest-first log, its settings merged over defaults, and the
    figures `updateStats` derives from the stored monitors and history. */
module GyniAdmin {
  import opened Common
  import opened MonitorRecords

  /** One panel log line (`{ timestamp, category, message }`). */
  datatype LogLine = LogLine(timestamp: int, category: string, message: string)

  /** The panel log keeps at most 100 lines. */
  const MaxPanelLogs := 100

  // ------------------------------------------------------------- settings

  /** A stored setting value, as JSON gives it back. */
  datatype SettingValue = Num(n: int) | Flag(b: bool) | Text(s: string)

  /** `defaultSettings` of `loadSettings`. */
  const DefaultSettings: map<string, SettingValue> := map[
    "maxHistory" := Num(100),
    "backgroundInterval" := Num(5),
    "debugMode" := Flag(false),
    "notificationDuration" := Num(8),
    "requireInteraction" := Flag(true),
    "groupNotifications" := Flag(false)]

  /** `{ ...defaultSettings, ...stored }`: every default key is present, and a
      stored value wins over the default key by key. */
  function MergeSettings(stored: map<string, SettingValue>): (r: map<string, SettingValue>)
    ensures r.Keys == DefaultSettings.Keys + stored.Keys
    ensures forall k :: k in stored ==> r[k] == stored[k]
    ensures forall k :: k in DefaultSettings && k !in stored ==> r[k] == DefaultSettings[k]
  {
    DefaultSettings + stored
  }

  /** Loading settings twice is loading them once. */
  lemma MergeSettingsIdempotent(stored: map<string, SettingValue>)
    ensures MergeSettings(MergeSettings(stored)) == MergeSettings(stored)
  {
  }

  /** Nothing stored gives exactly the defaults. */
  lemma EmptyStoreGivesDefaults()
    ensures MergeSettings(map[]) == DefaultSettings
  {
  }

  // ---------------------------------------------------- status classification

  /** The statuses `updateStats` counts as active. */
  predicate IsActive(s: Status)
  {
    s == Checking || s == Changed || s == Checked
  }

  /** `monitors.filter(m => m.status is checking, changed or checked).length`. */
  function ActiveMonitors(ms: seq<Monitor>): (n: nat)
    ensures n <= |ms|
    ensures n == 0 <==> forall i :: 0 <= i < |ms| ==> !IsActive(ms[i].status)
    ensures n == |ms| <==> forall i :: 0 <= i < |ms| ==> IsActive(ms[i].status)
    decreases |ms|
  {
    if ms == [] then 0 else (if IsActive(ms[0].status) then 1 else 0) + ActiveMonitors(ms[1..])
  }

  /** The count is additive: one more monitor adds one exactly when it is active. */
  lemma {:induction false} ActiveMonitorsAppend(ms: seq<Monitor>, m: Monitor)
    ensures ActiveMonitors(ms + [m]) == ActiveMonitors(ms) + (if IsActive(m.status) then 1 else 0)
    decreases |ms|
  {
    if ms == [] {
      assert (ms + [m])[1..] == [];
    } else {
      assert (ms + [m])[1..] == ms[1..] + [m];
      ActiveMonitorsAppend(ms[1..], m);
    }
  }

  /** `monitors.some(m => m.status === 'error')`. */
  predicate HasErrors(ms: seq<Monitor>)
  {
    exists i :: 0 <= i < |ms| && ms[i].status == Error
  }

  const StatusFailing := "오류"
  const StatusRunning := "정상"
  const StatusIdle := "대기"

  /** The system status: any error wins; otherwise running when some monitor
      is active, else idle. */
  function SystemStatus(ms: seq<Monitor>): (text: string)
    ensures HasErrors(ms) ==> text == StatusFailing
    ensures !HasErrors(ms) && ActiveMonitors(ms) > 0 ==> text == StatusRunning
    ensures !HasErrors(ms) && ActiveMonitors(ms) == 0 ==> text == StatusIdle
  {
    if HasErrors(ms) then StatusFailing
    else if ActiveMonitors(ms) > 0 then StatusRunning
    else StatusIdle
  }

  /** The panel is idle exactly when every monitor is still waiting, and
      running exactly when none failed and not all are waiting. */
  lemma IdleIffAllWaiting(ms: seq<Monitor>)
    ensures SystemStatus(ms) == StatusIdle <==> forall i :: 0 <= i < |ms| ==> ms[i].status == Waiting
    ensures SystemStatus(ms) == StatusRunning <==>
      !HasErrors(ms) && exists i :: 0 <= i < |ms| && ms[i].status != Waiting
  {
    if forall i :: 0 <= i < |ms| ==> ms[i].status == Waiting {
      assert !HasErrors(ms);
    }
    if !HasErrors(ms) && exists i :: 0 <= i < |ms| && ms[i].status != Waiting {
      var i :| 0 <= i < |ms| && ms[i].status != Waiting;
      assert IsActive(ms[i].status);
    }
  }

  // ------------------------------------------------------ last-check label

  /** The check times of the monitors that have been checked, in order. */
  function CheckTimes(ms: seq<Monitor>): (ts: seq<int>)
    ensures forall k :: 0 <= k < |ts| ==> exists i :: 0 <= i < |ms| && ms[i].lastCheck == Some(ts[k])
    ensures forall i :: 0 <= i < |ms| && ms[i].lastCheck.Some? ==> ms[i].lastCheck.value in ts
    decreases |ms|
  {
    if ms == [] then []
    else (if ms[0].lastCheck.Some? then [ms[0].lastCheck.value] else []) + CheckTimes(ms[1..])
  }

  /** The newest check time (`lastCheckTimes` sorted newest first, element 0). */
  function LatestCheck(ms: seq<Monitor>): (r: Option<int>)
    ensures r.None? <==> forall i :: 0 <= i < |ms| ==> ms[i].lastCheck.None?
    ensures r.Some? ==> forall i :: 0 <= i < |ms| && ms[i].lastCheck.Some? ==> ms[i].lastCheck.value <= r.value
    ensures r.Some? ==> exists i :: 0 <= i < |ms| && ms[i].lastCheck == Some(r.value)
  {
    var ts := CheckTimes(ms);
    if ts == [] then
      assert forall i :: 0 <= i < |ms| ==> ms[i].lastCheck.None?;
      None
    else
      var latest := Latest(ts);
      assert exists k :: 0 <= k < |ts| && ts[k] == latest.value;
      latest
  }

  /** `Math.floor((now - last) / (1000 * 60))`: whole minutes elapsed, rounded down. */
  function ElapsedMinutes(now: int, last: int): (m: int)
    ensures m * 60000 <= now - last < m * 60000 + 60000
  {
    (now - last) / 60000
  }

  /** The "last check" text for `minutes` elapsed whole minutes. */
  function LastCheckLabel(minutes: int): (text: string)
    ensures minutes < 1 ==> text == "방금"
    ensures 1 <= minutes < 60 ==> text == NatToString(minutes) + "분 전"
    ensures 60 <= minutes ==> text == NatToString(minutes / 60) + "시간 전"
  {
    if minutes < 1 then "방금"
    else if minutes < 60 then NatToString(minutes) + "분 전"
    else NatToString(minutes / 60) + "시간 전"
  }

  /** Read back, the label's number is the elapsed minutes below an hour, and
      otherwise the whole hours: the hours it names contain the elapsed time. */
  lemma LabelReadsBack(minutes: int)
    ensures 1 <= minutes < 60 ==>
      var digits := LastCheckLabel(minutes)[..|LastCheckLabel(minutes)| - 3];
      (forall k :: 0 <= k < |digits| ==> '0' <= digits[k] <= '9') && DecimalValue(digits) == minutes
    ensures 60 <= minutes ==>
      var digits := LastCheckLabel(minutes)[..|LastCheckLabel(minutes)| - 4];
      (forall k :: 0 <= k < |digits| ==> '0' <= digits[k] <= '9')
        && DecimalValue(digits) * 60 <= minutes < DecimalValue(digits) * 60 + 60
  {
    if 1 <= minutes < 60 {
      var text := LastCheckLabel(minutes);
      assert text[..|text| - 3] == NatToString(minutes);
      NatToStringRoundTrip(minutes);
    } else if 60 <= minutes {
      var text := LastCheckLabel(minutes);
      assert text[..|text| - 4] == NatToString(minutes / 60);
      NatToStringRoundTrip(minutes / 60);
    }
  }

  /** The figures `updateStats` shows. `lastCheck` is absent when no monitor
      has been checked (the element is then left as it was). */
  datatype PanelStats = PanelStats(activeMonitors: nat, totalNotifications: nat,
                                   lastCheck: Option<string>, systemStatus: string)

  function Stats(ms: seq<Monitor>, history: seq<HistoryEntry>, now: int): (s: PanelStats)
    ensures s.activeMonitors == ActiveMonitors(ms) && s.activeMonitors <= |ms|
    ensures s.totalNotifications == |history|
    ensures s.lastCheck.Some? <==> exists i :: 0 <= i < |ms| && ms[i].lastCheck.Some?
    ensures s.lastCheck.Some? ==> s.lastCheck.value == LastCheckLabel(ElapsedMinutes(now, LatestCheck(ms).value))
    ensures s.systemStatus == SystemStatus(ms)
  {
    var latest := LatestCheck(ms);
    PanelStats(ActiveMonitors(ms), |history|,
               if latest.Some? then Some(LastCheckLabel(ElapsedMinutes(now, latest.value))) else None,
               SystemStatus(ms))
  }

  /** The log line every `updateStats` adds. */
  function StatsMessage(s: PanelStats): string
  {
    "통계 업데이트됨 - 활성 모니터: " + NatToString(s.activeMonitors) + ", 총 알림: " + NatToString(s.totalNotifications)
  }

  // ---------------------------------------------------- admin-board checks

  /** The lines one `checkAdminBoards` run logs, in the order it logs them:
      the start line, one line per watched board whose 10% draw hit, and the
      completion line. */
  function AdminCheckLines(board1: bool, board2: bool, hit1: bool, hit2: bool): (lines: seq<string>)
    ensures 2 <= |lines| <= 4
    ensures lines[0] == "관리자 게시판 체크 수행 중..." && lines[|lines| - 1] == "관리자 게시판 체크 완료"
    ensures |lines| == 2 + (if board1 && hit1 then 1 else 0) + (if board2 && hit2 then 1 else 0)
    ensures board1 && hit1 ==> lines[1] == "첫인사게시판에 새 등업 신청이 있습니다!"
    ensures board2 && hit2 ==> lines[|lines| - 2] == "Gyuni Live 승인에 새 신청이 있습니다!"
  {
    ["관리자 게시판 체크 수행 중..."]
    + (if board1 && hit1 then ["첫인사게시판에 새 등업 신청이 있습니다!"] else [])
    + (if board2 && hit2 then ["Gyuni Live 승인에 새 신청이 있습니다!"] else [])
    + ["관리자 게시판 체크 완료"]
  }

  /** `addLog` applied to each message in turn. */
  function AddLogs(logs: seq<LogLine>, category: string, messages: seq<string>, now: int): (r: seq<LogLine>)
    ensures |logs| <= MaxPanelLogs ==> |r| <= MaxPanelLogs
    ensures messages != [] ==> |r| > 0 && r[0] == LogLine(now, category, messages[|messages| - 1])
    decreases |messages|
  {
    if messages == [] then logs
    else
      var front := AddLogs(logs, category, messages[..|messages| - 1], now);
      PushCapped(front, LogLine(now, category, messages[|messages| - 1]), MaxPanelLogs)
  }

  /** The log lines `messages` become when each is logged at `now` under `category`. */
  function Lines(messages: seq<string>, category: string, now: int): (r: seq<LogLine>)
    ensures |r| == |messages|
    ensures forall k :: 0 <= k < |r| ==> r[k] == LogLine(now, category, messages[k])
  {
    seq(|messages|, k requires 0 <= k < |messages| => LogLine(now, category, messages[k]))
  }

  /** One capped push onto a prefix of `u` is a prefix of `u` with the new line in front. */
  lemma PushCappedOntoPrefix<T>(u: seq<T>, a: nat, x: T, cap: nat)
    requires a <= |u|
    ensures PushCapped(u[..a], x, cap) == ([x] + u)[..Min(a + 1, cap)]
  {
    assert ([x] + u[..a])[..Min(a + 1, cap)] == ([x] + u)[..Min(a + 1, cap)];
  }

  /** The newest of several messages heads their reversed lines. */
  lemma ReverseLinesSnoc(messages: seq<string>, category: string, now: int)
    requires messages != []
    ensures Reverse(Lines(messages, category, now))
         == [LogLine(now, category, messages[|messages| - 1])] + Reverse(Lines(messages[..|messages| - 1], category, now))
  {
    var n := |messages|;
    var rev, revInit := Reverse(Lines(messages, category, now)), Reverse(Lines(messages[..n - 1], category, now));
    var want := [LogLine(now, category, messages[n - 1])] + revInit;
    forall k | 0 <= k < n
      ensures rev[k] == want[k]
    {
      if k > 0 {
        assert revInit[k - 1] == Lines(messages[..n - 1], category, now)[n - 1 - k];
      }
    }
  }

  /** Logging several messages in turn puts them newest first, ahead of the
      earlier log, and cuts the whole to the panel's cap. */
  lemma {:induction false} AddLogsNewestFirst(logs: seq<LogLine>, category: string, messages: seq<string>, now: int)
    requires messages != []
    ensures AddLogs(logs, category, messages, now)
         == (Reverse(Lines(messages, category, now)) + logs)[..Min(|messages| + |logs|, MaxPanelLogs)]
  {
    var n := |messages|;
    var init := messages[..n - 1];
    var x := LogLine(now, category, messages[n - 1]);
    var front := AddLogs(logs, category, init, now);
    assert AddLogs(logs, category, messages, now) == PushCapped(front, x, MaxPanelLogs);
    ReverseLinesSnoc(messages, category, now);
    var u := Reverse(Lines(init, category, now)) + logs;
    if init == [] {
      assert front == u[..|logs|];
      PushCappedOntoPrefix(u, |logs|, x, MaxPanelLogs);
    } else {
      AddLogsNewestFirst(logs, category, init, now);
      PushCappedOntoPrefix(u, Min(n - 1 + |logs|, MaxPanelLogs), x, MaxPanelLogs);
    }
    assert [x] + u == Reverse(Lines(messages, category, now)) + logs;
  }

  /** `AdminPanel`. */
  class AdminPanel {
    var logs: seq<LogLine>
    var settings: map<string, SettingValue>
    var monitors: seq<Monitor>
    var history: seq<HistoryEntry>

    /** `new AdminPanel()` at time `now`: the stored data, then `init`:
        settings merged, statistics logged, auto-refresh logged, and the
        initialisation logged, newest first. */
    constructor (storedLogs: seq<LogLine>, storedSettings: map<string, SettingValue>,
                 storedMonitors: seq<Monitor>, storedHistory: seq<HistoryEntry>, now: int)
      ensures settings == MergeSettings(storedSettings)
      ensures monitors == storedMonitors && history == storedHistory
      ensures logs == AddLogs(PushCapped(storedLogs, LogLine(now, "통계", StatsMessage(Stats(storedMonitors, storedHistory, now))), MaxPanelLogs),
                              "시스템", ["자동 새로고침이 시작되었습니다 (30초 간격)", "관리자 패널 초기화 완료"], now)
    {
      logs, settings, monitors, history := storedLogs, storedSettings, storedMonitors, storedHistory;
      new;
      LoadSettings();
      var _ := UpdateStats(now);
      AddLog("시스템", "자동 새로고침이 시작되었습니다 (30초 간격)", now);
      AddLog("시스템", "관리자 패널 초기화 완료", now);
      assert ["자동 새로고침이 시작되었습니다 (30초 간격)", "관리자 패널 초기화 완료"][..1] == ["자동 새로고침이 시작되었습니다 (30초 간격)"];
    }

    /** `addLog(category, message)` at time `now`: the line goes first and the
        log is cut back to 100. */
    method AddLog(category: string, message: string, now: int)
      modifies this
      ensures logs == PushCapped(old(logs), LogLine(now, category, message), MaxPanelLogs)
      ensures |old(logs)| < MaxPanelLogs ==> |logs| == |old(logs)| + 1
      ensures settings == old(settings) && monitors == old(monitors) && history == old(history)
    {
      logs := [LogLine(now, category, message)] + logs;
      if |logs| > MaxPanelLogs {
        logs := logs[..MaxPanelLogs];
      }
    }

    method LoadSettings()
      modifies this
      ensures settings == MergeSettings(old(settings))
      ensures logs == old(logs) && monitors == old(monitors) && history == old(history)
    {
      settings := DefaultSettings + settings;
    }

    /** `updateStats()` at time `now`: the figures, and exactly one new log line. */
    method UpdateStats(now: int) returns (stats: PanelStats)
      modifies this
      ensures stats == Stats(monitors, history, now)
      ensures logs == PushCapped(old(logs), LogLine(now, "통계", StatsMessage(stats)), MaxPanelLogs)
      ensures settings == old(settings) && monitors == old(monitors) && history == old(history)
    {
      stats := Stats(monitors, history, now);
      AddLog("통계", StatsMessage(stats), now);
    }

    /** One tick of `startAutoRefresh`: reload monitors and history, then `updateStats`. */
    method Refresh(storedMonitors: seq<Monitor>, storedHistory: seq<HistoryEntry>, now: int) returns (stats: PanelStats)
      modifies this
      ensures monitors == storedMonitors && history == storedHistory && settings == old(settings)
      ensures stats == Stats(storedMonitors, storedHistory, now)
      ensures logs == PushCapped(old(logs), LogLine(now, "통계", StatsMessage(stats)), MaxPanelLogs)
    {
      monitors, history := storedMonitors, storedHistory;
      stats := UpdateStats(now);
    }

    /** `toggleAdminMonitoring()` with the two board check boxes. */
    method ToggleAdminMonitoring(board1: bool, board2: bool, now: int)
      modifies this
      ensures logs == if board1 || board2
                      then PushCapped(old(logs), LogLine(now, "관리자", "관리자 게시판 모니터링 시작됨"), MaxPanelLogs)
                      else old(logs)
      ensures settings == old(settings) && monitors == old(monitors) && history == old(history)
    {
      if !board1 && !board2 {
        return;
      }
      AddLog("관리자", "관리자 게시판 모니터링 시작됨", now);
    }

    /** `checkAdminBoards()` with the two check boxes and the two 10% draws,
        the delayed part run at once. */
    method CheckAdminBoards(board1: bool, board2: bool, hit1: bool, hit2: bool, now: int)
      modifies this
      ensures logs == if board1 || board2
                      then AddLogs(old(logs), "관리자", AdminCheckLines(board1, board2, hit1, hit2), now)
                      else old(logs)
      ensures settings == old(settings) && monitors == old(monitors) && history == old(history)
    {
      if !board1 && !board2 {
        return;
      }
      var lines := AdminCheckLines(board1, board2, hit1, hit2);
      for k := 0 to |lines|
        invariant logs == AddLogs(old(logs), "관리자", lines[..k], now)
        invariant settings == old(settings) && monitors == old(monitors) && history == old(history)
      {
        assert lines[..k + 1][..k] == lines[..k];
        AddLog("관리자", lines[k], now);
      }
      assert lines[..|lines|] == lines;
    }
  }
}
