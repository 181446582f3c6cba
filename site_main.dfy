/** The board monitor of the `GyuniMonitor` class in js/main.js. It shares the
    record model with the gyni-monitor variant but differs in four places:
    every record auto-checks every 5 minutes, history holds at most 50
    entries without a change type, stopping wipes the monitor list, and a
    board's icon is looked up by its path. */
module SiteMain {
  import opened Common
  import opened MonitorRecords
  import opened Timers

  /** History cap 50; entries carry no change type and always report a new post. */
  const Policy := HistoryPolicy(50, None)

  /** `5 * 60 * 1000`: the fixed auto-check period in milliseconds. */
  const CheckPeriodMs := 5 * 60 * 1000

  /** `createMonitor(board)` at time `now`: a 5-minute, auto-checking record
      that has not been checked yet. */
  function CreateMonitor(board: Board, now: int): (m: Monitor)
    ensures m.status == Waiting && m.lastCheck.None? && m.lastContent.None?
    ensures m.id == MonitorId(now, board.path) && m.boardPath == board.path && m.boardName == board.name
    ensures m.interval == 5 && m.autoCheck
    ensures m.url == BoardUrl(board.path) && m.created == now && !m.isSpecial
  {
    Monitor(MonitorId(now, board.path), board.path, board.name, BoardUrl(board.path),
            5, true, None, None, Waiting, now, false)
  }

  /** The records `startMonitoring` pushes, one per selected board, in order. */
  function CreateMonitors(boards: seq<Board>, now: int): (ms: seq<Monitor>)
    ensures |ms| == |boards|
    ensures forall i :: 0 <= i < |boards| ==> ms[i] == CreateMonitor(boards[i], now)
  {
    seq(|boards|, i requires 0 <= i < |boards| => CreateMonitor(boards[i], now))
  }

  lemma CreateMonitorsStep(before: seq<Monitor>, boards: seq<Board>, i: nat, now: int)
    requires i < |boards|
    ensures CreateMonitors(boards[..i + 1], now) == CreateMonitors(boards[..i], now) + [CreateMonitor(boards[i], now)]
    ensures before + CreateMonitors(boards[..i + 1], now)
         == (before + CreateMonitors(boards[..i], now)) + [CreateMonitor(boards[i], now)]
  {
  }

  /** The six boards that have an icon of their own. */
  const IconBoards := {"ab-notice", "ab-worklog", "ab-hyungkyun", "ab-1040", "ab-chat", "ab-msg_recv"}

  /** `getBoardIcon(boardPath)`: the board's own icon, or the memo icon for any
      other path. */
  function GetBoardIcon(path: string): (icon: string)
    ensures icon == "📝" <==> path !in IconBoards
  {
    if path == "ab-notice" then "📢"
    else if path == "ab-worklog" then "📋"
    else if path == "ab-hyungkyun" then "⭐"
    else if path == "ab-1040" then "👋"
    else if path == "ab-chat" then "💬"
    else if path == "ab-msg_recv" then "📨"
    else "📝"
  }

  /** No two of the six boards share an icon, so the icon tells the board. */
  lemma BoardIconsDistinct(a: string, b: string)
    requires a in IconBoards && b in IconBoards && a != b
    ensures GetBoardIcon(a) != GetBoardIcon(b)
  {
  }

  class GyuniMonitor {
    var monitors: seq<Monitor>
    var history: seq<HistoryEntry>
    /** `this.intervals`: monitor id to the handle of its auto-check timer. */
    var intervals: map<MonitorId, nat>
    /** The browser's running interval timers. */
    var timers: TimerTable
    var isMonitoring: bool
    var selectedBoards: seq<Board>

    ghost predicate Valid()
      reads this
    {
      RegistryValid(Registry(intervals, timers))
    }

    function State(): MonitorState
      reads this
    {
      MonitorState(monitors, history)
    }

    /** `new GyuniMonitor()`: the stored monitors and history, no selection,
        then `restoreMonitoring` when monitors were stored. */
    constructor (storedMonitors: seq<Monitor>, storedHistory: seq<HistoryEntry>)
      ensures Valid()
      ensures monitors == storedMonitors && history == storedHistory && selectedBoards == []
      ensures isMonitoring <==> |storedMonitors| > 0
      ensures intervals.Keys == AutoCheckIds(storedMonitors)
      ensures forall id :: id in intervals ==> Armed(Registry(intervals, timers), id, CheckPeriodMs)
    {
      monitors := storedMonitors;
      history := storedHistory;
      intervals := map[];
      timers := TimerTable(map[], 1);
      isMonitoring := false;
      selectedBoards := [];
      new;
      if |monitors| > 0 {
        RestoreMonitoring();
      }
    }

    /** `startAutoCheck(id)`: arm a 5-minute timer for a known id. A timer
        already registered for the id is overwritten, not cleared. */
    method StartAutoCheck(id: MonitorId)
      requires Valid()
      modifies this
      ensures Valid()
      ensures monitors == old(monitors) && history == old(history)
      ensures isMonitoring == old(isMonitoring) && selectedBoards == old(selectedBoards)
      ensures if FindIndex(monitors, id).Some?
              then Registry(intervals, timers) == Arm(Registry(old(intervals), old(timers)), id, CheckPeriodMs)
              else intervals == old(intervals) && timers == old(timers)
    {
      var found := FindIndex(monitors, id);
      if found.None? {
        return;
      }
      var r := Arm(Registry(intervals, timers), id, CheckPeriodMs);
      intervals, timers := r.intervals, r.timers;
    }

    /** One turn of `startMonitoring`'s loop: push the new record for `board`
        and arm it. */
    method AddMonitor(board: Board, now: int)
      requires Valid()
      modifies this
      ensures Valid()
      ensures monitors == old(monitors) + [CreateMonitor(board, now)]
      ensures history == old(history) && selectedBoards == old(selectedBoards) && isMonitoring == old(isMonitoring)
      ensures Registry(intervals, timers) == Arm(Registry(old(intervals), old(timers)), MonitorId(now, board.path), CheckPeriodMs)
    {
      var monitor := CreateMonitor(board, now);
      monitors := monitors + [monitor];
      assert monitors[|monitors| - 1].id == monitor.id;
      StartAutoCheck(monitor.id);
    }

    /** `startMonitoring()`: with no board selected nothing happens; otherwise
        one new record per selected board is appended and armed, and
        monitoring is on. */
    method StartMonitoring(now: int)
      requires Valid()
      modifies this
      ensures Valid()
      ensures history == old(history) && selectedBoards == old(selectedBoards)
      ensures old(selectedBoards) == [] ==>
        monitors == old(monitors) && intervals == old(intervals) && timers == old(timers) && isMonitoring == old(isMonitoring)
      ensures old(selectedBoards) != [] ==>
        && monitors == old(monitors) + CreateMonitors(selectedBoards, now)
        && isMonitoring
        && intervals.Keys == old(intervals).Keys + BoardIds(selectedBoards, now)
        && forall id :: id in BoardIds(selectedBoards, now) ==> Armed(Registry(intervals, timers), id, CheckPeriodMs)
      ensures Extends(Registry(old(intervals), old(timers)), Registry(intervals, timers), BoardIds(selectedBoards, now))
    {
      if |selectedBoards| == 0 {
        return;
      }
      isMonitoring := true;
      GrownStart(Registry(intervals, timers), CheckPeriodMs);
      assert selectedBoards[..0] == [];
      for i := 0 to |selectedBoards|
        invariant history == old(history) && selectedBoards == old(selectedBoards) && isMonitoring
        invariant monitors == old(monitors) + CreateMonitors(selectedBoards[..i], now)
        invariant Grown(Registry(old(intervals), old(timers)), Registry(intervals, timers), BoardIds(selectedBoards[..i], now), CheckPeriodMs)
      {
        BoardIdsStep(selectedBoards, i, now);
        CreateMonitorsStep(old(monitors), selectedBoards, i, now);
        ghost var before := Registry(intervals, timers);
        AddMonitor(selectedBoards[i], now);
        ArmGrows(Registry(old(intervals), old(timers)), before, BoardIds(selectedBoards[..i], now), MonitorId(now, selectedBoards[i].path), CheckPeriodMs);
      }
      assert selectedBoards[..|selectedBoards|] == selectedBoards;
    }

    /** `stopMonitoring()`: every registered timer is cleared, the registry
        emptied and the monitor list wiped; history stays. */
    method StopMonitoring()
      requires Valid()
      modifies this
      ensures Valid()
      ensures !isMonitoring && monitors == [] && intervals == map[]
      ensures history == old(history) && selectedBoards == old(selectedBoards)
      ensures Registry(intervals, timers) == DisarmAll(Registry(old(intervals), old(timers)))
    {
      isMonitoring := false;
      var r := DisarmAll(Registry(intervals, timers));
      intervals, timers := r.intervals, r.timers;
      monitors := [];
    }

    /** `restoreMonitoring()`: with stored monitors, monitoring is on again and
        every `autoCheck` record is re-armed. */
    method RestoreMonitoring()
      requires Valid()
      modifies this
      ensures Valid()
      ensures monitors == old(monitors) && history == old(history) && selectedBoards == old(selectedBoards)
      ensures isMonitoring == (old(isMonitoring) || |monitors| > 0)
      ensures intervals.Keys == old(intervals).Keys + AutoCheckIds(monitors)
      ensures forall id :: id in AutoCheckIds(monitors) ==> Armed(Registry(intervals, timers), id, CheckPeriodMs)
      ensures Extends(Registry(old(intervals), old(timers)), Registry(intervals, timers), AutoCheckIds(monitors))
    {
      if |monitors| > 0 {
        isMonitoring := true;
        GrownStart(Registry(intervals, timers), CheckPeriodMs);
        assert monitors[..0] == [];
        for i := 0 to |monitors|
          invariant monitors == old(monitors) && history == old(history) && selectedBoards == old(selectedBoards)
          invariant isMonitoring
          invariant Grown(Registry(old(intervals), old(timers)), Registry(intervals, timers), AutoCheckIds(monitors[..i]), CheckPeriodMs)
        {
          AutoCheckIdsStep(monitors, i);
          if monitors[i].autoCheck {
            assert FindIndex(monitors, monitors[i].id).Some?;
            ghost var before := Registry(intervals, timers);
            StartAutoCheck(monitors[i].id);
            ArmGrows(Registry(old(intervals), old(timers)), before, AutoCheckIds(monitors[..i]), monitors[i].id, CheckPeriodMs);
          }
        }
        assert monitors[..|monitors|] == monitors;
      } else {
        assert AutoCheckIds(monitors) == {};
      }
    }

    /** `handleContentChange(monitor, response)`: prepend one entry to the
        history and cut it back to 50. */
    method HandleContentChange(monitor: Monitor, now: int)
      modifies this
      ensures history == PushCapped(old(history), ChangeEntry(monitor, None, now), Policy.cap)
      ensures monitors == old(monitors) && intervals == old(intervals) && timers == old(timers)
      ensures isMonitoring == old(isMonitoring) && selectedBoards == old(selectedBoards)
    {
      var change := ChangeEntry(monitor, None, now);
      history := [change] + history;
      if |history| > 50 {
        history := history[..50];
      }
    }

    /** `checkWebsite(id)` with the board source's answer `outcome`, finishing
        at time `now`. */
    method CheckWebsite(id: MonitorId, outcome: CheckOutcome, now: int)
      modifies this
      ensures State() == Check(old(State()), id, outcome, now, Policy)
      ensures intervals == old(intervals) && timers == old(timers)
      ensures isMonitoring == old(isMonitoring) && selectedBoards == old(selectedBoards)
    {
      var found := FindIndex(monitors, id);
      if found.None? {
        return;
      }
      var i := found.value;
      var monitor := monitors[i];
      CheckFound(old(State()), id, outcome, now, Policy, i);
      monitors := monitors[i := monitor.(status := Checking)];
      SettleCheck(i, monitor, outcome, now);
    }

    /** The part of `checkWebsite` after the answer arrives: record `i`, which
        was `monitor` before it was marked `checking`, is settled with
        `outcome`, and a changed fingerprint goes to `handleContentChange`. */
    method SettleCheck(i: nat, monitor: Monitor, outcome: CheckOutcome, now: int)
      requires i < |monitors|
      modifies this
      ensures monitors == old(monitors)[i := AfterCheck(monitor, outcome, now)]
      ensures history == if IsChange(monitor, outcome) then PushCapped(old(history), ChangeEntry(monitor, Policy.changeType, now), Policy.cap)
                         else old(history)
      ensures intervals == old(intervals) && timers == old(timers)
      ensures isMonitoring == old(isMonitoring) && selectedBoards == old(selectedBoards)
    {
      match outcome {
        case Failed =>
          monitors := monitors[i := monitor.(status := Error, lastCheck := Some(now))];
        case Fetched(content) =>
          var updated := monitor.(lastCheck := Some(now), status := Checked);
          if HasBaseline(monitor) && monitor.lastContent.value != content {
            HandleContentChange(monitor, now);
            updated := updated.(status := Changed);
          }
          updated := updated.(lastContent := Some(content));
          monitors := monitors[i := updated];
      }
    }

    /** `checkAllMonitors()`: every monitor of the current list is checked, the
        k-th with `outcomes[k]`. */
    method CheckAllMonitors(outcomes: seq<CheckOutcome>, now: int)
      requires |outcomes| == |monitors|
      modifies this
      ensures State() == CheckAll(old(State()), IdsOf(old(monitors)), outcomes, now, Policy)
      ensures intervals == old(intervals) && timers == old(timers)
      ensures isMonitoring == old(isMonitoring) && selectedBoards == old(selectedBoards)
    {
      if |monitors| == 0 {
        return;
      }
      var ids := IdsOf(monitors);
      for k := 0 to |ids|
        invariant CheckAll(State(), ids[k..], outcomes[k..], now, Policy)
               == CheckAll(old(State()), ids, outcomes, now, Policy)
        invariant intervals == old(intervals) && timers == old(timers)
        invariant isMonitoring == old(isMonitoring) && selectedBoards == old(selectedBoards)
      {
        CheckAllStep(State(), ids, outcomes, k, now, Policy);
        CheckWebsite(ids[k], outcomes[k], now);
      }
    }

    /** `clearHistory()` with the user's answer to the confirmation. */
    method ClearHistory(confirmed: bool)
      modifies this
      ensures history == if confirmed then [] else old(history)
      ensures monitors == old(monitors) && intervals == old(intervals) && timers == old(timers)
      ensures isMonitoring == old(isMonitoring) && selectedBoards == old(selectedBoards)
    {
      if confirmed {
        history := [];
      }
    }
  }
}
