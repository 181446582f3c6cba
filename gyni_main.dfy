/** The board monitor of gyni-monitor/js/main.js: the `GyuniMonitor` object,
    whose monitor list, history, timer registry and monitoring flag are
    updated in place. Stopping keeps the monitors. History holds at most 100
    entries. The check interval comes from the settings form and may switch
    auto-checking off. */
module GyniMain {
  import opened Common
  import opened MonitorRecords
  import opened Timers

  /** History cap 100; every entry is recorded as a `new_post` change. */
  const Policy := HistoryPolicy(100, Some("new_post"))

  /** `parseInt(<check interval field>) || 5`: an unreadable (`None`) or zero
      value falls back to 5 minutes, so the result is never 0. */
  function CheckInterval(parsed: Option<int>): (minutes: int)
    ensures minutes != 0
    ensures parsed.Some? && parsed.value != 0 ==> minutes == parsed.value
  {
    if parsed.None? || parsed.value == 0 then 5 else parsed.value
  }

  /** `createMonitor(board)` at time `now`. */
  function CreateMonitor(board: Board, parsed: Option<int>, now: int): (m: Monitor)
    ensures m.status == Waiting && m.lastCheck.None? && m.lastContent.None?
    ensures m.id == MonitorId(now, board.path) && m.boardPath == board.path && m.boardName == board.name
    ensures m.interval != 0 && m.interval == CheckInterval(parsed)
    ensures m.autoCheck <==> m.interval > 0
    ensures m.created == now && m.isSpecial == board.isSpecial
  {
    var minutes := CheckInterval(parsed);
    Monitor(MonitorId(now, board.path), board.path, board.name, BoardUrl(board.path),
            if minutes != 0 then minutes else 5, minutes > 0,
            None, None, Waiting, now, board.isSpecial)
  }

  /** The records `startMonitoring` pushes, one per selected board, in order. */
  function CreateMonitors(boards: seq<Board>, parsed: Option<int>, now: int): (ms: seq<Monitor>)
    ensures |ms| == |boards|
    ensures forall i :: 0 <= i < |boards| ==> ms[i] == CreateMonitor(boards[i], parsed, now)
  {
    seq(|boards|, i requires 0 <= i < |boards| => CreateMonitor(boards[i], parsed, now))
  }

  /** Starting at a time later than every existing id's stamp, with boards of
      distinct paths, keeps monitor ids unique. */
  lemma StartKeepsIdsUnique(ms: seq<Monitor>, boards: seq<Board>, parsed: Option<int>, now: int)
    requires UniqueIds(ms)
    requires forall j :: 0 <= j < |ms| ==> ms[j].id.stamp < now
    requires forall a, b :: 0 <= a < b < |boards| ==> boards[a].path != boards[b].path
    ensures UniqueIds(ms + CreateMonitors(boards, parsed, now))
  {
    var all := ms + CreateMonitors(boards, parsed, now);
    forall a, b | 0 <= a < b < |all|
      ensures all[a].id != all[b].id
    {
      if b >= |ms| && a >= |ms| {
        assert all[a].id.boardPath == boards[a - |ms|].path;
      }
    }
  }

  lemma CreateMonitorsStep(before: seq<Monitor>, boards: seq<Board>, i: nat, parsed: Option<int>, now: int)
    requires i < |boards|
    ensures CreateMonitors(boards[..i + 1], parsed, now)
         == CreateMonitors(boards[..i], parsed, now) + [CreateMonitor(boards[i], parsed, now)]
    ensures before + CreateMonitors(boards[..i + 1], parsed, now)
         == (before + CreateMonitors(boards[..i], parsed, now)) + [CreateMonitor(boards[i], parsed, now)]
  {
  }

  class GyuniMonitor {
    var monitors: seq<Monitor>
    var history: seq<HistoryEntry>
    /** `this.intervals`: monitor id to the handle of its auto-check timer. */
    var intervals: map<MonitorId, nat>
    /** The browser's running interval timers. */
    var timers: TimerTable
    var isMonitoring: bool
    var selectedBoards: seq<Board>

    ghost predicate Valid()
      reads this
    {
      RegistryValid(Registry(intervals, timers))
    }

    function State(): MonitorState
      reads this
    {
      MonitorState(monitors, history)
    }

    /** The registry is running a timer for `id` that checks it every `minutes`. */
    ghost predicate ArmedEvery(id: MonitorId, minutes: int)
      reads this
    {
      Armed(Registry(intervals, timers), id, minutes * 60 * 1000)
    }

    /** `new GyuniMonitor()`: the stored monitors and history, the stored board
        selection (`loadSettings`), then `restoreMonitoring` when monitors were stored. */
    constructor (storedMonitors: seq<Monitor>, storedHistory: seq<HistoryEntry>,
                 storedSelection: Option<seq<Board>>, parsed: Option<int>)
      ensures Valid()
      ensures monitors == storedMonitors && history == storedHistory
      ensures selectedBoards == if storedSelection.Some? then storedSelection.value else []
      ensures isMonitoring <==> |storedMonitors| > 0
      ensures intervals.Keys == if CheckInterval(parsed) > 0 then AutoCheckIds(storedMonitors) else {}
      ensures forall id :: id in intervals ==> ArmedEvery(id, CheckInterval(parsed))
    {
      monitors := storedMonitors;
      history := storedHistory;
      intervals := map[];
      timers := TimerTable(map[], 1);
      isMonitoring := false;
      selectedBoards := if storedSelection.Some? then storedSelection.value else [];
      new;
      if |monitors| > 0 {
        RestoreMonitoring(parsed);
      }
    }

    /** `startAutoCheck(id)`: arm a timer for a known id when the interval is
        positive. A timer already registered for the id is overwritten, not
        cleared. */
    method StartAutoCheck(id: MonitorId, parsed: Option<int>)
      requires Valid()
      modifies this
      ensures Valid()
      ensures monitors == old(monitors) && history == old(history)
      ensures isMonitoring == old(isMonitoring) && selectedBoards == old(selectedBoards)
      ensures if FindIndex(monitors, id).Some? && CheckInterval(parsed) > 0
              then Registry(intervals, timers) == Arm(Registry(old(intervals), old(timers)), id, CheckInterval(parsed) * 60 * 1000)
              else intervals == old(intervals) && timers == old(timers)
    {
      var found := FindIndex(monitors, id);
      var interval := CheckInterval(parsed);
      if found.None? || interval <= 0 {
        return;
      }
      var r := Arm(Registry(intervals, timers), id, interval * 60 * 1000);
      intervals, timers := r.intervals, r.timers;
    }

    /** `stopAutoCheck(id)`: clear and forget that monitor's timer, if any. */
    method StopAutoCheck(id: MonitorId)
      requires Valid()
      modifies this
      ensures Valid()
      ensures monitors == old(monitors) && history == old(history)
      ensures isMonitoring == old(isMonitoring) && selectedBoards == old(selectedBoards)
      ensures Registry(intervals, timers) == Disarm(Registry(old(intervals), old(timers)), id)
    {
      var r := Disarm(Registry(intervals, timers), id);
      intervals, timers := r.intervals, r.timers;
    }

    /** `startMonitoring()`: with no board selected nothing happens; otherwise
        one new record per selected board is appended, each armed when the
        interval is positive, and monitoring is on. */
    method StartMonitoring(parsed: Option<int>, now: int)
      requires Valid()
      modifies this
      ensures Valid()
      ensures history == old(history) && selectedBoards == old(selectedBoards)
      ensures old(selectedBoards) == [] ==>
        monitors == old(monitors) && intervals == old(intervals) && timers == old(timers) && isMonitoring == old(isMonitoring)
      ensures old(selectedBoards) != [] ==>
        && monitors == old(monitors) + CreateMonitors(selectedBoards, parsed, now)
        && isMonitoring
      ensures old(selectedBoards) != [] && CheckInterval(parsed) > 0 ==>
        && intervals.Keys == old(intervals).Keys + BoardIds(selectedBoards, now)
        && forall id :: id in BoardIds(selectedBoards, now) ==> ArmedEvery(id, CheckInterval(parsed))
      ensures CheckInterval(parsed) <= 0 ==> intervals == old(intervals) && timers == old(timers)
      ensures Extends(Registry(old(intervals), old(timers)), Registry(intervals, timers), BoardIds(selectedBoards, now))
    {
      if |selectedBoards| == 0 {
        return;
      }
      isMonitoring := true;
      AddMonitors(parsed, now);
    }

    /** `startMonitoring`'s `forEach`: one new record per selected board,
        armed when the interval is positive. */
    method AddMonitors(parsed: Option<int>, now: int)
      requires Valid()
      modifies this
      ensures Valid()
      ensures history == old(history) && selectedBoards == old(selectedBoards) && isMonitoring == old(isMonitoring)
      ensures monitors == old(monitors) + CreateMonitors(selectedBoards, parsed, now)
      ensures CheckInterval(parsed) > 0 ==>
        Grown(Registry(old(intervals), old(timers)), Registry(intervals, timers), BoardIds(selectedBoards, now), CheckInterval(parsed) * 60 * 1000)
      ensures CheckInterval(parsed) <= 0 ==> intervals == old(intervals) && timers == old(timers)
    {
      var interval := CheckInterval(parsed);
      GrownStart(Registry(intervals, timers), interval * 60 * 1000);
      assert selectedBoards[..0] == [];
      for i := 0 to |selectedBoards|
        invariant Valid()
        invariant history == old(history) && selectedBoards == old(selectedBoards) && isMonitoring == old(isMonitoring)
        invariant monitors == old(monitors) + CreateMonitors(selectedBoards[..i], parsed, now)
        invariant interval > 0 ==>
          Grown(Registry(old(intervals), old(timers)), Registry(intervals, timers), BoardIds(selectedBoards[..i], now), interval * 60 * 1000)
        invariant interval <= 0 ==> intervals == old(intervals) && timers == old(timers)
      {
        BoardIdsStep(selectedBoards, i, now);
        CreateMonitorsStep(old(monitors), selectedBoards, i, parsed, now);
        ghost var before := Registry(intervals, timers);
        AddMonitor(selectedBoards[i], parsed, now);
        if interval > 0 {
          ArmGrows(Registry(old(intervals), old(timers)), before, BoardIds(selectedBoards[..i], now),
                   MonitorId(now, selectedBoards[i].path), interval * 60 * 1000);
        }
      }
      assert selectedBoards[..|selectedBoards|] == selectedBoards;
    }

    /** One turn of `startMonitoring`'s loop: push the new record for `board`
        and arm it when the interval is positive. */
    method AddMonitor(board: Board, parsed: Option<int>, now: int)
      requires Valid()
      modifies this
      ensures Valid()
      ensures monitors == old(monitors) + [CreateMonitor(board, parsed, now)]
      ensures history == old(history) && selectedBoards == old(selectedBoards) && isMonitoring == old(isMonitoring)
      ensures CheckInterval(parsed) > 0 ==>
        Registry(intervals, timers) == Arm(Registry(old(intervals), old(timers)), MonitorId(now, board.path), CheckInterval(parsed) * 60 * 1000)
      ensures CheckInterval(parsed) <= 0 ==> intervals == old(intervals) && timers == old(timers)
    {
      var monitor := CreateMonitor(board, parsed, now);
      monitors := monitors + [monitor];
      assert monitors[|monitors| - 1].id == monitor.id;
      if CheckInterval(parsed) > 0 {
        StartAutoCheck(monitor.id, parsed);
      }
    }

    /** `stopMonitoring()`: every registered timer is cleared and the registry
        emptied; monitors and history stay. */
    method StopMonitoring()
      requires Valid()
      modifies this
      ensures Valid()
      ensures !isMonitoring
      ensures monitors == old(monitors) && history == old(history) && selectedBoards == old(selectedBoards)
      ensures Registry(intervals, timers) == DisarmAll(Registry(old(intervals), old(timers)))
      ensures intervals == map[]
    {
      isMonitoring := false;
      var r := DisarmAll(Registry(intervals, timers));
      intervals, timers := r.intervals, r.timers;
    }

    /** `restoreMonitoring()`: with stored monitors, monitoring is on again and
        every `autoCheck` record is re-armed when the interval is positive. */
    method RestoreMonitoring(parsed: Option<int>)
      requires Valid()
      modifies this
      ensures Valid()
      ensures monitors == old(monitors) && history == old(history) && selectedBoards == old(selectedBoards)
      ensures isMonitoring == (old(isMonitoring) || |monitors| > 0)
      ensures intervals.Keys == old(intervals).Keys +
        (if |monitors| > 0 && CheckInterval(parsed) > 0 then AutoCheckIds(monitors) else {})
      ensures |monitors| > 0 && CheckInterval(parsed) > 0 ==>
        forall id :: id in AutoCheckIds(monitors) ==> ArmedEvery(id, CheckInterval(parsed))
      ensures Extends(Registry(old(intervals), old(timers)), Registry(intervals, timers), AutoCheckIds(monitors))
    {
      if |monitors| > 0 {
        isMonitoring := true;
        var interval := CheckInterval(parsed);
        GrownStart(Registry(intervals, timers), interval * 60 * 1000);
        assert monitors[..0] == [];
        for i := 0 to |monitors|
          invariant Valid()
          invariant monitors == old(monitors) && history == old(history) && selectedBoards == old(selectedBoards)
          invariant isMonitoring
          invariant interval > 0 ==>
            Grown(Registry(old(intervals), old(timers)), Registry(intervals, timers), AutoCheckIds(monitors[..i]), interval * 60 * 1000)
          invariant interval <= 0 ==> intervals == old(intervals) && timers == old(timers)
        {
          AutoCheckIdsStep(monitors, i);
          if monitors[i].autoCheck && interval > 0 {
            assert FindIndex(monitors, monitors[i].id).Some?;
            ghost var before := Registry(intervals, timers);
            StartAutoCheck(monitors[i].id, parsed);
            ArmGrows(Registry(old(intervals), old(timers)), before, AutoCheckIds(monitors[..i]), monitors[i].id, interval * 60 * 1000);
          }
        }
        assert monitors[..|monitors|] == monitors;
      }
    }

    /** `handleContentChange(monitor, response, changeType)`: prepend one entry
        to the history and cut it back to 100. */
    method HandleContentChange(monitor: Monitor, changeType: string, now: int)
      modifies this
      ensures history == PushCapped(old(history), ChangeEntry(monitor, Some(changeType), now), Policy.cap)
      ensures monitors == old(monitors) && intervals == old(intervals) && timers == old(timers)
      ensures isMonitoring == old(isMonitoring) && selectedBoards == old(selectedBoards)
    {
      var change := ChangeEntry(monitor, Some(changeType), now);
      history := [change] + history;
      if |history| > 100 {
        history := history[..100];
      }
    }

    /** `checkWebsite(id)` with the board source's answer `outcome`, finishing
        at time `now`. */
    method CheckWebsite(id: MonitorId, outcome: CheckOutcome, now: int)
      modifies this
      ensures State() == Check(old(State()), id, outcome, now, Policy)
      ensures intervals == old(intervals) && timers == old(timers)
      ensures isMonitoring == old(isMonitoring) && selectedBoards == old(selectedBoards)
    {
      var found := FindIndex(monitors, id);
      if found.None? {
        return;
      }
      var i := found.value;
      var monitor := monitors[i];
      CheckFound(old(State()), id, outcome, now, Policy, i);
      monitors := monitors[i := monitor.(status := Checking)];
      SettleCheck(i, monitor, outcome, now);
    }

    /** The part of `checkWebsite` after the answer arrives: record `i`, which
        was `monitor` before it was marked `checking`, is settled with
        `outcome`, and a changed fingerprint goes to `handleContentChange`. */
    method SettleCheck(i: nat, monitor: Monitor, outcome: CheckOutcome, now: int)
      requires i < |monitors|
      modifies this
      ensures monitors == old(monitors)[i := AfterCheck(monitor, outcome, now)]
      ensures history == if IsChange(monitor, outcome) then PushCapped(old(history), ChangeEntry(monitor, Policy.changeType, now), Policy.cap)
                         else old(history)
      ensures intervals == old(intervals) && timers == old(timers)
      ensures isMonitoring == old(isMonitoring) && selectedBoards == old(selectedBoards)
    {
      match outcome {
        case Failed =>
          monitors := monitors[i := monitor.(status := Error, lastCheck := Some(now))];
        case Fetched(content) =>
          var updated := monitor.(lastCheck := Some(now), status := Checked);
          if HasBaseline(monitor) && monitor.lastContent.value != content {
            HandleContentChange(monitor, "new_post", now);
            updated := updated.(status := Changed);
          }
          updated := updated.(lastContent := Some(content));
          monitors := monitors[i := updated];
      }
    }

    /** `checkAllMonitors()`: every monitor of the current list is checked, the
        k-th with `outcomes[k]`. */
    method CheckAllMonitors(outcomes: seq<CheckOutcome>, now: int)
      requires |outcomes| == |monitors|
      modifies this
      ensures State() == CheckAll(old(State()), IdsOf(old(monitors)), outcomes, now, Policy)
      ensures intervals == old(intervals) && timers == old(timers)
      ensures isMonitoring == old(isMonitoring) && selectedBoards == old(selectedBoards)
    {
      if |monitors| == 0 {
        return;
      }
      var ids := IdsOf(monitors);
      for k := 0 to |ids|
        invariant CheckAll(State(), ids[k..], outcomes[k..], now, Policy)
               == CheckAll(old(State()), ids, outcomes, now, Policy)
        invariant intervals == old(intervals) && timers == old(timers)
        invariant isMonitoring == old(isMonitoring) && selectedBoards == old(selectedBoards)
      {
        CheckAllStep(State(), ids, outcomes, k, now, Policy);
        CheckWebsite(ids[k], outcomes[k], now);
      }
    }

    /** `removeMonitor(id)` with the user's answer to the confirmation. An
        unknown id or a declined confirmation changes nothing. */
    method RemoveMonitor(id: MonitorId, confirmed: bool)
      requires Valid()
      modifies this
      ensures Valid()
      ensures history == old(history) && selectedBoards == old(selectedBoards)
      ensures FindIndex(old(monitors), id).None? || !confirmed ==>
        monitors == old(monitors) && intervals == old(intervals) && timers == old(timers) && isMonitoring == old(isMonitoring)
      ensures FindIndex(old(monitors), id).Some? && confirmed ==>
        && monitors == WithoutMonitor(old(monitors), id)
        && Registry(intervals, timers) == Disarm(Registry(old(intervals), old(timers)), id)
        && isMonitoring == (old(isMonitoring) && |monitors| > 0)
    {
      var found := FindIndex(monitors, id);
      if found.None? {
        return;
      }
      if confirmed {
        StopAutoCheck(id);
        monitors := WithoutMonitor(monitors, id);
        if |monitors| == 0 {
          isMonitoring := false;
        }
      }
    }

    /** `clearHistory()` with the user's answer to the confirmation. */
    method ClearHistory(confirmed: bool)
      modifies this
      ensures history == if confirmed then [] else old(history)
      ensures monitors == old(monitors) && intervals == old(intervals) && timers == old(timers)
      ensures isMonitoring == old(isMonitoring) && selectedBoards == old(selectedBoards)
    {
      if confirmed {
        history := [];
      }
    }
  }
}
