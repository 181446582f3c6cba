/** The per-monitor auto-check timers. The source keeps a `Map` from monitor id
    to the handle `setInterval` returned (`this.intervals`); the browser keeps
    the table of running interval timers that `clearInterval` removes from.
    Both are modelled, so that what keeps running after a handle is
    overwritten or cleared is visible. */
module Timers {
  import opened MonitorRecords

  /** A running `setInterval(() => this.checkWebsite(monitorId), periodMs)`. */
  datatype Timer = Timer(monitorId: MonitorId, periodMs: int)

  /** The browser's interval table: live handles and the next handle it will hand out. */
  datatype TimerTable = TimerTable(live: map<nat, Timer>, next: nat)

  ghost predicate TableValid(t: TimerTable)
  {
    0 < t.next && forall h :: h in t.live ==> 0 < h < t.next
  }

  /** `setInterval`: a fresh handle for a new running timer. */
  function SetInterval(t: TimerTable, timer: Timer): (r: (nat, TimerTable))
    requires TableValid(t)
    ensures TableValid(r.1)
    ensures r.0 !in t.live && r.1.live == t.live[r.0 := timer]
  {
    (t.next, TimerTable(t.live[t.next := timer], t.next + 1))
  }

  /** `clearInterval` of a set of handles. */
  function ClearIntervals(t: TimerTable, hs: set<nat>): (r: TimerTable)
    requires TableValid(t)
    ensures TableValid(r)
    ensures r.live.Keys == t.live.Keys - hs
    ensures forall h :: h in r.live ==> r.live[h] == t.live[h]
  {
    TimerTable(t.live - hs, t.next)
  }

  /** The source's `intervals` Map together with the timer table it points into. */
  datatype Registry = Registry(intervals: map<MonitorId, nat>, timers: TimerTable)

  /** Every registered handle is a running timer that checks the monitor it is
      registered under. */
  ghost predicate RegistryValid(r: Registry)
  {
    && TableValid(r.timers)
    && forall id :: id in r.intervals ==>
         r.intervals[id] in r.timers.live && r.timers.live[r.intervals[id]].monitorId == id
  }

  /** The registry holds a running timer for `id` that checks it every `periodMs`. */
  ghost predicate Armed(r: Registry, id: MonitorId, periodMs: int)
  {
    id in r.intervals && r.intervals[id] in r.timers.live && r.timers.live[r.intervals[id]] == Timer(id, periodMs)
  }

  /** `r'` grew out of `r`: every id outside `added` keeps its handle, and every
      timer that was running still runs, unchanged. */
  ghost predicate Extends(r: Registry, r': Registry, added: set<MonitorId>)
  {
    && (forall id :: id in r.intervals && id !in added ==> id in r'.intervals && r'.intervals[id] == r.intervals[id])
    && (forall h :: h in r.timers.live ==> h in r'.timers.live && r'.timers.live[h] == r.timers.live[h])
  }

  lemma ExtendsTrans(r1: Registry, r2: Registry, r3: Registry, a: set<MonitorId>, b: set<MonitorId>)
    requires Extends(r1, r2, a) && Extends(r2, r3, b)
    ensures Extends(r1, r3, a + b)
  {
  }

  /** `this.intervals.set(id, setInterval(check id, periodMs))`. */
  function Arm(r: Registry, id: MonitorId, periodMs: int): (r': Registry)
    requires RegistryValid(r)
    ensures RegistryValid(r')
    ensures r'.intervals.Keys == r.intervals.Keys + {id}
    ensures r'.intervals[id] !in r.timers.live
    ensures r'.timers.live == r.timers.live[r'.intervals[id] := Timer(id, periodMs)]
    ensures forall other :: other in r.intervals && other != id ==> r'.intervals[other] == r.intervals[other]
    ensures Armed(r', id, periodMs)
    ensures forall other, p :: other != id && Armed(r, other, p) ==> Armed(r', other, p)
    ensures Extends(r, r', {id})
  {
    var (h, t) := SetInterval(r.timers, Timer(id, periodMs));
    Registry(r.intervals[id := h], t)
  }

  /** Arming one more id keeps every id of a set armed at the same period. */
  lemma ArmKeepsArmed(r: Registry, id: MonitorId, periodMs: int, ids: set<MonitorId>)
    requires RegistryValid(r)
    requires forall x :: x in ids ==> Armed(r, x, periodMs)
    ensures forall x :: x in ids + {id} ==> Armed(Arm(r, id, periodMs), x, periodMs)
  {
  }

  /** What arming a set of ids one after another leaves: exactly those ids added
      to the registry, each armed at `periodMs`, everything else kept. */
  ghost predicate Grown(r0: Registry, r: Registry, added: set<MonitorId>, periodMs: int)
  {
    && RegistryValid(r)
    && r.intervals.Keys == r0.intervals.Keys + added
    && (forall id :: id in added ==> Armed(r, id, periodMs))
    && Extends(r0, r, added)
  }

  lemma GrownStart(r: Registry, periodMs: int)
    requires RegistryValid(r)
    ensures Grown(r, r, {}, periodMs)
  {
  }

  /** Arming one more id grows the registry by that id. */
  lemma ArmGrows(r0: Registry, r: Registry, added: set<MonitorId>, id: MonitorId, periodMs: int)
    requires Grown(r0, r, added, periodMs)
    ensures Grown(r0, Arm(r, id, periodMs), added + {id}, periodMs)
  {
    ArmKeepsArmed(r, id, periodMs, added);
    ExtendsTrans(r0, r, Arm(r, id, periodMs), added, {id});
  }

  /** `stopAutoCheck(id)`: clear and forget the registered timer, if any. */
  function Disarm(r: Registry, id: MonitorId): (r': Registry)
    requires RegistryValid(r)
    ensures RegistryValid(r')
    ensures r'.intervals == r.intervals - {id}
    ensures id in r.intervals ==> r.intervals[id] !in r'.timers.live
    ensures id in r.intervals ==> r'.timers.live.Keys == r.timers.live.Keys - {r.intervals[id]}
    ensures forall h :: h in r'.timers.live ==> h in r.timers.live && r'.timers.live[h] == r.timers.live[h]
    ensures id !in r.intervals ==> r' == r
  {
    if id in r.intervals then
      Registry(r.intervals - {id}, ClearIntervals(r.timers, {r.intervals[id]}))
    else r
  }

  /** `this.intervals.forEach(clearInterval); this.intervals.clear()`. */
  function DisarmAll(r: Registry): (r': Registry)
    requires RegistryValid(r)
    ensures RegistryValid(r')
    ensures r'.intervals == map[]
    ensures forall id :: id in r.intervals ==> r.intervals[id] !in r'.timers.live
  {
    Registry(map[], ClearIntervals(r.timers, r.intervals.Values))
  }

  /** Arming an id that already has a timer does not stop that timer: it keeps
      running, no longer reachable from the registry, beside the new one.
      Restarting is therefore not idempotent. */
  lemma RearmLeavesOldTimerRunning(r: Registry, id: MonitorId, periodMs: int)
    requires RegistryValid(r) && id in r.intervals
    ensures var r' := Arm(r, id, periodMs);
      && r.intervals[id] in r'.timers.live
      && r'.intervals[id] != r.intervals[id]
      && |r'.timers.live| == |r.timers.live| + 1
  {
    var r' := Arm(r, id, periodMs);
    assert r'.timers.live.Keys == r.timers.live.Keys + {r'.intervals[id]};
  }

  /** Stopping everything leaves no registered timer running, and keeps any
      timer the registry had already lost track of. */
  lemma DisarmAllStopsExactlyTheRegistered(r: Registry, h: nat)
    requires RegistryValid(r)
    ensures var r' := DisarmAll(r);
      h in r'.timers.live <==> h in r.timers.live && forall id :: id in r.intervals ==> r.intervals[id] != h
  {
  }
}
