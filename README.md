# Gyuni board monitor — a Dafny model

The repository is a browser widget that watches the boards of the
gyuni-jungmiso community site. It comes in two variants:
`gyni-monitor/js/main.js` and the `GyuniMonitor` class inside `js/main.js`.
Each variant keeps a list of monitor records, one per watched board. It
checks each record for a new content fingerprint, records every detected
change in a capped, newest-first history, and keeps one auto-check timer per
monitor. Around the monitors sit three more pieces:
- a mock API service (`js/api-service.js`), with a time-expiring cache, a
  capped logger, an event emitter, a password-gated admin board, and filters
  over posts and messages;
- a user-administration page (`js/admin.js`);
- an admin panel (`gyni-monitor/js/admin.js`), with a capped log, settings
  merged over defaults, and a status summary.

This project models those pieces in the form the source has.
- **Mutable objects become classes.** `GyuniMonitor`, `ApiService`,
  `ApiEventEmitter`, `ApiLogger`, `AdminManager` and `AdminPanel` are classes
  with `seq`/`map` fields that their methods update.
- **Each method is specified by a pure function**, and the properties are
  proved as lemmas about those functions.
- **Randomness, the clock and `confirm()` become parameters:**
  - the check result is passed in as `CheckOutcome`;
  - the random draw is an `Option`;
  - the current time is `now`, in milliseconds;
  - the user's answer to a confirmation is `confirmed`.

Modules (one per core file, plus shared value modules):

| file | module | models |
|---|---|---|
| common.dfy | `Common` | `Option`, unshift-then-truncate (`PushCapped`), `filter`, `slice`, `Math.max`, decimal rendering |
| monitor_records.dfy | `MonitorRecords` | the monitor record, the status names, labels and icons, one check step (`Check`) and a check of every monitor (`CheckAll`), shared by both variants |
| timers.dfy | `Timers` | the `intervals` Map together with the browser's table of running interval timers |
| gyni_main.dfy | `GyniMain` | gyni-monitor/js/main.js |
| site_main.dfy | `SiteMain` | the `GyuniMonitor` class in js/main.js |
| site_api.dfy | `SiteApi` | js/api-service.js |
| site_admin.dfy | `SiteAdmin` | js/admin.js |
| gyni_admin.dfy | `GyniAdmin` | gyni-monitor/js/admin.js |

Two behaviours of the code are easy to get wrong, and the model follows the code:
- **Restarting auto-check.** `startAutoCheck` is not an idempotent restart. It overwrites the Map entry and leaves the old timer running (`Timers.RearmLeavesOldTimerRunning`).
- **Stopping monitoring.** `stopMonitoring` in gyni-monitor/js/main.js keeps the monitors (`GyniMain.GyuniMonitor.StopMonitoring`). The one in js/main.js wipes them (`SiteMain.GyuniMonitor.StopMonitoring`).

## Model

| member | source | states |
|---|---|---|
| Common.PushCapped | gyni-monitor/js/main.js:242-247 | unshift then `slice(0, cap)`: the new entry is first, the length is min(old+1, cap), and the rest is the old list minus only its oldest tail |
| Common.PushCappedBounded | gyni-monitor/js/admin.js:95-100 | a log within its cap stays within it; below the cap nothing is dropped, at the cap exactly the oldest entry is |
| Common.Filter | js/api-service.js:154-159 | `filter` keeps exactly the passing elements, never more than the input, and keeps everything when all pass |
| Common.FilterAppend | js/admin.js:273-274 | filtering distributes over concatenation, so the survivors keep their relative order |
| Common.FirstIndex | gyni-monitor/js/main.js:168 | `find`/`findIndex`: the first index whose element passes, or none passes at all |
| Common.RemoveAt | js/admin.js:252 | `splice(i, 1)` removes exactly index i and shifts the rest down by one |
| Common.SliceTo | js/api-service.js:547 | `slice(0, end)` is a prefix of length min(end, length), or length+end for a negative end |
| Common.LastN | js/admin.js:165 | `slice(-n)` is the suffix of length min(n, length) |
| Common.Reverse | js/admin.js:165 | `reverse()` puts element k at position length-1-k |
| Common.Latest | js/api-service.js:406 | `Math.max(...dates)`: absent exactly for no dates, otherwise one of the dates and no smaller than any |
| Common.NatToString | gyni-monitor/js/admin.js:61-64 | a rendered counter is a non-empty string of decimal digits |
| Common.NatToStringRoundTrip | gyni-monitor/js/admin.js:61-64 | a rendered counter reads back as the same number |
| Common.NatToStringInjective | gyni-monitor/js/admin.js:61-64 | different counters render differently |
| MonitorRecords.ParseStatus | gyni-monitor/js/main.js:424-433 | looking a name up among the five statuses finds the status with that stored name, or none exists |
| MonitorRecords.StatusText | gyni-monitor/js/main.js:446-455 | `getStatusText` gives the fallback label exactly when the name is none of the five statuses |
| MonitorRecords.StatusIcon | gyni-monitor/js/main.js:424-433 | `getStatusIcon` gives each status its icon and an unknown name the waiting clock |
| MonitorRecords.StatusTextIdentifiesStatus | js/main.js:376-385 | the five labels are distinct, so the label tells the status |
| MonitorRecords.AfterCheck | gyni-monitor/js/main.js:178-193 | a check leaves the record settled at `now`; `changed` iff a truthy earlier fingerprint differs from the fetched one; `error` iff the check failed; a failure keeps the fingerprint, a success stores the new one; no other field changes |
| MonitorRecords.SimulatedCheck | gyni-monitor/js/main.js:200-215 | the simulated source always succeeds; without a new draw it reports no change, and `initial_content` when there is no baseline |
| MonitorRecords.ChangeNotice | gyni-monitor/js/main.js:217-229 | a `new_post` change (or the js/main.js form with no type) gets the memo icon, any other type the magnifier |
| MonitorRecords.FindIndex | gyni-monitor/js/main.js:168 | `find` by id returns the first record with that id, or none exists |
| MonitorRecords.FindUnique | gyni-monitor/js/main.js:168 | with unique ids, `find` lands on the one record with that id |
| MonitorRecords.IdsOf | gyni-monitor/js/main.js:264 | the snapshot of ids `checkAllMonitors` maps over, in order |
| MonitorRecords.Check | gyni-monitor/js/main.js:167-198 | one `checkWebsite`: list length kept; each record is either untouched or is the matching one after `AfterCheck` |
| MonitorRecords.CheckUnknownIsNoOp | gyni-monitor/js/main.js:167-169 | checking an id no record has changes nothing and creates nothing |
| MonitorRecords.FirstCheckNeverChanged | gyni-monitor/js/main.js:182-187 | a first check never yields `changed` and adds no history; a successful one stores the fingerprint |
| MonitorRecords.ChangeIsRecorded | gyni-monitor/js/main.js:182-187 | a fingerprint differing from a stored one yields `changed`, stores it, and prepends exactly one entry naming the monitor, dropping only the oldest |
| MonitorRecords.FailureKeepsFingerprint | gyni-monitor/js/main.js:191-193 | a failed check sets `error`, stamps `lastCheck`, keeps `lastContent` and leaves history alone |
| MonitorRecords.HistoryStaysCapped | gyni-monitor/js/main.js:242-247 | a history within its cap stays within it, and a check adds at most one entry, at the front |
| MonitorRecords.WithoutMonitor | gyni-monitor/js/main.js:404 | the filter keeps exactly the records with another id |
| MonitorRecords.WithoutMonitorRemovesExactlyOne | gyni-monitor/js/main.js:404 | with unique ids, removal by id removes exactly that record and keeps the others in order |
| MonitorRecords.CheckAfterRemoveIsNoOp | gyni-monitor/js/main.js:398-415 | a check of a removed id changes nothing |
| MonitorRecords.CheckAllSettles | gyni-monitor/js/main.js:256-268 | checking a list of ids settles every record on the list and keeps settled records settled |
| MonitorRecords.CheckAllMonitorsSettlesEvery | gyni-monitor/js/main.js:256-268 | `checkAllMonitors` leaves every monitor settled, whatever each outcome |
| Timers.SetInterval | gyni-monitor/js/main.js:277-279 | `setInterval` returns a handle not in use and adds exactly that running timer |
| Timers.ClearIntervals | gyni-monitor/js/main.js:128 | `clearInterval` stops exactly the given handles |
| Timers.Arm | gyni-monitor/js/main.js:277-281 | `intervals.set(id, setInterval(...))`: the id is armed with a new timer at the given period, other entries are kept, and other armed ids stay armed |
| Timers.ExtendsTrans | gyni-monitor/js/main.js:106-113 | arming ids one after another keeps every other handle and every running timer, step by step |
| Timers.GrownStart | gyni-monitor/js/main.js:106-113 | before the first turn of a start loop nothing has been added |
| Timers.ArmGrows | gyni-monitor/js/main.js:270-283 | arming one more id adds exactly that id, armed at the period, and keeps every other handle and running timer |
| Timers.Disarm | gyni-monitor/js/main.js:417-422 | `stopAutoCheck` forgets the id and stops exactly its timer; every other running timer keeps running unchanged; an unregistered id is a no-op |
| Timers.DisarmAll | gyni-monitor/js/main.js:128-129 | clearing every handle and the Map leaves no registered timer running |
| Timers.RearmLeavesOldTimerRunning | gyni-monitor/js/main.js:270-283 | re-arming a registered id leaves the old timer running beside a new one |
| Timers.DisarmAllStopsExactlyTheRegistered | gyni-monitor/js/main.js:123-132 | after stopping, a timer runs iff it ran before and no registry entry pointed at it |
| GyniMain.CheckInterval | gyni-monitor/js/main.js:596-598 | the configured interval, or 5 when it is unreadable or 0; never 0 |
| GyniMain.CreateMonitor | gyni-monitor/js/main.js:147-165 | a new record is `waiting`, unchecked, id `now_path`, interval the configured one with fallback 5, `autoCheck` iff the interval is positive |
| GyniMain.CreateMonitors | gyni-monitor/js/main.js:106-113 | one created record per selected board, in order |
| GyniMain.StartKeepsIdsUnique | gyni-monitor/js/main.js:147-150 | records started later than every existing stamp, for distinct paths, keep ids unique |
| GyniMain.GyuniMonitor.constructor | gyni-monitor/js/main.js:2-25 | stored monitors and history are loaded; when monitors exist, monitoring is on and every auto-check record is armed |
| GyniMain.GyuniMonitor.StartAutoCheck | gyni-monitor/js/main.js:270-283 | a known id with a positive interval is armed (overwriting); otherwise nothing changes |
| GyniMain.GyuniMonitor.StopAutoCheck | gyni-monitor/js/main.js:417-422 | the registry becomes `Disarm` of the old one; nothing else changes |
| GyniMain.GyuniMonitor.StartMonitoring | gyni-monitor/js/main.js:96-121 | no selection is a no-op; otherwise one record per board is appended, monitoring is on, and every new id is armed when the interval is positive; every other id keeps its handle and every timer that ran still runs |
| GyniMain.GyuniMonitor.AddMonitor | gyni-monitor/js/main.js:106-113 | one loop turn: push the created record and arm it |
| GyniMain.GyuniMonitor.AddMonitors | gyni-monitor/js/main.js:106-113 | one created record per selected board is appended; with a positive interval every new id is armed and every earlier handle and timer kept, otherwise the registry is untouched |
| GyniMain.GyuniMonitor.StopMonitoring | gyni-monitor/js/main.js:123-132 | monitoring off, registry emptied and its timers stopped; monitors and history untouched |
| GyniMain.GyuniMonitor.RestoreMonitoring | gyni-monitor/js/main.js:285-297 | with monitors, monitoring is on and exactly the auto-check ids are added and armed when the interval is positive; every other id keeps its handle and every timer that ran still runs |
| GyniMain.GyuniMonitor.HandleContentChange | gyni-monitor/js/main.js:217-254 | one entry is prepended and history cut to 100 |
| GyniMain.GyuniMonitor.CheckWebsite | gyni-monitor/js/main.js:167-198 | the monitors and history become `Check` of the old ones with cap 100; timers untouched |
| GyniMain.GyuniMonitor.SettleCheck | gyni-monitor/js/main.js:174-197 | the checked record becomes `AfterCheck` of its pre-check value, and the history gains one capped `new_post` entry exactly when that check is a change |
| GyniMain.GyuniMonitor.CheckAllMonitors | gyni-monitor/js/main.js:256-268 | the state becomes `CheckAll` over the snapshot of ids |
| GyniMain.GyuniMonitor.RemoveMonitor | gyni-monitor/js/main.js:398-415 | an unknown id or a declined confirmation is a no-op; otherwise the record and its timer go, and monitoring stops when the list empties |
| GyniMain.GyuniMonitor.ClearHistory | gyni-monitor/js/main.js:555-562 | a confirmed clear empties history; nothing else changes |
| SiteMain.CreateMonitor | js/main.js:127-140 | a new record is `waiting`, unchecked, interval 5, `autoCheck` true |
| SiteMain.CreateMonitors | js/main.js:84-88 | one created record per selected board, in order |
| SiteMain.GetBoardIcon | js/main.js:342-352 | the memo icon exactly for paths outside the six known boards |
| SiteMain.BoardIconsDistinct | js/main.js:342-352 | the six known boards have six different icons |
| SiteMain.GyuniMonitor.constructor | js/main.js:11-18 | stored monitors and history are loaded and every auto-check record is armed every 5 minutes |
| SiteMain.GyuniMonitor.StartAutoCheck | js/main.js:234-245 | a known id is armed every 5 minutes (overwriting); an unknown id changes nothing |
| SiteMain.GyuniMonitor.AddMonitor | js/main.js:84-88 | one loop turn: push the created record and arm it |
| SiteMain.GyuniMonitor.StartMonitoring | js/main.js:74-96 | no selection is a no-op; otherwise exactly one record per board is appended, each new id armed, monitoring on; every other id keeps its handle and every timer that ran still runs |
| SiteMain.GyuniMonitor.StopMonitoring | js/main.js:98-112 | monitoring off, registry emptied and its timers stopped, and the monitor list wiped |
| SiteMain.GyuniMonitor.RestoreMonitoring | js/main.js:507-519 | with monitors, monitoring is on and exactly the auto-check ids are added and armed; every other id keeps its handle and every timer that ran still runs |
| SiteMain.GyuniMonitor.HandleContentChange | js/main.js:192-218 | one entry is prepended and history cut to 50 |
| SiteMain.GyuniMonitor.CheckWebsite | js/main.js:142-173 | the monitors and history become `Check` of the old ones with cap 50 |
| SiteMain.GyuniMonitor.SettleCheck | js/main.js:149-172 | the checked record becomes `AfterCheck` of its pre-check value, and the history gains one entry capped at 50 exactly when that check is a change |
| SiteMain.GyuniMonitor.CheckAllMonitors | js/main.js:220-232 | the state becomes `CheckAll` over the snapshot of ids |
| SiteMain.GyuniMonitor.ClearHistory | js/main.js:498-505 | a confirmed clear empties history |
| SiteApi.SelectPosts | js/api-service.js:154-159 | every returned post is on the board, matches a given sub-category and is newer than a given non-zero check time; every such post is returned |
| SiteApi.UnfilteredSelectsWholeBoard | js/api-service.js:154-159 | with no sub-category and no check time, a post is returned iff it is on the board |
| SiteApi.UnreadCount | js/api-service.js:226 | the unread count is 0 iff all are read and the full length iff none is |
| SiteApi.UnreadCountAppend | js/api-service.js:226 | the unread count adds up over concatenation |
| SiteApi.SelectMessages | js/api-service.js:210-213 | exactly the messages newer than a given non-zero check time, or all |
| SiteApi.AccessAdminBoard | js/api-service.js:232-266 | an unknown board and a wrong password are refused with their own errors, and a name inherited from `Object.prototype` gets the wrong-password error; access is granted iff the board is configured and the password is its own |
| SiteApi.AdminGateIs1025 | js/api-service.js:20-23 | access is granted exactly for the two admin boards with password `1025` |
| SiteApi.PostsOn | js/api-service.js:399 | exactly the posts on a board |
| SiteApi.Dates | js/api-service.js:406 | the posts' dates, in order |
| SiteApi.BoardStatOf | js/api-service.js:395-411 | post and comment counts per board; a last activity exactly when the board has posts |
| SiteApi.LastActivityIsNewestPost | js/api-service.js:405-406 | the last activity is the date of the newest post on the board |
| SiteApi.BoardStats | js/api-service.js:395-411 | one stat per configured board name |
| SiteApi.CacheLookup | js/api-service.js:349-359 | a missing key gives nothing; an expired entry is deleted and gives nothing; a fresh entry is returned and the cache kept |
| SiteApi.SetThenGet | js/api-service.js:342-359 | a value set and read within the timeout is returned |
| SiteApi.LookupIdempotent | js/api-service.js:349-359 | reading the same key twice at the same time answers the same and changes nothing more |
| SiteApi.LookupKeepsOtherKeys | js/api-service.js:353-357 | reading a key never changes another key's entry |
| SiteApi.ApiService.constructor | js/api-service.js:31-32 | the cache starts empty |
| SiteApi.ApiService.GetBoardPosts | js/api-service.js:148-176 | the page holds the selected posts, `total` is its length, and every post is on the board |
| SiteApi.ApiService.CheckMessages | js/api-service.js:207-229 | the page's unread count counts its unread messages; a new message makes it positive |
| SiteApi.ApiService.SetCache | js/api-service.js:342-347 | the key maps to the data stamped `now` |
| SiteApi.ApiService.GetCache | js/api-service.js:349-359 | answer and new cache are `CacheLookup` of the old cache |
| SiteApi.ApiService.ClearCache | js/api-service.js:361-363 | the cache is empty |
| SiteApi.Subscribe | js/api-service.js:480-485 | `on` touches only that event's list |
| SiteApi.Unsubscribe | js/api-service.js:493-497 | `off` touches only that event's list and keeps the event names |
| SiteApi.Listeners | js/api-service.js:487-491 | an event nobody registered for has no listeners |
| SiteApi.OnAppends | js/api-service.js:480-485 | `on` appends the callback at the end of the event's list |
| SiteApi.OffRemovesEveryRegistration | js/api-service.js:493-497 | after `off`, the callback is gone from that event, every other callback stays, and other events are untouched |
| SiteApi.OnThenOff | js/api-service.js:480-497 | `on` then `off` of the same callback gives the old list without that callback |
| SiteApi.ApiEventEmitter.constructor | js/api-service.js:476-478 | no events registered |
| SiteApi.ApiEventEmitter.On | js/api-service.js:480-485 | the events become `Subscribe` of the old ones |
| SiteApi.ApiEventEmitter.Emit | js/api-service.js:487-491 | callbacks are invoked exactly in registration order |
| SiteApi.ApiEventEmitter.Off | js/api-service.js:493-497 | the events become `Unsubscribe` of the old ones |
| SiteApi.OfLevel | js/api-service.js:543-545 | the entries of one level are exactly the stored entries with that level |
| SiteApi.GetLogs | js/api-service.js:540-548 | a prefix of the entries of the given level (or of all entries without one), of length min(limit, count) for a non-negative limit and count+limit (at least 0) for a negative one |
| SiteApi.NewestLogFirst | js/api-service.js:519-548 | right after logging, the first entry read back is the new one |
| SiteApi.ApiLogger.constructor | js/api-service.js:505-508 | the logger starts from the stored entries |
| SiteApi.ApiLogger.Log | js/api-service.js:510-533 | the entry is prepended and the log cut to 1000 |
| SiteApi.ApiLogger.ClearLogs | js/api-service.js:550-553 | the log is empty |
| SiteAdmin.TrimStart | js/admin.js:51-52 | removes exactly the leading white space |
| SiteAdmin.TrimEnd | js/admin.js:51-52 | removes exactly the trailing white space |
| SiteAdmin.Trim | js/admin.js:51-52 | the result is empty or starts and ends with a non-space, and it is a prefix of `TrimStart` with only white space cut behind it |
| SiteAdmin.TrimIsSlice | js/admin.js:51-52 | `trim()` keeps one contiguous stretch of the input, starting right after the leading white space |
| SiteAdmin.TrimCutsOnlySpace | js/admin.js:51-52 | everything `trim()` cuts, before and after the kept stretch, is white space |
| SiteAdmin.TrimBlankIffAllSpace | js/admin.js:55-58 | a trimmed value is empty iff the input is all white space |
| SiteAdmin.TrimIdempotent | js/admin.js:51-52 | trimming twice is trimming once |
| SiteAdmin.AddUser | js/admin.js:48-83 | refused exactly when a trimmed field is empty, or when the username or email is taken; otherwise the new user is active, never seen, and has the trimmed fields |
| SiteAdmin.AddUserKeepsLoginsUnique | js/admin.js:61-76 | adding keeps usernames and emails pairwise unique |
| SiteAdmin.FindUser | js/admin.js:234 | `find` by id returns the first match, or none exists |
| SiteAdmin.FindByUsername | js/admin.js:373-375 | `find` by username returns the first match, or none exists |
| SiteAdmin.ToggleStatus | js/admin.js:233-246 | flips `isActive` of the first matching user only; an unknown id is a no-op |
| SiteAdmin.ToggleTwiceRestores | js/admin.js:233-246 | toggling twice restores the table |
| SiteAdmin.ActiveCount | js/admin.js:212 | the active count is at most the user count; it is 0 iff no user is active and the user count iff all are |
| SiteAdmin.ActiveCountAppend | js/admin.js:212 | one more user adds one to the active count exactly when that user is active |
| SiteAdmin.ActiveCountUpdate | js/admin.js:212 | replacing one user moves the active count by that user's change |
| SiteAdmin.ToggleMovesActiveCountByOne | js/admin.js:233-246 | a toggle moves the active count by exactly one, in the direction of the flip |
| SiteAdmin.DeleteUser | js/admin.js:248-260 | a declined confirmation or unknown id is a no-op; otherwise exactly the first match is removed and the rest keep their order |
| SiteAdmin.KeepAdmins | js/admin.js:273-274 | exactly the `admin`-role users remain |
| SiteAdmin.KeepAdminsIdempotent | js/admin.js:272-280 | clearing users twice is clearing once |
| SiteAdmin.TouchUser | js/admin.js:377-384 | stamps `lastActive` of the first user with that name; an unknown name is a no-op |
| SiteAdmin.Stamped | js/admin.js:362-367 | a log gets id and timestamp `now`, and its other fields are kept |
| SiteAdmin.RecentLogs | js/admin.js:165 | the last 50 logs, newest first |
| SiteAdmin.AppendedLogShownFirst | js/admin.js:165 | a log just appended is shown first |
| SiteAdmin.TodayCount | js/admin.js:222-229 | today's count is at most all logs, equals it iff every log is from today, and is 0 iff none is |
| SiteAdmin.TodayCountAppend | js/admin.js:222-229 | one more log adds one to today's count exactly when it falls on today's local date |
| SiteAdmin.LoggedNowCountsToday | js/admin.js:222-229 | a log stamped now adds one to today's count |
| SiteAdmin.Stats | js/admin.js:202-231 | the four figures are the user count, the active count, the log count and today's count; active users ≤ users and today's logs ≤ logs |
| SiteAdmin.Imported | js/admin.js:445-479 | a confirmed import replaces users and logs wholesale, defaulting to empty; otherwise nothing changes |
| SiteAdmin.ExportImportRoundTrip | js/admin.js:423-479 | importing an export restores exactly the exported users and logs |
| SiteAdmin.AdminManager.constructor | js/admin.js:3-7 | starts from the stored users and logs |
| SiteAdmin.AdminManager.HandleAddUser | js/admin.js:48-83 | returns `AddUser`'s verdict and appends the user only when added |
| SiteAdmin.AdminManager.ToggleUserStatus | js/admin.js:233-246 | users become `ToggleStatus` of the old ones |
| SiteAdmin.AdminManager.DeleteUserById | js/admin.js:248-260 | users become `DeleteUser` of the old ones |
| SiteAdmin.AdminManager.ClearUsers | js/admin.js:272-280 | a confirmed clear keeps only admins |
| SiteAdmin.AdminManager.ClearLogs | js/admin.js:262-270 | a confirmed clear empties the log |
| SiteAdmin.AdminManager.AddMonitoringLog | js/admin.js:362-371 | the stamped log is appended at the end |
| SiteAdmin.AdminManager.SendTestNotification | js/admin.js:282-307 | the test log is appended at the end |
| SiteAdmin.AdminManager.UpdateUserActivity | js/admin.js:377-384 | users become `TouchUser` of the old ones |
| SiteAdmin.AdminManager.ExportData | js/admin.js:423-443 | the bundle holds the current users and logs |
| SiteAdmin.AdminManager.ImportData | js/admin.js:445-479 | users and logs become `Imported` of the old ones |
| GyniAdmin.MergeSettings | gyni-monitor/js/admin.js:106-117 | every default key is present, stored values override, and defaults fill the rest |
| GyniAdmin.MergeSettingsIdempotent | gyni-monitor/js/admin.js:106-117 | merging twice is merging once |
| GyniAdmin.EmptyStoreGivesDefaults | gyni-monitor/js/admin.js:107-114 | with nothing stored, the settings are the defaults |
| GyniAdmin.ActiveMonitors | gyni-monitor/js/admin.js:35-37 | the active count is ≤ the monitor count, 0 iff no monitor is checking, changed or checked, and the monitor count iff all are |
| GyniAdmin.ActiveMonitorsAppend | gyni-monitor/js/admin.js:35-37 | one more monitor adds one to the active count exactly when it is active |
| GyniAdmin.SystemStatus | gyni-monitor/js/admin.js:69-82 | `오류` if any monitor is in error, else `정상` if any is active, else `대기` |
| GyniAdmin.IdleIffAllWaiting | gyni-monitor/js/admin.js:69-82 | the status is `대기` iff every monitor is waiting, and `정상` iff none is in error and some is not waiting |
| GyniAdmin.CheckTimes | gyni-monitor/js/admin.js:47-50 | exactly the monitors' last-check times |
| GyniAdmin.LatestCheck | gyni-monitor/js/admin.js:47-54 | absent iff nothing was checked, otherwise the check time of some monitor and no earlier than any |
| GyniAdmin.ElapsedMinutes | gyni-monitor/js/admin.js:56 | `Math.floor(diff / 60000)` |
| GyniAdmin.LastCheckLabel | gyni-monitor/js/admin.js:58-65 | `방금` under a minute, `N분 전` under an hour, else `floor(N/60)시간 전` |
| GyniAdmin.LabelReadsBack | gyni-monitor/js/admin.js:58-65 | the number in the label reads back as the minutes, or as the whole hours |
| GyniAdmin.Stats | gyni-monitor/js/admin.js:33-85 | the active count (≤ monitors), notifications = history length, a last check exactly when some monitor was checked and then the label of the minutes since the latest check, and the system status |
| GyniAdmin.AdminCheckLines | gyni-monitor/js/admin.js:134-176 | a check logs a start line, one line per selected board that has news (board 1's news line before board 2's), and a completion line |
| GyniAdmin.AddLogs | gyni-monitor/js/admin.js:87-104 | logging several lines in turn stays within the cap and leaves the last line first |
| GyniAdmin.AddLogsNewestFirst | gyni-monitor/js/admin.js:87-104 | logging several lines in turn gives them newest first, ahead of the earlier log, cut to 100 entries |
| GyniAdmin.AdminPanel.constructor | gyni-monitor/js/admin.js:2-18 | settings merged over the defaults, then one stats line and two system lines logged |
| GyniAdmin.AdminPanel.AddLog | gyni-monitor/js/admin.js:87-104 | the line is prepended and the log cut to 100 |
| GyniAdmin.AdminPanel.LoadSettings | gyni-monitor/js/admin.js:106-117 | settings become `MergeSettings` of the old ones |
| GyniAdmin.AdminPanel.UpdateStats | gyni-monitor/js/admin.js:33-85 | returns the stats and logs exactly one line |
| GyniAdmin.AdminPanel.Refresh | gyni-monitor/js/admin.js:196-207 | reloads monitors and history, then updates stats |
| GyniAdmin.AdminPanel.ToggleAdminMonitoring | gyni-monitor/js/admin.js:120-132 | with a board selected, one admin line is logged; otherwise nothing |
| GyniAdmin.AdminPanel.CheckAdminBoards | gyni-monitor/js/admin.js:134-176 | with a board selected, the `AdminCheckLines` are logged in order; otherwise nothing |

## Left out

- Browser surfaces are not modelled: DOM rendering, HTML templates, toasts, alerts, CSS classes, `bindEvents`, `updateMonitoringUI` and `updateAdminBoardStatus`. The one exception is the order of the rendered monitoring log (`SiteAdmin.RecentLogs`).
- Timers never fire on their own. The monitors' `setInterval` timers are modelled only as the table of running timers, so the one-second delayed first check after starting and the five-minute checks are not modelled. Two timer bodies are modelled as steps a caller takes. `GyniAdmin.AdminPanel.CheckAdminBoards` runs the body of its one-second `setTimeout` at once, at the click's `now`. `GyniAdmin.AdminPanel.Refresh` is one tick of `startAutoRefresh`'s 30-second `setInterval`; that interval is recorded in no timer table, and its period is not modelled.
- GyniMain.GyuniMonitor.StartMonitoring and SiteMain.GyuniMonitor.StartMonitoring stamp every new record with one `now`. `createMonitor` reads `Date.now()` once per board (gyni-monitor/js/main.js:151, js/main.js:129), so the source's stamps may differ from board to board.
- SiteApi.ApiEventEmitter.Emit returns the callbacks in the order they are called, but models neither their effects nor their exceptions. A throwing callback aborts the `forEach`, so later callbacks are not called (js/api-service.js:489). A callback that calls `on` or `off` during the loop is not modelled either.
- SiteApi.ApiService.constructor takes the starting posts, comments and messages as parameters. The source fills them from the canned `initializeSimulationData()` (js/api-service.js:28), whose fixed contents are left out.
- MonitorRecords.StatusText: a name inherited from `Object.prototype` (such as "constructor") is treated as an unknown key and gets the fallback text. The source's lookup finds the inherited function and returns it instead.
- MonitorRecords.StatusIcon: a name inherited from `Object.prototype` (such as "constructor") is treated as an unknown key and gets the waiting clock. The source's lookup finds the inherited function and returns it instead.
- SiteMain.GetBoardIcon: a name inherited from `Object.prototype` (such as "constructor") is treated as an unknown key and gets the memo icon. The source's lookup finds the inherited function and returns it instead.
- SiteApi.Listeners: an event name inherited from `Object.prototype` (such as "toString") is treated as an event with no listeners. In the source `this.events[event]` finds the inherited value, and its `forEach` call throws a TypeError.
- SiteApi.ApiEventEmitter.On: an event name inherited from `Object.prototype` (such as "toString") is treated as an event with no listeners. In the source `this.events[event]` finds the inherited value, and its `push` call throws a TypeError.
- SiteApi.ApiEventEmitter.Emit: an event name inherited from `Object.prototype` (such as "toString") is treated as an event with no listeners. In the source `this.events[event]` finds the inherited value, and its `forEach` call throws a TypeError.
- SiteApi.ApiEventEmitter.Off: an event name inherited from `Object.prototype` (such as "toString") is treated as an event with no listeners. In the source `this.events[event]` finds the inherited value, and its `filter` call throws a TypeError.
- `checkAllMonitors` runs its checks concurrently with `Promise.all`. It is modelled as checking the snapshot of ids one after another, all finishing at one `now`. Interleavings of awaiting checks are not modelled.
- `checkWebsite` is modelled as one atomic step. Its `checking` status is set and overwritten within that step, so no other operation sees it, and a record that changes while the check awaits is not modelled.
- A notification that throws after the history entry was prepended is not modelled. Sending notifications, the Notification API and the sounds (which use floating-point values) are left out.
- `localStorage` and `JSON.parse`/`JSON.stringify` are I/O. Stored data enters as constructor or method parameters (`storedMonitors`, `parsed`), and saving is not modelled.
- `getCacheKey` is not part of this model: its key is a JSON encoding, and cache keys are treated as opaque strings.
- Also not part of this model: gyni-monitor/sw.js; gyni-monitor/js/api-service.js; `fetchWithCors`; `simulateDelay`; the HTML parse stubs; `getBoardComments`; `getMonitoringStats`.
- Random draws are parameters. This covers the new-content chance, the generated post's title and author, the generated message, and the admin-board hits. The generators' word lists are left out.
- Timestamps are integer milliseconds. ISO strings and `toLocaleString` are left out. The local day in `SiteAdmin.TodayCount` uses one fixed time-zone offset, with no daylight-saving changes.
- `SiteApi.ApiLogger.Log`: the `emit` it performs and the `data`/`url` fields of an entry are left out. The entry's id is the timestamp.
- `SiteApi.GetLogs`: the default `limit = 100` is left to the caller.
- Post fields not used by the filters are left out; the generated post's `isAdmin` is one of them.
- `GyniMain.GyuniMonitor.constructor`: `loadSettings` restoring the board selection is modelled only as the `storedSelection` parameter. The check interval arrives already parsed, as `parsed`.
- `Timers.Arm` records the timer's period in milliseconds, but nothing models when a timer fires.
- A monitor id `Date.now() + '_' + path` is modelled as the pair (stamp, path). The two forms determine each other because the stamp holds no `_`.
