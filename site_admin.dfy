/** The admin page of js/admin.js: the `AdminManager` user table and its
    append-only monitoring log. The form fields, the user's confirmations and
    the clock are parameters; rendering and storage are not modelled. */
module SiteAdmin {
  import opened Common

  datatype User = User(id: int, username: string, email: string, role: string,
                       createdAt: int, lastActive: Option<int>, isActive: bool)

  /** One monitoring log line (`type` is a keyword here, hence `kind`). */
  datatype MonitoringLog = MonitoringLog(id: int, kind: string, message: string, board: string,
                                         username: string, timestamp: int)

  // ------------------------------------------------------------- trimming

  /** The characters `String.prototype.trim` removes: the ECMAScript white
      space (tab, vertical tab, form feed, space, no-break space, U+FEFF and
      the space separators) and the line terminators. */
  predicate IsJsSpace(c: char)
  {
    var x := c as int;
    || 0x09 <= x <= 0x0D
    || x == 0x20 || x == 0xA0 || x == 0x1680
    || 0x2000 <= x <= 0x200A
    || x == 0x2028 || x == 0x2029 || x == 0x202F || x == 0x205F || x == 0x3000 || x == 0xFEFF
  }

  function TrimStart(s: string): (r: string)
    ensures |r| <= |s| && r == s[|s| - |r|..]
    ensures r == [] || !IsJsSpace(r[0])
    ensures forall k :: 0 <= k < |s| - |r| ==> IsJsSpace(s[k])
    decreases |s|
  {
    if s != [] && IsJsSpace(s[0]) then TrimStart(s[1..]) else s
  }

  function TrimEnd(s: string): (r: string)
    ensures |r| <= |s| && r == s[..|r|]
    ensures r == [] || !IsJsSpace(r[|r| - 1])
    ensures forall k :: |r| <= k < |s| ==> IsJsSpace(s[k])
    decreases |s|
  {
    if s != [] && IsJsSpace(s[|s| - 1]) then TrimEnd(s[..|s| - 1]) else s
  }

  /** `s.trim()`: `s` without its leading and trailing white space. */
  function Trim(s: string): (r: string)
    ensures |r| <= |s|
    ensures r == [] || (!IsJsSpace(r[0]) && !IsJsSpace(r[|r| - 1]))
    ensures |r| <= |TrimStart(s)| && r == TrimStart(s)[..|r|]
    ensures forall k :: |r| <= k < |TrimStart(s)| ==> IsJsSpace(TrimStart(s)[k])
  {
    TrimEnd(TrimStart(s))
  }

  /** Cutting white space off the front of `s` (giving `t`) and then off the
      back of `t` (giving `r`) leaves a middle slice of `s`, with only white
      space behind it. */
  lemma CutBothEnds(s: string, t: string, r: string)
    requires |t| <= |s| && t == s[|s| - |t|..]
    requires |r| <= |t| && r == t[..|r|]
    requires forall k :: |r| <= k < |t| ==> IsJsSpace(t[k])
    ensures |s| - |t| + |r| <= |s|
    ensures forall k :: 0 <= k < |r| ==> r[k] == s[|s| - |t| + k]
    ensures forall k :: |s| - |t| + |r| <= k < |s| ==> IsJsSpace(s[k])
  {
    var i := |s| - |t|;
    forall k | i + |r| <= k < |s|
      ensures IsJsSpace(s[k])
    {
      assert s[k] == t[k - i];
    }
  }

  /** `trim()` keeps one contiguous stretch of `s`: the one that starts after
      the leading run of white space. */
  lemma TrimIsSlice(s: string)
    ensures |s| - |TrimStart(s)| + |Trim(s)| <= |s|
    ensures forall k :: 0 <= k < |Trim(s)| ==> Trim(s)[k] == s[|s| - |TrimStart(s)| + k]
  {
    CutBothEnds(s, TrimStart(s), Trim(s));
  }

  /** What trimming removes is white space at the two ends and nothing else. */
  lemma TrimCutsOnlySpace(s: string)
    ensures |s| - |TrimStart(s)| + |Trim(s)| <= |s|
    ensures forall k :: 0 <= k < |s| - |TrimStart(s)| ==> IsJsSpace(s[k])
    ensures forall k :: |s| - |TrimStart(s)| + |Trim(s)| <= k < |s| ==> IsJsSpace(s[k])
  {
    CutBothEnds(s, TrimStart(s), Trim(s));
  }

  /** A field trims to nothing exactly when it is all white space. */
  lemma TrimBlankIffAllSpace(s: string)
    ensures Trim(s) == [] <==> forall k :: 0 <= k < |s| ==> IsJsSpace(s[k])
  {
    TrimCutsOnlySpace(s);
    var t := TrimStart(s);
    assert |t| > 0 ==> t[0] == s[|s| - |t|];
  }

  /** Trimming a trimmed string changes nothing. */
  lemma TrimIdempotent(s: string)
    ensures Trim(Trim(s)) == Trim(s)
  {
    var r := Trim(s);
    assert TrimStart(r) == r;
    assert TrimEnd(r) == r;
  }

  // ------------------------------------------------------------ adding users

  datatype AddUserResult = MissingField | Duplicate | Added(user: User)

  /** `users.find(user => user.username === username || user.email === email)` finds someone. */
  predicate Taken(users: seq<User>, username: string, email: string)
  {
    exists i :: 0 <= i < |users| && (users[i].username == username || users[i].email == email)
  }

  /** `handleAddUser` on the raw form fields at time `now`: a blank (after
      trimming) username or email is refused first, then a username or email
      already in use; otherwise a new active user that has never been active. */
  function AddUser(users: seq<User>, rawUsername: string, rawEmail: string, role: string, now: int): (r: AddUserResult)
    ensures r == MissingField <==> Trim(rawUsername) == [] || Trim(rawEmail) == []
    ensures r == Duplicate <==> Trim(rawUsername) != [] && Trim(rawEmail) != [] && Taken(users, Trim(rawUsername), Trim(rawEmail))
    ensures r.Added? ==>
      && r.user.username == Trim(rawUsername) && r.user.email == Trim(rawEmail)
      && r.user.role == role && r.user.id == now && r.user.createdAt == now
      && r.user.isActive && r.user.lastActive.None?
  {
    var username := Trim(rawUsername);
    var email := Trim(rawEmail);
    if username == [] || email == [] then MissingField
    else if Taken(users, username, email) then Duplicate
    else Added(User(now, username, email, role, now, None, true))
  }

  /** No two users share a username, and no two share an email. */
  ghost predicate UniqueLogins(users: seq<User>)
  {
    forall a, b :: 0 <= a < b < |users| ==> users[a].username != users[b].username && users[a].email != users[b].email
  }

  /** Adding a user keeps usernames and emails unique. */
  lemma AddUserKeepsLoginsUnique(users: seq<User>, rawUsername: string, rawEmail: string, role: string, now: int)
    requires UniqueLogins(users)
    ensures var r := AddUser(users, rawUsername, rawEmail, role, now);
      r.Added? ==> UniqueLogins(users + [r.user])
  {
    var r := AddUser(users, rawUsername, rawEmail, role, now);
    if r.Added? {
      var all := users + [r.user];
      forall a, b | 0 <= a < b < |all|
        ensures all[a].username != all[b].username && all[a].email != all[b].email
      {
        if b == |users| {
          assert !(users[a].username == r.user.username || users[a].email == r.user.email);
        }
      }
    }
  }

  // ------------------------------------------------- finding and updating

  /** `users.findIndex(u => u.id === id)`, as an option. */
  function FindUser(users: seq<User>, id: int): (r: Option<nat>)
    ensures r.Some? ==> r.value < |users| && users[r.value].id == id
    ensures r.Some? ==> forall j :: 0 <= j < r.value ==> users[j].id != id
    ensures r.None? <==> forall j :: 0 <= j < |users| ==> users[j].id != id
  {
    FirstIndex(users, (u: User) => u.id == id)
  }

  /** `users.find(user => user.username === username)`, as an index. */
  function FindByUsername(users: seq<User>, username: string): (r: Option<nat>)
    ensures r.Some? ==> r.value < |users| && users[r.value].username == username
    ensures r.Some? ==> forall j :: 0 <= j < r.value ==> users[j].username != username
    ensures r.None? <==> forall j :: 0 <= j < |users| ==> users[j].username != username
  {
    FirstIndex(users, (u: User) => u.username == username)
  }

  /** `toggleUserStatus(id)`: the first user with that id flips `isActive`;
      everyone else is unchanged. */
  function ToggleStatus(users: seq<User>, id: int): (r: seq<User>)
    ensures |r| == |users|
    ensures FindUser(users, id).None? ==> r == users
    ensures FindUser(users, id).Some? ==>
      var i := FindUser(users, id).value;
      && r[i] == users[i].(isActive := !users[i].isActive)
      && forall j :: 0 <= j < |users| && j != i ==> r[j] == users[j]
  {
    match FindUser(users, id)
    case None => users
    case Some(i) => users[i := users[i].(isActive := !users[i].isActive)]
  }

  /** Toggling twice restores the table. */
  lemma ToggleTwiceRestores(users: seq<User>, id: int)
    ensures ToggleStatus(ToggleStatus(users, id), id) == users
  {
    var once := ToggleStatus(users, id);
    match FindUser(users, id)
    case None =>
    case Some(i) =>
      assert forall j :: 0 <= j < |users| ==> once[j].id == users[j].id;
      assert FindUser(once, id) == Some(i);
  }

  /** `users.filter(user => user.isActive).length`. */
  function ActiveCount(users: seq<User>): (n: nat)
    ensures n <= |users|
    ensures n == 0 <==> forall i :: 0 <= i < |users| ==> !users[i].isActive
    ensures n == |users| <==> forall i :: 0 <= i < |users| ==> users[i].isActive
    decreases |users|
  {
    if users == [] then 0 else (if users[0].isActive then 1 else 0) + ActiveCount(users[1..])
  }

  /** Replacing one user changes the active count only by that user's flag. */
  lemma {:induction false} ActiveCountUpdate(users: seq<User>, i: nat, u: User)
    requires i < |users|
    ensures ActiveCount(users[i := u]) == ActiveCount(users) - (if users[i].isActive then 1 else 0) + (if u.isActive then 1 else 0)
    decreases |users|
  {
    if i > 0 {
      assert users[i := u][1..] == users[1..][i - 1 := u];
      ActiveCountUpdate(users[1..], i - 1, u);
    } else {
      assert users[i := u][1..] == users[1..];
    }
  }

  /** Toggling a known user moves the active count by exactly one. */
  lemma ToggleMovesActiveCountByOne(users: seq<User>, id: int)
    requires FindUser(users, id).Some?
    ensures var i := FindUser(users, id).value;
      ActiveCount(ToggleStatus(users, id)) == ActiveCount(users) + (if users[i].isActive then -1 else 1)
  {
    var i := FindUser(users, id).value;
    ActiveCountUpdate(users, i, users[i].(isActive := !users[i].isActive));
  }

  /** `deleteUser(id)` after the confirmation: the first user with that id is
      spliced out; a declined confirmation or an unknown id changes nothing. */
  function DeleteUser(users: seq<User>, id: int, confirmed: bool): (r: seq<User>)
    ensures !confirmed || FindUser(users, id).None? ==> r == users
    ensures confirmed && FindUser(users, id).Some? ==>
      var i := FindUser(users, id).value;
      && |r| == |users| - 1
      && multiset(r) + multiset{users[i]} == multiset(users)
      && (forall j :: 0 <= j < i ==> r[j] == users[j])
      && (forall j :: i <= j < |r| ==> r[j] == users[j + 1])
  {
    if !confirmed then users
    else match FindUser(users, id)
      case None => users
      case Some(i) =>
        assert users == users[..i] + [users[i]] + users[i + 1..];
        RemoveAt(users, i)
  }

  /** The users `clearUsers` keeps: the admins, in their order. */
  function KeepAdmins(users: seq<User>): (r: seq<User>)
    ensures forall i :: 0 <= i < |r| ==> r[i].role == "admin" && r[i] in users
    ensures forall i :: 0 <= i < |users| && users[i].role == "admin" ==> users[i] in r
  {
    Filter(users, (u: User) => u.role == "admin")
  }

  /** A second reset keeps everyone the first kept. */
  lemma KeepAdminsIdempotent(users: seq<User>)
    ensures KeepAdmins(KeepAdmins(users)) == KeepAdmins(users)
  {
  }

  /** `updateUserActivity(username)` at time `now`. */
  function TouchUser(users: seq<User>, username: string, now: int): (r: seq<User>)
    ensures |r| == |users|
    ensures FindByUsername(users, username).None? ==> r == users
    ensures FindByUsername(users, username).Some? ==>
      var i := FindByUsername(users, username).value;
      && r[i] == users[i].(lastActive := Some(now))
      && forall j :: 0 <= j < |users| && j != i ==> r[j] == users[j]
  {
    match FindByUsername(users, username)
    case None => users
    case Some(i) => users[i := users[i].(lastActive := Some(now))]
  }

  // ------------------------------------------------------- monitoring log

  /** `addMonitoringLog(log)` at `now`: the given log with its id and timestamp
      overwritten. */
  function Stamped(log: MonitoringLog, now: int): (r: MonitoringLog)
    ensures r.id == now && r.timestamp == now
    ensures r.(id := log.id, timestamp := log.timestamp) == log
  {
    log.(id := now, timestamp := now)
  }

  /** The log `sendTestNotification` appends. */
  function TestLog(now: int): MonitoringLog
  {
    MonitoringLog(now, "test", "테스트 알림입니다. 시스템이 정상적으로 작동하고 있습니다.", "테스트", "admin", now)
  }

  /** What the log panel shows: the last 50 lines, newest first. */
  function RecentLogs(logs: seq<MonitoringLog>): (r: seq<MonitoringLog>)
    ensures |r| == Min(50, |logs|)
    ensures forall k :: 0 <= k < |r| ==> r[k] == logs[|logs| - 1 - k]
  {
    Reverse(LastN(logs, 50))
  }

  /** The line appended last is the first one shown. */
  lemma AppendedLogShownFirst(logs: seq<MonitoringLog>, log: MonitoringLog)
    ensures RecentLogs(logs + [log])[0] == log
  {
  }

  // ---------------------------------------------------------------- stats

  const DayMs := 24 * 60 * 60 * 1000

  /** The local calendar day of a time stamp, `offsetMs` being the local
      zone's offset from UTC. `/` is floor division here, as the calendar is. */
  function LocalDay(t: int, offsetMs: int): int
  {
    (t + offsetMs) / DayMs
  }

  /** `monitoringLogs.filter(log => same local date as now).length`. */
  function TodayCount(logs: seq<MonitoringLog>, now: int, offsetMs: int): (n: nat)
    ensures n <= |logs|
    ensures n == 0 <==> forall i :: 0 <= i < |logs| ==> LocalDay(logs[i].timestamp, offsetMs) != LocalDay(now, offsetMs)
    ensures n == |logs| <==> forall i :: 0 <= i < |logs| ==> LocalDay(logs[i].timestamp, offsetMs) == LocalDay(now, offsetMs)
    decreases |logs|
  {
    if logs == [] then 0
    else (if LocalDay(logs[0].timestamp, offsetMs) == LocalDay(now, offsetMs) then 1 else 0)
         + TodayCount(logs[1..], now, offsetMs)
  }

  datatype AdminStats = AdminStats(totalUsers: nat, activeUsers: nat, totalLogs: nat, todayLogs: nat)

  /** The four figures of `updateStats`. */
  function Stats(users: seq<User>, logs: seq<MonitoringLog>, now: int, offsetMs: int): (s: AdminStats)
    ensures s.totalUsers == |users| && s.activeUsers == ActiveCount(users)
    ensures s.totalLogs == |logs| && s.todayLogs == TodayCount(logs, now, offsetMs)
    ensures s.activeUsers <= s.totalUsers && s.todayLogs <= s.totalLogs
  {
    AdminStats(|users|, ActiveCount(users), |logs|, TodayCount(logs, now, offsetMs))
  }

  /** Counting is additive: one more user adds one exactly when that user is active. */
  lemma {:induction false} ActiveCountAppend(users: seq<User>, u: User)
    ensures ActiveCount(users + [u]) == ActiveCount(users) + (if u.isActive then 1 else 0)
    decreases |users|
  {
    if users == [] {
      assert (users + [u])[1..] == [];
    } else {
      assert (users + [u])[1..] == users[1..] + [u];
      ActiveCountAppend(users[1..], u);
    }
  }

  /** One more log line adds one to today's count exactly when it falls on
      today's local date. */
  lemma {:induction false} TodayCountAppend(logs: seq<MonitoringLog>, log: MonitoringLog, now: int, offsetMs: int)
    ensures TodayCount(logs + [log], now, offsetMs) ==
      TodayCount(logs, now, offsetMs) + (if LocalDay(log.timestamp, offsetMs) == LocalDay(now, offsetMs) then 1 else 0)
    decreases |logs|
  {
    if logs == [] {
      assert (logs + [log])[1..] == [];
    } else {
      assert (logs + [log])[1..] == logs[1..] + [log];
      TodayCountAppend(logs[1..], log, now, offsetMs);
    }
  }

  /** A line logged now counts toward today, whatever the zone. */
  lemma LoggedNowCountsToday(logs: seq<MonitoringLog>, log: MonitoringLog, now: int, offsetMs: int)
    requires log.timestamp == now
    ensures TodayCount(logs + [log], now, offsetMs) == TodayCount(logs, now, offsetMs) + 1
  {
    TodayCountAppend(logs, log, now, offsetMs);
  }

  // ---------------------------------------------------------- import/export

  /** The object `exportData` writes out. */
  datatype ExportBundle = ExportBundle(users: seq<User>, logs: seq<MonitoringLog>, exportDate: int)

  /** A parsed import file: each list may be missing (or any falsy value). */
  datatype ImportBundle = ImportBundle(users: Option<seq<User>>, logs: Option<seq<MonitoringLog>>)

  /** What reading an exported file back gives. */
  function Reread(b: ExportBundle): ImportBundle
  {
    ImportBundle(Some(b.users), Some(b.logs))
  }

  /** `importData` on a parsed file (`None` when it does not parse) and the
      user's answer: the two tables after it. */
  function Imported(parsed: Option<ImportBundle>, confirmed: bool, users: seq<User>, logs: seq<MonitoringLog>): (r: (seq<User>, seq<MonitoringLog>))
    ensures parsed.None? || !confirmed ==> r == (users, logs)
    ensures parsed.Some? && confirmed ==>
      && (parsed.value.users.None? ==> r.0 == [])
      && (parsed.value.logs.None? ==> r.1 == [])
      && (parsed.value.users.Some? ==> r.0 == parsed.value.users.value)
      && (parsed.value.logs.Some? ==> r.1 == parsed.value.logs.value)
  {
    if parsed.None? || !confirmed then (users, logs)
    else (if parsed.value.users.Some? then parsed.value.users.value else [],
          if parsed.value.logs.Some? then parsed.value.logs.value else [])
  }

  /** Importing an export restores both tables exactly, whatever was there before. */
  lemma ExportImportRoundTrip(users: seq<User>, logs: seq<MonitoringLog>, date: int, before: seq<User>, beforeLogs: seq<MonitoringLog>)
    ensures Imported(Some(Reread(ExportBundle(users, logs, date))), true, before, beforeLogs) == (users, logs)
  {
  }

  /** `AdminManager`. */
  class AdminManager {
    var users: seq<User>
    var monitoringLogs: seq<MonitoringLog>

    constructor (storedUsers: seq<User>, storedLogs: seq<MonitoringLog>)
      ensures users == storedUsers && monitoringLogs == storedLogs
    {
      users, monitoringLogs := storedUsers, storedLogs;
    }

    /** `handleAddUser` with the submitted fields at time `now`. */
    method HandleAddUser(rawUsername: string, rawEmail: string, role: string, now: int) returns (result: AddUserResult)
      modifies this
      ensures result == AddUser(old(users), rawUsername, rawEmail, role, now)
      ensures users == if result.Added? then old(users) + [result.user] else old(users)
      ensures monitoringLogs == old(monitoringLogs)
    {
      var username := Trim(rawUsername);
      var email := Trim(rawEmail);
      if username == [] || email == [] {
        return MissingField;
      }
      var i := 0;
      while i < |users|
        invariant 0 <= i <= |users|
        invariant forall j :: 0 <= j < i ==> users[j].username != username && users[j].email != email
      {
        if users[i].username == username || users[i].email == email {
          return Duplicate;
        }
        i := i + 1;
      }
      var newUser := User(now, username, email, role, now, None, true);
      users := users + [newUser];
      return Added(newUser);
    }

    method ToggleUserStatus(id: int)
      modifies this
      ensures users == ToggleStatus(old(users), id)
      ensures monitoringLogs == old(monitoringLogs)
    {
      var found := FindUser(users, id);
      if found.Some? {
        var i := found.value;
        users := users[i := users[i].(isActive := !users[i].isActive)];
      }
    }

    /** `deleteUser(id)` with the user's answer to the confirmation. */
    method DeleteUserById(id: int, confirmed: bool)
      modifies this
      ensures users == DeleteUser(old(users), id, confirmed)
      ensures monitoringLogs == old(monitoringLogs)
    {
      if confirmed {
        var found := FindUser(users, id);
        if found.Some? {
          users := users[..found.value] + users[found.value + 1..];
        }
      }
    }

    /** `clearUsers()` with the user's answer to the confirmation. */
    method ClearUsers(confirmed: bool)
      modifies this
      ensures users == if confirmed then KeepAdmins(old(users)) else old(users)
      ensures monitoringLogs == old(monitoringLogs)
    {
      if confirmed {
        users := KeepAdmins(users);
      }
    }

    /** `clearLogs()` with the user's answer to the confirmation. */
    method ClearLogs(confirmed: bool)
      modifies this
      ensures monitoringLogs == if confirmed then [] else old(monitoringLogs)
      ensures users == old(users)
    {
      if confirmed {
        monitoringLogs := [];
      }
    }

    method AddMonitoringLog(log: MonitoringLog, now: int)
      modifies this
      ensures monitoringLogs == old(monitoringLogs) + [Stamped(log, now)]
      ensures users == old(users)
    {
      monitoringLogs := monitoringLogs + [log.(id := now, timestamp := now)];
    }

    method SendTestNotification(now: int)
      modifies this
      ensures monitoringLogs == old(monitoringLogs) + [TestLog(now)]
      ensures users == old(users)
    {
      monitoringLogs := monitoringLogs + [TestLog(now)];
    }

    method UpdateUserActivity(username: string, now: int)
      modifies this
      ensures users == TouchUser(old(users), username, now)
      ensures monitoringLogs == old(monitoringLogs)
    {
      var found := FindByUsername(users, username);
      if found.Some? {
        users := users[found.value := users[found.value].(lastActive := Some(now))];
      }
    }

    /** `exportData()` at `now`. */
    method ExportData(now: int) returns (bundle: ExportBundle)
      ensures bundle == ExportBundle(users, monitoringLogs, now)
    {
      bundle := ExportBundle(users, monitoringLogs, now);
    }

    /** `importData()` with the parsed file and the user's answer. */
    method ImportData(parsed: Option<ImportBundle>, confirmed: bool)
      modifies this
      ensures (users, monitoringLogs) == Imported(parsed, confirmed, old(users), old(monitoringLogs))
    {
      if parsed.Some? && confirmed {
        users := if parsed.value.users.Some? then parsed.value.users.value else [];
        monitoringLogs := if parsed.value.logs.Some? then parsed.value.logs.value else [];
      }
    }
  }
}
