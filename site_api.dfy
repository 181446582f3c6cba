/** The data layer of js/api-service.js: the simulated board source with its
    time-expiring request cache, the admin-board password gate, the event
    emitter and the capped newest-first logger. The network, the random
    draws and the clock are parameters. */
module SiteApi {
  import opened Common

  // ---------------------------------------------------------------- records

  /** A board post; `subCategory` is absent on boards without sub-categories.
      Dates are milliseconds since the epoch. */
  datatype Post = Post(id: string, board: string, subCategory: Option<string>,
                       title: string, author: string, date: int)

  datatype Comment = Comment(id: string, board: string, date: int)

  datatype Message = Message(id: string, read: bool, date: int)

  /** `{ success, data, total }` of `getBoardPosts`. */
  datatype PostsPage = PostsPage(data: seq<Post>, total: nat)

  /** `{ success, data, total, unreadCount }` of `checkMessages`. */
  datatype MessagesPage = MessagesPage(data: seq<Message>, total: nat, unreadCount: nat)

  /** JavaScript truthiness of an optional string argument: given and not empty. */
  predicate Truthy(s: Option<string>)
  {
    s.Some? && s.value != ""
  }

  /** JavaScript truthiness of an optional time stamp: given and not 0 (the
      epoch is falsy, so a last-check time of 0 filters nothing). */
  predicate TruthyTime(t: Option<int>)
  {
    t.Some? && t.value != 0
  }

  // ------------------------------------------------------ the post filter

  /** The predicate `getBoardPosts` filters the stored posts with: the board
      matches, the sub-category matches when one is asked for, and the post is
      strictly newer than the last check when one is given. */
  predicate PostMatches(p: Post, boardName: string, subCategory: Option<string>, lastCheckTime: Option<int>)
  {
    && p.board == boardName
    && (Truthy(subCategory) ==> p.subCategory == subCategory)
    && (TruthyTime(lastCheckTime) ==> p.date > lastCheckTime.value)
  }

  /** The stored posts that pass the filter, in stored order. */
  function SelectPosts(posts: seq<Post>, boardName: string, subCategory: Option<string>, lastCheckTime: Option<int>): (r: seq<Post>)
    ensures |r| <= |posts|
    ensures forall i :: 0 <= i < |r| ==>
      && r[i] in posts
      && r[i].board == boardName
      && (Truthy(subCategory) ==> r[i].subCategory == subCategory)
      && (TruthyTime(lastCheckTime) ==> r[i].date > lastCheckTime.value)
    ensures forall i :: 0 <= i < |posts| && PostMatches(posts[i], boardName, subCategory, lastCheckTime) ==> posts[i] in r
  {
    Filter(posts, p => PostMatches(p, boardName, subCategory, lastCheckTime))
  }

  /** Without a sub-category or a last-check time, the filter is "posts of this board". */
  lemma UnfilteredSelectsWholeBoard(posts: seq<Post>, boardName: string, p: Post)
    requires p in posts
    ensures p in SelectPosts(posts, boardName, None, None) <==> p.board == boardName
  {
  }

  /** `generateRandomPost(boardName, subCategory)` with the drawn title and
      author, created at `now`. */
  function GeneratedPost(boardName: string, subCategory: Option<string>, title: string, author: string, now: nat): Post
  {
    Post("post_" + NatToString(now), boardName, subCategory, title, author, now)
  }

  // ------------------------------------------------------------- messages

  /** `messages.filter(msg => !msg.read).length`. */
  function UnreadCount(ms: seq<Message>): (n: nat)
    ensures n <= |ms|
    ensures n == 0 <==> forall i :: 0 <= i < |ms| ==> ms[i].read
    ensures n == |ms| <==> forall i :: 0 <= i < |ms| ==> !ms[i].read
    decreases |ms|
  {
    if ms == [] then 0
    else (if ms[0].read then 0 else 1) + UnreadCount(ms[1..])
  }

  /** The unread count of two lists together is the sum of their counts. */
  lemma {:induction false} UnreadCountAppend(a: seq<Message>, b: seq<Message>)
    ensures UnreadCount(a + b) == UnreadCount(a) + UnreadCount(b)
    decreases |a|
  {
    if a == [] {
      assert a + b == b;
    } else {
      assert (a + b)[1..] == a[1..] + b;
      UnreadCountAppend(a[1..], b);
    }
  }

  /** The stored messages newer than the last check, in stored order. */
  function SelectMessages(ms: seq<Message>, lastCheckTime: Option<int>): (r: seq<Message>)
    ensures |r| <= |ms|
    ensures forall i :: 0 <= i < |r| ==> r[i] in ms && (TruthyTime(lastCheckTime) ==> r[i].date > lastCheckTime.value)
    ensures forall i :: 0 <= i < |ms| && (!TruthyTime(lastCheckTime) || ms[i].date > lastCheckTime.value) ==> ms[i] in r
  {
    Filter(ms, (m: Message) => !TruthyTime(lastCheckTime) || m.date > lastCheckTime.value)
  }

  // ------------------------------------------------------ admin boards

  datatype AdminBoard = AdminBoard(url: string, password: string)

  /** `this.adminBoards`. */
  const AdminBoards: map<string, AdminBoard> := map[
    "관리자게시판" := AdminBoard("/bbs/board.php?bo_table=admin", "1025"),
    "운영진전용" := AdminBoard("/bbs/board.php?bo_table=staff", "1025")]

  const UnknownAdminBoardError := "존재하지 않는 관리자 게시판입니다."
  const WrongPasswordError := "비밀번호가 올바르지 않습니다."

  datatype AdminAccess = Denied(error: string) | Granted(board: string, posts: seq<Post>)

  /** The one canned post an opened admin board shows, dated six hours before `now`. */
  function AdminPost(boardName: string, now: int): Post
  {
    Post("admin_001", boardName, None, "[관리자] 시스템 점검 안내", "시스템관리자", now - 6 * 60 * 60 * 1000)
  }

  /** `accessAdminBoard(boardName, password)`: an unknown board and a wrong
      password are refused with their own message; only the configured
      password opens a configured board. A name inherited from
      `Object.prototype` finds a truthy value without a `password`, so it is
      refused as a wrong password rather than as an unknown board. */
  function AccessAdminBoard(boardName: string, password: string, now: int): (r: AdminAccess)
    ensures boardName !in AdminBoards && boardName !in InheritedNames ==> r == Denied(UnknownAdminBoardError)
    ensures boardName in InheritedNames ==> r == Denied(WrongPasswordError)
    ensures boardName in AdminBoards && password != AdminBoards[boardName].password ==> r == Denied(WrongPasswordError)
    ensures r.Granted? <==> boardName in AdminBoards && password == AdminBoards[boardName].password
    ensures r.Granted? ==> r.board == boardName && |r.posts| == 1 && r.posts[0].board == boardName
  {
    if boardName in AdminBoards then
      if password != AdminBoards[boardName].password then Denied(WrongPasswordError)
      else Granted(boardName, [AdminPost(boardName, now)])
    else if boardName in InheritedNames then Denied(WrongPasswordError)
    else Denied(UnknownAdminBoardError)
  }

  /** Both admin boards open with "1025" and with nothing else; no other
      board name opens at all. */
  lemma AdminGateIs1025(boardName: string, password: string, now: int)
    ensures AccessAdminBoard(boardName, password, now).Granted?
        <==> boardName in {"관리자게시판", "운영진전용"} && password == "1025"
  {
    assert AdminBoards.Keys == {"관리자게시판", "운영진전용"};
  }

  // ---------------------------------------------------------- board stats

  /** The keys of `this.boardConfig`, in declaration order. */
  const BoardNames := ["공지사항", "자유게시판", "단관/행사", "양도", "한줄인사", "질문/답변", "정보공유"]

  datatype BoardStat = BoardStat(posts: nat, comments: nat, lastActivity: Option<int>)

  function PostsOn(posts: seq<Post>, board: string): (r: seq<Post>)
    ensures forall i :: 0 <= i < |r| ==> r[i].board == board && r[i] in posts
    ensures forall i :: 0 <= i < |posts| && posts[i].board == board ==> posts[i] in r
  {
    Filter(posts, (p: Post) => p.board == board)
  }

  function Dates(posts: seq<Post>): (ds: seq<int>)
    ensures |ds| == |posts| && forall i :: 0 <= i < |posts| ==> ds[i] == posts[i].date
  {
    seq(|posts|, i requires 0 <= i < |posts| => posts[i].date)
  }

  /** One entry of `getBoardStats`: the board's post and comment counts, and
      its newest post date when it has posts. */
  function BoardStatOf(posts: seq<Post>, comments: seq<Comment>, board: string): (s: BoardStat)
    ensures s.posts == |PostsOn(posts, board)|
    ensures s.comments == |Filter(comments, (c: Comment) => c.board == board)|
    ensures s.lastActivity.Some? <==> s.posts > 0
  {
    var on := PostsOn(posts, board);
    BoardStat(|on|, |Filter(comments, (c: Comment) => c.board == board)|, Latest(Dates(on)))
  }

  /** A board's last activity is the date of one of its posts, and no post of
      that board is newer. */
  lemma LastActivityIsNewestPost(posts: seq<Post>, comments: seq<Comment>, board: string)
    ensures var s := BoardStatOf(posts, comments, board);
      s.lastActivity.Some? ==>
        && (exists i :: 0 <= i < |posts| && posts[i].board == board && posts[i].date == s.lastActivity.value)
        && forall i :: 0 <= i < |posts| && posts[i].board == board ==> posts[i].date <= s.lastActivity.value
  {
    var on := PostsOn(posts, board);
    var latest := Latest(Dates(on));
    if latest.Some? {
      var k :| 0 <= k < |on| && Dates(on)[k] == latest.value;
      var i :| 0 <= i < |posts| && posts[i] == on[k];
      forall j | 0 <= j < |posts| && posts[j].board == board
        ensures posts[j].date <= latest.value
      {
        var m :| 0 <= m < |on| && on[m] == posts[j];
        assert Dates(on)[m] == posts[j].date;
      }
    }
  }

  /** `getBoardStats()`: one entry per configured board, and no other. */
  function BoardStats(posts: seq<Post>, comments: seq<Comment>): (stats: map<string, BoardStat>)
    ensures stats.Keys == set b | b in BoardNames
    ensures forall b :: b in stats ==> stats[b] == BoardStatOf(posts, comments, b)
  {
    map b | b in BoardNames :: BoardStatOf(posts, comments, b)
  }

  // ---------------------------------------------------------------- cache

  /** `5 * 60 * 1000`: how long a cached answer stays usable, in milliseconds. */
  const CacheTimeout := 5 * 60 * 1000

  datatype CacheEntry<D> = CacheEntry(data: D, timestamp: int)

  /** `getCache(key)` at time `now`: the answer and the cache afterwards. A
      missing key gives nothing; an entry older than the timeout is deleted
      and gives nothing; a fresh one is returned and the cache is left as is. */
  function CacheLookup<D>(cache: map<string, CacheEntry<D>>, key: string, now: int): (r: (Option<D>, map<string, CacheEntry<D>>))
    ensures key !in cache ==> r == (None, cache)
    ensures r.0.Some? <==> key in cache && now - cache[key].timestamp <= CacheTimeout
    ensures r.0.Some? ==> r.0.value == cache[key].data && r.1 == cache
    ensures r.0.None? ==> r.1 == cache - {key}
  {
    if key !in cache then (None, cache)
    else if now - cache[key].timestamp > CacheTimeout then (None, cache - {key})
    else (Some(cache[key].data), cache)
  }

  /** What `setCache(key, data)` at time `set` stores is what `getCache(key)`
      returns up to the timeout later, and nothing after that. */
  lemma SetThenGet<D>(cache: map<string, CacheEntry<D>>, key: string, data: D, stored: int, now: int)
    ensures var r := CacheLookup(cache[key := CacheEntry(data, stored)], key, now);
      && (now - stored <= CacheTimeout ==> r.0 == Some(data))
      && (now - stored > CacheTimeout ==> r.0 == None && key !in r.1)
  {
  }

  /** Asking again at the same moment gives the same answer and changes nothing more. */
  lemma LookupIdempotent<D>(cache: map<string, CacheEntry<D>>, key: string, now: int)
    ensures var r := CacheLookup(cache, key, now);
      CacheLookup(r.1, key, now) == r
  {
    var r := CacheLookup(cache, key, now);
    if r.0.None? {
      assert key !in r.1;
    }
  }

  /** A lookup only ever touches its own key. */
  lemma LookupKeepsOtherKeys<D>(cache: map<string, CacheEntry<D>>, key: string, other: string, now: int)
    requires other != key
    ensures var r := CacheLookup(cache, key, now);
      (other in r.1 <==> other in cache) && (other in cache ==> r.1[other] == cache[other])
  {
  }

  /** `ApiService`: the simulated store of posts, comments and messages, and
      the request cache (answers of type `D`). */
  class ApiService<D> {
    var posts: seq<Post>
    var comments: seq<Comment>
    var messages: seq<Message>
    var cache: map<string, CacheEntry<D>>

    constructor (posts0: seq<Post>, comments0: seq<Comment>, messages0: seq<Message>)
      ensures posts == posts0 && comments == comments0 && messages == messages0 && cache == map[]
    {
      posts, comments, messages := posts0, comments0, messages0;
      cache := map[];
    }

    /** `getBoardPosts(boardName, subCategory, lastCheckTime)`. `draw` is the
        10% draw: `Some((title, author))` when a new post is generated. */
    method GetBoardPosts(boardName: string, subCategory: Option<string>, lastCheckTime: Option<int>,
                         draw: Option<(string, string)>, now: nat) returns (page: PostsPage)
      modifies this
      ensures var added := if draw.Some? then [GeneratedPost(boardName, subCategory, draw.value.0, draw.value.1, now)] else [];
        && page.data == SelectPosts(old(posts), boardName, subCategory, lastCheckTime) + added
        && posts == old(posts) + added
      ensures page.total == |page.data|
      ensures forall i :: 0 <= i < |page.data| ==> page.data[i].board == boardName
      ensures comments == old(comments) && messages == old(messages) && cache == old(cache)
    {
      var data := SelectPosts(posts, boardName, subCategory, lastCheckTime);
      if draw.Some? {
        var newPost := GeneratedPost(boardName, subCategory, draw.value.0, draw.value.1, now);
        posts := posts + [newPost];
        data := data + [newPost];
      }
      page := PostsPage(data, |data|);
    }

    /** `checkMessages(lastCheckTime)`. `draw` is the 5% draw: `Some(id)` when
        a new unread message is generated. */
    method CheckMessages(lastCheckTime: Option<int>, draw: Option<string>, now: int) returns (page: MessagesPage)
      modifies this
      ensures var added := if draw.Some? then [Message(draw.value, false, now)] else [];
        && page.data == SelectMessages(old(messages), lastCheckTime) + added
        && messages == old(messages) + added
      ensures page.total == |page.data| && page.unreadCount == UnreadCount(page.data)
      ensures page.unreadCount <= page.total
      ensures draw.Some? ==> page.unreadCount > 0
      ensures posts == old(posts) && comments == old(comments) && cache == old(cache)
    {
      var data := SelectMessages(messages, lastCheckTime);
      if draw.Some? {
        var newMessage := Message(draw.value, false, now);
        messages := messages + [newMessage];
        UnreadCountAppend(data, [newMessage]);
        data := data + [newMessage];
      }
      page := MessagesPage(data, |data|, UnreadCount(data));
    }

    /** `setCache(key, data)` at time `now`. */
    method SetCache(key: string, data: D, now: int)
      modifies this
      ensures cache == old(cache)[key := CacheEntry(data, now)]
      ensures posts == old(posts) && comments == old(comments) && messages == old(messages)
    {
      cache := cache[key := CacheEntry(data, now)];
    }

    /** `getCache(key)` at time `now`; an expired entry is deleted. */
    method GetCache(key: string, now: int) returns (r: Option<D>)
      modifies this
      ensures (r, cache) == CacheLookup(old(cache), key, now)
      ensures posts == old(posts) && comments == old(comments) && messages == old(messages)
    {
      if key !in cache {
        return None;
      }
      var cached := cache[key];
      if now - cached.timestamp > CacheTimeout {
        cache := cache - {key};
        return None;
      }
      return Some(cached.data);
    }

    /** `clearCache()`. */
    method ClearCache()
      modifies this
      ensures cache == map[]
      ensures posts == old(posts) && comments == old(comments) && messages == old(messages)
    {
      cache := map[];
    }
  }

  // -------------------------------------------------------------- emitter

  /** A registered callback, compared by identity as `!==` does. */
  type Callback = nat

  /** `on(event, cb)`: the callback goes to the end of the event's list, which
      is created when missing. */
  function Subscribe(events: map<string, seq<Callback>>, event: string, cb: Callback): (r: map<string, seq<Callback>>)
    ensures r.Keys == events.Keys + {event}
    ensures forall e :: e in events && e != event ==> r[e] == events[e]
  {
    events[event := Listeners(events, event) + [cb]]
  }

  /** `off(event, cb)`: every registration of `cb` for that event is dropped;
      an event without a list stays without one. */
  function Unsubscribe(events: map<string, seq<Callback>>, event: string, cb: Callback): (r: map<string, seq<Callback>>)
    ensures r.Keys == events.Keys
    ensures forall e :: e in events && e != event ==> r[e] == events[e]
  {
    if event in events then events[event := Filter(events[event], (x: Callback) => x != cb)] else events
  }

  /** The callbacks `emit(event)` calls, in the order it calls them. */
  function Listeners(events: map<string, seq<Callback>>, event: string): (r: seq<Callback>)
    ensures event !in events ==> r == []
  {
    if event in events then events[event] else []
  }

  /** `emit` calls a newly registered callback last, after all earlier ones. */
  lemma OnAppends(events: map<string, seq<Callback>>, event: string, cb: Callback)
    ensures Listeners(Subscribe(events, event, cb), event) == Listeners(events, event) + [cb]
  {
  }

  /** After `off(event, cb)` the callback is no longer called for that event,
      every other callback of the event still is, and other events are untouched. */
  lemma OffRemovesEveryRegistration(events: map<string, seq<Callback>>, event: string, cb: Callback, other: string)
    requires other != event
    ensures var r := Unsubscribe(events, event, cb);
      && cb !in Listeners(r, event)
      && (forall x :: x in Listeners(events, event) && x != cb ==> x in Listeners(r, event))
      && Listeners(r, other) == Listeners(events, other)
  {
    var r := Unsubscribe(events, event, cb);
    var ls := Listeners(events, event);
    forall x | x in ls && x != cb
      ensures x in Listeners(r, event)
    {
      var i :| 0 <= i < |ls| && ls[i] == x;
    }
  }

  /** Registering a callback and then removing it calls exactly the callbacks
      that removing it alone would have left. */
  lemma {:induction false} OnThenOff(events: map<string, seq<Callback>>, event: string, cb: Callback)
    requires event in events
    ensures Listeners(Unsubscribe(Subscribe(events, event, cb), event, cb), event)
         == Listeners(Unsubscribe(events, event, cb), event)
  {
    var keep := (x: Callback) => x != cb;
    FilterAppend(events[event], [cb], keep);
    assert Filter([cb], keep) == [];
  }

  /** `ApiEventEmitter`. */
  class ApiEventEmitter {
    var events: map<string, seq<Callback>>

    constructor ()
      ensures events == map[]
    {
      events := map[];
    }

    method On(event: string, cb: Callback)
      modifies this
      ensures events == Subscribe(old(events), event, cb)
    {
      if event !in events {
        events := events[event := []];
      }
      events := events[event := events[event] + [cb]];
    }

    /** `emit(event, data)`: the callbacks called, in order. */
    method Emit(event: string) returns (called: seq<Callback>)
      ensures called == Listeners(events, event)
    {
      called := [];
      if event in events {
        var ls := events[event];
        for i := 0 to |ls|
          invariant called == ls[..i]
        {
          called := called + [ls[i]];
        }
        assert ls[..|ls|] == ls;
      }
    }

    method Off(event: string, cb: Callback)
      modifies this
      ensures events == Unsubscribe(old(events), event, cb)
    {
      if event in events {
        events := events[event := Filter(events[event], (x: Callback) => x != cb)];
      }
    }
  }

  // --------------------------------------------------------------- logger

  /** `maxLogs`. */
  const MaxLogs := 1000

  datatype LogEntry = LogEntry(id: int, level: string, message: string, timestamp: int)

  /** The entries of one level, in stored order. */
  function OfLevel(logs: seq<LogEntry>, level: string): (r: seq<LogEntry>)
    ensures |r| <= |logs|
    ensures forall i :: 0 <= i < |r| ==> r[i].level == level && r[i] in logs
    ensures forall i :: 0 <= i < |logs| && logs[i].level == level ==> logs[i] in r
  {
    Filter(logs, (e: LogEntry) => e.level == level)
  }

  /** `getLogs(level, limit)`: with a level, only entries of that level; then
      the first `limit` of them (`slice(0, limit)`, so a negative `limit`
      drops that many from the end), in stored order. */
  function GetLogs(logs: seq<LogEntry>, level: Option<string>, limit: int): (r: seq<LogEntry>)
    ensures Truthy(level) ==> |r| <= |OfLevel(logs, level.value)| && r == OfLevel(logs, level.value)[..|r|]
    ensures !Truthy(level) ==> |r| <= |logs| && r == logs[..|r|]
    ensures var n := if Truthy(level) then |OfLevel(logs, level.value)| else |logs|;
      && (limit >= 0 ==> |r| == Min(limit, n))
      && (limit < 0 ==> |r| == if n + limit < 0 then 0 else n + limit)
    ensures Truthy(level) ==> forall i :: 0 <= i < |r| ==> r[i].level == level.value && r[i] in logs
  {
    var filtered := if Truthy(level) then OfLevel(logs, level.value) else logs;
    SliceTo(filtered, limit)
  }

  /** The newest entry is what an unfiltered `getLogs` shows first. */
  lemma NewestLogFirst(logs: seq<LogEntry>, e: LogEntry, limit: int)
    requires limit > 0
    ensures GetLogs(PushCapped(logs, e, MaxLogs), None, limit)[0] == e
  {
  }

  /** `ApiLogger`: the stored log, newest first. */
  class ApiLogger {
    var logs: seq<LogEntry>

    /** Loaded as stored; the cap applies from the next `log` on. */
    constructor (stored: seq<LogEntry>)
      ensures logs == stored
    {
      logs := stored;
    }

    /** `log(level, message)` at time `now`: the entry goes first and the log
        is cut back to `maxLogs`. Returns the entry, which is also what is
        emitted as the `log` event. */
    method Log(level: string, message: string, now: int) returns (entry: LogEntry)
      modifies this
      ensures entry == LogEntry(now, level, message, now)
      ensures logs == PushCapped(old(logs), entry, MaxLogs)
      ensures |logs| <= MaxLogs && logs[0] == entry
    {
      entry := LogEntry(now, level, message, now);
      logs := [entry] + logs;
      if |logs| > MaxLogs {
        logs := logs[..MaxLogs];
      }
    }

    method ClearLogs()
      modifies this
      ensures logs == []
    {
      logs := [];
    }
  }
}
