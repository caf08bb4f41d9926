/**
 The login limiter (src/auth/mod.rs:42-49, src/auth/mod.rs:884-926): sliding windows in a
 bounded map, whose idle entries are evicted when a new user finds the map full.
 */
module LoginLimit {
  import opened Limit

  const MAX_RATE_ENTRIES: nat := 10_000
  const WINDOW: int := 60 * SECOND
  const IDLE: int := 600 * SECOND

  datatype Entry = Entry(events: seq<int>, lastSeen: int)

  type Entries = map<string, Entry>

  /** evict_idle_entries: keep what was seen within `IDLE`. */
  function Evict(m: Entries, now: int): Entries {
    map u | u in m && now - m[u].lastSeen <= IDLE :: m[u]
  }

  /** The map in which a check of `user` looks: evicted only when the user is new and the map is full. */
  function Swept(m: Entries, user: string, now: int): Entries {
    if user !in m && |m| >= MAX_RATE_ENTRIES then Evict(m, now) else m
  }

  /** The check is refused for lack of room. */
  predicate TurnedAway(m: Entries, user: string, now: int) {
    user !in m && |Swept(m, user, now)| >= MAX_RATE_ENTRIES
  }

  function EventsOf(m: Entries, user: string): seq<int> {
    if user in m then m[user].events else []
  }

  /** The verdict of `check` and the map it leaves. */
  function Check(m: Entries, user: string, limit: u32, now: int): (bool, Entries) {
    if limit == 0 then (true, m)
    else
      var swept := Swept(m, user, now);
      if TurnedAway(m, user, now) then (false, swept)
      else
        var step := Allow(EventsOf(m, user), now, limit, WINDOW);
        (step.0, swept[user := Entry(step.1, now)])
  }

  ghost predicate EntryOk(e: Entry, now: int) {
    Ascending(e.events) && UpTo(e.events, e.lastSeen) && e.lastSeen <= now && |e.events| < 0x1_0000_0000
  }

  class LoginRateLimiter {
    var entries: Entries

    ghost predicate Valid(now: int)
      reads this
    {
      |entries| <= MAX_RATE_ENTRIES && forall u :: u in entries ==> EntryOk(entries[u], now)
    }

    constructor ()
      ensures entries == map[] && forall now :: Valid(now)
    {
      entries := map[];
    }

    method CheckLogin(username: string, limit: u32, now: int) returns (ok: bool)
      requires Valid(now)
      modifies this
      ensures Valid(now)
      ensures (ok, entries) == Check(old(entries), username, limit, now)
      ensures Answers(old(entries), username, limit, now, ok, entries)
    {
      CheckAnswers(entries, username, limit, now);
      CheckKeeps(entries, username, limit, now);
      if limit == 0 {
        return true;
      }
      if username !in entries && |entries| >= MAX_RATE_ENTRIES {
        entries := Evict(entries, now);
        if username !in entries && |entries| >= MAX_RATE_ENTRIES {
          return false;
        }
      }
      var events := if username in entries then entries[username].events else [];
      ok, events := WindowAllow(events, now, limit, WINDOW);
      entries := entries[username := Entry(events, now)];
    }
  }

  /** Seen within the last ten minutes. */
  predicate Active(e: Entry, now: int) {
    now - e.lastSeen <= 600_000_000_000
  }

  /** What is answered, and what is remembered. A limit of zero lifts the check. A user who is remembered, or for whom
      there is room, is judged by the calls of the last minute; to make room, inactive users are forgotten when the
      map holds 10,000; and if it still does, the user is turned away. */
  ghost predicate Answers(m: Entries, user: string, limit: u32, now: int, ok: bool, after: Entries) {
    if limit == 0 then ok && after == m
    else if user in m then
      && user in after && after - {user} == m - {user} && after[user].lastSeen == now
      && Admits(m[user].events, now, limit, 60_000_000_000, ok, after[user].events)
    else if |m| < 10_000 then ok && after == m[user := Entry([now], now)]
    else
      var active := map u | u in m && Active(m[u], now) :: m[u];
      if |active| < 10_000 then ok && after == active[user := Entry([now], now)] else !ok && after == active
  }

  lemma CheckAnswers(m: Entries, user: string, limit: u32, now: int)
    requires MapOk(m, now)
    ensures var r := Check(m, user, limit, now); Answers(m, user, limit, now, r.0, r.1)
  {
    if limit > 0 {
      if user in m {
        hide Allow, Admits;
        AllowAdmits(m[user].events, now, limit, WINDOW);
        var step := Allow(m[user].events, now, limit, WINDOW);
        assert m[user := Entry(step.1, now)] - {user} == m - {user};
      } else {
        FirstAllowed(now, limit);
        hide Allow;
        if |m| >= 10_000 {
          NewcomerAnswered(m, user, limit, now);
        }
      }
    }
  }

  lemma FirstAllowed(now: int, limit: u32)
    requires limit > 0
    ensures Allow([], now, limit, WINDOW) == (true, [now])
  {
    assert Fresh([], now, WINDOW) == [] && [] + [now] == [now];
  }

  lemma NewcomerAnswered(m: Entries, user: string, limit: u32, now: int)
    requires user !in m && |m| >= 10_000 && limit > 0
    ensures var r := Check(m, user, limit, now); Answers(m, user, limit, now, r.0, r.1)
  {
    FirstAllowed(now, limit);
    hide Allow;
    assert Evict(m, now) == map u | u in m && Active(m[u], now) :: m[u];
  }

  lemma EvictShrinks(m: Entries, now: int)
    ensures |Evict(m, now)| <= |m|
  {
    KeySubset(Evict(m, now).Keys, m.Keys);
  }

  lemma {:induction false} KeySubset(a: set<string>, b: set<string>)
    requires a <= b
    ensures |a| <= |b|
  {
    if a != {} {
      var x :| x in a;
      KeySubset(a - {x}, b - {x});
    }
  }

  ghost predicate MapOk(m: Entries, now: int) {
    |m| <= MAX_RATE_ENTRIES && forall u :: u in m ==> EntryOk(m[u], now)
  }

  /** No check makes the map exceed its bound. */
  lemma CheckKeeps(m: Entries, user: string, limit: u32, now: int)
    requires MapOk(m, now)
    ensures MapOk(Check(m, user, limit, now).1, now)
  {
    EvictShrinks(m, now);
    var events := EventsOf(m, user);
    FreshAscends(events, now, WINDOW, now);
    var kept := Fresh(events, now, WINDOW);
    var swept := Swept(m, user, now);
    if limit > 0 && !TurnedAway(m, user, now) {
      var step := Allow(events, now, limit, WINDOW);
      if step.0 {
        assert |kept| % 0x1_0000_0000 == |kept|;
        AppendAscends(kept, now);
      }
      assert EntryOk(Entry(step.1, now), now);
      assert user in swept || |swept| < MAX_RATE_ENTRIES;
    }
  }

  // --------------------------------------------- the unbounded ideal limiter

  datatype Call = Call(user: string, limit: u32, now: int)

  /** The admission history of every user, never pruned and never evicted. */
  type History = map<string, seq<int>>

  function Past(h: History, user: string): seq<int> {
    if user in h then h[user] else []
  }

  function IdealAllows(h: History, c: Call): bool {
    c.limit == 0 || |Fresh(Past(h, c.user), c.now, WINDOW)| < c.limit
  }

  function IdealAfter(h: History, c: Call): History {
    if c.limit > 0 && IdealAllows(h, c) then h[c.user := Past(h, c.user) + [c.now]] else h
  }

  /** The real map shows of every user what the window at `now` or later can still see. */
  ghost predicate Agrees(m: Entries, h: History, now: int) {
    forall u :: Fresh(EventsOf(m, u), now, WINDOW) == Fresh(Past(h, u), now, WINDOW)
  }

  lemma AgreesLater(m: Entries, h: History, t1: int, t2: int)
    requires Agrees(m, h, t1) && t1 <= t2
    ensures Agrees(m, h, t2)
  {
    forall u ensures Fresh(EventsOf(m, u), t2, WINDOW) == Fresh(Past(h, u), t2, WINDOW) {
      FreshOfFresh(EventsOf(m, u), t1, t2, WINDOW);
      FreshOfFresh(Past(h, u), t1, t2, WINDOW);
    }
  }

  /** Idle time exceeds the window and no event is later than `lastSeen`: an evicted entry is all stale. */
  lemma EvictionIsInvisible(m: Entries, user: string, now: int)
    requires MapOk(m, now)
    ensures Fresh(EventsOf(Evict(m, now), user), now, WINDOW) == Fresh(EventsOf(m, user), now, WINDOW)
  {
    if user in m && user !in Evict(m, now) {
      AllStale(m[user].events, m[user].lastSeen, now);
    }
  }

  lemma {:induction false} AllStale(events: seq<int>, lastSeen: int, now: int)
    requires UpTo(events, lastSeen) && now - lastSeen > WINDOW
    ensures Fresh(events, now, WINDOW) == []
  {
    if events != [] {
      AllStale(events[..|events| - 1], lastSeen, now);
    }
  }

  /** The window of the checked user: same verdict, and the windows agree again afterwards. */
  lemma WindowIsIdeal(events: seq<int>, past: seq<int>, limit: u32, now: int)
    requires limit > 0 && |events| < 0x1_0000_0000 && Ascending(events) && UpTo(events, now)
    requires Fresh(events, now, WINDOW) == Fresh(past, now, WINDOW)
    ensures var step := Allow(events, now, limit, WINDOW);
      var allowed := |Fresh(past, now, WINDOW)| < limit;
      && step.0 == allowed
      && Fresh(step.1, now, WINDOW) == Fresh(if allowed then past + [now] else past, now, WINDOW)
  {
    var kept := Fresh(events, now, WINDOW);
    FreshAscends(events, now, WINDOW, now);
    assert |kept| % 0x1_0000_0000 == |kept|;
    FreshOfFresh(events, now, now, WINDOW);
    FreshAppend(kept, now, now, WINDOW);
    FreshAppend(past, now, now, WINDOW);
  }

  /** One check: the verdict is the ideal one unless the user is turned away for lack of room. */
  lemma CheckIsIdeal(m: Entries, h: History, c: Call)
    requires MapOk(m, c.now) && Agrees(m, h, c.now)
    ensures var r := Check(m, c.user, c.limit, c.now);
      if c.limit > 0 && TurnedAway(m, c.user, c.now) then !r.0 && Agrees(r.1, h, c.now)
      else r.0 == IdealAllows(h, c) && Agrees(r.1, IdealAfter(h, c), c.now)
  {
    if c.limit > 0 {
      var swept := Swept(m, c.user, c.now);
      forall u ensures Fresh(EventsOf(swept, u), c.now, WINDOW) == Fresh(Past(h, u), c.now, WINDOW) {
        EvictionIsInvisible(m, u, c.now);
      }
      if !TurnedAway(m, c.user, c.now) {
        var events := EventsOf(m, c.user);
        WindowIsIdeal(events, Past(h, c.user), c.limit, c.now);
        UpdateAgrees(swept, h, c, Allow(events, c.now, c.limit, WINDOW).1);
      }
    }
  }

  lemma UpdateAgrees(swept: Entries, h: History, c: Call, events: seq<int>)
    requires Agrees(swept, h, c.now)
    requires Fresh(events, c.now, WINDOW) == Fresh(Past(IdealAfter(h, c), c.user), c.now, WINDOW)
    ensures Agrees(swept[c.user := Entry(events, c.now)], IdealAfter(h, c), c.now)
  {
    var m, h' := swept[c.user := Entry(events, c.now)], IdealAfter(h, c);
    forall u ensures Fresh(EventsOf(m, u), c.now, WINDOW) == Fresh(Past(h', u), c.now, WINDOW) {
      if u != c.user {
        assert EventsOf(m, u) == EventsOf(swept, u) && Past(h', u) == Past(h, u);
      }
    }
  }

  // ------------------------------------------------------------------- runs

  function Real(calls: seq<Call>): Entries {
    if calls == [] then map[]
    else
      var c := calls[|calls| - 1];
      Check(Real(calls[..|calls| - 1]), c.user, c.limit, c.now).1
  }

  /** The ideal limiter sees every call but those turned away. */
  function Ideal(calls: seq<Call>): History {
    if calls == [] then map[]
    else
      var init, c := calls[..|calls| - 1], calls[|calls| - 1];
      if c.limit > 0 && TurnedAway(Real(init), c.user, c.now) then Ideal(init) else IdealAfter(Ideal(init), c)
  }

  ghost predicate Monotone(calls: seq<Call>) {
    forall i, j :: 0 <= i < j < |calls| ==> calls[i].now <= calls[j].now
  }

  lemma {:induction false} RunAgrees(calls: seq<Call>, now: int)
    requires Monotone(calls) && forall i :: 0 <= i < |calls| ==> calls[i].now <= now
    ensures MapOk(Real(calls), now) && Agrees(Real(calls), Ideal(calls), now)
  {
    if calls != [] {
      var init, c := calls[..|calls| - 1], calls[|calls| - 1];
      RunAgrees(init, c.now);
      CheckIsIdeal(Real(init), Ideal(init), c);
      CheckKeeps(Real(init), c.user, c.limit, c.now);
      AgreesLater(Real(calls), Ideal(calls), c.now, now);
      assert forall u :: u in Real(calls) ==> EntryOk(Real(calls)[u], c.now);
    }
  }

  /** Over every run the map stays within its bound and each verdict is the ideal limiter's,
      except that a user who finds no room is refused. */
  lemma BoundedLimiterIsIdeal(calls: seq<Call>, next: Call)
    requires Monotone(calls) && forall i :: 0 <= i < |calls| ==> calls[i].now <= next.now
    ensures |Real(calls)| <= MAX_RATE_ENTRIES
    ensures Check(Real(calls), next.user, next.limit, next.now).0
         == (IdealAllows(Ideal(calls), next) && !(next.limit > 0 && TurnedAway(Real(calls), next.user, next.now)))
  {
    RunAgrees(calls, next.now);
    CheckIsIdeal(Real(calls), Ideal(calls), next);
  }

  /** Being turned away means: not tracked, and the map is full of users seen within the idle time. */
  lemma TurnedAwayMeansFullOfActives(m: Entries, user: string, now: int)
    requires MapOk(m, now)
    ensures TurnedAway(m, user, now) <==>
      user !in m && |m| == MAX_RATE_ENTRIES && forall u :: u in m ==> now - m[u].lastSeen <= IDLE
  {
    EvictShrinks(m, now);
    var kept := Evict(m, now);
    if forall u :: u in m ==> now - m[u].lastSeen <= IDLE {
      assert kept == m;
    } else {
      var u :| u in m && now - m[u].lastSeen > IDLE;
      KeySubset(kept.Keys, m.Keys - {u});
    }
  }
}
