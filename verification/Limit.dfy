/**
 Sliding-window limiting (src/limit/mod.rs:25-122): the deque that is pruned in place
 agrees with a filter over the whole admission history.
 Instants are integers; durations are in the same unit, one second being `SECOND`.
 */
module Limit {
  import opened Wrappers

  const SECOND: int := 1_000_000_000
  const RPM_WINDOW: int := 60 * SECOND

  type u32 = x: int | 0 <= x < 0x1_0000_0000

  ghost predicate Ascending(s: seq<int>) {
    forall i, j :: 0 <= i < j < |s| ==> s[i] <= s[j]
  }

  ghost predicate UpTo(s: seq<int>, t: int) {
    forall i :: 0 <= i < |s| ==> s[i] <= t
  }

  /** The events of `s` not older than `window` at `now`. */
  function Fresh(s: seq<int>, now: int, window: int): seq<int> {
    if s == [] then []
    else
      var rest := Fresh(s[..|s| - 1], now, window);
      if now - s[|s| - 1] <= window then rest + [s[|s| - 1]] else rest
  }

  /** The result of `window_allow`: the verdict and the deque it leaves. */
  function Allow(queue: seq<int>, now: int, limit: u32, window: int): (bool, seq<int>) {
    if limit == 0 then (true, queue)
    else
      var kept := Fresh(queue, now, window);
      if |kept| % 0x1_0000_0000 >= limit then (false, kept) else (true, kept + [now])
  }

  lemma {:induction false} FreshDropsOld(s: seq<int>, now: int, window: int)
    requires s != [] && now - s[0] > window
    ensures Fresh(s, now, window) == Fresh(s[1..], now, window)
  {
    var n := |s| - 1;
    if n > 0 {
      FreshDropsOld(s[..n], now, window);
      assert s[..n][1..] == s[1..][..n - 1];
    }
  }

  lemma {:induction false} FreshKeepsAll(s: seq<int>, now: int, window: int)
    requires forall i :: 0 <= i < |s| ==> now - s[i] <= window
    ensures Fresh(s, now, window) == s
  {
    if s != [] {
      FreshKeepsAll(s[..|s| - 1], now, window);
      assert s == s[..|s| - 1] + [s[|s| - 1]];
    }
  }

  /** window_allow: pop from the front while too old, then admit if there is room. */
  method WindowAllow(queue: seq<int>, now: int, limit: u32, window: int) returns (ok: bool, left: seq<int>)
    requires Ascending(queue)
    ensures (ok, left) == Allow(queue, now, limit, window)
  {
    left := queue;
    if limit == 0 {
      return true, left;
    }
    while left != [] && now - left[0] > window
      invariant Ascending(left) && Fresh(left, now, window) == Fresh(queue, now, window)
      decreases |left|
    {
      FreshDropsOld(left, now, window);
      left := left[1..];
    }
    FreshKeepsAll(left, now, window);
    if |left| % 0x1_0000_0000 >= limit {
      return false, left;
    }
    left := left + [now];
    ok := true;
  }

  // ------------------------------------------------------------ whole runs

  /** The deque and the admitted calls after `times`, under one limit. */
  function Run(times: seq<int>, limit: u32, window: int): (seq<int>, seq<int>) {
    if times == [] then ([], [])
    else AfterCall(Run(times[..|times| - 1], limit, window), times[|times| - 1], limit, window)
  }

  function AfterCall(r: (seq<int>, seq<int>), now: int, limit: u32, window: int): (seq<int>, seq<int>) {
    var step := Allow(r.0, now, limit, window);
    (step.1, if step.0 then r.1 + [now] else r.1)
  }

  lemma {:induction false} FreshAscends(s: seq<int>, now: int, window: int, t: int)
    requires Ascending(s) && UpTo(s, t)
    ensures Ascending(Fresh(s, now, window)) && UpTo(Fresh(s, now, window), t)
    ensures |Fresh(s, now, window)| <= |s|
  {
    if s != [] {
      var init, last := s[..|s| - 1], s[|s| - 1];
      FreshAscends(init, now, window, last);
    }
  }

  /** Pruning earlier loses nothing that a later filter keeps. */
  lemma {:induction false} FreshOfFresh(s: seq<int>, t1: int, t2: int, window: int)
    requires t1 <= t2
    ensures Fresh(Fresh(s, t1, window), t2, window) == Fresh(s, t2, window)
  {
    if s != [] {
      FreshOfFresh(s[..|s| - 1], t1, t2, window);
      var f := Fresh(s[..|s| - 1], t1, window);
      if t1 - s[|s| - 1] <= window {
        assert (f + [s[|s| - 1]])[..|f|] == f;
      }
    }
  }

  lemma FreshAppend(s: seq<int>, t: int, now: int, window: int)
    ensures Fresh(s + [t], now, window) == Fresh(s, now, window) + (if now - t <= window then [t] else [])
  {
    assert (s + [t])[..|s|] == s;
  }

  /** The deque and the history after a run that ended at `last`. */
  ghost predicate Tracks(r: (seq<int>, seq<int>), last: int, limit: u32, window: int) {
    && Ascending(r.0) && UpTo(r.0, last) && |r.0| <= limit
    && Ascending(r.1) && UpTo(r.1, last)
    && r.0 == Fresh(r.1, last, window)
  }

  lemma TracksLater(r: (seq<int>, seq<int>), last: int, now: int, limit: u32, window: int)
    requires Tracks(r, last, limit, window) && last <= now
    ensures Tracks((Fresh(r.0, now, window), r.1), now, limit, window)
  {
    FreshOfFresh(r.1, last, now, window);
    FreshAscends(r.0, now, window, now);
  }

  lemma CallTracks(r: (seq<int>, seq<int>), last: int, now: int, limit: u32, window: int)
    requires Tracks(r, last, limit, window) && last <= now && limit > 0 && window >= 0
    ensures Tracks(AfterCall(r, now, limit, window), now, limit, window)
  {
    hide Fresh;
    TracksLater(r, last, now, limit, window);
    var kept := Fresh(r.0, now, window);
    assert |kept| % 0x1_0000_0000 == |kept|;
    if |kept| < limit {
      AppendAscends(kept, now);
      AppendAscends(r.1, now);
      FreshAppend(r.1, now, now, window);
    }
  }

  lemma AppendAscends(s: seq<int>, t: int)
    requires Ascending(s) && UpTo(s, t)
    ensures Ascending(s + [t]) && UpTo(s + [t], t)
  {
  }

  /** The pruned deque is the filter of the full admission history. */
  lemma {:induction false} DequeIsHistory(times: seq<int>, limit: u32, window: int)
    requires Ascending(times) && times != [] && limit > 0 && window >= 0
    ensures Tracks(Run(times, limit, window), times[|times| - 1], limit, window)
  {
    var init, now := times[..|times| - 1], times[|times| - 1];
    if init == [] {
      assert Tracks(([], []), now, limit, window);
      CallTracks(Run(init, limit, window), now, now, limit, window);
    } else {
      DequeIsHistory(init, limit, window);
      CallTracks(Run(init, limit, window), init[|init| - 1], now, limit, window);
    }
  }

  /** A call is refused exactly when `limit` admitted calls already lie in its window. */
  lemma RefusedOnlyWhenFull(times: seq<int>, now: int, limit: u32, window: int)
    requires Ascending(times) && UpTo(times, now) && limit > 0 && window >= 0
    ensures var r := Run(times, limit, window);
      && (Allow(r.0, now, limit, window).0 <==> |Fresh(r.1, now, window)| < limit)
      && |Fresh(r.1, now, window)| <= limit
  {
    hide Fresh;
    var r := Run(times, limit, window);
    if times == [] {
      NothingTracked(now, limit, window);
    } else {
      DequeIsHistory(times, limit, window);
      TracksLater(r, times[|times| - 1], now, limit, window);
    }
    var kept := Fresh(r.0, now, window);
    FreshOfFresh(r.1, now, now, window);
    assert |kept| % 0x1_0000_0000 == |kept|;
  }

  lemma NothingTracked(now: int, limit: u32, window: int)
    ensures Tracks(([], []), now, limit, window)
  {
  }

  /** How many of `s` lie in the closed interval. */
  function CountIn(s: seq<int>, from: int, to: int): nat {
    if s == [] then 0
    else CountIn(s[..|s| - 1], from, to) + (if from <= s[|s| - 1] <= to then 1 else 0)
  }

  lemma {:induction false} CountAtMostFresh(s: seq<int>, from: int, to: int, now: int, window: int)
    requires now - from <= window
    ensures CountIn(s, from, to) <= |Fresh(s, now, window)|
  {
    if s != [] {
      CountAtMostFresh(s[..|s| - 1], from, to, now, window);
    }
  }

  /** Every closed interval of window length contains at most `limit` admitted calls. */
  lemma {:induction false} AtMostLimitPerWindow(times: seq<int>, limit: u32, window: int, from: int)
    requires Ascending(times) && limit > 0 && window >= 0
    ensures CountIn(Run(times, limit, window).1, from, from + window) <= limit
  {
    if times != [] {
      var init, now := times[..|times| - 1], times[|times| - 1];
      AtMostLimitPerWindow(init, limit, window, from);
      var admitted := Run(init, limit, window).1;
      RefusedOnlyWhenFull(init, now, limit, window);
      assert (admitted + [now])[..|admitted|] == admitted;
      if from <= now <= from + window {
        CountAtMostFresh(admitted, from, from + window, now, window);
      }
    }
  }

  // -------------------------------------------------------- the RPM limiter

  datatype ApiKey = ApiKey(id: nat, rpm: Option<int>)

  /** None = unlimited; a configured rpm <= 0 lifts the default. */
  function EffectiveLimit(key: ApiKey, defaultRpm: u32): Option<u32>
    requires key.rpm.Some? ==> key.rpm.value < 0x8000_0000
  {
    match key.rpm
    case Some(r) => if r <= 0 then None else Some(r)
    case None => if defaultRpm == 0 then None else Some(defaultRpm)
  }

  function Queue(windows: map<nat, seq<int>>, id: nat): seq<int> {
    if id in windows then windows[id] else []
  }

  /** The limit of a key: its own, if that is positive; the default, if it has none and the default is not zero. */
  predicate LimitIs(key: ApiKey, defaultRpm: u32, limit: u32) {
    limit > 0 && ((key.rpm.Some? && key.rpm.value == limit) || (key.rpm.None? && defaultRpm == limit))
  }

  /** Its own limit lifts any limit when it is not positive, and so does a default of zero when it has none. */
  predicate Unlimited(key: ApiKey, defaultRpm: u32) {
    (key.rpm.Some? && key.rpm.value <= 0) || (key.rpm.None? && defaultRpm == 0)
  }

  lemma LimitOrNone(key: ApiKey, defaultRpm: u32)
    requires key.rpm.Some? ==> key.rpm.value < 0x8000_0000
    ensures EffectiveLimit(key, defaultRpm).None? <==> Unlimited(key, defaultRpm)
    ensures forall limit: u32 :: EffectiveLimit(key, defaultRpm) == Some(limit) <==> LimitIs(key, defaultRpm, limit)
  {
  }

  /** `left` is what `window` leaves of the deque: all but a front part of `k` that are older. */
  ghost predicate PrunedAt(queue: seq<int>, now: int, window: int, left: seq<int>, k: nat) {
    && k <= |queue| && left == queue[k..]
    && (forall i :: 0 <= i < k ==> now - queue[i] > window)
    && (forall i :: k <= i < |queue| ==> now - queue[i] <= window)
  }

  ghost predicate Pruned(queue: seq<int>, now: int, window: int, left: seq<int>) {
    exists k :: PrunedAt(queue, now, window, left, k)
  }

  lemma PrunedMore(queue: seq<int>, now: int, window: int, left: seq<int>, k: nat)
    requires queue != [] && now - queue[0] > window && PrunedAt(queue[1..], now, window, left, k)
    ensures PrunedAt(queue, now, window, left, k + 1)
  {
    assert queue[1..][k..] == queue[k + 1..];
    assert forall i :: 1 <= i < |queue| ==> queue[i] == queue[1..][i - 1];
  }

  lemma {:induction false} FreshIsPruned(queue: seq<int>, now: int, window: int)
    requires Ascending(queue)
    ensures Pruned(queue, now, window, Fresh(queue, now, window))
  {
    hide PrunedAt, Fresh;
    if queue != [] && now - queue[0] > window {
      FreshDropsOld(queue, now, window);
      FreshIsPruned(queue[1..], now, window);
      var k :| PrunedAt(queue[1..], now, window, Fresh(queue, now, window), k);
      PrunedMore(queue, now, window, Fresh(queue, now, window), k);
    } else {
      FreshKeepsAll(queue, now, window);
      NonePruned(queue, now, window);
    }
  }

  lemma NonePruned(queue: seq<int>, now: int, window: int)
    requires forall i :: 0 <= i < |queue| ==> now - queue[i] <= window
    ensures PrunedAt(queue, now, window, queue, 0)
  {
  }

  lemma {:induction false} FreshIsCounted(queue: seq<int>, now: int, window: int)
    requires UpTo(queue, now)
    ensures |Fresh(queue, now, window)| == CountIn(queue, now - window, now)
  {
    if queue != [] {
      FreshIsCounted(queue[..|queue| - 1], now, window);
    }
  }

  /** One more call at `now`: admitted when fewer than `limit` lie in the window that ends there. */
  ghost predicate Admits(queue: seq<int>, now: int, limit: u32, window: int, ok: bool, left: seq<int>) {
    && (|queue| < 0x1_0000_0000 ==> (ok <==> CountIn(queue, now - window, now) < limit))
    && if ok then left != [] && left[|left| - 1] == now && Pruned(queue, now, window, left[..|left| - 1])
       else Pruned(queue, now, window, left)
  }

  lemma AllowAdmits(queue: seq<int>, now: int, limit: u32, window: int)
    requires Ascending(queue) && UpTo(queue, now) && limit > 0
    ensures var r := Allow(queue, now, limit, window); Admits(queue, now, limit, window, r.0, r.1)
  {
    hide Pruned, Fresh, CountIn;
    FreshIsPruned(queue, now, window);
    FreshIsCounted(queue, now, window);
    FreshAscends(queue, now, window, now);
    var kept := Fresh(queue, now, window);
    assert (kept + [now])[..|kept|] == kept;
    assert |queue| < 0x1_0000_0000 ==> |kept| % 0x1_0000_0000 == |kept|;
  }

  class RateLimiter {
    var windows: map<nat, seq<int>>

    ghost predicate Valid()
      reads this
    {
      forall id :: id in windows ==> Ascending(windows[id])
    }

    constructor ()
      ensures Valid() && windows == map[]
    {
      windows := map[];
    }

    /** `now` is not before any instant the key's deque holds: the clock is monotonic. */
    method CheckRpm(key: ApiKey, defaultRpm: u32, now: int) returns (ok: bool)
      requires Valid() && (key.rpm.Some? ==> key.rpm.value < 0x8000_0000)
      requires UpTo(Queue(windows, key.id), now)
      modifies this
      ensures Valid()
      ensures match EffectiveLimit(key, defaultRpm)
        case None => ok && windows == old(windows)
        case Some(limit) =>
          var r := Allow(Queue(old(windows), key.id), now, limit, RPM_WINDOW);
          ok == r.0 && windows == old(windows)[key.id := r.1]
      ensures Unlimited(key, defaultRpm) ==> ok && windows == old(windows)
      ensures forall limit: u32 :: LimitIs(key, defaultRpm, limit) ==>
        Admits(Queue(old(windows), key.id), now, limit, 60_000_000_000, ok, Queue(windows, key.id))
      ensures forall id :: id != key.id ==> Queue(windows, id) == Queue(old(windows), id)
    {
      LimitOrNone(key, defaultRpm);
      var limit := EffectiveLimit(key, defaultRpm);
      if limit.None? {
        return true;
      }
      var queue := Queue(windows, key.id);
      FreshAscends(queue, now, RPM_WINDOW, now);
      var left;
      AllowAdmits(queue, now, limit.value, RPM_WINDOW);
      ok, left := WindowAllow(queue, now, limit.value, RPM_WINDOW);
      windows := windows[key.id := left];
    }

    /** (limit, remaining) without touching the deque. */
    method RpmStatus(key: ApiKey, defaultRpm: u32, now: int) returns (status: Option<(u32, u32)>)
      requires Valid() && (key.rpm.Some? ==> key.rpm.value < 0x8000_0000)
      requires |Queue(windows, key.id)| < 0x1_0000_0000
      ensures status.Some? <==> EffectiveLimit(key, defaultRpm).Some?
      ensures status.Some? ==>
        var limit := EffectiveLimit(key, defaultRpm).value;
        status.value == (limit, Remaining(limit, Queue(windows, key.id), now))
      ensures status.None? <==> Unlimited(key, defaultRpm)
      ensures status.Some? ==> LimitIs(key, defaultRpm, status.value.0)
      ensures status.Some? && UpTo(Queue(windows, key.id), now) ==>
        var used := CountIn(Queue(windows, key.id), now - 60_000_000_000 + 1, now);
        status.value.1 == if used < status.value.0 then status.value.0 - used else 0
    {
      LimitOrNone(key, defaultRpm);
      if UpTo(Queue(windows, key.id), now) {
        FreshIsCounted(Queue(windows, key.id), now, RPM_WINDOW - 1);
      }
      var limit := EffectiveLimit(key, defaultRpm);
      if limit.None? {
        return None;
      }
      var queue := Queue(windows, key.id);
      var used := 0;
      var i := 0;
      while i < |queue|
        invariant 0 <= i <= |queue|
        invariant used == |Fresh(queue[..i], now, RPM_WINDOW - 1)| <= i
      {
        assert queue[..i + 1][..i] == queue[..i];
        if now - queue[i] < RPM_WINDOW {
          used := used + 1;
        }
        i := i + 1;
      }
      assert queue[..i] == queue;
      status := Some((limit.value, if used < limit.value then limit.value - used else 0));
    }

    method RemoveKey(id: nat)
      requires Valid()
      modifies this
      ensures Valid() && windows == old(windows) - {id}
    {
      windows := windows - {id};
    }
  }

  /** What `rpm_status` shows: events younger than 60 s count, saturating at zero. */
  function Remaining(limit: u32, queue: seq<int>, now: int): u32 {
    var used := |Fresh(queue, now, RPM_WINDOW - 1)|;
    if used < limit then limit - used else 0
  }

  lemma {:induction false} FreshSplits(s: seq<int>, now: int)
    ensures |Fresh(s, now, RPM_WINDOW)| == |Fresh(s, now, RPM_WINDOW - 1)| + CountIn(s, now - RPM_WINDOW, now - RPM_WINDOW)
  {
    if s != [] {
      FreshSplits(s[..|s| - 1], now);
    }
  }

  /** The header shows the calls the limiter would still admit, plus the events exactly 60 s old. */
  lemma StatusIsRemaining(times: seq<int>, now: int, limit: u32)
    requires Ascending(times) && UpTo(times, now) && limit > 0
    ensures var r := Run(times, limit, RPM_WINDOW);
      var inWindow := |Fresh(r.1, now, RPM_WINDOW)|;
      && inWindow <= limit
      && Remaining(limit, r.0, now) == limit - inWindow + CountIn(r.1, now - RPM_WINDOW, now - RPM_WINDOW)
  {
    var r := Run(times, limit, RPM_WINDOW);
    RefusedOnlyWhenFull(times, now, limit, RPM_WINDOW);
    if times != [] {
      DequeIsHistory(times, limit, RPM_WINDOW);
      NarrowerFilter(r.1, times[|times| - 1], now);
    }
    FreshSplits(r.1, now);
  }

  lemma {:induction false} NarrowerFilter(s: seq<int>, t1: int, t2: int)
    requires t1 <= t2
    ensures Fresh(Fresh(s, t1, RPM_WINDOW), t2, RPM_WINDOW - 1) == Fresh(s, t2, RPM_WINDOW - 1)
  {
    if s != [] {
      NarrowerFilter(s[..|s| - 1], t1, t2);
      var f := Fresh(s[..|s| - 1], t1, RPM_WINDOW);
      if t1 - s[|s| - 1] <= RPM_WINDOW {
        FreshAppend(f, s[|s| - 1], t2, RPM_WINDOW - 1);
      }
    }
  }

  // ------------------------------------------------- keys do not interfere

  /** One successful or refused check of key `id` at `now`, as `CheckRpm` leaves the map. */
  function Checked(windows: map<nat, seq<int>>, id: nat, now: int, limit: u32): map<nat, seq<int>> {
    windows[id := Allow(Queue(windows, id), now, limit, RPM_WINDOW).1]
  }

  function AllChecked(calls: seq<(nat, int)>, limit: u32): map<nat, seq<int>> {
    if calls == [] then map[]
    else
      var last := calls[|calls| - 1];
      Checked(AllChecked(calls[..|calls| - 1], limit), last.0, last.1, limit)
  }

  function TimesOf(calls: seq<(nat, int)>, id: nat): seq<int> {
    if calls == [] then []
    else
      var last := calls[|calls| - 1];
      var rest := TimesOf(calls[..|calls| - 1], id);
      if last.0 == id then rest + [last.1] else rest
  }

  /** The deque of a key depends on that key's own calls only. */
  lemma {:induction false} KeysAreIndependent(calls: seq<(nat, int)>, limit: u32, id: nat)
    ensures Queue(AllChecked(calls, limit), id) == Run(TimesOf(calls, id), limit, RPM_WINDOW).0
  {
    if calls != [] {
      var init, last := calls[..|calls| - 1], calls[|calls| - 1];
      KeysAreIndependent(init, limit, id);
      if last.0 == id {
        var times := TimesOf(init, id);
        assert (times + [last.1])[..|times|] == times;
      }
    }
  }
}
