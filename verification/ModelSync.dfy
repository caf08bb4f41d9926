/**
 Reconciling the routes an upstream manages automatically with the models it offers
 (src/admin/model_sync.rs:210-343), one transaction per sync.
 */
module ModelSync {
  import opened Wrappers

  /** `auto` is managed_by = 'auto'; everything else about a manual route is left to its owner. */
  datatype Route = Route(pattern: string, upstream: nat, auto: bool, settings: string)

  type Table = map<nat, Route>

  /** Priority 10, weight 1, enabled, two retries, the five default retry statuses, unlocked. */
  const AUTO_SETTINGS: string := "10,1,TRUE,2,{429,500,502,503,504},FALSE,0"

  datatype Report = Report(
    fetched: nat, desired: nat, excluded: nat, added: seq<string>, removed: seq<string>, skipped: seq<string>, kept: nat)

  // -------------------------------------------------------------- meanings

  function Desired(fetched: seq<string>, exclude: set<string>): seq<string> {
    if fetched == [] then []
    else
      var rest := Desired(fetched[..|fetched| - 1], exclude);
      var m := fetched[|fetched| - 1];
      if m in exclude then rest else rest + [m]
  }

  predicate OwnPattern(t: Table, up: nat, m: string) {
    exists id :: id in t && t[id].upstream == up && t[id].pattern == m
  }

  predicate OtherPattern(t: Table, up: nat, m: string) {
    exists id :: id in t && t[id].upstream != up && t[id].pattern == m
  }

  /** The managed routes of `up` that are no longer wanted. */
  function Stale(t: Table, up: nat, desired: seq<string>): set<nat> {
    set id | id in t && t[id].upstream == up && t[id].auto && t[id].pattern !in desired
  }

  function Kept(t: Table, up: nat, desired: seq<string>): set<nat> {
    set id | id in t && t[id].upstream == up && t[id].auto && t[id].pattern in desired
  }

  function ToAdd(t: Table, up: nat, desired: seq<string>): seq<string> {
    if desired == [] then []
    else
      var rest := ToAdd(t, up, desired[..|desired| - 1]);
      var m := desired[|desired| - 1];
      if OwnPattern(t, up, m) || OtherPattern(t, up, m) then rest else rest + [m]
  }

  function ToSkip(t: Table, up: nat, desired: seq<string>): seq<string> {
    if desired == [] then []
    else
      var rest := ToSkip(t, up, desired[..|desired| - 1]);
      var m := desired[|desired| - 1];
      if !OwnPattern(t, up, m) && OtherPattern(t, up, m) then rest + [m] else rest
  }

  /** One INSERT per name, with consecutive new ids. */
  function Inserted(t: Table, nextId: nat, up: nat, names: seq<string>): Table {
    if names == [] then t
    else
      var n := |names| - 1;
      Inserted(t, nextId, up, names[..n])[nextId + n := Route(names[n], up, true, AUTO_SETTINGS)]
  }

  /** The table after a sync that commits. */
  function Synced(t: Table, nextId: nat, up: nat, desired: seq<string>): Table {
    Inserted(t - Stale(t, up, desired), nextId, up, ToAdd(t, up, desired))
  }

  /** `names` are the patterns of exactly these rows, one each, in some order. */
  ghost predicate Lists(names: seq<string>, t: Table, ids: set<nat>) {
    && |names| == |ids|
    && ids <= t.Keys
    && forall m :: m in names <==> exists id :: id in ids && t[id].pattern == m
  }

  lemma ListsMore(names: seq<string>, t: Table, ids: set<nat>, id: nat)
    requires Lists(names, t, ids) && id in t && id !in ids
    ensures Lists(names + [t[id].pattern], t, ids + {id})
  {
    var more := names + [t[id].pattern];
    forall m ensures m in more <==> exists x :: x in ids + {id} && t[x].pattern == m {
      if m in names {
        var x :| x in ids && t[x].pattern == m;
        assert x in ids + {id};
      }
    }
  }

  predicate NoRepeats(s: seq<string>) {
    forall i, j :: 0 <= i < j < |s| ==> s[i] != s[j]
  }

  /** The unique index model_routes_auto_uniq. */
  ghost predicate AutoUnique(t: Table) {
    forall a, b :: a in t && b in t && a != b && t[a].auto && t[b].auto ==>
      t[a].pattern != t[b].pattern || t[a].upstream != t[b].upstream
  }

  /** No pattern is auto-managed by two upstreams. */
  ghost predicate OneManager(t: Table) {
    forall a, b :: a in t && b in t && t[a].auto && t[b].auto && t[a].pattern == t[b].pattern ==>
      t[a].upstream == t[b].upstream
  }

  // ------------------------------------------------------------ sync_auto

  /** Part 2: a route for every wanted model nobody routes yet; not ok when the index forbids an insert. */
  method AddMissing(rows: Table, nextId: nat, up: nat, desired: seq<string>, start: Table)
    returns (t: Table, added: seq<string>, skipped: seq<string>, ok: bool)
    ensures ok <==> NoRepeats(ToAdd(rows, up, desired))
    ensures ok ==> added == ToAdd(rows, up, desired) && skipped == ToSkip(rows, up, desired)
    ensures ok ==> t == Inserted(start, nextId, up, added)
  {
    t, added, skipped, ok := start, [], [], true;
    var i := 0;
    while i < |desired|
      invariant 0 <= i <= |desired|
      invariant AddingTo(rows, nextId, up, desired, start, i, t, added, skipped)
    {
      hide AddingTo, OwnPattern, OtherPattern;
      t, added, skipped, ok := AddOne(rows, nextId, up, desired, start, i, t, added, skipped);
      if !ok {
        return;
      }
      i := i + 1;
    }
    assert desired[..i] == desired;
  }

  /** The state of the insert loop after `i` names. */
  ghost predicate AddingTo(rows: Table, nextId: nat, up: nat, desired: seq<string>, start: Table, i: nat,
                           t: Table, added: seq<string>, skipped: seq<string>)
    requires i <= |desired|
  {
    && added == ToAdd(rows, up, desired[..i]) && skipped == ToSkip(rows, up, desired[..i])
    && NoRepeats(added) && t == Inserted(start, nextId, up, added)
  }

  /** One round: the upstream's own name is left, another's is skipped, a new one is inserted. */
  method AddOne(rows: Table, nextId: nat, up: nat, desired: seq<string>, ghost start: Table, i: nat,
                t: Table, added: seq<string>, skipped: seq<string>)
    returns (t': Table, added': seq<string>, skipped': seq<string>, ok: bool)
    requires i < |desired| && AddingTo(rows, nextId, up, desired, start, i, t, added, skipped)
    ensures ok ==> AddingTo(rows, nextId, up, desired, start, i + 1, t', added', skipped')
    ensures !ok ==> !NoRepeats(ToAdd(rows, up, desired))
  {
    hide OwnPattern, OtherPattern, ToAdd, ToSkip, Inserted, NoRepeats;
    t', added', skipped', ok := t, added, skipped, true;
    var m := desired[i];
    NextWanted(rows, up, desired, i);
    if !OwnPattern(rows, up, m) {
      if OtherPattern(rows, up, m) {
        skipped' := skipped + [m];
      } else if m in added {
        RepeatedTail(added, m);
        AddedGrows(rows, up, desired, i + 1);
        ok := false;
      } else {
        NextInserted(start, nextId, up, added, m);
        t' := t[nextId + |added| := Route(m, up, true, AUTO_SETTINGS)];
        added' := added + [m];
      }
    }
  }

  class RouteStore {
    var rows: Table
    var nextId: nat

    ghost predicate Valid()
      reads this
    {
      AutoUnique(rows) && forall id :: id in rows ==> id < nextId
    }

    constructor ()
      ensures Valid() && rows == map[]
    {
      rows := map[];
      nextId := 0;
    }

    /** The transaction commits unless an insert breaks the unique index, that is, unless a model
        to be added was fetched twice; a failed transaction leaves the table as it was. */
    method SyncAuto(up: nat, exclude: set<string>, fetched: seq<string>) returns (r: Option<Report>)
      requires Valid()
      modifies this
      ensures Valid()
      ensures var desired := Desired(fetched, exclude);
        r.Some? <==> NoRepeats(ToAdd(old(rows), up, desired))
      ensures r.None? ==> rows == old(rows) && nextId == old(nextId)
      ensures r.Some? ==>
        var desired := Desired(fetched, exclude);
        && rows == Synced(old(rows), old(nextId), up, desired)
        && r.value.added == ToAdd(old(rows), up, desired)
        && r.value.skipped == ToSkip(old(rows), up, desired)
        && r.value.kept == |Kept(old(rows), up, desired)|
        && Lists(r.value.removed, old(rows), Stale(old(rows), up, desired))
        && r.value.desired == |desired| && r.value.excluded == |fetched| - |desired|
      ensures r.Some? ==> Reconciled(old(rows), old(nextId), up, exclude, fetched, rows, r.value)
      ensures r.None? <==> AskedTwice(old(rows), exclude, fetched)
    {
      RepeatsFail(rows, up, exclude, fetched);
      var desired := FilterDesired(fetched, exclude);
      var t, removed, kept := DropStale(up, desired);
      var before := rows;
      var added, skipped, ok;
      t, added, skipped, ok := AddMissing(rows, nextId, up, desired, t);
      if !ok {
        return None;
      }
      SyncedKeepsIndex(before, nextId, up, desired);
      hide Reconciled;
      SyncReconciles(before, nextId, up, exclude, fetched,
                     Report(|fetched|, |desired|, |fetched| - |desired|, added, removed, skipped, kept));
      rows := t;
      nextId := nextId + |added|;
      r := Some(Report(|fetched|, |desired|, |fetched| - |desired|, added, removed, skipped, kept));
    }

    /** Part 1: drop the managed routes that are no longer wanted, in whatever order they come. */
    method DropStale(up: nat, desired: seq<string>) returns (t: Table, removed: seq<string>, kept: nat)
      ensures t == rows - Stale(rows, up, desired)
      ensures kept == |Kept(rows, up, desired)| && Lists(removed, rows, Stale(rows, up, desired))
    {
      var left := Managed(rows, up);
      t, removed, kept := rows, [], 0;
      assert Stale(rows, up, desired) - left == {} && Kept(rows, up, desired) - left == {};
      while left != {}
        invariant left <= Managed(rows, up)
        invariant Dropping(rows, up, desired, left, t, removed, kept)
        decreases left
      {
        NatInhabited(left);
        var id :| id in left;
        DropsOne(rows, up, desired, left, t, removed, kept, id);
        if rows[id].pattern !in desired {
          t := t - {id};
          removed := removed + [rows[id].pattern];
        } else {
          kept := kept + 1;
        }
        left := left - {id};
      }
      assert Stale(rows, up, desired) - left == Stale(rows, up, desired);
      assert Kept(rows, up, desired) - left == Kept(rows, up, desired);
    }
  }

  function Managed(t: Table, up: nat): set<nat> {
    set id | id in t && t[id].upstream == up && t[id].auto
  }

  /** The managed routes outside `left` have been dealt with. */
  ghost predicate Dropping(
    rows: Table, up: nat, desired: seq<string>, left: set<nat>, t: Table, removed: seq<string>, kept: nat)
  {
    && t == rows - (Stale(rows, up, desired) - left)
    && kept == |Kept(rows, up, desired) - left|
    && Lists(removed, rows, Stale(rows, up, desired) - left)
  }

  lemma DropsOne(
    rows: Table, up: nat, desired: seq<string>, left: set<nat>, t: Table, removed: seq<string>, kept: nat, id: nat)
    requires Dropping(rows, up, desired, left, t, removed, kept) && id in left && left <= Managed(rows, up)
    ensures if rows[id].pattern !in desired
      then Dropping(rows, up, desired, left - {id}, t - {id}, removed + [rows[id].pattern], kept)
      else Dropping(rows, up, desired, left - {id}, t, removed, kept + 1)
  {
    var stale, stay := Stale(rows, up, desired), Kept(rows, up, desired);
    assert id in Managed(rows, up);
    if rows[id].pattern !in desired {
      assert id in stale && id !in stay;
      assert stale - (left - {id}) == (stale - left) + {id};
      assert stay - (left - {id}) == stay - left;
      ListsMore(removed, rows, stale - left, id);
      assert rows - ((stale - left) + {id}) == (rows - (stale - left)) - {id};
    } else {
      assert id in stay && id !in stale;
      assert stay - (left - {id}) == (stay - left) + {id};
      assert stale - (left - {id}) == stale - left;
    }
  }

  lemma NatInhabited(s: set<nat>)
    ensures s == {} || exists x :: x in s
  {
    if forall x :: x !in s {
      assert s == {};
    }
  }

  method FilterDesired(fetched: seq<string>, exclude: set<string>) returns (desired: seq<string>)
    ensures desired == Desired(fetched, exclude) && |desired| <= |fetched|
  {
    desired := [];
    var i := 0;
    while i < |fetched|
      invariant 0 <= i <= |fetched|
      invariant desired == Desired(fetched[..i], exclude) && |desired| <= i
    {
      assert fetched[..i + 1][..i] == fetched[..i];
      if fetched[i] !in exclude {
        desired := desired + [fetched[i]];
      }
      i := i + 1;
    }
    assert fetched[..i] == fetched;
  }

  // ----------------------------------------------------------------- lemmas

  lemma NextWanted(t: Table, up: nat, desired: seq<string>, i: nat)
    requires i < |desired|
    ensures var m := desired[i];
      && ToAdd(t, up, desired[..i + 1])
         == ToAdd(t, up, desired[..i]) + (if OwnPattern(t, up, m) || OtherPattern(t, up, m) then [] else [m])
      && ToSkip(t, up, desired[..i + 1])
         == ToSkip(t, up, desired[..i]) + (if !OwnPattern(t, up, m) && OtherPattern(t, up, m) then [m] else [])
  {
    hide OwnPattern, OtherPattern;
    assert desired[..i + 1][..i] == desired[..i];
  }

  lemma NextInserted(t: Table, nextId: nat, up: nat, names: seq<string>, m: string)
    requires NoRepeats(names) && m !in names
    ensures Inserted(t, nextId, up, names + [m])
         == Inserted(t, nextId, up, names)[nextId + |names| := Route(m, up, true, AUTO_SETTINGS)]
    ensures NoRepeats(names + [m])
  {
    assert (names + [m])[..|names|] == names;
  }

  lemma RepeatedTail(s: seq<string>, m: string)
    requires m in s
    ensures !NoRepeats(s + [m])
  {
    var i :| 0 <= i < |s| && s[i] == m;
    assert (s + [m])[i] == (s + [m])[|s|];
  }

  /** A row shows its pattern as one of the upstream's own or of another's. */
  lemma RowShows(t: Table, up: nat, id: nat)
    requires id in t
    ensures OwnPattern(t, up, t[id].pattern) || OtherPattern(t, up, t[id].pattern)
  {
  }

  lemma {:induction false} AddedGrows(t: Table, up: nat, desired: seq<string>, i: nat)
    requires i <= |desired|
    ensures ToAdd(t, up, desired[..i]) <= ToAdd(t, up, desired)
    ensures !NoRepeats(ToAdd(t, up, desired[..i])) ==> !NoRepeats(ToAdd(t, up, desired))
    decreases |desired| - i
  {
    if i < |desired| {
      AddedGrows(t, up, desired, i + 1);
      assert desired[..i + 1][..i] == desired[..i];
    } else {
      assert desired[..i] == desired;
    }
  }

  lemma {:induction false} ToAddIs(t: Table, up: nat, desired: seq<string>)
    ensures forall m :: m in ToAdd(t, up, desired) <==>
      m in desired && !OwnPattern(t, up, m) && !OtherPattern(t, up, m)
    ensures forall m :: m in ToSkip(t, up, desired) <==>
      m in desired && !OwnPattern(t, up, m) && OtherPattern(t, up, m)
  {
    if desired != [] {
      ToAddIs(t, up, desired[..|desired| - 1]);
      assert desired == desired[..|desired| - 1] + [desired[|desired| - 1]];
    }
  }

  /** Row `id` was inserted for its place in `names`. */
  predicate InsertedAt(u: Table, nextId: nat, up: nat, names: seq<string>, id: nat) {
    nextId <= id < nextId + |names| && id in u && u[id] == Route(names[id - nextId], up, true, AUTO_SETTINGS)
  }

  lemma {:induction false} InsertedIs(t: Table, nextId: nat, up: nat, names: seq<string>)
    requires forall id :: id in t ==> id < nextId
    ensures var u := Inserted(t, nextId, up, names);
      && (forall id :: id in t ==> id in u && u[id] == t[id])
      && (forall id: nat :: nextId <= id < nextId + |names| ==> InsertedAt(u, nextId, up, names, id))
      && (forall id :: id in u ==> id in t || nextId <= id < nextId + |names|)
  {
    if names != [] {
      var n := |names| - 1;
      var front := names[..n];
      var prior, u := Inserted(t, nextId, up, front), Inserted(t, nextId, up, names);
      assert u == prior[nextId + n := Route(names[n], up, true, AUTO_SETTINGS)];
      InsertedIs(t, nextId, up, front);
      hide Inserted;
      forall id: nat | nextId <= id < nextId + |names| ensures InsertedAt(u, nextId, up, names, id) {
        if id < nextId + n {
          assert InsertedAt(prior, nextId, up, front, id);
          assert front[id - nextId] == names[id - nextId];
        }
      }
    }
  }

  /** Where a row of the synced table comes from. */
  lemma SyncedRow(t: Table, nextId: nat, up: nat, desired: seq<string>, id: nat)
    requires (forall x :: x in t ==> x < nextId) && id in Synced(t, nextId, up, desired)
    ensures var r := Synced(t, nextId, up, desired)[id];
      if id < nextId then id in t && id !in Stale(t, up, desired) && r == t[id]
      else id - nextId < |ToAdd(t, up, desired)| && r == Route(ToAdd(t, up, desired)[id - nextId], up, true, AUTO_SETTINGS)
  {
    var base, names := t - Stale(t, up, desired), ToAdd(t, up, desired);
    var u := Synced(t, nextId, up, desired);
    assert u == Inserted(base, nextId, up, names);
    hide Inserted, Stale, ToAdd, Synced;
    InsertedIs(base, nextId, up, names);
    assert id in base ==> id < nextId && base[id] == t[id];
    if id < nextId {
      assert id in base && u[id] == base[id];
    } else {
      assert InsertedAt(u, nextId, up, names, id);
    }
  }

  lemma SyncedKeeps(t: Table, nextId: nat, up: nat, desired: seq<string>)
    requires forall x :: x in t ==> x < nextId
    ensures var u := Synced(t, nextId, up, desired);
      && (forall id :: id in t && id !in Stale(t, up, desired) ==> id in u && u[id] == t[id])
      && (forall m :: m in ToAdd(t, up, desired) ==> OwnPattern(u, up, m))
  {
    var base, names := t - Stale(t, up, desired), ToAdd(t, up, desired);
    var u := Synced(t, nextId, up, desired);
    assert u == Inserted(base, nextId, up, names);
    hide Inserted, Stale, ToAdd, Synced;
    InsertedIs(base, nextId, up, names);
    forall id | id in t && id !in Stale(t, up, desired) ensures id in u && u[id] == t[id] {
      assert id in base && base[id] == t[id];
    }
    forall m | m in names ensures OwnPattern(u, up, m) {
      var i :| 0 <= i < |names| && names[i] == m;
      var id: nat := nextId + i;
      assert InsertedAt(u, nextId, up, names, id);
      assert names[id - nextId] == m;
    }
  }

  lemma SyncedKeepsIndex(t: Table, nextId: nat, up: nat, desired: seq<string>)
    requires AutoUnique(t) && (forall x :: x in t ==> x < nextId) && NoRepeats(ToAdd(t, up, desired))
    ensures AutoUnique(Synced(t, nextId, up, desired))
    ensures forall id :: id in Synced(t, nextId, up, desired) ==> id < nextId + |ToAdd(t, up, desired)|
  {
    var u := Synced(t, nextId, up, desired);
    ToAddIs(t, up, desired);
    forall a, b | a in u && b in u && a != b && u[a].auto && u[b].auto
      ensures u[a].pattern != u[b].pattern || u[a].upstream != u[b].upstream
    {
      SyncedRow(t, nextId, up, desired, a);
      SyncedRow(t, nextId, up, desired, b);
    }
    InsertedIs(t - Stale(t, up, desired), nextId, up, ToAdd(t, up, desired));
  }

  /** Manual routes and other upstreams' routes are never touched, and new routes are managed ones of `up`. */
  lemma OnlyManagedRoutesChange(t: Table, nextId: nat, up: nat, desired: seq<string>)
    requires forall x :: x in t ==> x < nextId
    ensures var u := Synced(t, nextId, up, desired);
      && (forall id :: id in t && (!t[id].auto || t[id].upstream != up) ==> id in u && u[id] == t[id])
      && (forall id :: id in u && id !in t ==> u[id].auto && u[id].upstream == up && u[id].pattern in desired)
  {
    SyncedKeeps(t, nextId, up, desired);
    ToAddIs(t, up, desired);
    var u := Synced(t, nextId, up, desired);
    forall id | id in u && id !in t ensures u[id].auto && u[id].upstream == up && u[id].pattern in desired {
      SyncedRow(t, nextId, up, desired, id);
    }
  }

  /** Afterwards the managed routes of `up` are wanted ones, and every wanted model has a route or was skipped. */
  lemma SyncedReconciles(t: Table, nextId: nat, up: nat, desired: seq<string>)
    requires forall x :: x in t ==> x < nextId
    ensures var u := Synced(t, nextId, up, desired);
      && (forall id :: id in u && u[id].auto && u[id].upstream == up ==> u[id].pattern in desired)
      && (forall m :: m in desired ==> (OwnPattern(u, up, m) <==> m !in ToSkip(t, up, desired)))
      && (forall m :: OtherPattern(u, up, m) <==> OtherPattern(t, up, m))
  {
    var u := Synced(t, nextId, up, desired);
    ToAddIs(t, up, desired);
    SyncedKeeps(t, nextId, up, desired);
    forall id | id in u ensures u[id].auto && u[id].upstream == up ==> u[id].pattern in desired {
      SyncedRow(t, nextId, up, desired, id);
    }
    forall m | m in desired ensures OwnPattern(u, up, m) <==> m !in ToSkip(t, up, desired) {
      if OwnPattern(t, up, m) {
        var id :| id in t && t[id].upstream == up && t[id].pattern == m;
        assert id in u && u[id] == t[id];
      }
      if OwnPattern(u, up, m) {
        var id :| id in u && u[id].upstream == up && u[id].pattern == m;
        SyncedRow(t, nextId, up, desired, id);
      }
    }
    forall m ensures OtherPattern(u, up, m) <==> OtherPattern(t, up, m) {
      if OtherPattern(t, up, m) {
        var id :| id in t && t[id].upstream != up && t[id].pattern == m;
        assert id in u && u[id] == t[id];
      }
      if OtherPattern(u, up, m) {
        var id :| id in u && u[id].upstream != up && u[id].pattern == m;
        SyncedRow(t, nextId, up, desired, id);
      }
    }
  }

  /** The wanted models are partitioned into added, skipped and those the upstream already routes. */
  lemma DesiredIsPartitioned(t: Table, up: nat, desired: seq<string>, m: string)
    requires m in desired
    ensures m in ToAdd(t, up, desired) || m in ToSkip(t, up, desired) || OwnPattern(t, up, m)
    ensures !(m in ToAdd(t, up, desired) && m in ToSkip(t, up, desired))
    ensures OwnPattern(t, up, m) ==> m !in ToAdd(t, up, desired) && m !in ToSkip(t, up, desired)
  {
    ToAddIs(t, up, desired);
  }

  lemma {:induction false} NothingToAdd(t: Table, up: nat, desired: seq<string>)
    requires forall m :: m in desired ==> OwnPattern(t, up, m) || OtherPattern(t, up, m)
    ensures ToAdd(t, up, desired) == []
  {
    if desired != [] {
      assert desired == desired[..|desired| - 1] + [desired[|desired| - 1]];
      NothingToAdd(t, up, desired[..|desired| - 1]);
    }
  }

  lemma {:induction false} SameSkips(t: Table, u: Table, up: nat, desired: seq<string>)
    requires forall m :: m in desired ==>
      ((!OwnPattern(t, up, m) && OtherPattern(t, up, m)) <==> (!OwnPattern(u, up, m) && OtherPattern(u, up, m)))
    ensures ToSkip(t, up, desired) == ToSkip(u, up, desired)
  {
    if desired != [] {
      assert desired == desired[..|desired| - 1] + [desired[|desired| - 1]];
      SameSkips(t, u, up, desired[..|desired| - 1]);
    }
  }

  /** Syncing again with the same list changes nothing and reports the same skips. */
  lemma SyncIsIdempotent(t: Table, nextId: nat, up: nat, desired: seq<string>, nextId2: nat)
    requires forall x :: x in t ==> x < nextId
    ensures var u := Synced(t, nextId, up, desired);
      && Synced(u, nextId2, up, desired) == u
      && ToAdd(u, up, desired) == [] && Stale(u, up, desired) == {}
      && ToSkip(u, up, desired) == ToSkip(t, up, desired)
  {
    var u := Synced(t, nextId, up, desired);
    SyncedReconciles(t, nextId, up, desired);
    ToAddIs(t, up, desired);
    NothingToAdd(u, up, desired);
    assert Stale(u, up, desired) == {};
    SameSkips(t, u, up, desired);
    assert u - {} == u;
  }

  // ------------------------------------------------------------ in plain terms

  /** Offered and not excluded. */
  predicate Asked(fetched: seq<string>, exclude: set<string>, m: string) {
    m in fetched && m !in exclude
  }

  /** No upstream has a route for the model, managed or not. */
  predicate Unrouted(t: Table, m: string) {
    forall id :: id in t ==> t[id].pattern != m
  }

  /** Some upstream has one, but not this. */
  ghost predicate OnlyOthersRoute(t: Table, up: nat, m: string) {
    !Unrouted(t, m) && forall id :: id in t && t[id].pattern == m ==> t[id].upstream != up
  }

  /** A route this upstream manages. */
  predicate ManagedBy(r: Route, up: nat) {
    r.auto && r.upstream == up
  }

  /** What a sync leaves and reports. A managed route stays if its model is still asked for; every other row stays as it
      is. The models asked for that nobody routes are added, with the settings of a managed route; those that only other
      upstreams route are skipped. */
  ghost predicate Reconciled(t: Table, nextId: nat, up: nat, exclude: set<string>, fetched: seq<string>, u: Table, r: Report) {
    && (forall id :: id in t ==> (id in u <==> !ManagedBy(t[id], up) || Asked(fetched, exclude, t[id].pattern)))
    && (forall id :: id in t && id in u ==> u[id] == t[id])
    && (forall id :: id in u && id !in t ==> nextId <= id < nextId + |r.added|)
    && (forall id: nat :: nextId <= id < nextId + |r.added| ==>
          id in u && u[id] == Route(r.added[id - nextId], up, true, "10,1,TRUE,2,{429,500,502,503,504},FALSE,0"))
    && (forall m :: m in r.added <==> Asked(fetched, exclude, m) && Unrouted(t, m))
    && (forall m :: m in r.skipped <==> Asked(fetched, exclude, m) && OnlyOthersRoute(t, up, m))
    && (forall m :: m in r.removed <==> exists id :: id in t && ManagedBy(t[id], up) && t[id].pattern == m && !Asked(fetched, exclude, m))
    && r.fetched == |fetched| && r.excluded + r.desired == |fetched|
    && r.kept == |set id | id in t && ManagedBy(t[id], up) && Asked(fetched, exclude, t[id].pattern)|
  }

  lemma {:induction false} DesiredIsAsked(fetched: seq<string>, exclude: set<string>)
    ensures forall m :: m in Desired(fetched, exclude) <==> Asked(fetched, exclude, m)
    ensures |Desired(fetched, exclude)| <= |fetched|
  {
    if fetched != [] {
      DesiredIsAsked(fetched[..|fetched| - 1], exclude);
      assert fetched == fetched[..|fetched| - 1] + [fetched[|fetched| - 1]];
    }
  }

  lemma PatternsAre(t: Table, up: nat, m: string)
    ensures !OwnPattern(t, up, m) && !OtherPattern(t, up, m) <==> Unrouted(t, m)
    ensures !OwnPattern(t, up, m) && OtherPattern(t, up, m) <==> OnlyOthersRoute(t, up, m)
  {
  }

  lemma SyncReconciles(t: Table, nextId: nat, up: nat, exclude: set<string>, fetched: seq<string>, r: Report)
    requires forall id :: id in t ==> id < nextId
    requires var desired := Desired(fetched, exclude);
      && r.fetched == |fetched| && r.desired == |desired| && r.excluded == |fetched| - |desired|
      && r.added == ToAdd(t, up, desired) && r.skipped == ToSkip(t, up, desired)
      && r.kept == |Kept(t, up, desired)| && Lists(r.removed, t, Stale(t, up, desired))
    ensures Reconciled(t, nextId, up, exclude, fetched, Synced(t, nextId, up, Desired(fetched, exclude)), r)
  {
    hide Desired, Synced, ToAdd, ToSkip, OwnPattern, OtherPattern, Unrouted, OnlyOthersRoute;
    var desired := Desired(fetched, exclude);
    var u := Synced(t, nextId, up, desired);
    DesiredIsAsked(fetched, exclude);
    ToAddIs(t, up, desired);
    forall m {
      PatternsAre(t, up, m);
    }
    SyncedKeeps(t, nextId, up, desired);
    forall id | id in u
      ensures if id < nextId then id in t && id !in Stale(t, up, desired) && u[id] == t[id]
        else id - nextId < |r.added| && u[id] == Route(r.added[id - nextId], up, true, AUTO_SETTINGS)
    {
      SyncedRow(t, nextId, up, desired, id);
    }
    SyncedAdds(t, nextId, up, desired);
    forall id | id in t ensures id in Stale(t, up, desired) <==> ManagedBy(t[id], up) && !Asked(fetched, exclude, t[id].pattern) {
    }
    hide Stale, Asked, ManagedBy;
    forall m ensures m in r.removed <==> exists id :: id in t && ManagedBy(t[id], up) && t[id].pattern == m && !Asked(fetched, exclude, m) {
      if m in r.removed {
        var id :| id in Stale(t, up, desired) && t[id].pattern == m;
      }
    }
    KeptIs(t, up, exclude, fetched);
  }

  lemma KeptIs(t: Table, up: nat, exclude: set<string>, fetched: seq<string>)
    ensures Kept(t, up, Desired(fetched, exclude)) == set id | id in t && ManagedBy(t[id], up) && Asked(fetched, exclude, t[id].pattern)
  {
    DesiredIsAsked(fetched, exclude);
  }

  lemma SyncedAdds(t: Table, nextId: nat, up: nat, desired: seq<string>)
    requires forall id :: id in t ==> id < nextId
    ensures var u, names := Synced(t, nextId, up, desired), ToAdd(t, up, desired);
      forall id: nat :: nextId <= id < nextId + |names| ==> id in u && u[id] == Route(names[id - nextId], up, true, AUTO_SETTINGS)
  {
    var base, names := t - Stale(t, up, desired), ToAdd(t, up, desired);
    var u := Synced(t, nextId, up, desired);
    assert u == Inserted(base, nextId, up, names);
    hide Inserted, Stale, ToAdd, Synced;
    InsertedIs(base, nextId, up, names);
    forall id: nat | nextId <= id < nextId + |names| ensures id in u && u[id] == Route(names[id - nextId], up, true, AUTO_SETTINGS) {
      assert InsertedAt(u, nextId, up, names, id);
    }
  }

  /** How often a name stands in a list. */
  function Times(s: seq<string>, m: string): nat {
    if s == [] then 0 else Times(s[..|s| - 1], m) + if s[|s| - 1] == m then 1 else 0
  }

  ghost predicate Twice(s: seq<string>, m: string, i: int, j: int) {
    0 <= i < j < |s| && s[i] == m && s[j] == m
  }

  lemma {:induction false} TwiceIsRepeated(s: seq<string>, m: string)
    ensures Times(s, m) > 0 <==> m in s
    ensures Times(s, m) > 1 <==> exists i, j :: Twice(s, m, i, j)
  {
    if s != [] {
      var n := |s| - 1;
      var front := s[..n];
      TwiceIsRepeated(front, m);
      assert s == front + [s[n]];
      forall i, j | j < n ensures Twice(front, m, i, j) <==> Twice(s, m, i, j) {
      }
      if m in front && s[n] == m {
        var i :| 0 <= i < n && front[i] == m;
        assert Twice(s, m, i, n);
      }
      if i, j :| Twice(s, m, i, j) && j == n {
        assert front[i] == m;
      }
    }
  }

  lemma {:induction false} AddedAsOften(t: Table, up: nat, exclude: set<string>, fetched: seq<string>, m: string)
    requires m !in exclude && Unrouted(t, m)
    ensures Times(ToAdd(t, up, Desired(fetched, exclude)), m) == Times(fetched, m)
  {
    hide Unrouted, OwnPattern, OtherPattern;
    if fetched != [] {
      var n := |fetched| - 1;
      AddedAsOften(t, up, exclude, fetched[..n], m);
      PatternsAre(t, up, m);
      var rest := Desired(fetched[..n], exclude);
      if fetched[n] !in exclude {
        assert (rest + [fetched[n]])[..|rest|] == rest;
        var names := ToAdd(t, up, rest);
        assert (names + [fetched[n]])[..|names|] == names;
      }
    }
  }

  /** A model that would have to be added was offered twice. */
  ghost predicate AskedTwice(t: Table, exclude: set<string>, fetched: seq<string>) {
    exists i, j :: 0 <= i < j < |fetched| && fetched[i] == fetched[j] && fetched[i] !in exclude && Unrouted(t, fetched[i])
  }

  lemma RepeatsFail(t: Table, up: nat, exclude: set<string>, fetched: seq<string>)
    ensures !NoRepeats(ToAdd(t, up, Desired(fetched, exclude))) <==> AskedTwice(t, exclude, fetched)
  {
    hide ToAdd, Desired, Unrouted, OwnPattern, OtherPattern, Times;
    var desired := Desired(fetched, exclude);
    var names := ToAdd(t, up, desired);
    if i, j :| 0 <= i < j < |fetched| && fetched[i] == fetched[j] && fetched[i] !in exclude && Unrouted(t, fetched[i]) {
      assert Twice(fetched, fetched[i], i, j);
      TwiceIsRepeated(fetched, fetched[i]);
      TwiceIsRepeated(names, fetched[i]);
      AddedAsOften(t, up, exclude, fetched, fetched[i]);
    }
    if !NoRepeats(names) {
      var i, j :| 0 <= i < j < |names| && names[i] == names[j];
      var m := names[i];
      assert Twice(names, m, i, j);
      DesiredIsAsked(fetched, exclude);
      ToAddIs(t, up, desired);
      PatternsAre(t, up, m);
      TwiceIsRepeated(names, m);
      TwiceIsRepeated(fetched, m);
      AddedAsOften(t, up, exclude, fetched, m);
    }
  }

  // ------------------------------------------------------------------- runs

  datatype Sync = Sync(up: nat, desired: seq<string>)

  function AfterSync(s: (Table, nat), c: Sync): (Table, nat) {
    if NoRepeats(ToAdd(s.0, c.up, c.desired)) then
      (Synced(s.0, s.1, c.up, c.desired), s.1 + |ToAdd(s.0, c.up, c.desired)|)
    else s
  }

  function AfterSyncs(s: (Table, nat), syncs: seq<Sync>): (Table, nat)
    decreases |syncs|
  {
    if syncs == [] then s else AfterSyncs(AfterSync(s, syncs[0]), syncs[1..])
  }

  ghost predicate TableOk(s: (Table, nat)) {
    AutoUnique(s.0) && OneManager(s.0) && forall id :: id in s.0 ==> id < s.1
  }

  lemma SyncKeepsOneManager(s: (Table, nat), c: Sync)
    requires TableOk(s)
    ensures TableOk(AfterSync(s, c))
  {
    if NoRepeats(ToAdd(s.0, c.up, c.desired)) {
      var u := Synced(s.0, s.1, c.up, c.desired);
      SyncedKeepsIndex(s.0, s.1, c.up, c.desired);
      ToAddIs(s.0, c.up, c.desired);
      forall a, b | a in u && b in u && u[a].auto && u[b].auto && u[a].pattern == u[b].pattern
        ensures u[a].upstream == u[b].upstream
      {
        SyncedRow(s.0, s.1, c.up, c.desired, a);
        SyncedRow(s.0, s.1, c.up, c.desired, b);
        if a < s.1 { RowShows(s.0, c.up, a); }
        if b < s.1 { RowShows(s.0, c.up, b); }
      }
    }
  }

  /** Over any run of syncs of any upstreams, no pattern comes to be auto-managed by two of them. */
  lemma {:induction false} RunsKeepOneManager(s: (Table, nat), syncs: seq<Sync>)
    requires TableOk(s)
    ensures TableOk(AfterSyncs(s, syncs))
    decreases |syncs|
  {
    if syncs != [] {
      SyncKeepsOneManager(s, syncs[0]);
      RunsKeepOneManager(AfterSync(s, syncs[0]), syncs[1..]);
    }
  }
}
