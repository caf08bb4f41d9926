/**
 The idempotency protocol under concurrency (src/idempotency.rs:95-194): every SQL
 statement of every request is one atomic step, and the steps of any number of
 requests, of the cleanup job and of the clock interleave freely.
 */
module IdempotencyProtocol {
  import opened Wrappers
  import opened Idempotency
  import J = Json

  datatype Request = Request(keyId: nat, idemKey: string, fp: string)

  /** Where a request is in its `begin` .. `complete` / `fail` life. */
  datatype Phase =
    | Selecting(round: nat)
    | Inserting(round: nat)
    | TakingOver(rid: nat)
    | Holding(rid: nat)
    | Settled(rid: nat)
    | Answered

  datatype Event =
    | CompletedBy(r: nat, rid: nat, status: int, response: J.Json)
    | FailedBy(r: nat, rid: nat)
    | ReplayedTo(r: nat, rid: nat, status: int, response: J.Json)

  /** `origin` remembers what every row id ever issued was inserted for: ids are never reused. */
  datatype Sys = Sys(
    rows: Rows, now: int, origin: map<nat, Request>, reqs: map<nat, Request>, phase: map<nat, Phase>, log: seq<Event>)

  datatype Step =
    | Arrive(r: nat, req: Request)
    | Select(r: nat)
    | Insert(r: nat, id: nat)
    | TakeOver(r: nat)
    | Complete(r: nat, status: int, response: J.Json, taskId: Option<nat>)
    | Fail(r: nat)
    | Cleanup
    | Tick(hours: nat)

  const Init: Sys := Sys(map[], 0, map[], map[], map[], [])

  ghost predicate Enabled(s: Sys, step: Step) {
    match step
    case Arrive(r, _) => r !in s.phase
    case Select(r) => r in s.phase && r in s.reqs && s.phase[r].Selecting? && s.phase[r].round < 2
    case Insert(r, id) => r in s.phase && r in s.reqs && s.phase[r].Inserting? && id !in s.origin
    case TakeOver(r) => r in s.phase && s.phase[r].TakingOver?
    case Complete(r, _, _, _) => r in s.phase && s.phase[r].Holding?
    case Fail(r) => r in s.phase && s.phase[r].Holding?
    case Cleanup => true
    case Tick(_) => true
  }

  ghost function Apply(s: Sys, step: Step): Sys
    requires Enabled(s, step)
  {
    match step
    case Arrive(r, req) => s.(reqs := s.reqs[r := req], phase := s.phase[r := Selecting(0)])
    case Select(r) => AfterSelect(s, r)
    case Insert(r, id) => AfterInsert(s, r, id)
    case TakeOver(r) =>
      s.(rows := TakenOver(s.rows, s.phase[r].rid, s.now), phase := s.phase[r := Holding(s.phase[r].rid)])
    case Complete(r, status, response, taskId) =>
      var rid := s.phase[r].rid;
      s.(rows := CompletedRow(s.rows, rid, status, response, taskId),
         phase := s.phase[r := Settled(rid)], log := s.log + [CompletedBy(r, rid, status, response)])
    case Fail(r) =>
      var rid := s.phase[r].rid;
      s.(rows := FailedRow(s.rows, rid), phase := s.phase[r := Settled(rid)], log := s.log + [FailedBy(r, rid)])
    case Cleanup => s.(rows := CleanedUp(s.rows, s.now))
    case Tick(hours) => s.(now := s.now + hours)
  }

  ghost function AfterSelect(s: Sys, r: nat): Sys
    requires Enabled(s, Select(r))
  {
    var q := s.reqs[r];
    match SelectLive(s.rows, s.now, q.keyId, q.idemKey)
    case None => s.(phase := s.phase[r := Inserting(s.phase[r].round)])
    case Some(rid) =>
      match Dispatch(rid, s.rows[rid], q.fp)
      case Proceed(_) => s.(phase := s.phase[r := TakingOver(rid)])
      case Replay(status, response) =>
        s.(phase := s.phase[r := Answered], log := s.log + [ReplayedTo(r, rid, status, response)])
      case Conflict(_) => s.(phase := s.phase[r := Answered])
  }

  ghost function AfterInsert(s: Sys, r: nat, id: nat): Sys
    requires Enabled(s, Insert(r, id))
  {
    var q := s.reqs[r];
    if KeyTaken(s.rows, q.keyId, q.idemKey) then
      var round := s.phase[r].round + 1;
      s.(phase := s.phase[r := if round < 2 then Selecting(round) else Answered])
    else
      s.(rows := s.rows[id := NewRow(q.keyId, q.idemKey, q.fp, s.now)],
         origin := s.origin[id := q], phase := s.phase[r := Holding(id)])
  }

  ghost predicate Admissible(s: Sys, steps: seq<Step>)
    decreases |steps|
  {
    steps == [] || (Enabled(s, steps[0]) && Admissible(Apply(s, steps[0]), steps[1..]))
  }

  /** The state a run of steps leads to. */
  ghost function After(s: Sys, steps: seq<Step>): Sys
    requires Admissible(s, steps)
    decreases |steps|
  {
    if steps == [] then s else After(Apply(s, steps[0]), steps[1..])
  }

  // -------------------------------------------------------------- invariant

  ghost predicate Failed(s: Sys, rid: nat) {
    exists i :: 0 <= i < |s.log| && s.log[i].FailedBy? && s.log[i].rid == rid
  }

  /** `r` was told Proceed for row `rid`. */
  ghost predicate Owns(s: Sys, r: nat, rid: nat) {
    r in s.phase && (s.phase[r] == Holding(rid) || s.phase[r] == Settled(rid))
  }

  ghost predicate SoleOwner(s: Sys, r: nat, rid: nat) {
    forall o :: Owns(s, o, rid) <==> o == r
  }

  /** Before position `n` of the log some `complete` of row `rid` wrote this very answer. */
  ghost predicate CompletedEarlier(s: Sys, n: nat, rid: nat, status: int, response: J.Json) {
    exists i :: 0 <= i < n && i < |s.log| && s.log[i].CompletedBy? && s.log[i].rid == rid
      && s.log[i].status == status && s.log[i].response == response
  }

  ghost predicate RowTraced(s: Sys, id: nat)
    requires id in s.rows
  {
    var row := s.rows[id];
    && id in s.origin
    && Request(row.keyId, row.idemKey, row.fingerprint) == s.origin[id]
    && (row.status == Status.Failed ==> Failed(s, id))
    && (row.status == Status.Completed ==>
          CompletedEarlier(s, |s.log|, id, row.responseStatus.UnwrapOr(200), row.response.UnwrapOr(J.Null)))
  }

  ghost predicate RowsTraced(s: Sys) {
    && KeysUnique(s.rows)
    && s.reqs.Keys == s.phase.Keys
    && forall id :: id in s.rows ==> RowTraced(s, id)
  }

  ghost predicate PhaseTraced(s: Sys, r: nat)
    requires r in s.phase && r in s.reqs
  {
    match s.phase[r]
    case TakingOver(rid) => rid in s.origin && s.origin[rid] == s.reqs[r] && Failed(s, rid)
    case Holding(rid) => rid in s.origin && s.origin[rid] == s.reqs[r]
    case Settled(rid) => rid in s.origin && s.origin[rid] == s.reqs[r]
    case _ => true
  }

  ghost predicate PhasesTraced(s: Sys) {
    forall r :: r in s.phase && r in s.reqs ==> PhaseTraced(s, r)
  }

  ghost predicate EventTraced(s: Sys, i: nat)
    requires i < |s.log|
  {
    match s.log[i]
    case CompletedBy(r, rid, _, _) =>
      r in s.reqs && r in s.phase && rid in s.origin && s.origin[rid] == s.reqs[r] && s.phase[r] == Settled(rid)
    case ReplayedTo(r, rid, status, response) =>
      r in s.reqs && rid in s.origin && s.origin[rid] == s.reqs[r] && CompletedEarlier(s, i, rid, status, response)
    case FailedBy(_, _) => true
  }

  ghost predicate LogTraced(s: Sys) {
    forall i :: 0 <= i < |s.log| ==> EventTraced(s, i)
  }

  ghost predicate OwnersUnique(s: Sys) {
    forall rid :: rid in s.origin && !Failed(s, rid) ==> exists r :: SoleOwner(s, r, rid)
  }

  /** A row that never failed was completed at most once. */
  ghost predicate CompletedOnce(s: Sys) {
    forall i, j :: 0 <= i < j < |s.log| && s.log[i].CompletedBy? && s.log[j].CompletedBy? ==>
      s.log[i].rid != s.log[j].rid || Failed(s, s.log[i].rid)
  }

  ghost predicate Inv(s: Sys) {
    RowsTraced(s) && PhasesTraced(s) && LogTraced(s) && OwnersUnique(s) && CompletedOnce(s)
  }

  lemma InitInv()
    ensures Inv(Init)
  {
  }

  // ------------------------------------------------------ what steps leave

  /** Every step only adds: to the log, to the issued ids and to the requests; settled requests stay so. */
  ghost predicate Grows(s: Sys, t: Sys) {
    && s.log <= t.log
    && (forall id :: id in s.origin ==> id in t.origin && t.origin[id] == s.origin[id])
    && (forall r :: r in s.reqs ==> r in t.reqs && t.reqs[r] == s.reqs[r])
    && (forall r :: r in s.phase && s.phase[r].Settled? ==> r in t.phase && t.phase[r] == s.phase[r])
  }

  lemma FailedStays(s: Sys, t: Sys, rid: nat)
    requires s.log <= t.log && Failed(s, rid)
    ensures Failed(t, rid)
  {
    var i :| 0 <= i < |s.log| && s.log[i].FailedBy? && s.log[i].rid == rid;
    assert t.log[i] == s.log[i];
  }

  lemma CompletedStays(s: Sys, t: Sys, n: nat, m: nat, rid: nat, status: int, response: J.Json)
    requires s.log <= t.log && n <= m && CompletedEarlier(s, n, rid, status, response)
    ensures CompletedEarlier(t, m, rid, status, response)
  {
    var i :| 0 <= i < n && i < |s.log| && s.log[i].CompletedBy? && s.log[i].rid == rid
      && s.log[i].status == status && s.log[i].response == response;
    assert t.log[i] == s.log[i];
  }

  lemma RowStays(s: Sys, t: Sys, id: nat)
    requires Grows(s, t) && id in s.rows && id in t.rows && RowTraced(s, id)
    requires t.rows[id] == s.rows[id]
    ensures RowTraced(t, id)
  {
    if s.rows[id].status == Status.Failed { FailedStays(s, t, id); }
    if s.rows[id].status == Status.Completed {
      CompletedStays(s, t, |s.log|, |t.log|, id, s.rows[id].responseStatus.UnwrapOr(200), s.rows[id].response.UnwrapOr(J.Null));
    }
  }

  lemma PhaseStays(s: Sys, t: Sys, r: nat)
    requires Grows(s, t) && r in s.phase && r in s.reqs && PhaseTraced(s, r)
    requires r in t.phase && t.phase[r] == s.phase[r]
    ensures PhaseTraced(t, r)
  {
    if s.phase[r].TakingOver? { FailedStays(s, t, s.phase[r].rid); }
  }

  lemma EventStays(s: Sys, t: Sys, i: nat)
    requires Grows(s, t) && i < |s.log| && EventTraced(s, i)
    ensures EventTraced(t, i)
  {
    assert t.log[i] == s.log[i];
    if s.log[i].ReplayedTo? {
      CompletedStays(s, t, i, i, s.log[i].rid, s.log[i].status, s.log[i].response);
    }
  }

  /** Rows, phases and old events that a step leaves alone keep their part of the invariant. */
  lemma Untouched(s: Sys, t: Sys)
    requires Inv(s) && Grows(s, t)
    ensures forall id :: id in t.rows && id in s.rows && t.rows[id] == s.rows[id] ==> RowTraced(t, id)
    ensures forall r :: r in s.phase && r in t.phase && r in t.reqs && t.phase[r] == s.phase[r] ==> PhaseTraced(t, r)
    ensures forall i :: 0 <= i < |s.log| ==> EventTraced(t, i)
  {
    forall id | id in t.rows && id in s.rows && t.rows[id] == s.rows[id] ensures RowTraced(t, id) { RowStays(s, t, id); }
    forall r | r in s.phase && r in t.phase && r in t.reqs && t.phase[r] == s.phase[r] ensures PhaseTraced(t, r) { PhaseStays(s, t, r); }
    forall i | 0 <= i < |s.log| ensures EventTraced(t, i) { EventStays(s, t, i); }
  }

  /** A step that hands out no unfailed row keeps every unfailed row's only owner. */
  lemma OwnersStay(s: Sys, t: Sys)
    requires OwnersUnique(s) && s.log <= t.log && t.origin == s.origin
    requires forall o, rid :: rid in s.origin && !Failed(s, rid) ==> (Owns(t, o, rid) <==> Owns(s, o, rid))
    ensures OwnersUnique(t)
  {
    forall rid | rid in t.origin && !Failed(t, rid) ensures exists r :: SoleOwner(t, r, rid) {
      if Failed(s, rid) {
        FailedStays(s, t, rid);
      } else {
        var r :| SoleOwner(s, r, rid);
        assert SoleOwner(t, r, rid);
      }
    }
  }

  lemma OnceStays(s: Sys, t: Sys)
    requires CompletedOnce(s) && s.log <= t.log
    requires |t.log| <= |s.log| + 1
    requires |t.log| > |s.log| && t.log[|s.log|].CompletedBy? && !Failed(s, t.log[|s.log|].rid) ==>
      forall i :: 0 <= i < |s.log| && s.log[i].CompletedBy? ==> s.log[i].rid != t.log[|s.log|].rid
    ensures CompletedOnce(t)
  {
    forall i, j | 0 <= i < j < |t.log| && t.log[i].CompletedBy? && t.log[j].CompletedBy?
      ensures t.log[i].rid != t.log[j].rid || Failed(t, t.log[i].rid)
    {
      assert t.log[i] == s.log[i];
      if Failed(s, t.log[i].rid) { FailedStays(s, t, t.log[i].rid); }
    }
  }

  lemma KeysStay(rows: Rows, changed: Rows)
    requires KeysUnique(rows) && changed.Keys <= rows.Keys
    requires forall id :: id in changed ==> HasKey(changed[id], rows[id].keyId, rows[id].idemKey)
    ensures KeysUnique(changed)
  {
  }

  // ------------------------------------------------------- the step lemmas

  lemma InvArrive(s: Sys, r: nat, req: Request)
    requires Inv(s) && Enabled(s, Arrive(r, req))
    ensures Inv(Apply(s, Arrive(r, req)))
  {
    var t := Apply(s, Arrive(r, req));
    Untouched(s, t);
    OwnersStay(s, t);
  }

  /** A request that owns nothing may change its phase to one that owns nothing. */
  lemma InvPhase(s: Sys, r: nat, p: Phase)
    requires Inv(s) && r in s.phase && !s.phase[r].Holding? && !s.phase[r].Settled?
    requires !p.Holding? && !p.Settled?
    requires p.TakingOver? ==> p.rid in s.origin && s.origin[p.rid] == s.reqs[r] && Failed(s, p.rid)
    ensures Inv(s.(phase := s.phase[r := p]))
  {
    var t := s.(phase := s.phase[r := p]);
    Untouched(s, t);
    if p.TakingOver? { FailedStays(s, t, p.rid); }
    OwnersStay(s, t);
  }

  lemma InvReplay(s: Sys, r: nat, rid: nat, status: int, response: J.Json)
    requires Inv(s) && r in s.phase && r in s.reqs && rid in s.origin && s.origin[rid] == s.reqs[r]
    requires CompletedEarlier(s, |s.log|, rid, status, response)
    ensures Inv(s.(log := s.log + [ReplayedTo(r, rid, status, response)]))
  {
    var t := s.(log := s.log + [ReplayedTo(r, rid, status, response)]);
    Untouched(s, t);
    OwnersStay(s, t);
    OnceStays(s, t);
    assert t.log[|s.log|] == ReplayedTo(r, rid, status, response);
    CompletedStays(s, t, |s.log|, |s.log|, rid, status, response);
    assert EventTraced(t, |s.log|);
  }

  lemma InvSelect(s: Sys, r: nat)
    requires Inv(s) && Enabled(s, Select(r))
    ensures Inv(AfterSelect(s, r))
  {
    var q := s.reqs[r];
    match SelectLive(s.rows, s.now, q.keyId, q.idemKey)
    case None => InvPhase(s, r, Inserting(s.phase[r].round));
    case Some(rid) =>
      assert RowTraced(s, rid);
      match Dispatch(rid, s.rows[rid], q.fp)
      case Proceed(_) => InvPhase(s, r, TakingOver(rid));
      case Conflict(_) => InvPhase(s, r, Answered);
      case Replay(status, response) =>
        InvPhase(s, r, Answered);
        InvReplay(s.(phase := s.phase[r := Answered]), r, rid, status, response);
  }

  lemma InvInsert(s: Sys, r: nat, id: nat)
    requires Inv(s) && Enabled(s, Insert(r, id))
    ensures Inv(AfterInsert(s, r, id))
  {
    var t := AfterInsert(s, r, id);
    if KeyTaken(s.rows, s.reqs[r].keyId, s.reqs[r].idemKey) {
      InvPhase(s, r, t.phase[r]);
    } else {
      Untouched(s, t);
      InsertOwners(s, r, id);
      InsertRows(s, r, id);
    }
  }

  lemma InsertRows(s: Sys, r: nat, id: nat)
    requires Inv(s) && Enabled(s, Insert(r, id)) && !KeyTaken(s.rows, s.reqs[r].keyId, s.reqs[r].idemKey)
    ensures KeysUnique(AfterInsert(s, r, id).rows)
    ensures RowTraced(AfterInsert(s, r, id), id)
  {
  }

  /** The inserter of a row is its only owner: nobody was told its id before. */
  lemma InsertOwners(s: Sys, r: nat, id: nat)
    requires Inv(s) && Enabled(s, Insert(r, id)) && !KeyTaken(s.rows, s.reqs[r].keyId, s.reqs[r].idemKey)
    ensures OwnersUnique(AfterInsert(s, r, id))
  {
    var t := AfterInsert(s, r, id);
    forall rid | rid in t.origin && !Failed(t, rid) ensures exists o :: SoleOwner(t, o, rid) {
      if rid == id {
        forall o ensures Owns(t, o, id) <==> o == r {
          assert o in s.phase ==> o in s.reqs && PhaseTraced(s, o);
        }
        assert SoleOwner(t, r, id);
      } else {
        assert !Failed(s, rid);
        var o :| SoleOwner(s, o, rid);
        assert forall p :: Owns(t, p, rid) <==> Owns(s, p, rid);
        assert SoleOwner(t, o, rid);
      }
    }
  }

  lemma InvTakeOver(s: Sys, r: nat)
    requires Inv(s) && Enabled(s, TakeOver(r))
    ensures Inv(Apply(s, TakeOver(r)))
  {
    var t := Apply(s, TakeOver(r));
    var rid := s.phase[r].rid;
    assert PhaseTraced(s, r);
    Untouched(s, t);
    KeysStay(s.rows, t.rows);
    OwnersStay(s, t);
    if rid in s.rows { assert RowTraced(s, rid); }
  }

  lemma CompleteOnce(s: Sys, r: nat, rid: nat)
    requires Inv(s) && r in s.phase && s.phase[r] == Holding(rid) && !Failed(s, rid)
    ensures forall i :: 0 <= i < |s.log| && s.log[i].CompletedBy? ==> s.log[i].rid != rid
  {
    assert PhaseTraced(s, r);
    var o :| SoleOwner(s, o, rid);
    assert Owns(s, r, rid);
    forall i | 0 <= i < |s.log| && s.log[i].CompletedBy? ensures s.log[i].rid != rid {
      var e := s.log[i];
      assert EventTraced(s, i);
      assert Owns(s, e.r, e.rid);
    }
  }

  lemma InvComplete(s: Sys, r: nat, status: int, response: J.Json, taskId: Option<nat>)
    requires Inv(s) && Enabled(s, Complete(r, status, response, taskId))
    ensures Inv(Apply(s, Complete(r, status, response, taskId)))
  {
    hide Failed, CompletedEarlier, OwnersUnique, CompletedOnce;
    var t := Apply(s, Complete(r, status, response, taskId));
    var rid := s.phase[r].rid;
    assert PhaseTraced(s, r);
    if !Failed(s, rid) { CompleteOnce(s, r, rid); }
    assert t.log[|s.log|] == CompletedBy(r, rid, status, response);
    OnceStays(s, t);
    OwnersStay(s, t);
    Untouched(s, t);
    KeysStay(s.rows, t.rows);
    JustCompleted(t, |s.log|, r, rid, status, response);
    assert EventTraced(t, |s.log|);
    if rid in s.rows { assert RowTraced(s, rid); }
  }

  lemma JustCompleted(t: Sys, i: nat, r: nat, rid: nat, status: int, response: J.Json)
    requires i < |t.log| && t.log[i] == CompletedBy(r, rid, status, response)
    ensures CompletedEarlier(t, i + 1, rid, status, response)
  {
  }

  lemma JustFailed(t: Sys, i: nat, r: nat, rid: nat)
    requires i < |t.log| && t.log[i] == FailedBy(r, rid)
    ensures Failed(t, rid)
  {
  }

  lemma InvFail(s: Sys, r: nat)
    requires Inv(s) && Enabled(s, Fail(r))
    ensures Inv(Apply(s, Fail(r)))
  {
    hide Failed, CompletedEarlier, OwnersUnique, CompletedOnce;
    var t := Apply(s, Fail(r));
    var rid := s.phase[r].rid;
    assert PhaseTraced(s, r);
    assert t.log[|s.log|] == FailedBy(r, rid);
    Untouched(s, t);
    KeysStay(s.rows, t.rows);
    OwnersStay(s, t);
    OnceStays(s, t);
    JustFailed(t, |s.log|, r, rid);
    assert EventTraced(t, |s.log|);
    if rid in s.rows { assert RowTraced(s, rid); }
  }

  lemma InvCleanup(s: Sys)
    requires Inv(s)
    ensures Inv(Apply(s, Cleanup))
  {
    var t := Apply(s, Cleanup);
    Untouched(s, t);
    KeysStay(s.rows, t.rows);
    OwnersStay(s, t);
  }

  lemma InvTick(s: Sys, hours: nat)
    requires Inv(s)
    ensures Inv(Apply(s, Tick(hours)))
  {
    var t := Apply(s, Tick(hours));
    Untouched(s, t);
    OwnersStay(s, t);
  }

  lemma InvStep(s: Sys, step: Step)
    requires Inv(s) && Enabled(s, step)
    ensures Inv(Apply(s, step))
  {
    match step
    case Arrive(r, req) => InvArrive(s, r, req);
    case Select(r) => InvSelect(s, r);
    case Insert(r, id) => InvInsert(s, r, id);
    case TakeOver(r) => InvTakeOver(s, r);
    case Complete(r, status, response, taskId) => InvComplete(s, r, status, response, taskId);
    case Fail(r) => InvFail(s, r);
    case Cleanup => InvCleanup(s);
    case Tick(hours) => InvTick(s, hours);
  }

  lemma {:induction false} InvRun(s: Sys, steps: seq<Step>)
    requires Inv(s) && Admissible(s, steps)
    ensures Inv(After(s, steps))
    decreases |steps|
  {
    if steps != [] {
      InvStep(s, steps[0]);
      InvRun(Apply(s, steps[0]), steps[1..]);
    }
  }

  // -------------------------------------------------------------- theorems

  /** In every run, a row that no request has failed yet has exactly one request that was told Proceed. */
  lemma OneOwnerUntilFirstFail(steps: seq<Step>, rid: nat)
    requires Admissible(Init, steps)
    requires rid in After(Init, steps).origin && !Failed(After(Init, steps), rid)
    ensures exists r :: SoleOwner(After(Init, steps), r, rid)
  {
    InitInv();
    InvRun(Init, steps);
  }

  /** The request of event `i`, a replay, got what an earlier `complete` wrote for the same question. */
  ghost predicate ReplayJustified(s: Sys, i: nat)
    requires i < |s.log| && s.log[i].ReplayedTo?
  {
    exists j :: 0 <= j < i && s.log[j].CompletedBy? && s.log[j].rid == s.log[i].rid
      && s.log[j].status == s.log[i].status && s.log[j].response == s.log[i].response
      && s.log[i].r in s.reqs && s.log[j].r in s.reqs && s.reqs[s.log[i].r] == s.reqs[s.log[j].r]
  }

  lemma ReplaysAreEarlierAnswers(steps: seq<Step>, i: nat)
    requires Admissible(Init, steps)
    requires i < |After(Init, steps).log| && After(Init, steps).log[i].ReplayedTo?
    ensures ReplayJustified(After(Init, steps), i)
  {
    var s := After(Init, steps);
    InitInv();
    InvRun(Init, steps);
    assert EventTraced(s, i);
    var e := s.log[i];
    assert CompletedEarlier(s, i, e.rid, e.status, e.response);
    var j :| 0 <= j < i && j < |s.log| && s.log[j].CompletedBy? && s.log[j].rid == e.rid
      && s.log[j].status == e.status && s.log[j].response == e.response;
    assert EventTraced(s, j);
  }

  /** All replays of a row that never failed are the same answer. */
  lemma ReplaysAgree(steps: seq<Step>, i: nat, j: nat)
    requires Admissible(Init, steps)
    requires var log := After(Init, steps).log; i < |log| && j < |log| && log[i].ReplayedTo? && log[j].ReplayedTo?
    requires After(Init, steps).log[i].rid == After(Init, steps).log[j].rid
    requires !Failed(After(Init, steps), After(Init, steps).log[i].rid)
    ensures var log := After(Init, steps).log; log[i].status == log[j].status && log[i].response == log[j].response
  {
    var s := After(Init, steps);
    InitInv();
    InvRun(Init, steps);
    ReplaysAreEarlierAnswers(steps, i);
    ReplaysAreEarlierAnswers(steps, j);
    var a :| 0 <= a < i && s.log[a].CompletedBy? && s.log[a].rid == s.log[i].rid
      && s.log[a].status == s.log[i].status && s.log[a].response == s.log[i].response;
    var b :| 0 <= b < j && s.log[b].CompletedBy? && s.log[b].rid == s.log[j].rid
      && s.log[b].status == s.log[j].status && s.log[b].response == s.log[j].response;
    assert a == b;
  }

  /** With fingerprints taken by a collision-free hash, a replay answers equal parameters. */
  lemma ReplayAnswersEqualParameters(
    steps: seq<Step>, i: nat, hash: string -> string, bodies: map<nat, J.Json>) returns (j: nat)
    requires Admissible(Init, steps)
    requires i < |After(Init, steps).log| && After(Init, steps).log[i].ReplayedTo?
    requires forall a, b :: hash(a) == hash(b) ==> a == b
    requires forall r :: r in After(Init, steps).reqs ==>
      r in bodies && J.WellFormed(bodies[r]) && After(Init, steps).reqs[r].fp == hash(J.CanonText(bodies[r]))
    ensures j < i && After(Init, steps).log[j].CompletedBy?
    ensures After(Init, steps).log[j].response == After(Init, steps).log[i].response
    ensures After(Init, steps).log[i].r in bodies && After(Init, steps).log[j].r in bodies
    ensures bodies[After(Init, steps).log[i].r] == bodies[After(Init, steps).log[j].r]
  {
    var s := After(Init, steps);
    ReplaysAreEarlierAnswers(steps, i);
    j :| 0 <= j < i && s.log[j].CompletedBy? && s.log[j].rid == s.log[i].rid
      && s.log[j].status == s.log[i].status && s.log[j].response == s.log[i].response
      && s.log[i].r in s.reqs && s.log[j].r in s.reqs && s.reqs[s.log[i].r] == s.reqs[s.log[j].r];
    J.FingerprintIsParameters(hash, bodies[s.log[i].r], bodies[s.log[j].r]);
  }

  lemma {:induction false} RunsCompose(s: Sys, a: seq<Step>, b: seq<Step>)
    requires Admissible(s, a) && Admissible(After(s, a), b)
    ensures Admissible(s, a + b) && After(s, a + b) == After(After(s, a), b)
    decreases |a|
  {
    if a == [] {
      assert a + b == b;
    } else {
      assert (a + b)[1..] == a[1..] + b;
      RunsCompose(Apply(s, a[0]), a[1..], b);
    }
  }

  lemma TwoSteps(s: Sys, x: Step, y: Step)
    requires Enabled(s, x) && Enabled(Apply(s, x), y)
    ensures Admissible(s, [x, y]) && After(s, [x, y]) == Apply(Apply(s, x), y)
  {
    var t := Apply(s, x);
    assert [x, y][1..] == [y] && [y][1..] == [];
    assert After(t, [y]) == After(Apply(t, y), []);
  }

  /** A new request that asks for a failed live row reads it and sets out to take it over. */
  lemma RetryReads(s: Sys, r: nat, rid: nat)
    requires KeysUnique(s.rows) && r !in s.phase && rid in s.rows
    requires s.rows[rid].status == Status.Failed && s.rows[rid].expiresAt > s.now
    ensures var row := s.rows[rid];
      var steps := [Arrive(r, Request(row.keyId, row.idemKey, row.fingerprint)), Select(r)];
      && Admissible(s, steps)
      && After(s, steps).rows == s.rows && After(s, steps).now == s.now
      && After(s, steps).phase == s.phase[r := TakingOver(rid)]
  {
    var row := s.rows[rid];
    var q := Request(row.keyId, row.idemKey, row.fingerprint);
    var t := Apply(s, Arrive(r, q));
    assert Live(row, s.now, q.keyId, q.idemKey);
    assert SelectLive(t.rows, t.now, q.keyId, q.idemKey) == Some(rid);
    TwoSteps(s, Arrive(r, q), Select(r));
  }

  /** Whenever a live row is failed, sole ownership can be lost: two retries that both read
      `failed` before either has taken over both end up told Proceed. */
  lemma FailedRowCanBeHeldTwice(s: Sys, rid: nat, a: nat, b: nat) returns (steps: seq<Step>)
    requires KeysUnique(s.rows) && rid in s.rows && a !in s.phase && b !in s.phase && a != b
    requires s.rows[rid].status == Status.Failed && s.rows[rid].expiresAt > s.now
    ensures Admissible(s, steps)
    ensures Owns(After(s, steps), a, rid) && Owns(After(s, steps), b, rid)
  {
    var row := s.rows[rid];
    var q := Request(row.keyId, row.idemKey, row.fingerprint);
    RetryReads(s, a, rid);
    var readA := [Arrive(a, q), Select(a)];
    var s1 := After(s, readA);
    RetryReads(s1, b, rid);
    var readB := [Arrive(b, q), Select(b)];
    var s2 := After(s1, readB);
    TwoSteps(s2, TakeOver(a), TakeOver(b));
    RunsCompose(s1, readB, [TakeOver(a), TakeOver(b)]);
    RunsCompose(s, readA, readB + [TakeOver(a), TakeOver(b)]);
    steps := readA + (readB + [TakeOver(a), TakeOver(b)]);
  }

  /** Such a state is reached by the shortest failing run. */
  lemma FailedRowIsReachable(q: Request, id: nat) returns (steps: seq<Step>)
    ensures Admissible(Init, steps)
    ensures var s := After(Init, steps);
      KeysUnique(s.rows) && id in s.rows && s.rows[id].status == Status.Failed && s.rows[id].expiresAt > s.now
  {
    var s1 := Apply(Init, Arrive(0, q));
    var s2 := Apply(s1, Select(0));
    TwoSteps(Init, Arrive(0, q), Select(0));
    assert SelectLive(s1.rows, s1.now, q.keyId, q.idemKey).None?;
    assert s2.phase[0] == Inserting(0);
    var s3 := Apply(s2, Insert(0, id));
    assert !KeyTaken(s2.rows, q.keyId, q.idemKey);
    TwoSteps(s2, Insert(0, id), Fail(0));
    RunsCompose(Init, [Arrive(0, q), Select(0)], [Insert(0, id), Fail(0)]);
    steps := [Arrive(0, q), Select(0)] + [Insert(0, id), Fail(0)];
  }

  // ------------------------------------ the statements in a row are `begin`

  /** The steps one request takes when nothing comes between them. */
  ghost function Uninterrupted(s: Sys, r: nat, id: nat): Sys
    requires r in s.phase && r in s.reqs && s.phase[r] == Selecting(0) && id !in s.origin
  {
    var a := Apply(s, Select(r));
    match a.phase[r]
    case TakingOver(_) => Apply(a, TakeOver(r))
    case Inserting(_) =>
      var b := Apply(a, Insert(r, id));
      if b.phase[r].Selecting? then
        var c := Apply(b, Select(r));
        if c.phase[r].Inserting? then Apply(c, Insert(r, id)) else c
      else b
    case _ => a
  }

  /** The protocol state after an uninterrupted `begin` shows exactly this answer and these rows. */
  ghost predicate Shows(s: Sys, t: Sys, r: nat, rows: Rows, answer: Begin) {
    && t.rows == rows
    && r in t.phase
    && match answer
       case Proceed(rid) => t.phase[r] == Holding(rid)
       case Replay(status, response) =>
         && t.phase[r] == Answered && |t.log| == |s.log| + 1
         && t.log[|s.log|].ReplayedTo? && t.log[|s.log|].status == status && t.log[|s.log|].response == response
       case Conflict(_) => t.phase[r] == Answered && t.log == s.log
  }

  /** Run without interleaving, the protocol steps are the atomic `begin` of the store. */
  lemma UninterruptedIsBegin(s: Sys, r: nat, id: nat)
    requires r in s.phase && r in s.reqs && s.phase[r] == Selecting(0) && id !in s.origin
    ensures var q := s.reqs[r];
      var outcome := BeginAlone(s.rows, s.now, q.keyId, q.idemKey, q.fp, id);
      Shows(s, Uninterrupted(s, r, id), r, outcome.0, outcome.1)
  {
    var q := s.reqs[r];
    var a := AfterSelect(s, r);
    match SelectLive(s.rows, s.now, q.keyId, q.idemKey)
    case Some(rid) =>
      assert SelectLive(s.rows, s.now, q.keyId, q.idemKey) == Some(rid);
    case None =>
      assert a == s.(phase := s.phase[r := Inserting(0)]);
      if KeyTaken(s.rows, q.keyId, q.idemKey) {
        var b := AfterInsert(a, r, id);
        assert b.phase[r] == Selecting(1);
        var c := AfterSelect(b, r);
        assert c.phase[r] == Inserting(1);
      }
  }
}
