/**
 Idempotency keys (src/idempotency.rs): the SQL statements as functions on the stored
 rows, the store object whose methods run them, and the protocol in which the
 statements of any number of requests interleave.
 */
module Idempotency {
  import opened Wrappers
  import J = Json

  /** Validity of a record, in hours. */
  const TTL_HOURS: int := 24

  datatype Status = Processing | Completed | Failed

  datatype Row = Row(
    keyId: nat, idemKey: string, fingerprint: string, status: Status,
    response: Option<J.Json>, responseStatus: Option<int>, taskId: Option<nat>, expiresAt: int)

  datatype Begin =
    | Proceed(rid: nat)
    | Replay(status: int, response: J.Json)
    | Conflict(reason: Reason)

  datatype Reason = ParametersDiffer | InProgress

  type Rows = map<nat, Row>

  // ------------------------------------------------------------- statements

  predicate HasKey(row: Row, keyId: nat, idemKey: string) {
    row.keyId == keyId && row.idemKey == idemKey
  }

  /** UNIQUE (key_id, idem_key). */
  ghost predicate KeysUnique(rows: Rows) {
    forall a, b :: a in rows && b in rows && HasKey(rows[a], rows[b].keyId, rows[b].idemKey) ==> a == b
  }

  predicate Live(row: Row, now: int, keyId: nat, idemKey: string) {
    HasKey(row, keyId, idemKey) && row.expiresAt > now
  }

  /** SELECT ... WHERE key_id = $1 AND idem_key = $2 AND expires_at > now(). */
  ghost function SelectLive(rows: Rows, now: int, keyId: nat, idemKey: string): (r: Option<nat>)
    ensures r.Some? ==> r.value in rows && Live(rows[r.value], now, keyId, idemKey)
    ensures r.None? ==> forall id :: id in rows ==> !Live(rows[id], now, keyId, idemKey)
  {
    if exists id :: id in rows && Live(rows[id], now, keyId, idemKey) then
      var id :| id in rows && Live(rows[id], now, keyId, idemKey);
      Some(id)
    else None
  }

  ghost predicate KeyTaken(rows: Rows, keyId: nat, idemKey: string) {
    exists id :: id in rows && HasKey(rows[id], keyId, idemKey)
  }

  function NewRow(keyId: nat, idemKey: string, fp: string, now: int): Row {
    Row(keyId, idemKey, fp, Processing, None, None, None, now + TTL_HOURS)
  }

  /** UPDATE ... SET status = 'processing', response = NULL, ... WHERE id = $1. */
  function TakenOver(rows: Rows, rid: nat, now: int): Rows {
    if rid !in rows then rows
    else
      rows[rid := rows[rid].(status := Processing, response := None, responseStatus := None,
                             taskId := None, expiresAt := now + TTL_HOURS)]
  }

  function CompletedRow(rows: Rows, rid: nat, status: int, response: J.Json, taskId: Option<nat>): Rows {
    if rid !in rows then rows
    else
      rows[rid := rows[rid].(status := Completed, response := Some(response), responseStatus := Some(status),
                             taskId := taskId)]
  }

  function FailedRow(rows: Rows, rid: nat): Rows {
    if rid !in rows then rows else rows[rid := rows[rid].(status := Failed)]
  }

  function CleanedUp(rows: Rows, now: int): Rows {
    map id | id in rows && rows[id].expiresAt > now :: rows[id]
  }

  /** What `begin` answers for a live row it has read. */
  function Dispatch(rid: nat, row: Row, fp: string): Begin {
    if row.fingerprint != fp then Conflict(ParametersDiffer)
    else match row.status
      case Completed => Replay(row.responseStatus.UnwrapOr(200), row.response.UnwrapOr(J.Null))
      case Processing => Conflict(InProgress)
      case Failed => Proceed(rid)
  }

  /** `begin` when no other statement comes between its own; `newId` is the id an insert would get. */
  ghost function BeginAlone(rows: Rows, now: int, keyId: nat, idemKey: string, fp: string, newId: nat): (Rows, Begin) {
    match SelectLive(rows, now, keyId, idemKey)
    case Some(rid) =>
      var answer := Dispatch(rid, rows[rid], fp);
      (if answer.Proceed? then TakenOver(rows, rid, now) else rows, answer)
    case None =>
      if KeyTaken(rows, keyId, idemKey) then (rows, Conflict(InProgress))
      else (rows[newId := NewRow(keyId, idemKey, fp, now)], Proceed(newId))
  }

  /** The table as an object; each method is one SQL statement, `Begin` the sequence of them. */
  class Store {
    var rows: Rows
    var now: int

    constructor ()
      ensures rows == map[] && KeysUnique(rows)
    {
      rows := map[];
      now := 0;
    }

    method Select(keyId: nat, idemKey: string) returns (r: Option<nat>)
      requires KeysUnique(rows)
      ensures r == SelectLive(rows, now, keyId, idemKey)
    {
      if id :| id in rows && Live(rows[id], now, keyId, idemKey) {
        r := Some(id);
      } else {
        r := None;
      }
    }

    /** INSERT ... ON CONFLICT (key_id, idem_key) DO NOTHING RETURNING id. */
    method InsertIfAbsent(keyId: nat, idemKey: string, fp: string, newId: nat) returns (r: Option<nat>)
      requires KeysUnique(rows) && newId !in rows
      modifies this`rows
      ensures KeysUnique(rows)
      ensures r.Some? <==> !KeyTaken(old(rows), keyId, idemKey)
      ensures r.Some? ==> r.value == newId && rows == old(rows)[newId := NewRow(keyId, idemKey, fp, now)]
      ensures r.None? ==> rows == old(rows)
    {
      if id :| id in rows && HasKey(rows[id], keyId, idemKey) {
        r := None;
      } else {
        rows := rows[newId := NewRow(keyId, idemKey, fp, now)];
        r := Some(newId);
      }
    }

    method Begin(keyId: nat, idemKey: string, fp: string, newId: nat) returns (r: Begin)
      requires KeysUnique(rows) && newId !in rows
      modifies this`rows
      ensures KeysUnique(rows)
      ensures (rows, r) == BeginAlone(old(rows), now, keyId, idemKey, fp, newId)
    {
      var round := 0;
      while round < 2
        invariant 0 <= round <= 2 && rows == old(rows)
        invariant round > 0 ==> SelectLive(rows, now, keyId, idemKey).None? && KeyTaken(rows, keyId, idemKey)
      {
        var found := Select(keyId, idemKey);
        if found.Some? {
          r := Dispatch(found.value, rows[found.value], fp);
          if r.Proceed? {
            rows := TakenOver(rows, found.value, now);
          }
          return;
        }
        var ins := InsertIfAbsent(keyId, idemKey, fp, newId);
        if ins.Some? {
          return Proceed(ins.value);
        }
        round := round + 1;
      }
      r := Conflict(InProgress);
    }

    method Complete(rid: nat, status: int, response: J.Json, taskId: Option<nat>)
      requires KeysUnique(rows)
      modifies this`rows
      ensures KeysUnique(rows) && rows == CompletedRow(old(rows), rid, status, response, taskId)
    {
      rows := CompletedRow(rows, rid, status, response, taskId);
    }

    method Fail(rid: nat)
      requires KeysUnique(rows)
      modifies this`rows
      ensures KeysUnique(rows) && rows == FailedRow(old(rows), rid)
    {
      rows := FailedRow(rows, rid);
    }

    method CleanupExpired() returns (deleted: nat)
      requires KeysUnique(rows)
      modifies this`rows
      ensures KeysUnique(rows) && rows == CleanedUp(old(rows), now)
      ensures deleted == |old(rows)| - |rows|
    {
      var kept := CleanedUp(rows, now);
      assert kept.Keys <= rows.Keys;
      CardinalityAtMost(kept.Keys, rows.Keys);
      deleted := |rows| - |kept|;
      rows := kept;
    }
  }

  lemma {:induction false} CardinalityAtMost(a: set<nat>, b: set<nat>)
    requires a <= b
    ensures |a| <= |b|
  {
    if a != {} {
      var x :| x in a;
      CardinalityAtMost(a - {x}, b - {x});
    }
  }

  // ------------------------------------------- what one call undoes or repeats

  /** After a success the same key and parameters get that very response, until it expires;
      other parameters are refused. */
  lemma ReplayAfterComplete(
    rows: Rows, now: int, rid: nat, status: int, response: J.Json, task: Option<nat>, later: int, fp: string, newId: nat)
    requires KeysUnique(rows) && rid in rows && now <= later < rows[rid].expiresAt
    ensures var done := CompletedRow(rows, rid, status, response, task);
      BeginAlone(done, later, rows[rid].keyId, rows[rid].idemKey, fp, newId)
        == (done, if fp == rows[rid].fingerprint then Replay(status, response) else Conflict(ParametersDiffer))
  {
    var done := CompletedRow(rows, rid, status, response, task);
    assert done[rid].status == Completed && Live(done[rid], later, rows[rid].keyId, rows[rid].idemKey);
  }

  /** After a failure the same key and parameters get the same row back. */
  lemma RetryAfterFail(rows: Rows, rid: nat, later: int, fp: string, newId: nat)
    requires KeysUnique(rows) && rid in rows && later < rows[rid].expiresAt && fp == rows[rid].fingerprint
    ensures BeginAlone(FailedRow(rows, rid), later, rows[rid].keyId, rows[rid].idemKey, fp, newId)
         == (TakenOver(rows, rid, later), Proceed(rid))
  {
    var failed := FailedRow(rows, rid);
    assert failed[rid].status == Failed && Live(failed[rid], later, rows[rid].keyId, rows[rid].idemKey);
    assert TakenOver(failed, rid, later) == TakenOver(rows, rid, later);
  }

  /** A row that has expired but was not cleaned up refuses the key; cleaning up frees it. */
  lemma ExpiredRowRefuses(rows: Rows, rid: nat, now: int, fp: string, newId: nat)
    requires KeysUnique(rows) && rid in rows && rows[rid].expiresAt <= now
    ensures BeginAlone(rows, now, rows[rid].keyId, rows[rid].idemKey, fp, newId) == (rows, Conflict(InProgress))
    ensures BeginAlone(CleanedUp(rows, now), now, rows[rid].keyId, rows[rid].idemKey, fp, newId).1 == Proceed(newId)
  {
    var k, i := rows[rid].keyId, rows[rid].idemKey;
    assert HasKey(rows[rid], k, i);
    assert KeyTaken(rows, k, i);
    forall id | id in rows ensures !Live(rows[id], now, k, i) {
      assert HasKey(rows[id], k, i) ==> id == rid;
    }
    forall id | id in CleanedUp(rows, now) ensures !HasKey(CleanedUp(rows, now)[id], k, i) {
      assert HasKey(rows[id], k, i) ==> id == rid;
    }
  }

  // ------------------------------------------------------- the life of a key

  /** Nobody has used the key: the first request gets it for 24 hours, and nothing else changes. */
  lemma FirstRequestGetsKey(rows: Rows, now: int, keyId: nat, idemKey: string, fp: string, newId: nat)
    requires newId !in rows && forall id :: id in rows ==> rows[id].keyId != keyId || rows[id].idemKey != idemKey
    ensures BeginAlone(rows, now, keyId, idemKey, fp, newId)
         == (rows[newId := Row(keyId, idemKey, fp, Processing, None, None, None, now + 24)], Proceed(newId))
  {
    assert forall id :: id in rows ==> !HasKey(rows[id], keyId, idemKey);
  }

  /** While that request is at work the key is refused, to the same parameters as in progress. */
  lemma SecondRequestWaits(rows: Rows, rid: nat, later: int, fp: string, newId: nat)
    requires KeysUnique(rows) && rid in rows && rows[rid].status == Processing && later < rows[rid].expiresAt
    ensures BeginAlone(rows, later, rows[rid].keyId, rows[rid].idemKey, fp, newId)
         == (rows, Conflict(if fp == rows[rid].fingerprint then InProgress else ParametersDiffer))
  {
    assert Live(rows[rid], later, rows[rid].keyId, rows[rid].idemKey);
  }

  /** A request that takes a failed row over starts afresh: no answer is left in it, and it lives for 24 hours more. */
  lemma TakeOverStartsAfresh(rows: Rows, rid: nat, later: int, newId: nat)
    requires KeysUnique(rows) && rid in rows && rows[rid].status == Failed && later < rows[rid].expiresAt
    ensures BeginAlone(rows, later, rows[rid].keyId, rows[rid].idemKey, rows[rid].fingerprint, newId)
         == (rows[rid := Row(rows[rid].keyId, rows[rid].idemKey, rows[rid].fingerprint, Processing, None, None, None, later + 24)],
             Proceed(rid))
  {
    assert Live(rows[rid], later, rows[rid].keyId, rows[rid].idemKey);
  }

  /** A completed row without a stored answer is replayed as 200 and null. */
  lemma BareRowReplays(rows: Rows, rid: nat, later: int, newId: nat)
    requires KeysUnique(rows) && rid in rows && rows[rid].status == Completed && later < rows[rid].expiresAt
    requires rows[rid].response == None && rows[rid].responseStatus == None
    ensures BeginAlone(rows, later, rows[rid].keyId, rows[rid].idemKey, rows[rid].fingerprint, newId) == (rows, Replay(200, J.Null))
  {
    assert Live(rows[rid], later, rows[rid].keyId, rows[rid].idemKey);
  }

  /** Settling a record touches that record, and in it nothing but how it ended. */
  lemma SettlingIsLocal(rows: Rows, rid: nat, status: int, response: J.Json, task: Option<nat>)
    requires rid in rows
    ensures var r := rows[rid];
      && CompletedRow(rows, rid, status, response, task)
         == rows[rid := Row(r.keyId, r.idemKey, r.fingerprint, Completed, Some(response), Some(status), task, r.expiresAt)]
      && FailedRow(rows, rid)
         == rows[rid := Row(r.keyId, r.idemKey, r.fingerprint, Failed, r.response, r.responseStatus, r.taskId, r.expiresAt)]
  {
  }

  /** The cleanup deletes what has expired and keeps the rest as it is. */
  lemma CleanupKeepsLive(rows: Rows, now: int, id: nat)
    ensures id in CleanedUp(rows, now) <==> id in rows && now < rows[id].expiresAt
    ensures id in CleanedUp(rows, now) ==> CleanedUp(rows, now)[id] == rows[id]
  {
  }
}
