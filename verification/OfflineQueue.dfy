/** The Pi's durable command queue (pi_firmware/offline_queue.py).
  *
  * `Queue` is the durable content: the commands table and last_executed_sequence. The class below
  * runs the source's statements over it; each method is tied to a function or relation on `Queue`,
  * and the protocol is built from those.
  */
module OfflineQueue {
  import opened Vocabulary
  import opened Selection

  datatype Status =
    | Delivered | Executing | HardwareVerified | UnknownAfterReboot
    | Completed | Failed | Expired | Acked

  datatype AckStatus = AckPending | AckAcked | AckRejected

  datatype Row = Row(
    slot: SlotArg,
    action: Action,
    status: Status,
    createdAt: int,
    deliveredAt: int,
    startedAt: Option<int>,
    verifiedAt: Option<int>,
    completedAt: Option<int>,
    ackedAt: Option<int>,
    expiresAt: Option<int>,
    attempts: nat,
    verification: Option<Token>,
    ack: AckStatus,
    sequence: Option<nat>,
    cloudAttempt: Option<nat>)

  datatype Queue = Queue(rows: map<CommandId, Row>, lastExecuted: nat)

  const EXECUTED_IDS_MAX: nat := 50
  const UNACKED_LIMIT: nat := 10
  const RETENTION_AGE: int := 30 * DAY
  const RETENTION_ROWS: nat := 500
  const CLEANUP_BATCH_LIMIT: nat := 100

  /** VALID_TRANSITIONS. */
  predicate CanMove(from: Status, to: Status) {
    match from
    case Delivered => to in {Executing, Expired}
    case Executing => to in {HardwareVerified, Failed, UnknownAfterReboot}
    case UnknownAfterReboot => to in {HardwareVerified, Failed, Completed}
    case HardwareVerified => to == Completed
    case Completed => to == Acked
    case Failed => to == Acked
    case Expired => to == Acked
    case Acked => false
  }

  /** FINAL_STATUSES. */
  predicate Final(s: Status) {
    s in {Completed, Failed, Expired}
  }

  // ------------------------------------------------------------ specification

  function NewRow(slot: SlotArg, action: Action, createdAt: int, expiresAt: Option<int>,
                  sequence: Option<nat>, cloudAttempt: Option<nat>, now: int): Row {
    Row(slot, action, Delivered, createdAt, now, None, None, None, None, expiresAt, 0, None,
        AckPending, sequence, cloudAttempt)
  }

  /** add_command: an id that is already there is left alone, and accepted only for the same command. */
  function Insert(q: Queue, id: CommandId, row: Row): (Queue, bool) {
    if id in q.rows then
      (q, q.rows[id].slot == row.slot && q.rows[id].action == row.action)
    else
      (q.(rows := q.rows[id := row]), true)
  }

  predicate Overdue(row: Row, now: int) {
    row.status == Delivered && row.expiresAt.Some? && row.expiresAt.value <= now
  }

  predicate Claimable(row: Row, now: int) {
    row.status == Delivered && (row.expiresAt.None? || row.expiresAt.value > now)
  }

  function ExpireOverdue(rows: map<CommandId, Row>, now: int): map<CommandId, Row> {
    map id | id in rows ::
      if Overdue(rows[id], now) then rows[id].(status := Expired, completedAt := Some(now)) else rows[id]
  }

  /** The oldest claimable row, as `ORDER BY created_at ASC LIMIT 1` picks it. */
  ghost predicate IsNextClaim(rows: map<CommandId, Row>, now: int, id: CommandId) {
    && id in rows && Claimable(rows[id], now)
    && forall other | other in rows && Claimable(rows[other], now) :: rows[id].createdAt <= rows[other].createdAt
  }

  /** The queue after claiming `claimed`, or after a claim that finds nothing. */
  function Claim(q: Queue, claimed: Option<CommandId>, now: int): Queue
    requires claimed.Some? ==> claimed.value in q.rows
  {
    var rows := ExpireOverdue(q.rows, now);
    match claimed
    case None => q.(rows := rows)
    case Some(id) =>
      var row := rows[id];
      Queue(rows[id := row.(status := Executing, startedAt := Some(now), attempts := row.attempts + 1)],
            if row.sequence.Some? && row.sequence.value > q.lastExecuted then row.sequence.value else q.lastExecuted)
  }

  ghost predicate ClaimPicks(q: Queue, claimed: Option<CommandId>, now: int) {
    match claimed
    case None => forall id | id in q.rows :: !Claimable(q.rows[id], now)
    case Some(id) => IsNextClaim(q.rows, now, id)
  }

  function Stamp(row: Row, status: Status, now: int): Row {
    match status
    case Executing => row.(startedAt := Some(now))
    case HardwareVerified => row.(verifiedAt := Some(now))
    case Completed | Failed | Expired => row.(completedAt := Some(now))
    case _ => row
  }

  /** update_status: a move VALID_TRANSITIONS does not list changes nothing. */
  function Update(q: Queue, id: CommandId, status: Status, verification: Option<Token>, now: int): (Queue, bool) {
    if id in q.rows && CanMove(q.rows[id].status, status) then
      (q.(rows := q.rows[id := Stamp(q.rows[id], status, now).(status := status, verification := verification)]), true)
    else
      (q, false)
  }

  function MarkAckedSpec(q: Queue, id: CommandId, now: int): (Queue, bool) {
    if id !in q.rows || !Final(q.rows[id].status) then (q, false)
    else if q.rows[id].ack == AckAcked then (q, true)
    else (q.(rows := q.rows[id := q.rows[id].(ack := AckAcked, ackedAt := Some(now))]), true)
  }

  function MarkRejectedSpec(q: Queue, id: CommandId, now: int): Queue {
    if id in q.rows && q.rows[id].ack == AckPending then
      q.(rows := q.rows[id := q.rows[id].(ack := AckRejected, ackedAt := Some(now))])
    else q
  }

  predicate Executed(row: Row) {
    row.status in {Executing, HardwareVerified, Completed, Failed, UnknownAfterReboot}
  }

  predicate Interrupted(row: Row) {
    row.status in {Executing, HardwareVerified, UnknownAfterReboot}
  }

  predicate Unacked(row: Row) {
    row.ack == AckPending && Final(row.status)
  }

  /** COALESCE(started_at, delivered_at), negated so that the newest comes first. */
  function ExecutedKey(row: Row): int {
    -(if row.startedAt.Some? then row.startedAt.value else row.deliveredAt)
  }

  function InterruptedKey(row: Row): int {
    if row.startedAt.Some? then row.startedAt.value
    else if row.verifiedAt.Some? then row.verifiedAt.value else row.createdAt
  }

  function CompletedKey(row: Row): int {
    if row.completedAt.Some? then row.completedAt.value else 0
  }

  function ExecutedIds(rows: map<CommandId, Row>): set<CommandId> {
    set id | id in rows && Executed(rows[id])
  }

  function UnackedIds(rows: map<CommandId, Row>): set<CommandId> {
    set id | id in rows && Unacked(rows[id])
  }

  function InterruptedIds(rows: map<CommandId, Row>): set<CommandId> {
    set id | id in rows && Interrupted(rows[id])
  }

  ghost predicate IsExecutedReport(q: Queue, ids: seq<CommandId>) {
    IsOldest(ExecutedIds(q.rows), map id | id in q.rows :: ExecutedKey(q.rows[id]), EXECUTED_IDS_MAX, ids)
  }

  ghost predicate IsUnackedPage(q: Queue, ids: seq<CommandId>) {
    IsOldest(UnackedIds(q.rows), map id | id in q.rows :: CompletedKey(q.rows[id]), UNACKED_LIMIT, ids)
  }

  ghost predicate IsInterruptedList(q: Queue, ids: seq<CommandId>) {
    IsOldest(InterruptedIds(q.rows), map id | id in q.rows :: InterruptedKey(q.rows[id]), |q.rows|, ids)
  }

  // ------------------------------------------------------------ retention

  /** Acknowledged history: the only rows that count towards the limit or may be deleted. */
  function History(rows: map<CommandId, Row>): set<CommandId> {
    set id | id in rows && rows[id].ack != AckPending && rows[id].ackedAt.Some?
  }

  function NewerThan(rows: map<CommandId, Row>, t: int): set<CommandId> {
    set id | id in History(rows) && rows[id].ackedAt.value > t
  }

  function AtLeastAsNew(rows: map<CommandId, Row>, t: int): set<CommandId> {
    set id | id in History(rows) && rows[id].ackedAt.value >= t
  }

  /** `t` is the acknowledgement time of the n-th newest history row. */
  ghost predicate IsNthNewest(rows: map<CommandId, Row>, n: nat, t: int) {
    && |NewerThan(rows, t)| < n
    && n <= |AtLeastAsNew(rows, t)|
  }

  /** Beyond the policy: older than 30 days and older than the 500th newest acknowledgement. */
  ghost predicate Disposable(rows: map<CommandId, Row>, id: CommandId, now: int) {
    && id in History(rows)
    && rows[id].ackedAt.value < now - RETENTION_AGE
    && exists t :: IsNthNewest(rows, RETENTION_ROWS, t) && rows[id].ackedAt.value < t
  }

  ghost function DisposableIds(rows: map<CommandId, Row>, now: int): set<CommandId> {
    set id | id in rows && Disposable(rows, id, now)
  }

  function AckTimes(rows: map<CommandId, Row>): map<CommandId, int> {
    map id | id in rows :: if rows[id].ackedAt.Some? then rows[id].ackedAt.value else 0
  }

  /** One cleanup_acked call: at most 100 disposable rows go, oldest first. */
  ghost predicate IsCleanup(before: map<CommandId, Row>, now: int, victims: seq<CommandId>, after: map<CommandId, Row>) {
    && IsOldest(DisposableIds(before, now), AckTimes(before), CLEANUP_BATCH_LIMIT, victims)
    && after == before - Listed(victims)
  }

  // ------------------------------------------------------------ the queue object

  class OfflineQueue {
    var rows: map<CommandId, Row>
    var lastExecuted: nat

    function Content(): Queue
      reads this
    {
      Queue(rows, lastExecuted)
    }

    constructor ()
      ensures Content() == Queue(map[], 0)
    {
      rows, lastExecuted := map[], 0;
    }

    /** `writable` is false when storage forbids the write or the transaction fails. */
    method AddCommand(id: CommandId, slot: SlotArg, action: Action, createdAt: int, expiresAt: Option<int>,
                      sequence: Option<nat>, cloudAttempt: Option<nat>, writable: bool, now: int)
      returns (ok: bool)
      modifies this
      ensures (Content(), ok) ==
        if writable then Insert(old(Content()), id, NewRow(slot, action, createdAt, expiresAt, sequence, cloudAttempt, now))
        else (old(Content()), false)
    {
      if !writable {
        return false;
      }
      if id !in rows {
        rows := rows[id := NewRow(slot, action, createdAt, expiresAt, sequence, cloudAttempt, now)];
        return true;
      }
      return rows[id].slot == slot && rows[id].action == action;
    }

    method ClaimNext(writable: bool, now: int) returns (claimed: Option<CommandId>)
      modifies this
      ensures !writable ==> claimed == None && Content() == old(Content())
      ensures writable ==> ClaimPicks(old(Content()), claimed, now) && Content() == Claim(old(Content()), claimed, now)
    {
      if !writable {
        return None;
      }
      if forall id | id in rows :: rows[id].status != Delivered {
        NothingDelivered(rows, now);
        return None;
      }
      rows := ExpireOverdue(rows, now);
      SameClaimable(old(rows), now);
      claimed := OldestClaimable(now);
      if claimed.Some? {
        var row := rows[claimed.value];
        rows := rows[claimed.value := row.(status := Executing, startedAt := Some(now), attempts := row.attempts + 1)];
        if row.sequence.Some? && row.sequence.value > lastExecuted {
          lastExecuted := row.sequence.value;
        }
      }
    }

    method OldestClaimable(now: int) returns (claimed: Option<CommandId>)
      ensures ClaimPicks(Content(), claimed, now)
    {
      var candidates := set id | id in rows && Claimable(rows[id], now);
      if candidates == {} {
        assert forall id | id in rows :: id !in candidates;
        return None;
      }
      var created := map id | id in rows :: rows[id].createdAt;
      var id := Oldest(candidates, created);
      assert forall other | other in rows && Claimable(rows[other], now) :: other in candidates && created[id] <= created[other];
      return Some(id);
    }

    method UpdateStatus(id: CommandId, status: Status, verification: Option<Token>, writable: bool, now: int)
      returns (ok: bool)
      modifies this
      ensures (Content(), ok) ==
        if writable then Update(old(Content()), id, status, verification, now) else (old(Content()), false)
    {
      if !writable || id !in rows || !CanMove(rows[id].status, status) {
        return false;
      }
      rows := rows[id := Stamp(rows[id], status, now).(status := status, verification := verification)];
      return true;
    }

    method MarkAcked(id: CommandId, writable: bool, now: int) returns (ok: bool)
      modifies this
      ensures (Content(), ok) == if writable then MarkAckedSpec(old(Content()), id, now) else (old(Content()), false)
    {
      if !writable || id !in rows || !Final(rows[id].status) {
        return false;
      }
      if rows[id].ack == AckAcked {
        return true;
      }
      rows := rows[id := rows[id].(ack := AckAcked, ackedAt := Some(now))];
      return true;
    }

    method MarkAckRejected(id: CommandId, writable: bool, now: int) returns (ok: bool)
      modifies this
      ensures ok == writable
      ensures Content() == if writable then MarkRejectedSpec(old(Content()), id, now) else old(Content())
    {
      if !writable {
        return false;
      }
      if id in rows && rows[id].ack == AckPending {
        rows := rows[id := rows[id].(ack := AckRejected, ackedAt := Some(now))];
      }
      return true;
    }

    method GetExecutedCommandIds() returns (ids: seq<CommandId>)
      ensures IsExecutedReport(Content(), ids)
    {
      ids := TakeOldest(ExecutedIds(rows), map id | id in rows :: ExecutedKey(rows[id]), EXECUTED_IDS_MAX);
    }

    method GetUnacked() returns (ids: seq<CommandId>)
      ensures IsUnackedPage(Content(), ids)
    {
      ids := TakeOldest(UnackedIds(rows), map id | id in rows :: CompletedKey(rows[id]), UNACKED_LIMIT);
    }

    method GetInterrupted() returns (ids: seq<CommandId>)
      ensures IsInterruptedList(Content(), ids)
    {
      ids := TakeOldest(InterruptedIds(rows), map id | id in rows :: InterruptedKey(rows[id]), |rows|);
    }

    method CleanupAcked(writable: bool, now: int) returns (deleted: nat, ghost victims: seq<CommandId>)
      modifies this
      ensures lastExecuted == old(lastExecuted)
      ensures !writable ==> deleted == 0 && rows == old(rows)
      ensures writable ==> IsCleanup(old(rows), now, victims, rows) && deleted == |victims|
    {
      victims := [];
      if !writable {
        return 0, victims;
      }
      var history := History(rows);
      var newest := TakeOldest(history, map id | id in rows :: if rows[id].ackedAt.Some? then -rows[id].ackedAt.value else 0,
                               RETENTION_ROWS);
      var beyond := {};
      if |newest| == RETENTION_ROWS {
        var bar := rows[newest[RETENTION_ROWS - 1]].ackedAt.value;
        beyond := set id | id in history && rows[id].ackedAt.value < now - RETENTION_AGE && rows[id].ackedAt.value < bar;
        NewestPrefixGivesNth(rows, newest, RETENTION_ROWS);
        DisposableBelow(rows, now, bar);
      } else {
        NoNthNewest(rows, RETENTION_ROWS);
      }
      assert beyond == DisposableIds(rows, now);
      var doomed := TakeOldest(beyond, AckTimes(rows), CLEANUP_BATCH_LIMIT);
      victims := doomed;
      rows := rows - Listed(doomed);
      return |doomed|, victims;
    }
  }

  lemma NothingDelivered(rows: map<CommandId, Row>, now: int)
    requires forall id | id in rows :: rows[id].status != Delivered
    ensures ExpireOverdue(rows, now) == rows
  {
  }

  lemma SameClaimable(rows: map<CommandId, Row>, now: int)
    ensures var after := ExpireOverdue(rows, now);
      && after.Keys == rows.Keys
      && forall id | id in rows ::
           (Claimable(after[id], now) <==> Claimable(rows[id], now)) && after[id].createdAt == rows[id].createdAt
  {
  }

  lemma NthNewestUnique(rows: map<CommandId, Row>, n: nat, t: int, u: int)
    requires IsNthNewest(rows, n, t) && IsNthNewest(rows, n, u)
    ensures t == u
  {
    if t < u {
      NthNewestOrdered(rows, n, t, u);
    } else if u < t {
      NthNewestOrdered(rows, n, u, t);
    }
  }

  lemma SubsetSize(a: set<nat>, b: set<nat>)
    requires a <= b
    ensures |a| <= |b|
  {
    assert b == a + (b - a);
  }

  lemma NthNewestOrdered(rows: map<CommandId, Row>, n: nat, t: int, u: int)
    requires IsNthNewest(rows, n, t) && IsNthNewest(rows, n, u)
    ensures t >= u
  {
    if t < u {
      SubsetSize(AtLeastAsNew(rows, u), NewerThan(rows, t));
    }
  }

  /** The last of the n newest history rows carries the n-th newest time. */
  lemma NewestPrefixGivesNth(rows: map<CommandId, Row>, newest: seq<CommandId>, n: nat)
    requires 0 < n == |newest| && newest[n - 1] in History(rows)
    requires IsOldest(History(rows), map id | id in rows :: if rows[id].ackedAt.Some? then -rows[id].ackedAt.value else 0, n, newest)
    ensures IsNthNewest(rows, n, rows[newest[n - 1]].ackedAt.value)
  {
    var t := rows[newest[n - 1]].ackedAt.value;
    var above := NewerThan(rows, t);
    var listed := Listed(newest);
    DistinctSize(newest, listed);
    assert newest[n - 1] in newest && newest[n - 1] in listed;
    forall id | id in above ensures id in listed {
      assert id in History(rows);
    }
    assert newest[n - 1] !in above;
    var others := listed - {newest[n - 1]};
    assert listed == others + {newest[n - 1]};
    SubsetSize(above, others);
    var level := AtLeastAsNew(rows, t);
    forall id | id in listed ensures id in level {
      var i :| 0 <= i < n && newest[i] == id;
      assert newest[i] in History(rows);
    }
    SubsetSize(listed, level);
  }

  lemma DisposableBelow(rows: map<CommandId, Row>, now: int, bar: int)
    requires IsNthNewest(rows, RETENTION_ROWS, bar)
    ensures forall id | id in History(rows) ::
      Disposable(rows, id, now) <==> rows[id].ackedAt.value < now - RETENTION_AGE && rows[id].ackedAt.value < bar
  {
    forall t | IsNthNewest(rows, RETENTION_ROWS, t) ensures t == bar {
      NthNewestUnique(rows, RETENTION_ROWS, t, bar);
    }
  }

  lemma NoNthNewest(rows: map<CommandId, Row>, n: nat)
    requires |History(rows)| < n
    ensures forall t :: !IsNthNewest(rows, n, t)
  {
    forall t ensures !IsNthNewest(rows, n, t) {
      SubsetSize(AtLeastAsNew(rows, t), History(rows));
    }
  }
}
