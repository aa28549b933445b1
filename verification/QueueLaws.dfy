/** What each operation of the durable queue does to a row (pi_firmware/offline_queue.py), in terms of the
  * row's own columns. */
module QueueLaws {
  import opened Vocabulary
  import opened Selection
  import opened OfflineQueue

  // ------------------------------------------------------------ claim_next

  /** Waiting in the queue, and past its expiry. */
  predicate PastExpiry(row: Row, now: int) {
    row.status == Delivered && row.expiresAt.Some? && row.expiresAt.value <= now
  }

  predicate Waiting(row: Row, now: int) {
    row.status == Delivered && (row.expiresAt.Some? ==> now < row.expiresAt.value)
  }

  /** A writable claim: every waiting row past its expiry is EXPIRED, the waiting row that was created first is
    * EXECUTING, as one attempt more, and no other row changes; the last executed sequence number only grows,
    * to that of the claimed row. Nothing is claimed exactly when no row waits. */
  lemma ClaimExactly(q: Queue, claimed: Option<CommandId>, now: int)
    requires ClaimPicks(q, claimed, now)
    ensures var after := Claim(q, claimed, now);
      && after.rows.Keys == q.rows.Keys
      && (forall id | id in q.rows && PastExpiry(q.rows[id], now) ::
            after.rows[id] == q.rows[id].(status := Expired, completedAt := Some(now)))
      && (forall id | id in q.rows && !PastExpiry(q.rows[id], now) && claimed != Some(id) :: after.rows[id] == q.rows[id])
    ensures claimed.None? <==> forall id | id in q.rows :: !Waiting(q.rows[id], now)
    ensures claimed.None? ==> Claim(q, claimed, now).lastExecuted == q.lastExecuted
  {
  }

  lemma ClaimedExactly(q: Queue, id: CommandId, now: int)
    requires ClaimPicks(q, Some(id), now)
    ensures id in q.rows && Waiting(q.rows[id], now)
    ensures forall other | other in q.rows && Waiting(q.rows[other], now) :: q.rows[id].createdAt <= q.rows[other].createdAt
    ensures var after, row := Claim(q, Some(id), now), q.rows[id];
      && after.rows[id] == row.(status := Executing, startedAt := Some(now), attempts := row.attempts + 1)
      && q.lastExecuted <= after.lastExecuted
      && (row.sequence.Some? ==> row.sequence.value <= after.lastExecuted)
      && (after.lastExecuted == q.lastExecuted || Some(after.lastExecuted) == row.sequence)
  {
  }

  // ------------------------------------------------------------ add_command, update_status

  /** VALID_TRANSITIONS, for what the controller ever asks for. */
  predicate Allowed(a: Status, b: Status) {
    || (a == Delivered && b in {Executing, Expired})
    || (a == Executing && b in {HardwareVerified, Failed, UnknownAfterReboot})
    || (a == UnknownAfterReboot && b in {HardwareVerified, Failed, Completed})
    || (a == HardwareVerified && b == Completed)
    || (a in {Completed, Failed, Expired} && b == Acked)
  }

  /** The row got the status and the token, and the time of this stage; the other columns are as they were. */
  predicate MovedTo(row: Row, next: Row, status: Status, token: Option<Token>, now: int) {
    && next.status == status && next.verification == token
    && next.startedAt == (if status == Executing then Some(now) else row.startedAt)
    && next.verifiedAt == (if status == HardwareVerified then Some(now) else row.verifiedAt)
    && next.completedAt == (if status in {Completed, Failed, Expired} then Some(now) else row.completedAt)
    && next == row.(status := next.status, verification := next.verification, startedAt := next.startedAt,
                    verifiedAt := next.verifiedAt, completedAt := next.completedAt)
  }

  lemma UpdateExactly(q: Queue, id: CommandId, status: Status, token: Option<Token>, now: int)
    ensures var (after, ok) := Update(q, id, status, token, now);
      && (ok <==> id in q.rows && Allowed(q.rows[id].status, status))
      && (!ok ==> after == q)
      && (ok ==> id in after.rows && after == q.(rows := q.rows[id := after.rows[id]]))
      && (ok ==> MovedTo(q.rows[id], after.rows[id], status, token, now))
  {
  }

  /** A command that is not there enters waiting, delivered now and with nothing else on record; one that is
    * there stays as it is, and the delivery is accepted exactly when it is the same wing and action. */
  lemma InsertExactly(q: Queue, id: CommandId, slot: SlotArg, action: Action, createdAt: int, expiresAt: Option<int>,
                      sequence: Option<nat>, cloudAttempt: Option<nat>, now: int)
    ensures var (after, ok) := Insert(q, id, NewRow(slot, action, createdAt, expiresAt, sequence, cloudAttempt, now));
      if id in q.rows then after == q && (ok <==> q.rows[id].slot == slot && q.rows[id].action == action)
      else
        && ok && id in after.rows && after == q.(rows := q.rows[id := after.rows[id]])
        && var row := after.rows[id];
           && row.slot == slot && row.action == action && row.status == Delivered && row.createdAt == createdAt
           && row.deliveredAt == now && row.expiresAt == expiresAt && row.attempts == 0 && row.ack == AckPending
           && row.startedAt.None? && row.verifiedAt.None? && row.completedAt.None? && row.ackedAt.None?
           && row.verification.None? && row.sequence == sequence && row.cloudAttempt == cloudAttempt
  {
  }

  // ------------------------------------------------------------ acknowledgement

  /** mark_acked: a final row is acknowledged now, unless it was before; nothing else of it changes. */
  lemma MarkAckedExactly(q: Queue, id: CommandId, now: int)
    ensures var (after, ok) := MarkAckedSpec(q, id, now);
      && (ok <==> id in q.rows && q.rows[id].status in {Completed, Failed, Expired})
      && after == if ok && q.rows[id].ack != AckAcked
                  then q.(rows := q.rows[id := q.rows[id].(ack := AckAcked, ackedAt := Some(now))]) else q
  {
  }

  lemma MarkRejectedExactly(q: Queue, id: CommandId, now: int)
    ensures MarkRejectedSpec(q, id, now) ==
      if id in q.rows && q.rows[id].ack == AckPending
      then q.(rows := q.rows[id := q.rows[id].(ack := AckRejected, ackedAt := Some(now))]) else q
  {
  }

  // ------------------------------------------------------------ the lists

  /** Final, and still to be acknowledged. */
  predicate ToAcknowledge(rows: map<CommandId, Row>, id: CommandId) {
    id in rows && rows[id].status in {Completed, Failed, Expired} && rows[id].ack == AckPending
  }

  /** get_unacked: at most ten final rows that are still to be acknowledged, each before all that completed
    * later; all of them when there are ten or fewer. */
  lemma UnackedPage(q: Queue, ids: seq<CommandId>)
    requires IsUnackedPage(q, ids) && forall id | ToAcknowledge(q.rows, id) :: q.rows[id].completedAt.Some?
    ensures |ids| <= 10 && Distinct(ids)
    ensures forall k | 0 <= k < |ids| :: ToAcknowledge(q.rows, ids[k])
    ensures forall i, k | 0 <= i < k < |ids| :: q.rows[ids[i]].completedAt.value <= q.rows[ids[k]].completedAt.value
    ensures forall other | ToAcknowledge(q.rows, other) && other !in ids ::
      |ids| == 10 && forall k | 0 <= k < |ids| :: q.rows[ids[k]].completedAt.value <= q.rows[other].completedAt.value
    ensures ids == [] ==> forall other :: !ToAcknowledge(q.rows, other)
  {
    var keys := map id | id in q.rows :: CompletedKey(q.rows[id]);
    forall k | 0 <= k < |ids| ensures ToAcknowledge(q.rows, ids[k]) && keys[ids[k]] == q.rows[ids[k]].completedAt.value {
      assert ids[k] in UnackedIds(q.rows);
    }
    forall other | ToAcknowledge(q.rows, other) && other !in ids
      ensures |ids| == 10 && other in UnackedIds(q.rows) && keys[other] == q.rows[other].completedAt.value
    {
      assert Unacked(q.rows[other]) && other in UnackedIds(q.rows);
      if |ids| < 10 {
        ShortListIsAll(UnackedIds(q.rows), keys, 10, ids);
        assert false;
      }
    }
  }

  lemma ShortListIsAll(ids: set<nat>, key: map<nat, int>, limit: nat, out: seq<nat>)
    requires ids <= key.Keys && IsOldest(ids, key, limit, out) && |out| < limit
    ensures forall x | x in ids :: x in out
  {
    var listed := Listed(out);
    DistinctSize(out, listed);
    forall x | x in listed ensures x in ids {
      var i :| 0 <= i < |out| && out[i] == x;
    }
    assert ids == listed + (ids - listed);
  }

  /** Begun: EXECUTING or anything after it. */
  predicate Begun(rows: map<CommandId, Row>, id: CommandId) {
    id in rows && rows[id].status in {Executing, HardwareVerified, UnknownAfterReboot, Completed, Failed}
  }

  /** The row was started at this time, or, if it has no start, delivered then. */
  predicate BegunAt(row: Row, at: int) {
    row.startedAt == Some(at) || (row.startedAt.None? && row.deliveredAt == at)
  }

  /** The row was started at this time, or, if it has no start, verified then, or else created then. */
  predicate InterruptedAt(row: Row, at: int) {
    || row.startedAt == Some(at)
    || (row.startedAt.None? && row.verifiedAt == Some(at))
    || (row.startedAt.None? && row.verifiedAt.None? && row.createdAt == at)
  }

  /** get_executed_command_ids: at most fifty commands that were begun, those begun last, the last one first;
    * all of them when there are fifty or fewer. */
  lemma ExecutedReport(q: Queue, ids: seq<CommandId>)
    requires IsExecutedReport(q, ids)
    ensures |ids| <= 50 && Distinct(ids)
    ensures forall k | 0 <= k < |ids| :: Begun(q.rows, ids[k])
    ensures forall other | Begun(q.rows, other) && other !in ids :: |ids| == 50
    ensures forall other, k, t, u | Begun(q.rows, other) && other !in ids && 0 <= k < |ids| && BegunAt(q.rows[other], t) && BegunAt(q.rows[ids[k]], u) ::
      t <= u
    ensures forall i, k, t, u | 0 <= i < k < |ids| && BegunAt(q.rows[ids[i]], t) && BegunAt(q.rows[ids[k]], u) :: u <= t
    ensures ids == [] ==> forall other :: !Begun(q.rows, other)
  {
    var keys := map id | id in q.rows :: ExecutedKey(q.rows[id]);
    forall k | 0 <= k < |ids| ensures Begun(q.rows, ids[k]) {
      assert ids[k] in ExecutedIds(q.rows);
    }
    forall other | Begun(q.rows, other) && other !in ids ensures |ids| == 50 && other in ExecutedIds(q.rows) {
      assert Executed(q.rows[other]) && other in ExecutedIds(q.rows);
      if |ids| < 50 {
        ShortListIsAll(ExecutedIds(q.rows), keys, 50, ids);
        assert false;
      }
    }
  }

  /** get_interrupted: every command that was begun and not ended, in the order in which they were started. */
  lemma InterruptedList(q: Queue, ids: seq<CommandId>)
    requires IsInterruptedList(q, ids)
    ensures Distinct(ids)
    ensures forall id :: id in ids <==> id in q.rows && q.rows[id].status in {Executing, HardwareVerified, UnknownAfterReboot}
    ensures forall i, k, t, u | 0 <= i < k < |ids| && InterruptedAt(q.rows[ids[i]], t) && InterruptedAt(q.rows[ids[k]], u) :: t <= u
  {
    var keys := map id | id in q.rows :: InterruptedKey(q.rows[id]);
    assert keys.Keys == q.rows.Keys;
    AllAreListed(InterruptedIds(q.rows), keys, |q.rows|, ids);
    forall id ensures id in ids <==> id in InterruptedIds(q.rows) {
    }
  }
}
