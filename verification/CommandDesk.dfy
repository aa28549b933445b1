/** The endpoints as they run: statements over the tables, one method per transaction
  * (backend/main.py pi_sync, pi_command_ack, queue_command; backend/command_reliability.py;
  * backend/energy_api/day_allocation.py queue_set_days, publish_completed_batch). */
module CommandDesk {
  import opened Vocabulary
  import opened Selection
  import opened CloudCommands
  import R = CloudRuns

  class CommandDesk {
    var rows: map<CommandId, Row>
    var targets: map<Slot, int>
    var resetDay: int
    var configVersion: nat
    var nextSequence: nat

    function State(): Cloud
      reads this
    {
      Cloud(rows, targets, resetDay, configVersion, nextSequence)
    }

    /** No two rows of a batch name the same wing. */
    ghost predicate Valid()
      reads `rows
    {
      R.BatchSlotsDistinct(rows)
    }

    constructor (targets: map<Slot, int>, resetDay: int)
      ensures Valid() && State() == Cloud(map[], targets, resetDay, 0, 0)
    {
      rows, this.targets, this.resetDay, configVersion, nextSequence := map[], targets, resetDay, 0, 0;
    }

    /** `id` is the fresh uuid. */
    method QueueCommand(id: CommandId, command: Command, slot: SlotArg, param: int, now: int) returns (ok: bool)
      requires Valid() && id !in rows
      modifies this
      ensures Valid()
      ensures ok == ValidCommand(command, slot, param)
      ensures State() == if ok then QueueOne(old(State()), id, command, slot, param, now) else old(State())
    {
      if !ValidCommand(command, slot, param) {
        return false;
      }
      nextSequence := nextSequence + 1;
      rows := rows[id := NewRow(command, slot, param, nextSequence, None, now)];
      return true;
    }

    /** `wings` lists the wings of `days` in wing order; `ids` and `batch` are fresh uuids. */
    method QueueSetDays(wings: seq<Slot>, days: map<Slot, int>, ids: seq<CommandId>, batch: BatchId, now: int)
      requires Valid() && |wings| == |ids| && forall k | 0 <= k < |wings| :: wings[k] in days
      requires Distinct(wings) && R.Fresh(rows, ids) && R.Unused(rows, batch)
      modifies this
      ensures Valid()
      ensures State() == QueueWings(old(State()), wings, days, ids, batch, now)
    {
      R.QueueWingsSlots(State(), wings, days, ids, batch, now);
      for k := 0 to |wings|
        invariant State() == QueueWings(old(State()), wings[..k], days, ids[..k], batch, now)
      {
        nextSequence := nextSequence + 1;
        rows := rows[ids[k] := NewRow(SetDays, Wing(wings[k]), days[wings[k]], nextSequence, Some(batch), now)];
        assert wings[..k + 1][..k] == wings[..k] && ids[..k + 1][..k] == ids[..k];
      }
      assert wings[..|wings|] == wings && ids[..|ids|] == ids;
    }

    /** The command part of pi_sync, UPDATE by UPDATE, then the delivery. */
    method Sync(req: SyncRequest, now: int) returns (pick: Option<CommandId>)
      requires Valid()
      modifies this
      ensures Valid()
      ensures PicksNext(SyncRows(old(rows), req, now), pick)
      ensures State() == CloudCommands.Sync(old(State()), req, pick, now)
    {
      ghost var before := State();
      UpdateRows(req, now);
      pick := OldestQueued();
      if pick.Some? {
        rows := rows[pick.value := Deliver(rows[pick.value], now)];
      }
      R.SyncKeepsSlots(before, req, pick, now);
    }

    /** Reconciliation, lease reclaim and expiry: one UPDATE after the other. */
    method UpdateRows(req: SyncRequest, now: int)
      modifies this`rows
      ensures rows == SyncRows(old(rows), req, now)
    {
      rows := Promoted(rows, req, now);
      rows := WithoutSuperseded(rows, req);
      rows := Reclaimed(rows, now);
      rows := WithoutUnstarted(rows, now);
      rows := WithoutStuck(rows, now);
      UpdatesCompose(old(rows), req, now);
    }

    method OldestQueued() returns (pick: Option<CommandId>)
      ensures PicksNext(rows, pick)
    {
      pick := None;
      var rest := rows.Keys;
      while rest != {}
        invariant rest <= rows.Keys
        invariant PicksNext(map id | id in rows && id !in rest :: rows[id], pick)
        decreases |rest|
      {
        var id :| id in rest;
        if rows[id].status == Queued && (pick.None? || rows[id].sequence < rows[pick.value].sequence) {
          pick := Some(id);
        }
        rest := rest - {id};
      }
      assert rows == map id | id in rows && id !in rest :: rows[id];
    }

    /** pi_command_ack. Every early return and every 409 leaves the tables alone. */
    method CommandAck(ack: Ack) returns (reply: Reply)
      requires Valid()
      modifies this
      ensures Valid()
      ensures reply == Answer(old(rows), ack)
      ensures State() == Acknowledge(old(State()), ack)
    {
      reply := Screen(ack);
      if !reply.Applied? {
        return;
      }
      var row := rows[ack.id];
      if ack.status == Completed {
        CommitConfiguration(row);
      }
      rows := rows[ack.id := MoveRow(row, ack)];
      if row.batch.Some? && ack.status.Applied() {
        var changed := PublishCompletedBatch(row.batch.value);
      }
    }

    /** The checks, in the endpoint's order. */
    method Screen(ack: Ack) returns (reply: Reply)
      ensures reply == Answer(rows, ack)
    {
      if ack.id !in rows {
        return UnknownCommand;
      }
      var row := rows[ack.id];
      if ack.status == row.status {
        return Idempotent(row.status);
      }
      if row.status == Acked || Rank(ack.status) < Rank(row.status) {
        return Replay(row.status);
      }
      if Rank(ack.status) == 4 && Rank(row.status) == 4 {
        return Conflict(ConflictingTerminal);
      }
      if ResolveAckPath(row.status, ack.status, ack.token, row.command).None? {
        return Conflict(IllegalTransition);
      }
      if ack.attempt.Some? && ack.attempt.value != row.attempt {
        return Conflict(StaleAttempt);
      }
      if ack.status == HardwareVerified && !ack.token.Positive() {
        return Conflict(VerificationRequired);
      }
      if ack.status == Completed {
        if row.command == SetDays && (!row.slot.Wing? || !(0 <= row.param <= 31)) {
          return Conflict(InvalidCommandData);
        }
        if row.command == SetResetDay && !(1 <= row.param <= 28) {
          return Conflict(InvalidCommandData);
        }
      }
      return Reply.Applied(ack.status);
    }

    method CommitConfiguration(row: Row)
      modifies this
      ensures State() == Commit(old(State()), row)
    {
      if row.command == SetDays && row.slot.Wing? && row.batch.None? {
        var stale := NewerSetDaysCommitted(row.slot.slot, row.sequence);
        if !stale {
          if row.slot.slot in targets {
            targets := targets[row.slot.slot := row.param];
          }
          configVersion := configVersion + 1;
        }
      } else if row.command == SetResetDay {
        resetDay := row.param;
        configVersion := configVersion + 1;
      }
    }

    method NewerSetDaysCommitted(s: Slot, sequence: nat) returns (stale: bool)
      ensures stale <==> NewerCommitted(rows, s, sequence)
    {
      stale := exists id :: id in rows && rows[id].command == SetDays && rows[id].slot == Wing(s)
                 && rows[id].sequence > sequence && rows[id].status.Applied();
    }

    method PublishCompletedBatch(b: BatchId) returns (changed: bool)
      requires Valid()
      modifies this
      ensures Valid()
      ensures State() == Publish(old(State()), b)
      ensures changed <==> Publishes(old(rows), b) && BatchChanges(old(State()), b)
    {
      if !FullyApplied(rows, b) {
        return false;
      }
      var thisMax := MaxSequence(Members(rows, b));
      SupersededByRow(rows, b);
      if exists id :: id in rows && HigherApplied(rows, id, b, thisMax) {
        return false;
      }
      changed := WriteTargets(b);
      if changed {
        configVersion := configVersion + 1;
      }
    }

    method MaxSequence(ids: set<CommandId>) returns (top: nat)
      requires ids != {} && ids <= rows.Keys
      ensures top == TopSequence(rows, ids)
    {
      top := 0;
      var rest := ids;
      while rest != {}
        invariant rest <= ids
        invariant forall id | id in ids - rest :: rows[id].sequence <= top
        invariant rest == ids || exists id :: id in ids && rows[id].sequence == top
        decreases |rest|
      {
        var id :| id in rest;
        if rows[id].sequence > top || rest == ids {
          top := rows[id].sequence;
        }
        rest := rest - {id};
      }
    }

    /** One row of the loop: UPDATE touches a wing only if it has a slot_configs row. */
    method WriteTarget(id: CommandId) returns (wrote: bool)
      requires id in rows && rows[id].slot.Wing?
      modifies this`targets
      ensures var s, days := rows[id].slot.slot, rows[id].param;
        && (wrote <==> s !in old(targets) || old(targets)[s] != days)
        && targets == if s in old(targets) then old(targets)[s := days] else old(targets)
    {
      var s := rows[id].slot.slot;
      wrote := s !in targets || targets[s] != rows[id].param;
      if s in targets && wrote {
        targets := targets[s := rows[id].param];
      }
    }

    /** The per-row loop of the publication. */
    method WriteTargets(b: BatchId) returns (changed: bool)
      requires Valid()
      modifies this`targets
      ensures targets == map s | s in old(targets) :: BatchDays(rows, b, s, old(targets)[s])
      ensures changed <==> BatchChanges(old(State()), b)
    {
      changed := false;
      ghost var before := State();
      var rest := Members(rows, b);
      while rest != {}
        invariant rest <= Members(rows, b)
        invariant Written(rows, b, old(targets), targets, rest)
        invariant changed <==> exists id, s :: id !in rest && Changes(before, id, b, s)
        decreases |rest|
      {
        var id :| id in rest;
        rest := rest - {id};
        if rows[id].slot.Wing? {
          ghost var s := rows[id].slot.slot;
          assert Sets(rows, id, b, s);
          assert Changes(before, id, b, s) <==> s !in targets || targets[s] != rows[id].param;
          var wrote := WriteTarget(id);
          changed := changed || wrote;
        }
      }
      AllWritten(rows, b, old(targets), targets);
    }
  }

  /** The loop of publication has written the wings of every batch row outside `rest`, and no other. */
  ghost predicate Written(rows: map<CommandId, Row>, b: BatchId, before: map<Slot, int>, targets: map<Slot, int>, rest: set<CommandId>) {
    && targets.Keys == before.Keys
    && (forall s, id | s in targets && Sets(rows, id, b, s) && id !in rest :: targets[s] == rows[id].param)
    && (forall s | s in targets && (forall id | Sets(rows, id, b, s) :: id in rest) :: targets[s] == before[s])
  }

  lemma AllWritten(rows: map<CommandId, Row>, b: BatchId, before: map<Slot, int>, targets: map<Slot, int>)
    requires Written(rows, b, before, targets, {})
    ensures targets == map s | s in before :: BatchDays(rows, b, s, before[s])
  {
    forall s | s in before ensures targets[s] == BatchDays(rows, b, s, before[s]) {
      if id :| Sets(rows, id, b, s) {
        assert targets[s] == rows[id].param;
      }
    }
  }

  /** The row belongs to another fully applied batch and has a higher sequence number. */
  predicate HigherApplied(rows: map<CommandId, Row>, id: CommandId, b: BatchId, top: nat)
    requires id in rows
  {
    rows[id].batch.Some? && rows[id].batch.value != b && FullyApplied(rows, rows[id].batch.value) && rows[id].sequence > top
  }

  lemma SupersededByRow(rows: map<CommandId, Row>, b: BatchId)
    ensures Superseded(rows, b) <==> exists id :: id in rows && HigherApplied(rows, id, b, Top(rows, b))
  {
    if Superseded(rows, b) {
      var other: BatchId :| other != b && FullyApplied(rows, other) && Top(rows, other) > Top(rows, b);
      var id :| id in Members(rows, other) && rows[id].sequence == Top(rows, other);
      assert HigherApplied(rows, id, b, Top(rows, b));
    }
    if id :| id in rows && HigherApplied(rows, id, b, Top(rows, b)) {
      assert id in Members(rows, rows[id].batch.value);
    }
  }

  function Promoted(rows: map<CommandId, Row>, req: SyncRequest, now: int): map<CommandId, Row> {
    map id | id in rows :: Promote(rows[id], id in req.executed, now)
  }

  function WithoutSuperseded(rows: map<CommandId, Row>, req: SyncRequest): map<CommandId, Row> {
    map id | id in rows :: Supersede(rows[id], id in req.executed, req.lastSequence)
  }

  function Reclaimed(rows: map<CommandId, Row>, now: int): map<CommandId, Row> {
    map id | id in rows :: Reclaim(rows[id], now)
  }

  function WithoutUnstarted(rows: map<CommandId, Row>, now: int): map<CommandId, Row> {
    map id | id in rows :: ExpireUnstarted(rows[id], now)
  }

  function WithoutStuck(rows: map<CommandId, Row>, now: int): map<CommandId, Row> {
    map id | id in rows :: ExpireStuck(rows[id], now)
  }

  /** The five UPDATE statements in order do to each row what SyncRow says. */
  lemma UpdatesCompose(rows: map<CommandId, Row>, req: SyncRequest, now: int)
    ensures WithoutStuck(WithoutUnstarted(Reclaimed(WithoutSuperseded(Promoted(rows, req, now), req), now), now), now)
      == SyncRows(rows, req, now)
  {
    var r1 := Promoted(rows, req, now);
    var r2 := WithoutSuperseded(r1, req);
    var r3 := Reclaimed(r2, now);
    var r4 := WithoutUnstarted(r3, now);
    assert WithoutStuck(r4, now).Keys == rows.Keys;
    forall id | id in rows ensures r4[id] == ExpireUnstarted(Reclaim(Supersede(
        Promote(rows[id], id in req.executed, now), id in req.executed, req.lastSequence), now), now)
    {
      assert id in r1 && id in r2 && id in r3;
    }
  }
}
