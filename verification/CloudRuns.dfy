/** Runs of cloud transactions: any commands queued, any sync reports, any ACKs, in any order. */
module CloudRuns {
  import opened Vocabulary
  import opened Selection
  import opened CloudCommands

  datatype Step =
    | QueueStep(id: CommandId, command: Command, slot: SlotArg, param: int)
    | BatchStep(wings: seq<Slot>, days: map<Slot, int>, ids: seq<CommandId>, batch: BatchId)
    | SyncStep(req: SyncRequest, pick: Option<CommandId>)
    | AckStep(ack: Ack)

  ghost predicate Fresh(rows: map<CommandId, Row>, ids: seq<CommandId>) {
    && Distinct(ids)
    && forall k | 0 <= k < |ids| :: ids[k] !in rows
  }

  predicate ValidDays(wings: seq<Slot>, days: map<Slot, int>) {
    forall k | 0 <= k < |wings| :: wings[k] in days && 0 <= days[wings[k]] <= 31
  }

  /** `BatchStep` uses fresh ids and a fresh batch id, one per wing, with days resolve_days accepts. */
  ghost predicate Enabled(c: Cloud, step: Step, now: int) {
    match step
    case QueueStep(id, command, slot, param) =>
      id !in c.rows && ValidCommand(command, slot, param)
    case BatchStep(wings, days, ids, batch) =>
      && |wings| == |ids| > 0
      && Distinct(wings) && Fresh(c.rows, ids)
      && ValidDays(wings, days)
      && Unused(c.rows, batch)
    case SyncStep(req, pick) => PicksNext(SyncRows(c.rows, req, now), pick)
    case AckStep(ack) => true
  }

  ghost function Apply(c: Cloud, step: Step, now: int): Cloud
    requires Enabled(c, step, now)
  {
    match step
    case QueueStep(id, command, slot, param) => QueueOne(c, id, command, slot, param, now)
    case BatchStep(wings, days, ids, batch) => QueueWings(c, wings, days, ids, batch, now)
    case SyncStep(req, pick) => Sync(c, req, pick, now)
    case AckStep(ack) => Acknowledge(c, ack)
  }

  datatype Timed = Timed(step: Step, now: int)

  /** A run from an empty command table, on a server clock that never goes back. */
  ghost predicate IsRun(trace: seq<Cloud>, steps: seq<Timed>) {
    && |trace| == |steps| + 1
    && trace[0].rows == map[]
    && (forall k | 0 <= k < |steps| :: Enabled(trace[k], steps[k].step, steps[k].now)
         && trace[k + 1] == Apply(trace[k], steps[k].step, steps[k].now))
    && forall k | 0 <= k < |steps| - 1 :: steps[k].now <= steps[k + 1].now
  }

  // ------------------------------------------------------------ what a row keeps

  /** Facts about one row that hold at every time from `now` on until it changes. */
  predicate RowOk(row: Row, now: int) {
    && row.createdAt <= now && row.expiresAt == row.createdAt + COMMAND_EXPIRY
    && (row.outcome.Some? <==> row.status.Terminal() || row.status == Acked)
    && (row.outcome.Some? ==> row.outcome.value.Terminal())
    && (row.status.Terminal() ==> row.outcome == Some(row.status))
    && row.attempt <= 3
    && (row.status == Queued ==> row.deliveredAt == None)
    && (row.status == Queued && row.attempt > 0 ==> now > row.createdAt + row.attempt * DELIVERY_LEASE)
    && (row.status == Delivered && row.deliveredAt.Some? ==>
          row.attempt > 0 && row.deliveredAt.value >= row.createdAt + (row.attempt - 1) * DELIVERY_LEASE)
    && (row.command == SetDays ==> row.slot.Wing? && 0 <= row.param <= 31)
    && (row.command == SetResetDay ==> 1 <= row.param <= 28)
    && (row.batch.Some? ==> row.command == SetDays)
  }

  /** How a row may change in one transaction. */
  predicate Evolves(a: Row, b: Row) {
    && b.command == a.command && b.slot == a.slot && b.param == a.param && b.sequence == a.sequence
    && b.batch == a.batch && b.createdAt == a.createdAt && b.expiresAt == a.expiresAt
    && a.attempt <= b.attempt
    && (!a.status.Waiting() ==> !b.status.Waiting())
    && (a.outcome.Some? ==> b.outcome == a.outcome)
    && (a.status.Terminal() ==> b.status == a.status || b.status == Acked)
    && (a.status == Acked ==> b.status == Acked)
  }

  ghost predicate TableEvolves(a: map<CommandId, Row>, b: map<CommandId, Row>) {
    forall id | id in a :: id in b && Evolves(a[id], b[id])
  }

  ghost predicate TableOk(c: Cloud, now: int) {
    && (forall id | id in c.rows :: RowOk(c.rows[id], now) && 0 < c.rows[id].sequence <= c.nextSequence)
    && forall i, j | i in c.rows && j in c.rows && i != j :: c.rows[i].sequence != c.rows[j].sequence
  }

  lemma PromoteOk(row: Row, executed: bool, now: int)
    requires RowOk(row, now)
    ensures RowOk(Promote(row, executed, now), now) && Evolves(row, Promote(row, executed, now))
  {
  }

  lemma SupersedeOk(row: Row, executed: bool, lastSequence: nat, now: int)
    requires RowOk(row, now)
    ensures RowOk(Supersede(row, executed, lastSequence), now) && Evolves(row, Supersede(row, executed, lastSequence))
  {
  }

  lemma ReclaimOk(row: Row, now: int)
    requires RowOk(row, now)
    ensures RowOk(Reclaim(row, now), now) && Evolves(row, Reclaim(row, now))
  {
  }

  lemma ExpireOk(row: Row, now: int)
    requires RowOk(row, now)
    ensures var e := ExpireStuck(ExpireUnstarted(row, now), now);
      RowOk(e, now) && Evolves(row, e) && (e.status.Waiting() ==> e.expiresAt > now)
  {
  }

  lemma SyncRowOk(row: Row, executed: bool, lastSequence: nat, then0: int, now: int)
    requires RowOk(row, then0) && then0 <= now
    ensures var s := SyncRow(row, executed, lastSequence, now);
      RowOk(s, now) && Evolves(row, s) && s.attempt == row.attempt && (s.status.Waiting() ==> s.expiresAt > now)
  {
    var a := Promote(row, executed, now);
    PromoteOk(row, executed, now);
    var b := Supersede(a, executed, lastSequence);
    SupersedeOk(a, executed, lastSequence, now);
    ReclaimOk(b, now);
    ExpireOk(Reclaim(b, now), now);
  }

  /** A delivery needs a live row, and each earlier one used up a 120 s lease of its 300 s life. */
  lemma DeliverOk(row: Row, now: int)
    requires RowOk(row, now) && row.status == Queued && row.expiresAt > now
    ensures RowOk(Deliver(row, now), now) && Evolves(row, Deliver(row, now))
  {
    assert row.attempt * DELIVERY_LEASE < COMMAND_EXPIRY;
  }

  lemma AckRowOk(rows: map<CommandId, Row>, ack: Ack, now: int)
    requires Answer(rows, ack).Applied?
    requires RowOk(rows[ack.id], now)
    ensures RowOk(MoveRow(rows[ack.id], ack), now)
    ensures Evolves(rows[ack.id], MoveRow(rows[ack.id], ack))
    ensures !ack.status.Waiting() || ack.status == Delivered
    ensures ack.status == Acked ==> rows[ack.id].status.Terminal()
  {
    var row := rows[ack.id];
    assert ResolveAckPath(row.status, ack.status, ack.token, row.command).Some?;
    assert row.status.Terminal() ==> ack.status == Acked by {
      assert row.status.Terminal() ==> Edges(row.status) == {Acked};
    }
    assert ack.status == Acked ==> row.status.Terminal() by {
      assert Acked in Edges(row.status) ==> row.status.Terminal();
    }
  }

  lemma AckRows(c: Cloud, ack: Ack)
    requires Answer(c.rows, ack).Applied?
    ensures Acknowledge(c, ack).rows == c.rows[ack.id := MoveRow(c.rows[ack.id], ack)]
    ensures Acknowledge(c, ack).nextSequence == c.nextSequence
  {
  }

  /** queue_set_days for one wing more. */
  lemma QueueWingsStep(c: Cloud, wings: seq<Slot>, days: map<Slot, int>, ids: seq<CommandId>, batch: BatchId, now: int)
    requires |wings| == |ids| > 0 && ValidDays(wings, days) && Fresh(c.rows, ids)
    ensures var last := |ids| - 1;
      var d := QueueWings(c, wings[..last], days, ids[..last], batch, now);
      QueueWings(c, wings, days, ids, batch, now) == d.(
        rows := d.rows[ids[last] := NewRow(SetDays, Wing(wings[last]), days[wings[last]], d.nextSequence + 1, Some(batch), now)],
        nextSequence := d.nextSequence + 1)
  {
  }

  lemma {:induction false} QueueWingsIds(c: Cloud, wings: seq<Slot>, days: map<Slot, int>, ids: seq<CommandId>, batch: BatchId, now: int)
    requires |wings| == |ids| && ValidDays(wings, days) && Fresh(c.rows, ids)
    ensures var d := QueueWings(c, wings, days, ids, batch, now);
      && d == c.(rows := d.rows, nextSequence := c.nextSequence + |wings|)
      && (forall id :: id in d.rows <==> id in c.rows || id in ids)
      && (forall id | id in c.rows :: d.rows[id] == c.rows[id])
  {
    if wings != [] {
      var last := |wings| - 1;
      QueueWingsIds(c, wings[..last], days, ids[..last], batch, now);
      QueueWingsStep(c, wings, days, ids, batch, now);
      assert ids == ids[..last] + [ids[last]];
    }
  }

  lemma {:induction false} QueueWingsRows(c: Cloud, wings: seq<Slot>, days: map<Slot, int>, ids: seq<CommandId>, batch: BatchId, now: int)
    requires |wings| == |ids| && ValidDays(wings, days) && Fresh(c.rows, ids)
    ensures var d := QueueWings(c, wings, days, ids, batch, now);
      && d == c.(rows := d.rows, nextSequence := c.nextSequence + |wings|)
      && (forall id :: id in d.rows <==> id in c.rows || id in ids)
      && (forall id | id in c.rows :: d.rows[id] == c.rows[id])
      && (forall k | 0 <= k < |ids| :: d.rows[ids[k]]
            == NewRow(SetDays, Wing(wings[k]), days[wings[k]], c.nextSequence + k + 1, Some(batch), now))
  {
    QueueWingsIds(c, wings, days, ids, batch, now);
    forall k | 0 <= k < |ids|
      ensures QueueWings(c, wings, days, ids, batch, now).rows[ids[k]]
        == NewRow(SetDays, Wing(wings[k]), days[wings[k]], c.nextSequence + k + 1, Some(batch), now)
    {
      QueueWingsAt(c, wings, days, ids, batch, now, k);
    }
  }

  lemma {:induction false} QueueWingsAt(c: Cloud, wings: seq<Slot>, days: map<Slot, int>, ids: seq<CommandId>, batch: BatchId, now: int, k: nat)
    requires |wings| == |ids| && ValidDays(wings, days) && Fresh(c.rows, ids) && k < |ids|
    ensures ids[k] in QueueWings(c, wings, days, ids, batch, now).rows
    ensures QueueWings(c, wings, days, ids, batch, now).rows[ids[k]]
      == NewRow(SetDays, Wing(wings[k]), days[wings[k]], c.nextSequence + k + 1, Some(batch), now)
  {
    var last := |wings| - 1;
    QueueWingsStep(c, wings, days, ids, batch, now);
    QueueWingsIds(c, wings[..last], days, ids[..last], batch, now);
    if k < last {
      assert ids[..last][k] == ids[k] && wings[..last][k] == wings[k];
      QueueWingsAt(c, wings[..last], days, ids[..last], batch, now, k);
    }
  }

  lemma AddRowKeeps(c: Cloud, id: CommandId, row: Row, then0: int, now: int)
    requires TableOk(c, then0) && then0 <= now
    requires id !in c.rows && RowOk(row, now) && row.sequence == c.nextSequence + 1
    ensures TableOk(c.(rows := c.rows[id := row], nextSequence := c.nextSequence + 1), now)
    ensures TableEvolves(c.rows, c.rows[id := row])
  {
  }

  lemma AddedRowKeeps(c: Cloud, d: Cloud, e: Cloud, id: CommandId, row: Row, now: int)
    requires TableOk(d, now) && TableEvolves(c.rows, d.rows)
    requires id !in d.rows && RowOk(row, now) && row.sequence == d.nextSequence + 1
    requires e == d.(rows := d.rows[id := row], nextSequence := d.nextSequence + 1)
    ensures TableOk(e, now) && TableEvolves(c.rows, e.rows)
  {
    AddRowKeeps(d, id, row, now, now);
    TableEvolvesTransitive(c.rows, d.rows, e.rows);
  }

  lemma NewRowOk(wing: Slot, days: int, sequence: nat, batch: BatchId, now: int)
    requires 0 <= days <= 31
    ensures RowOk(NewRow(SetDays, Wing(wing), days, sequence, Some(batch), now), now)
  {
  }

  lemma QueueWingsFresh(c: Cloud, wings: seq<Slot>, days: map<Slot, int>, ids: seq<CommandId>, batch: BatchId, now: int)
    requires |wings| == |ids| > 0 && ValidDays(wings, days) && Fresh(c.rows, ids)
    ensures ids[|ids| - 1] !in QueueWings(c, wings[..|ids| - 1], days, ids[..|ids| - 1], batch, now).rows
  {
    QueueWingsRows(c, wings[..|ids| - 1], days, ids[..|ids| - 1], batch, now);
  }

  /** queue_set_days is queue_command once per wing, with the batch id filled in. */
  lemma {:induction false} QueueWingsKeeps(c: Cloud, wings: seq<Slot>, days: map<Slot, int>, ids: seq<CommandId>,
                                           batch: BatchId, then0: int, now: int)
    requires TableOk(c, then0) && then0 <= now
    requires |wings| == |ids| && ValidDays(wings, days) && Fresh(c.rows, ids)
    ensures TableOk(QueueWings(c, wings, days, ids, batch, now), now)
    ensures TableEvolves(c.rows, QueueWings(c, wings, days, ids, batch, now).rows)
  {
    if wings != [] {
      var last := |wings| - 1;
      var d := QueueWings(c, wings[..last], days, ids[..last], batch, now);
      QueueWingsKeeps(c, wings[..last], days, ids[..last], batch, then0, now);
      QueueWingsFresh(c, wings, days, ids, batch, now);
      var row := NewRow(SetDays, Wing(wings[last]), days[wings[last]], d.nextSequence + 1, Some(batch), now);
      NewRowOk(wings[last], days[wings[last]], d.nextSequence + 1, batch, now);
      QueueWingsStep(c, wings, days, ids, batch, now);
      AddedRowKeeps(c, d, QueueWings(c, wings, days, ids, batch, now), ids[last], row, now);
    } else {
      QueueNoneKeeps(c, then0, now);
      EvolvesReflexive(c.rows);
    }
  }

  lemma QueueNoneKeeps(c: Cloud, then0: int, now: int)
    requires TableOk(c, then0) && then0 <= now
    ensures TableOk(c, now)
  {
  }

  lemma SyncRowsKeep(c: Cloud, req: SyncRequest, then0: int, now: int)
    requires TableOk(c, then0) && then0 <= now
    ensures TableOk(c.(rows := SyncRows(c.rows, req, now)), now)
    ensures TableEvolves(c.rows, SyncRows(c.rows, req, now))
    ensures forall id | id in c.rows ::
      var s := SyncRows(c.rows, req, now)[id];
      s.attempt == c.rows[id].attempt && (s.status.Waiting() ==> s.expiresAt > now)
  {
    var rows := SyncRows(c.rows, req, now);
    forall id | id in c.rows
      ensures RowOk(rows[id], now) && Evolves(c.rows[id], rows[id]) && rows[id].attempt == c.rows[id].attempt
      ensures rows[id].status.Waiting() ==> rows[id].expiresAt > now
    {
      SyncRowOk(c.rows[id], id in req.executed, req.lastSequence, then0, now);
    }
  }

  /** Replacing one row by one it evolves into keeps the table's facts. */
  lemma ReplaceKeeps(c: Cloud, id: CommandId, row: Row, now: int)
    requires TableOk(c, now) && id in c.rows
    requires RowOk(row, now) && Evolves(c.rows[id], row)
    ensures TableOk(c.(rows := c.rows[id := row]), now)
    ensures TableEvolves(c.rows, c.rows[id := row])
  {
  }

  lemma TableEvolvesTransitive(a: map<CommandId, Row>, b: map<CommandId, Row>, c: map<CommandId, Row>)
    requires TableEvolves(a, b) && TableEvolves(b, c)
    ensures TableEvolves(a, c)
  {
    forall id | id in a ensures id in c && Evolves(a[id], c[id]) {
      assert id in b && Evolves(a[id], b[id]);
    }
  }

  lemma SyncKeeps(c: Cloud, req: SyncRequest, pick: Option<CommandId>, then0: int, now: int)
    requires TableOk(c, then0) && then0 <= now
    requires PicksNext(SyncRows(c.rows, req, now), pick)
    ensures TableOk(Sync(c, req, pick, now), now)
    ensures TableEvolves(c.rows, Sync(c, req, pick, now).rows)
  {
    SyncRowsKeep(c, req, then0, now);
    if pick.Some? {
      var mid := c.(rows := SyncRows(c.rows, req, now));
      DeliverOk(mid.rows[pick.value], now);
      ReplaceKeeps(mid, pick.value, Deliver(mid.rows[pick.value], now), now);
      TableEvolvesTransitive(c.rows, mid.rows, Sync(c, req, pick, now).rows);
    }
  }

  lemma AckKeeps(c: Cloud, ack: Ack, then0: int, now: int)
    requires TableOk(c, then0) && then0 <= now
    ensures TableOk(Acknowledge(c, ack), now)
    ensures TableEvolves(c.rows, Acknowledge(c, ack).rows)
  {
    if Answer(c.rows, ack).Applied? {
      AckRows(c, ack);
      AckRowOk(c.rows, ack, now);
      ReplaceKeeps(c, ack.id, MoveRow(c.rows[ack.id], ack), now);
    }
  }

  /** Every enabled transaction keeps the table's facts and moves each row only forward. */
  lemma StepKeeps(c: Cloud, step: Step, then0: int, now: int)
    requires TableOk(c, then0) && then0 <= now && Enabled(c, step, now)
    ensures TableOk(Apply(c, step, now), now)
    ensures TableEvolves(c.rows, Apply(c, step, now).rows)
  {
    match step {
      case QueueStep(id, command, slot, param) => AddRowKeeps(c, id, NewRow(command, slot, param, c.nextSequence + 1, None, now), then0, now);
      case BatchStep(wings, days, ids, batch) => QueueWingsKeeps(c, wings, days, ids, batch, then0, now);
      case SyncStep(req, pick) => SyncKeeps(c, req, pick, then0, now);
      case AckStep(ack) => AckKeeps(c, ack, then0, now);
    }
  }

  // ------------------------------------------------------------ one row per wing in a batch

  /** No two rows of a batch name the same wing. */
  ghost predicate BatchSlotsDistinct(rows: map<CommandId, Row>) {
    forall i, j | i in rows && j in rows && rows[i].batch.Some? && rows[i].batch == rows[j].batch && rows[i].slot == rows[j].slot ::
      i == j
  }

  ghost predicate Unused(rows: map<CommandId, Row>, batch: BatchId) {
    forall id | id in rows :: rows[id].batch != Some(batch)
  }

  ghost predicate BatchWithin(rows: map<CommandId, Row>, wings: seq<Slot>, batch: BatchId) {
    forall id | id in rows && rows[id].batch == Some(batch) :: rows[id].slot.Wing? && rows[id].slot.slot in wings
  }

  lemma AddedSlot(rows: map<CommandId, Row>, wings: seq<Slot>, id: CommandId, row: Row, batch: BatchId)
    requires BatchSlotsDistinct(rows) && BatchWithin(rows, wings, batch)
    requires row.batch == Some(batch) && row.slot.Wing? && row.slot.slot !in wings
    ensures BatchSlotsDistinct(rows[id := row]) && BatchWithin(rows[id := row], wings + [row.slot.slot], batch)
  {
  }

  lemma {:induction false} QueueWingsSlots(c: Cloud, wings: seq<Slot>, days: map<Slot, int>, ids: seq<CommandId>, batch: BatchId, now: int)
    requires |wings| == |ids| && (forall k | 0 <= k < |wings| :: wings[k] in days)
    requires Distinct(wings) && Unused(c.rows, batch) && BatchSlotsDistinct(c.rows)
    ensures var rows := QueueWings(c, wings, days, ids, batch, now).rows;
      BatchSlotsDistinct(rows) && BatchWithin(rows, wings, batch)
  {
    if wings != [] {
      var last := |wings| - 1;
      QueueWingsSlots(c, wings[..last], days, ids[..last], batch, now);
      var d := QueueWings(c, wings[..last], days, ids[..last], batch, now);
      AddedSlot(d.rows, wings[..last], ids[last],
                NewRow(SetDays, Wing(wings[last]), days[wings[last]], d.nextSequence + 1, Some(batch), now), batch);
      assert wings == wings[..last] + [wings[last]];
    }
  }

  lemma SyncKeepsSlots(c: Cloud, req: SyncRequest, pick: Option<CommandId>, now: int)
    requires BatchSlotsDistinct(c.rows) && PicksNext(SyncRows(c.rows, req, now), pick)
    ensures BatchSlotsDistinct(Sync(c, req, pick, now).rows)
  {
    var rows := Sync(c, req, pick, now).rows;
    forall id | id in rows ensures id in c.rows && rows[id].batch == c.rows[id].batch && rows[id].slot == c.rows[id].slot {
      SyncRowSameWing(c.rows[id], id in req.executed, req.lastSequence, now);
    }
  }

  lemma SyncRowSameWing(row: Row, executed: bool, lastSequence: nat, now: int)
    ensures var s := SyncRow(row, executed, lastSequence, now); s.batch == row.batch && s.slot == row.slot
  {
  }

  /** queue_set_days lists a wing once and the batch id is fresh, so no two rows of a batch ever name the
    * same wing: publication does not depend on the order in which the database returns them. */
  lemma StepKeepsSlots(c: Cloud, step: Step, now: int)
    requires BatchSlotsDistinct(c.rows) && Enabled(c, step, now)
    ensures BatchSlotsDistinct(Apply(c, step, now).rows)
  {
    match step {
      case QueueStep(_, _, _, _) =>
      case BatchStep(wings, days, ids, batch) => QueueWingsSlots(c, wings, days, ids, batch, now);
      case SyncStep(req, pick) => SyncKeepsSlots(c, req, pick, now);
      case AckStep(ack) => if Answer(c.rows, ack).Applied? { AckRows(c, ack); }
    }
  }

  lemma {:induction false} RunKeepsSlots(trace: seq<Cloud>, steps: seq<Timed>, k: nat)
    requires IsRun(trace, steps) && k <= |steps|
    ensures BatchSlotsDistinct(trace[k].rows)
  {
    if k > 0 {
      RunKeepsSlots(trace, steps, k - 1);
      StepKeepsSlots(trace[k - 1], steps[k - 1].step, steps[k - 1].now);
    }
  }

  // ------------------------------------------------------------ whole runs

  function Clock(steps: seq<Timed>, k: nat): int
    requires k <= |steps|
  {
    if |steps| == 0 then 0 else if k == 0 then steps[0].now else steps[k - 1].now
  }

  lemma {:induction false} RunKeeps(trace: seq<Cloud>, steps: seq<Timed>, k: nat)
    requires IsRun(trace, steps) && k <= |steps|
    ensures TableOk(trace[k], Clock(steps, k))
  {
    if k > 0 {
      RunKeeps(trace, steps, k - 1);
      assert Clock(steps, k - 1) <= steps[k - 1].now;
      StepKeeps(trace[k - 1], steps[k - 1].step, Clock(steps, k - 1), steps[k - 1].now);
    }
  }

  lemma RunStepEvolves(trace: seq<Cloud>, steps: seq<Timed>, k: nat)
    requires IsRun(trace, steps) && k < |steps|
    ensures TableEvolves(trace[k].rows, trace[k + 1].rows)
  {
    RunKeeps(trace, steps, k);
    StepKeeps(trace[k], steps[k].step, Clock(steps, k), steps[k].now);
  }

  lemma EvolvesReflexive(a: map<CommandId, Row>)
    ensures TableEvolves(a, a)
  {
  }

  lemma {:induction false} EvolvesAlong(tables: seq<map<CommandId, Row>>, i: nat, k: nat)
    requires i <= k < |tables| && forall j | i <= j < k :: TableEvolves(tables[j], tables[j + 1])
    ensures TableEvolves(tables[i], tables[k])
    decreases k - i
  {
    if i == k {
      EvolvesReflexive(tables[i]);
    } else {
      EvolvesAlong(tables, i, k - 1);
      TableEvolvesTransitive(tables[i], tables[k - 1], tables[k]);
    }
  }

  lemma RunEvolves(trace: seq<Cloud>, steps: seq<Timed>, i: nat, k: nat)
    requires IsRun(trace, steps) && i <= k <= |steps|
    ensures TableEvolves(trace[i].rows, trace[k].rows)
  {
    var tables := seq(|trace|, j requires 0 <= j < |trace| => trace[j].rows);
    forall j | i <= j < k ensures TableEvolves(tables[j], tables[j + 1]) {
      RunStepEvolves(trace, steps, j);
    }
    EvolvesAlong(tables, i, k);
  }

  /** A command that leaves {queued, delivered} never returns there, and a terminal outcome never
    * changes into another one, whatever the Pi reports or acknowledges. */
  lemma LeavesWaitingForGood(trace: seq<Cloud>, steps: seq<Timed>, i: nat, k: nat, id: CommandId)
    requires IsRun(trace, steps) && i <= k <= |steps| && id in trace[i].rows
    ensures id in trace[k].rows
    ensures !trace[i].rows[id].status.Waiting() ==> !trace[k].rows[id].status.Waiting()
    ensures trace[i].rows[id].status.Terminal() ==> trace[k].rows[id].status in {trace[i].rows[id].status, Acked}
    ensures trace[i].rows[id].status.Terminal() && trace[k].rows[id].status == Acked
      ==> trace[k].rows[id].outcome == Some(trace[i].rows[id].status)
    ensures trace[i].rows[id].status == Acked ==> trace[k].rows[id].status == Acked
  {
    RunEvolves(trace, steps, i, k);
    RunKeeps(trace, steps, i);
  }

  /** How often a run delivers a command. */
  function Deliveries(steps: seq<Timed>, id: CommandId): nat {
    if steps == [] then 0
    else
      var last := steps[|steps| - 1].step;
      Deliveries(steps[..|steps| - 1], id) + if last.SyncStep? && last.pick == Some(id) then 1 else 0
  }

  function AttemptOf(rows: map<CommandId, Row>, id: CommandId): nat {
    if id in rows then rows[id].attempt else 0
  }

  lemma StepCountsDelivery(c: Cloud, step: Step, then0: int, now: int, id: CommandId)
    requires TableOk(c, then0) && then0 <= now && Enabled(c, step, now)
    ensures AttemptOf(Apply(c, step, now).rows, id)
      == AttemptOf(c.rows, id) + if step.SyncStep? && step.pick == Some(id) then 1 else 0
  {
    match step {
      case QueueStep(_, _, _, _) =>
      case BatchStep(wings, days, ids, batch) =>
        QueueWingsRows(c, wings, days, ids, batch, now);
      case SyncStep(req, pick) =>
        SyncRowsKeep(c, req, then0, now);
      case AckStep(ack) =>
        if Answer(c.rows, ack).Applied? {
          AckRows(c, ack);
        }
    }
  }

  lemma {:induction false} AttemptCountsDeliveries(trace: seq<Cloud>, steps: seq<Timed>, k: nat, id: CommandId)
    requires IsRun(trace, steps) && k <= |steps|
    ensures AttemptOf(trace[k].rows, id) == Deliveries(steps[..k], id)
  {
    if k > 0 {
      AttemptCountsDeliveries(trace, steps, k - 1, id);
      RunKeeps(trace, steps, k - 1);
      StepCountsDelivery(trace[k - 1], steps[k - 1].step, Clock(steps, k - 1), steps[k - 1].now, id);
      assert steps[..k][..k - 1] == steps[..k - 1];
    }
  }

  /** A command is delivered at most three times. */
  lemma AtMostThreeDeliveries(trace: seq<Cloud>, steps: seq<Timed>, id: CommandId)
    requires IsRun(trace, steps)
    ensures Deliveries(steps, id) <= 3
  {
    AttemptCountsDeliveries(trace, steps, |steps|, id);
    assert steps[..|steps|] == steps;
    RunKeeps(trace, steps, |steps|);
  }
}
