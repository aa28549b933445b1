/** What a sync does to the command table (pi_sync in backend/main.py), row by row and over every run: what
  * the Pi reports is never delivered again, a lapsed lease is queued again, and nothing outlives its life. */
module SyncLaws {
  import opened Vocabulary
  import opened CloudCommands
  import opened CloudRuns

  /** The Pi lists the command as executed. */
  predicate Reported(req: SyncRequest, id: CommandId) {
    id in req.executed
  }

  /** Delivered, not listed, and the Pi has already executed a later command. */
  predicate Passed(req: SyncRequest, id: CommandId, row: Row) {
    row.status == Delivered && !Reported(req, id) && 0 < req.lastSequence && row.sequence <= req.lastSequence
  }

  predicate Over(row: Row, now: int) {
    row.createdAt + 300 * SECOND <= now
  }

  /** Delivered more than two minutes ago. */
  predicate Lapsed(row: Row, now: int) {
    row.status == Delivered && row.deliveredAt.Some? && row.deliveredAt.value + 120 * SECOND < now
  }

  /** The status of a row after the sync, before the delivery. */
  function StatusAfter(req: SyncRequest, id: CommandId, row: Row, now: int): Status {
    if row.status in {Queued, Delivered} && Reported(req, id) then
      if Over(row, now) && !row.command.Hardware() then Expired else Executing
    else if Passed(req, id, row) then UnknownAfterReboot
    else if row.status in {Queued, Delivered} && Over(row, now) then Expired
    else if Lapsed(row, now) then Queued
    else if row.status == Executing && !row.command.Hardware() && Over(row, now) then Expired
    else row.status
  }

  /** What else a sync changes in a row: the outcome of one that expires, and the time of delivery, which a row
    * that is queued again loses and a reported one that has none gets. */
  ghost predicate KeepsColumns(req: SyncRequest, id: CommandId, row: Row, next: Row, now: int) {
    && next == row.(status := next.status, deliveredAt := next.deliveredAt, outcome := next.outcome)
    && next.outcome == (if next.status == Expired && row.status != Expired then Some(Expired) else row.outcome)
    && next.deliveredAt ==
         if next.status == Queued && row.status == Delivered then None
         else if row.status == Queued && Reported(req, id) && row.deliveredAt.None? then Some(now)
         else row.deliveredAt
  }

  lemma SyncedRow(req: SyncRequest, id: CommandId, row: Row, now: int)
    requires row.expiresAt == row.createdAt + 300 * SECOND
    ensures var next := SyncRow(row, Reported(req, id), req.lastSequence, now);
      next.status == StatusAfter(req, id, row, now) && KeepsColumns(req, id, row, next, now)
  {
  }

  /** Delivered at `now`, as one attempt more; nothing else changes. */
  ghost predicate DeliveredAt(row: Row, next: Row, now: int) {
    next == row.(status := Delivered, deliveredAt := Some(now), attempt := row.attempt + 1)
  }

  lemma QueuedColumns(req: SyncRequest, id: CommandId, row: Row, mid: Row, now: int)
    requires KeepsColumns(req, id, row, mid, now) && mid.status == Queued
    ensures DeliveredAt(row, Deliver(mid, now), now)
  {
  }

  /** One sync: each row but the delivered one becomes what the report, its lease and its life say. */
  lemma SyncTable(c: Cloud, req: SyncRequest, pick: Option<CommandId>, then0: int, now: int)
    requires TableOk(c, then0) && PicksNext(SyncRows(c.rows, req, now), pick)
    ensures var d := Sync(c, req, pick, now);
      && d.rows.Keys == c.rows.Keys && d == c.(rows := d.rows)
      && (forall id | id in c.rows && pick != Some(id) ::
            d.rows[id].status == StatusAfter(req, id, c.rows[id], now) && KeepsColumns(req, id, c.rows[id], d.rows[id], now))
      && (pick.None? ==> forall id | id in c.rows :: d.rows[id].status != Queued)
  {
    SyncedRows(c, req, then0, now);
  }

  /** And the delivered one is the queued row with the lowest sequence number, as one attempt more. */
  lemma SyncDelivery(c: Cloud, req: SyncRequest, pick: CommandId, then0: int, now: int)
    requires TableOk(c, then0) && PicksNext(SyncRows(c.rows, req, now), Some(pick))
    ensures pick in c.rows && StatusAfter(req, pick, c.rows[pick], now) == Queued
    ensures pick in Sync(c, req, Some(pick), now).rows && DeliveredAt(c.rows[pick], Sync(c, req, Some(pick), now).rows[pick], now)
    ensures forall id | id in c.rows && StatusAfter(req, id, c.rows[id], now) == Queued :: c.rows[pick].sequence <= c.rows[id].sequence
  {
    SyncedRows(c, req, then0, now);
    QueuedColumns(req, pick, c.rows[pick], SyncRows(c.rows, req, now)[pick], now);
  }

  lemma SyncedRows(c: Cloud, req: SyncRequest, then0: int, now: int)
    requires TableOk(c, then0)
    ensures var rows := SyncRows(c.rows, req, now);
      && rows.Keys == c.rows.Keys
      && forall id | id in c.rows :: rows[id].status == StatusAfter(req, id, c.rows[id], now) && KeepsColumns(req, id, c.rows[id], rows[id], now)
  {
    var rows := SyncRows(c.rows, req, now);
    forall id | id in c.rows
      ensures rows[id].status == StatusAfter(req, id, c.rows[id], now) && KeepsColumns(req, id, c.rows[id], rows[id], now)
    {
      assert RowOk(c.rows[id], then0);
      SyncedRow(req, id, c.rows[id], now);
    }
  }

  // ------------------------------------------------------------ over every run

  lemma RunSyncedRow(trace: seq<Cloud>, steps: seq<Timed>, i: nat, id: CommandId)
    requires IsRun(trace, steps) && i < |steps| && steps[i].step.SyncStep? && id in trace[i].rows
    ensures id in trace[i + 1].rows
    ensures var next := StatusAfter(steps[i].step.req, id, trace[i].rows[id], steps[i].now);
      if steps[i].step.pick == Some(id) then next == Queued && trace[i + 1].rows[id].status == Delivered
      else trace[i + 1].rows[id].status == next
  {
    RunKeeps(trace, steps, i);
    SyncTable(trace[i], steps[i].step.req, steps[i].step.pick, Clock(steps, i), steps[i].now);
    if steps[i].step.pick == Some(id) {
      SyncDelivery(trace[i], steps[i].step.req, id, Clock(steps, i), steps[i].now);
    }
  }

  /** A row that is neither queued nor delivered is never delivered. */
  lemma NotPicked(trace: seq<Cloud>, steps: seq<Timed>, j: nat, id: CommandId)
    requires IsRun(trace, steps) && j < |steps| && steps[j].step.SyncStep? && id in trace[j].rows && !trace[j].rows[id].status.Waiting()
    ensures steps[j].step.pick != Some(id)
  {
    RunSyncedRow(trace, steps, j, id);
  }

  lemma NeverAgain(trace: seq<Cloud>, steps: seq<Timed>, i: nat, id: CommandId)
    requires IsRun(trace, steps) && i <= |steps| && id in trace[i].rows && !trace[i].rows[id].status.Waiting()
    ensures forall j | i <= j < |steps| && steps[j].step.SyncStep? :: steps[j].step.pick != Some(id)
  {
    forall j | i <= j < |steps| && steps[j].step.SyncStep? ensures steps[j].step.pick != Some(id) {
      LeavesWaitingForGood(trace, steps, i, j, id);
      NotPicked(trace, steps, j, id);
    }
  }

  /** A command that the Pi reports as executed, or that it has passed, leaves the queue in that sync and is
    * never delivered again in the run. */
  lemma ReportedNeverDelivered(trace: seq<Cloud>, steps: seq<Timed>, i: nat, id: CommandId)
    requires IsRun(trace, steps) && i < |steps| && steps[i].step.SyncStep? && id in trace[i].rows
    requires Reported(steps[i].step.req, id) || Passed(steps[i].step.req, id, trace[i].rows[id])
    ensures id in trace[i + 1].rows && !trace[i + 1].rows[id].status.Waiting()
    ensures forall j | i <= j < |steps| && steps[j].step.SyncStep? :: steps[j].step.pick != Some(id)
  {
    RunSyncedRow(trace, steps, i, id);
    NeverAgain(trace, steps, i + 1, id);
  }

  /** The other way round: in a sync that neither reports nor passes it, a waiting command with life left stays
    * or returns to the queue as its lease says, or is delivered; and one whose life is over has expired. */
  lemma WaitingRow(trace: seq<Cloud>, steps: seq<Timed>, i: nat, id: CommandId)
    requires IsRun(trace, steps) && i < |steps| && steps[i].step.SyncStep? && id in trace[i].rows && trace[i].rows[id].status.Waiting()
    requires !Reported(steps[i].step.req, id) && !Passed(steps[i].step.req, id, trace[i].rows[id])
    ensures id in trace[i + 1].rows
    ensures var row, next, now := trace[i].rows[id], trace[i + 1].rows[id].status, steps[i].now;
      if Over(row, now) then next == Expired && steps[i].step.pick != Some(id)
      else if steps[i].step.pick == Some(id) then next == Delivered && (row.status == Queued || Lapsed(row, now))
      else next == if row.status == Delivered && !Lapsed(row, now) then Delivered else Queued
  {
    RunSyncedRow(trace, steps, i, id);
    RunKeeps(trace, steps, i);
  }
}
