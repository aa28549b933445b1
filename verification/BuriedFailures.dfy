/** Acknowledging a failure: the one ACK that makes a command count as applied although it was never
  * carried out (pi_command_ack in backend/main.py, APPLIED in backend/energy_api/day_allocation.py). */
module BuriedFailures {
  import opened Vocabulary
  import opened CloudCommands
  import opened CloudRuns

  /** The step is an applied ACKED acknowledgement of a command whose row is failed or expired. */
  ghost predicate Buries(c: Cloud, step: Step, id: CommandId) {
    && step.AckStep? && step.ack.id == id && step.ack.status == Acked
    && id in c.rows && c.rows[id].status in {Failed, Expired}
    && Answer(c.rows, step.ack).Applied?
  }

  ghost predicate Buried(trace: seq<Cloud>, steps: seq<Timed>, k: nat, id: CommandId)
    requires |trace| == |steps| + 1 && k <= |steps|
  {
    exists j :: 0 <= j < k && Buries(trace[j], steps[j].step, id)
  }

  /** Acknowledged, and not after completion. */
  predicate AckedFailure(rows: map<CommandId, Row>, id: CommandId) {
    id in rows && rows[id].status == Acked && rows[id].outcome != Some(Completed)
  }

  lemma SyncLeavesAcked(row: Row, executed: bool, lastSequence: nat, now: int)
    requires SyncRow(row, executed, lastSequence, now).status == Acked
    ensures row.status == Acked && SyncRow(row, executed, lastSequence, now).outcome == row.outcome
  {
  }

  lemma AckedFrom(rows: map<CommandId, Row>, ack: Ack)
    requires Answer(rows, ack).Applied? && ack.status == Acked
    ensures rows[ack.id].status in {Completed, Failed, Expired}
  {
  }

  lemma AckBuries(c: Cloud, ack: Ack, now: int, id: CommandId)
    requires TableOk(c, now) && AckedFailure(Acknowledge(c, ack).rows, id)
    ensures AckedFailure(c.rows, id) || Buries(c, AckStep(ack), id)
  {
    if Answer(c.rows, ack).Applied? {
      AckRows(c, ack);
      if id == ack.id {
        AckedFrom(c.rows, ack);
        assert RowOk(c.rows[id], now);
      }
    }
  }

  lemma NewRowsAreQueued(c: Cloud, wings: seq<Slot>, days: map<Slot, int>, ids: seq<CommandId>, batch: BatchId, now: int)
    requires |wings| == |ids| && ValidDays(wings, days) && Fresh(c.rows, ids)
    ensures var rows := QueueWings(c, wings, days, ids, batch, now).rows;
      forall id | id in rows :: if id in c.rows then rows[id] == c.rows[id] else rows[id].status == Queued
  {
    QueueWingsRows(c, wings, days, ids, batch, now);
  }

  /** One transaction makes an acknowledged failure only by burying it. */
  lemma StepBuries(c: Cloud, step: Step, then0: int, now: int, id: CommandId)
    requires TableOk(c, then0) && then0 <= now && Enabled(c, step, now)
    requires AckedFailure(Apply(c, step, now).rows, id)
    ensures AckedFailure(c.rows, id) || Buries(c, step, id)
  {
    match step {
      case QueueStep(_, _, _, _) =>
      case BatchStep(wings, days, ids, batch) =>
        NewRowsAreQueued(c, wings, days, ids, batch, now);
      case SyncStep(req, _) =>
        SyncLeavesAcked(c.rows[id], id in req.executed, req.lastSequence, now);
      case AckStep(ack) =>
        AckBuries(c, ack, then0, id);
    }
  }

  lemma BuryingShows(c: Cloud, step: Step, then0: int, id: CommandId)
    requires TableOk(c, then0) && Buries(c, step, id)
    ensures AckedFailure(Acknowledge(c, step.ack).rows, id)
  {
    AckRows(c, step.ack);
    assert RowOk(c.rows[id], then0);
  }

  lemma RunStepBuries(trace: seq<Cloud>, steps: seq<Timed>, j: nat, id: CommandId)
    requires IsRun(trace, steps) && j < |steps|
    ensures AckedFailure(trace[j + 1].rows, id) ==> AckedFailure(trace[j].rows, id) || Buries(trace[j], steps[j].step, id)
    ensures Buries(trace[j], steps[j].step, id) ==> AckedFailure(trace[j + 1].rows, id)
  {
    RunKeeps(trace, steps, j);
    if AckedFailure(trace[j + 1].rows, id) {
      StepBuries(trace[j], steps[j].step, Clock(steps, j), steps[j].now, id);
    }
    if Buries(trace[j], steps[j].step, id) {
      BuryingShows(trace[j], steps[j].step, Clock(steps, j), id);
    }
  }

  lemma {:induction false} Becomes(flags: seq<bool>, k: nat) returns (j: nat)
    requires k < |flags| && flags[k] && !flags[0]
    ensures j < k && !flags[j] && flags[j + 1]
  {
    if flags[k - 1] {
      j := Becomes(flags, k - 1);
    } else {
      j := k - 1;
    }
  }

  lemma AckedWasBuried(trace: seq<Cloud>, steps: seq<Timed>, k: nat, id: CommandId)
    requires IsRun(trace, steps) && k <= |steps| && AckedFailure(trace[k].rows, id)
    ensures Buried(trace, steps, k, id)
  {
    var flags := seq(|trace|, j requires 0 <= j < |trace| => AckedFailure(trace[j].rows, id));
    var j := Becomes(flags, k);
    RunStepBuries(trace, steps, j, id);
  }

  lemma AckedFailureStays(a: map<CommandId, Row>, b: map<CommandId, Row>, id: CommandId, now: int)
    requires AckedFailure(a, id) && TableEvolves(a, b) && RowOk(a[id], now)
    ensures AckedFailure(b, id)
  {
    assert Evolves(a[id], b[id]);
  }

  lemma FailureStays(trace: seq<Cloud>, steps: seq<Timed>, i: nat, k: nat, id: CommandId)
    requires IsRun(trace, steps) && i <= k <= |steps| && AckedFailure(trace[i].rows, id)
    ensures AckedFailure(trace[k].rows, id)
  {
    RunEvolves(trace, steps, i, k);
    RunKeeps(trace, steps, i);
    AckedFailureStays(trace[i].rows, trace[k].rows, id, Clock(steps, i));
  }

  lemma BuriedStays(trace: seq<Cloud>, steps: seq<Timed>, k: nat, id: CommandId)
    requires IsRun(trace, steps) && k <= |steps| && Buried(trace, steps, k, id)
    ensures AckedFailure(trace[k].rows, id)
  {
    var j :| 0 <= j < k && Buries(trace[j], steps[j].step, id);
    RunStepBuries(trace, steps, j, id);
    FailureStays(trace, steps, j + 1, k, id);
  }

  /** An acknowledged row was never completed exactly when some step of the run buried it. */
  lemma BuriedExactly(trace: seq<Cloud>, steps: seq<Timed>, k: nat, id: CommandId)
    requires IsRun(trace, steps) && k <= |steps|
    ensures AckedFailure(trace[k].rows, id) <==> Buried(trace, steps, k, id)
  {
    if AckedFailure(trace[k].rows, id) {
      AckedWasBuried(trace, steps, k, id);
    }
    if Buried(trace, steps, k, id) {
      BuriedStays(trace, steps, k, id);
    }
  }
}
