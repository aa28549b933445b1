/** Which ACKs write a wing's target, in any run of manual and batch set_days: the completion of a manual
  * command (pi_command_ack in backend/main.py) and the publication of a batch (publish_completed_batch in
  * backend/energy_api/day_allocation.py). */
module TargetWrites {
  import opened Vocabulary
  import opened CloudCommands
  import opened CloudRuns
  import opened BuriedFailures

  predicate For(row: Row, s: Slot) {
    row.command == SetDays && row.slot == Wing(s)
  }

  /** The Pi completed the row's command. */
  predicate Took(rows: map<CommandId, Row>, id: CommandId, s: Slot) {
    id in rows && For(rows[id], s) && rows[id].outcome == Some(Completed)
  }

  /** The step is the ACK that completes the row's command. */
  ghost predicate Completes(c: Cloud, step: Step, id: CommandId, s: Slot) {
    && step.AckStep? && step.ack.id == id && step.ack.status == Completed
    && id in c.rows && For(c.rows[id], s) && Answer(c.rows, step.ack).Applied?
  }

  ghost predicate SetsWing(rows: map<CommandId, Row>, b: BatchId, s: Slot) {
    exists id :: Sets(rows, id, b, s)
  }

  ghost function DaysFor(rows: map<CommandId, Row>, b: BatchId, s: Slot): int {
    BatchDays(rows, b, s, 0)
  }

  /** The step completes a manual command, and newer_set_days_committed finds nothing. */
  ghost predicate Commits(c: Cloud, step: Step, id: CommandId, s: Slot) {
    Completes(c, step, id, s) && c.rows[id].batch.None? && !NewerCommitted(c.rows, s, c.rows[id].sequence)
  }

  /** The step is a COMPLETED or ACKED for a command of the batch after which the batch is published. */
  ghost predicate Republishes(c: Cloud, step: Step, b: BatchId) {
    && step.AckStep? && Answer(c.rows, step.ack).Applied? && step.ack.status.Applied()
    && c.rows[step.ack.id].batch == Some(b) && Publishes(Acknowledge(c, step.ack).rows, b)
  }

  ghost predicate PublishesDays(c: Cloud, step: Step, b: BatchId, s: Slot) {
    Republishes(c, step, b) && SetsWing(c.rows, b, s)
  }

  // ------------------------------------------------------------ one transaction

  datatype Write = Nothing | Manual(id: CommandId) | Batch(b: BatchId)

  /** What the step writes to the wing's target, if anything. */
  ghost function WriteOf(c: Cloud, step: Step, s: Slot): Write {
    if !step.AckStep? || step.ack.id !in c.rows then Nothing
    else
      var row := c.rows[step.ack.id];
      if row.batch.None? then (if Commits(c, step, step.ack.id, s) then Manual(step.ack.id) else Nothing)
      else if PublishesDays(c, step, row.batch.value, s) then Batch(row.batch.value) else Nothing
  }

  ghost function Value(c: Cloud, write: Write, s: Slot): int {
    match write
    case Nothing => if s in c.targets then c.targets[s] else 0
    case Manual(id) => if id in c.rows then c.rows[id].param else 0
    case Batch(b) => DaysFor(c.rows, b, s)
  }

  lemma DaysOfRow(rows: map<CommandId, Row>, b: BatchId, id: CommandId, s: Slot, otherwise: int)
    requires BatchSlotsDistinct(rows) && Sets(rows, id, b, s)
    ensures BatchDays(rows, b, s, otherwise) == rows[id].param
  {
  }

  lemma MovedDays(rows: map<CommandId, Row>, id: CommandId, row: Row, b: BatchId, s: Slot, otherwise: int)
    requires BatchSlotsDistinct(rows) && id in rows
    requires row.batch == rows[id].batch && row.slot == rows[id].slot && row.param == rows[id].param
    ensures SetsWing(rows[id := row], b, s) <==> SetsWing(rows, b, s)
    ensures BatchDays(rows[id := row], b, s, otherwise) == if SetsWing(rows, b, s) then DaysFor(rows, b, s) else otherwise
  {
    var after := rows[id := row];
    assert forall x :: Sets(after, x, b, s) <==> Sets(rows, x, b, s);
    if x :| Sets(rows, x, b, s) {
      DaysOfRow(rows, b, x, s, 0);
      assert Sets(after, x, b, s);
      DaysOfRow(after, b, x, s, otherwise);
    }
  }

  lemma ManualAckTarget(c: Cloud, ack: Ack, s: Slot)
    requires Answer(c.rows, ack).Applied? && c.rows[ack.id].batch.None? && s in c.targets
    ensures var d, row := Acknowledge(c, ack), c.rows[ack.id];
      && s in d.targets
      && d.targets[s] == if ack.status == Completed && For(row, s) && !NewerCommitted(c.rows, s, row.sequence) then row.param else c.targets[s]
  {
  }

  lemma BatchAckTarget(c: Cloud, ack: Ack, b: BatchId, s: Slot)
    requires Answer(c.rows, ack).Applied? && c.rows[ack.id].batch == Some(b) && s in c.targets
    requires BatchSlotsDistinct(c.rows)
    ensures var d := Acknowledge(c, ack);
      s in d.targets && d.targets[s] == if PublishesDays(c, AckStep(ack), b, s) then DaysFor(c.rows, b, s) else c.targets[s]
  {
    AckRows(c, ack);
    MovedDays(c.rows, ack.id, MoveRow(c.rows[ack.id], ack), b, s, c.targets[s]);
  }

  /** A target is what the step writes, or what it was. */
  lemma StepWrites(c: Cloud, step: Step, now: int, s: Slot)
    requires BatchSlotsDistinct(c.rows) && Enabled(c, step, now) && s in c.targets
    ensures s in Apply(c, step, now).targets && Apply(c, step, now).targets[s] == Value(c, WriteOf(c, step, s), s)
  {
    if step.AckStep? && Answer(c.rows, step.ack).Applied? {
      var row := c.rows[step.ack.id];
      if row.batch.None? {
        ManualAckTarget(c, step.ack, s);
      } else {
        BatchAckTarget(c, step.ack, row.batch.value, s);
      }
    } else if step.BatchStep? {
      QueueWingsIds(c, step.wings, step.days, step.ids, step.batch, now);
    }
  }

  // ------------------------------------------------------------ who completes a command

  lemma SyncRowOutcome(row: Row, executed: bool, lastSequence: nat, now: int)
    ensures SyncRow(row, executed, lastSequence, now).outcome == Some(Completed) ==> row.outcome == Some(Completed)
  {
  }

  lemma SyncTakes(c: Cloud, req: SyncRequest, pick: Option<CommandId>, then0: int, now: int)
    requires TableOk(c, then0) && then0 <= now && PicksNext(SyncRows(c.rows, req, now), pick)
    ensures forall id, s | Took(Sync(c, req, pick, now).rows, id, s) :: Took(c.rows, id, s)
  {
    var d := Sync(c, req, pick, now);
    SyncKeeps(c, req, pick, then0, now);
    forall id | id in d.rows
      ensures id in c.rows && (d.rows[id].outcome == Some(Completed) ==> c.rows[id].outcome == Some(Completed))
    {
      SyncRowOutcome(c.rows[id], id in req.executed, req.lastSequence, now);
      assert Evolves(c.rows[id], d.rows[id]);
    }
  }

  lemma BatchTakes(c: Cloud, step: Step, now: int)
    requires step.BatchStep? && Enabled(c, step, now)
    ensures forall id, s | Took(Apply(c, step, now).rows, id, s) :: Took(c.rows, id, s)
  {
    QueueWingsRows(c, step.wings, step.days, step.ids, step.batch, now);
    var rows := Apply(c, step, now).rows;
    forall id | id in rows && id !in c.rows ensures rows[id].outcome == None {
      assert id in step.ids;
    }
  }

  /** Only the completing ACK makes a command completed. */
  lemma StepTakes(c: Cloud, step: Step, then0: int, now: int)
    requires TableOk(c, then0) && then0 <= now && Enabled(c, step, now)
    ensures forall id, s | Took(Apply(c, step, now).rows, id, s) :: Took(c.rows, id, s) || Completes(c, step, id, s)
  {
    match step {
      case QueueStep(_, _, _, _) =>
      case BatchStep(_, _, _, _) => BatchTakes(c, step, now);
      case SyncStep(req, pick) => SyncTakes(c, req, pick, then0, now);
      case AckStep(ack) => if Answer(c.rows, ack).Applied? { AckRows(c, ack); }
    }
  }

  lemma CompletionIsNew(c: Cloud, step: Step, then0: int, id: CommandId, s: Slot)
    requires TableOk(c, then0) && Completes(c, step, id, s)
    ensures !Took(c.rows, id, s) && Took(Acknowledge(c, step.ack).rows, id, s)
  {
    AckRows(c, step.ack);
    AckRowOk(c.rows, step.ack, then0);
  }

  lemma TookIsApplied(c: Cloud, now: int, id: CommandId, s: Slot)
    requires TableOk(c, now) && Took(c.rows, id, s)
    ensures c.rows[id].status.Applied()
  {
    assert RowOk(c.rows[id], now);
  }

  lemma RunStepTakes(trace: seq<Cloud>, steps: seq<Timed>, j: nat, id: CommandId, s: Slot)
    requires IsRun(trace, steps) && j < |steps|
    ensures Took(trace[j + 1].rows, id, s) && !Took(trace[j].rows, id, s) ==> Completes(trace[j], steps[j].step, id, s)
    ensures Completes(trace[j], steps[j].step, id, s) ==> !Took(trace[j].rows, id, s) && Took(trace[j + 1].rows, id, s)
  {
    RunKeeps(trace, steps, j);
    StepTakes(trace[j], steps[j].step, Clock(steps, j), steps[j].now);
    if Completes(trace[j], steps[j].step, id, s) {
      CompletionIsNew(trace[j], steps[j].step, Clock(steps, j), id, s);
    }
  }

  lemma CompletedAt(trace: seq<Cloud>, steps: seq<Timed>, k: nat, id: CommandId, s: Slot) returns (j: nat)
    requires IsRun(trace, steps) && k <= |steps| && Took(trace[k].rows, id, s)
    ensures j < k && Completes(trace[j], steps[j].step, id, s) && Took(trace[j + 1].rows, id, s)
  {
    var flags := seq(|trace|, j requires 0 <= j < |trace| => Took(trace[j].rows, id, s));
    j := Becomes(flags, k);
    RunStepTakes(trace, steps, j, id, s);
  }

  lemma RunTook(trace: seq<Cloud>, steps: seq<Timed>, i: nat, k: nat, id: CommandId, s: Slot)
    requires IsRun(trace, steps) && i <= k <= |steps| && Took(trace[i].rows, id, s)
    ensures Took(trace[k].rows, id, s) && Evolves(trace[i].rows[id], trace[k].rows[id])
  {
    RunEvolves(trace, steps, i, k);
  }

  // ------------------------------------------------------------ the last write

  lemma {:induction false} RunTargets(trace: seq<Cloud>, steps: seq<Timed>, k: nat, s: Slot)
    requires IsRun(trace, steps) && k <= |steps| && s in trace[0].targets
    ensures s in trace[k].targets
  {
    if k > 0 {
      RunTargets(trace, steps, k - 1, s);
      RunStepWrites(trace, steps, k - 1, s);
    }
  }

  lemma RunStepWrites(trace: seq<Cloud>, steps: seq<Timed>, j: nat, s: Slot)
    requires IsRun(trace, steps) && j < |steps| && s in trace[j].targets
    ensures s in trace[j + 1].targets && trace[j + 1].targets[s] == Value(trace[j], WriteOf(trace[j], steps[j].step, s), s)
  {
    RunKeepsSlots(trace, steps, j);
    StepWrites(trace[j], steps[j].step, steps[j].now, s);
  }

  /** The writes of a run, step by step. */
  ghost function WritesOf(trace: seq<Cloud>, steps: seq<Timed>, s: Slot): seq<Write>
    requires |trace| == |steps| + 1
  {
    seq(|steps|, j requires 0 <= j < |steps| => WriteOf(trace[j], steps[j].step, s))
  }

  predicate LastIn(writes: seq<Write>, i: nat, k: nat, w: nat) {
    i <= w < k <= |writes| && !writes[w].Nothing? && forall v | w < v < k :: writes[v].Nothing?
  }

  predicate NoneIn(writes: seq<Write>, i: nat, k: nat)
    requires k <= |writes|
  {
    forall v | i <= v < k :: writes[v].Nothing?
  }

  lemma {:induction false} LastOf(writes: seq<Write>, values: seq<int>, written: seq<int>, i: nat, k: nat) returns (w: Option<nat>)
    requires i <= k <= |writes| == |written| && |values| == |writes| + 1
    requires forall v | i <= v < k :: values[v + 1] == if writes[v].Nothing? then values[v] else written[v]
    ensures w.None? ==> NoneIn(writes, i, k) && values[k] == values[i]
    ensures w.Some? ==> LastIn(writes, i, k, w.value) && values[k] == written[w.value]
    decreases k
  {
    if i == k {
      w := None;
    } else if writes[k - 1].Nothing? {
      w := LastOf(writes, values, written, i, k - 1);
    } else {
      w := Some(k - 1);
    }
  }

  /** A target is what the last write of the run gave it. */
  lemma LastWrite(trace: seq<Cloud>, steps: seq<Timed>, i: nat, k: nat, s: Slot) returns (w: Option<nat>)
    requires IsRun(trace, steps) && i <= k <= |steps| && s in trace[0].targets
    ensures s in trace[i].targets && s in trace[k].targets
    ensures w.None? ==> NoneIn(WritesOf(trace, steps, s), i, k) && trace[k].targets[s] == trace[i].targets[s]
    ensures w.Some? ==> LastIn(WritesOf(trace, steps, s), i, k, w.value)
    ensures w.Some? ==> trace[k].targets[s] == Value(trace[w.value], WriteOf(trace[w.value], steps[w.value].step, s), s)
  {
    var writes := WritesOf(trace, steps, s);
    var values := seq(|trace|, j requires 0 <= j < |trace| => Value(trace[j], Nothing, s));
    var written := seq(|steps|, j requires 0 <= j < |steps| => Value(trace[j], WriteOf(trace[j], steps[j].step, s), s));
    forall v | i <= v < k ensures values[v + 1] == if writes[v].Nothing? then values[v] else written[v] {
      RunTargets(trace, steps, v, s);
      RunStepWrites(trace, steps, v, s);
    }
    RunTargets(trace, steps, i, s);
    RunTargets(trace, steps, k, s);
    w := LastOf(writes, values, written, i, k);
  }
}
