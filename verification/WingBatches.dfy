/** Batches over any wings, together with manual set_days: whose days a wing has
  * (queue_set_days and publish_completed_batch in backend/energy_api/day_allocation.py). The wings of a
  * batch are those enabled when it was requested, so they differ from batch to batch. */
module WingBatches {
  import opened Vocabulary
  import opened CloudCommands
  import opened CloudRuns
  import opened BuriedFailures
  import opened TargetWrites
  import opened MixedDays

  /** Of the fully applied batches that set the wing, none is higher. */
  ghost predicate HighestFor(rows: map<CommandId, Row>, b: BatchId, s: Slot) {
    && FullyApplied(rows, b) && SetsWing(rows, b, s)
    && forall x | FullyApplied(rows, x) && SetsWing(rows, x, s) :: Top(rows, x) <= Top(rows, b)
  }

  // ------------------------------------------------------------ a batch along a run

  /** The batch has the same rows, the same to publication, and what was applied is applied. */
  ghost predicate BatchKept(a: map<CommandId, Row>, b: map<CommandId, Row>, x: BatchId) {
    && Members(a, x) == Members(b, x)
    && (forall id | id in Members(a, x) :: a[id].slot == b[id].slot && a[id].param == b[id].param && a[id].sequence == b[id].sequence)
    && (forall id | id in Members(a, x) && a[id].status.Applied() :: b[id].status.Applied())
  }

  lemma KeptTop(a: map<CommandId, Row>, b: map<CommandId, Row>, x: BatchId)
    requires BatchKept(a, b, x) && Members(a, x) != {}
    ensures Top(a, x) == Top(b, x)
    ensures FullyApplied(a, x) ==> FullyApplied(b, x)
  {
  }

  lemma KeptDays(a: map<CommandId, Row>, b: map<CommandId, Row>, x: BatchId, s: Slot)
    requires BatchKept(a, b, x) && BatchSlotsDistinct(a) && BatchSlotsDistinct(b)
    ensures SetsWing(a, x, s) <==> SetsWing(b, x, s)
    ensures DaysFor(a, x, s) == DaysFor(b, x, s)
  {
    assert forall id :: Sets(a, id, x, s) <==> Sets(b, id, x, s);
    if id :| Sets(a, id, x, s) {
      DaysOfRow(a, x, id, s, 0);
      DaysOfRow(b, x, id, s, 0);
    }
  }

  lemma NewRowsElsewhere(c: Cloud, step: Step, now: int, x: BatchId)
    requires Enabled(c, step, now) && Members(c.rows, x) != {} && !step.AckStep?
    ensures forall id | id in Apply(c, step, now).rows && id !in c.rows :: Apply(c, step, now).rows[id].batch != Some(x)
  {
    if step.BatchStep? {
      QueueWingsRows(c, step.wings, step.days, step.ids, step.batch, now);
      var member :| member in Members(c.rows, x);
      forall id | id in Apply(c, step, now).rows && id !in c.rows ensures Apply(c, step, now).rows[id].batch != Some(x) {
        assert id in step.ids;
      }
    }
  }

  lemma EvolvesApplied(a: Row, b: Row, now: int)
    requires RowOk(a, now) && Evolves(a, b) && a.status.Applied()
    ensures b.status.Applied()
  {
  }

  /** A batch gets no row after its first ones. */
  lemma StepKeepsBatch(c: Cloud, step: Step, then0: int, now: int, x: BatchId)
    requires TableOk(c, then0) && then0 <= now && Enabled(c, step, now) && Members(c.rows, x) != {}
    ensures BatchKept(c.rows, Apply(c, step, now).rows, x)
  {
    var d := Apply(c, step, now);
    StepKeeps(c, step, then0, now);
    if !step.AckStep? {
      NewRowsElsewhere(c, step, now, x);
    } else if Answer(c.rows, step.ack).Applied? {
      AckRows(c, step.ack);
    }
    forall id | id in c.rows ensures Evolves(c.rows[id], d.rows[id]) && (c.rows[id].status.Applied() ==> d.rows[id].status.Applied()) {
      if c.rows[id].status.Applied() {
        EvolvesApplied(c.rows[id], d.rows[id], then0);
      }
    }
  }

  lemma KeptTwice(a: map<CommandId, Row>, b: map<CommandId, Row>, c: map<CommandId, Row>, x: BatchId)
    requires BatchKept(a, b, x) && BatchKept(b, c, x)
    ensures BatchKept(a, c, x)
  {
  }

  lemma KeptAsIs(a: map<CommandId, Row>, x: BatchId)
    ensures BatchKept(a, a, x)
  {
  }

  lemma {:induction false} RunKeepsBatch(trace: seq<Cloud>, steps: seq<Timed>, i: nat, k: nat, x: BatchId)
    requires IsRun(trace, steps) && i <= k <= |steps| && Members(trace[i].rows, x) != {}
    ensures BatchKept(trace[i].rows, trace[k].rows, x)
    decreases k
  {
    if i < k {
      RunKeepsBatch(trace, steps, i, k - 1, x);
      RunKeeps(trace, steps, k - 1);
      StepKeepsBatch(trace[k - 1], steps[k - 1].step, Clock(steps, k - 1), steps[k - 1].now, x);
      KeptTwice(trace[i].rows, trace[k - 1].rows, trace[k].rows, x);
    } else {
      KeptAsIs(trace[i].rows, x);
    }
  }

  lemma RunKeepsApplied(trace: seq<Cloud>, steps: seq<Timed>, i: nat, k: nat, x: BatchId, s: Slot)
    requires IsRun(trace, steps) && i <= k <= |steps| && FullyApplied(trace[i].rows, x)
    ensures FullyApplied(trace[k].rows, x) && Top(trace[k].rows, x) == Top(trace[i].rows, x)
    ensures SetsWing(trace[k].rows, x, s) <==> SetsWing(trace[i].rows, x, s)
    ensures DaysFor(trace[k].rows, x, s) == DaysFor(trace[i].rows, x, s)
  {
    RunKeepsBatch(trace, steps, i, k, x);
    RunKeepsSlots(trace, steps, i);
    RunKeepsSlots(trace, steps, k);
    KeptTop(trace[i].rows, trace[k].rows, x);
    KeptDays(trace[i].rows, trace[k].rows, x, s);
  }

  // ------------------------------------------------------------ the step that completes a batch

  lemma SyncApplies(row: Row, executed: bool, lastSequence: nat, now: int)
    ensures var r := SyncRow(row, executed, lastSequence, now);
      r.batch == row.batch && (r.status.Applied() ==> row.status.Applied()) && (r.status == Queued ==> !row.status.Applied())
  {
  }

  lemma SyncCompletesNothing(c: Cloud, req: SyncRequest, pick: Option<CommandId>, now: int, x: BatchId)
    requires PicksNext(SyncRows(c.rows, req, now), pick) && FullyApplied(Sync(c, req, pick, now).rows, x)
    ensures FullyApplied(c.rows, x)
  {
    var d := Sync(c, req, pick, now);
    forall id | id in d.rows
      ensures id in c.rows && d.rows[id].batch == c.rows[id].batch && (d.rows[id].status.Applied() ==> c.rows[id].status.Applied())
    {
      SyncApplies(c.rows[id], id in req.executed, req.lastSequence, now);
    }
    assert Members(c.rows, x) == Members(d.rows, x);
  }

  lemma QueueCompletesNothing(c: Cloud, id: CommandId, command: Command, slot: SlotArg, param: int, now: int, x: BatchId)
    requires id !in c.rows && FullyApplied(QueueOne(c, id, command, slot, param, now).rows, x)
    ensures FullyApplied(c.rows, x)
  {
    var rows := QueueOne(c, id, command, slot, param, now).rows;
    assert forall other | other in c.rows :: rows[other] == c.rows[other];
    assert Members(c.rows, x) == Members(rows, x);
  }

  lemma NewBatchIsOpen(c: Cloud, step: Step, now: int, x: BatchId)
    requires step.BatchStep? && Enabled(c, step, now) && FullyApplied(Apply(c, step, now).rows, x)
    ensures FullyApplied(c.rows, x)
  {
    NewRowsAreQueued(c, step.wings, step.days, step.ids, step.batch, now);
    QueueWingsIds(c, step.wings, step.days, step.ids, step.batch, now);
    var rows := Apply(c, step, now).rows;
    forall id | id in Members(rows, x) ensures id in c.rows && rows[id] == c.rows[id] {
      assert rows[id].status.Applied();
    }
    assert Members(c.rows, x) == Members(rows, x);
  }

  lemma AckCompletes(c: Cloud, ack: Ack, x: BatchId)
    requires Answer(c.rows, ack).Applied? && !FullyApplied(c.rows, x) && FullyApplied(Acknowledge(c, ack).rows, x)
    ensures c.rows[ack.id].batch == Some(x) && ack.status.Applied()
  {
    AckRows(c, ack);
    var rows := Acknowledge(c, ack).rows;
    assert Members(rows, x) == Members(c.rows, x);
    if ack.id in Members(rows, x) {
      assert rows[ack.id].status.Applied();
    }
  }

  /** Only a COMPLETED or ACKED for one of its commands makes a batch fully applied. */
  lemma StepCompletes(c: Cloud, step: Step, now: int, x: BatchId)
    requires Enabled(c, step, now) && !FullyApplied(c.rows, x) && FullyApplied(Apply(c, step, now).rows, x)
    ensures step.AckStep? && Answer(c.rows, step.ack).Applied? && step.ack.status.Applied() && c.rows[step.ack.id].batch == Some(x)
  {
    match step {
      case QueueStep(id, command, slot, param) => QueueCompletesNothing(c, id, command, slot, param, now, x);
      case BatchStep(_, _, _, _) => NewBatchIsOpen(c, step, now, x);
      case SyncStep(req, pick) => SyncCompletesNothing(c, req, pick, now, x);
      case AckStep(ack) => if Answer(c.rows, ack).Applied? { AckCompletes(c, ack, x); }
    }
  }

  lemma BatchCompletedAt(trace: seq<Cloud>, steps: seq<Timed>, k: nat, b: BatchId) returns (i: nat)
    requires IsRun(trace, steps) && k <= |steps| && FullyApplied(trace[k].rows, b)
    ensures i < k && !FullyApplied(trace[i].rows, b) && FullyApplied(trace[i + 1].rows, b)
    ensures Republishes(trace[i], steps[i].step, b) <==> !Superseded(trace[i + 1].rows, b)
  {
    var flags := seq(|trace|, j requires 0 <= j < |trace| => FullyApplied(trace[j].rows, b));
    assert Members(trace[0].rows, b) == {};
    i := Becomes(flags, k);
    StepCompletes(trace[i], steps[i].step, steps[i].now, b);
  }

  // ------------------------------------------------------------ what happens afterwards

  lemma SupersededStays(trace: seq<Cloud>, steps: seq<Timed>, i: nat, k: nat, b: BatchId)
    requires IsRun(trace, steps) && i <= k <= |steps| && FullyApplied(trace[i].rows, b) && Superseded(trace[i].rows, b)
    ensures Superseded(trace[k].rows, b)
  {
    var other :| other != b && FullyApplied(trace[i].rows, other) && Top(trace[i].rows, other) > Top(trace[i].rows, b);
    RunKeepsApplied(trace, steps, i, k, other, A);
    RunKeepsApplied(trace, steps, i, k, b, A);
  }

  lemma PublishedNow(trace: seq<Cloud>, steps: seq<Timed>, v: nat, x: BatchId, s: Slot)
    requires IsRun(trace, steps) && v < |steps| && PublishesDays(trace[v], steps[v].step, x, s)
    ensures Publishes(trace[v + 1].rows, x) && SetsWing(trace[v + 1].rows, x, s)
    ensures DaysFor(trace[v].rows, x, s) == DaysFor(trace[v + 1].rows, x, s)
  {
    RunKeeps(trace, steps, v);
    RunKeepsSlots(trace, steps, v);
    RunKeepsSlots(trace, steps, v + 1);
    var id :| Sets(trace[v].rows, id, x, s);
    StepKeepsBatch(trace[v], steps[v].step, Clock(steps, v), steps[v].now, x);
    KeptDays(trace[v].rows, trace[v + 1].rows, x, s);
  }

  /** Of two fully applied batches that set the wing, only the highest is published. */
  lemma PublishedIsHighest(trace: seq<Cloud>, steps: seq<Timed>, v: nat, k: nat, b: BatchId, x: BatchId, s: Slot)
    requires IsRun(trace, steps) && v <= k <= |steps|
    requires FullyApplied(trace[v].rows, b) && HighestFor(trace[k].rows, b, s)
    requires Publishes(trace[v].rows, x) && SetsWing(trace[v].rows, x, s)
    ensures x == b
  {
    RunKeepsApplied(trace, steps, v, k, x, s);
    RunKeepsApplied(trace, steps, v, k, b, s);
    RunKeeps(trace, steps, v);
    NotSuperseded(trace[v], Clock(steps, v), x, b);
  }

  lemma NotSuperseded(c: Cloud, now: int, x: BatchId, b: BatchId)
    requires TableOk(c, now) && FullyApplied(c.rows, b) && Publishes(c.rows, x) && Top(c.rows, x) <= Top(c.rows, b)
    ensures x == b
  {
    var i :| i in Members(c.rows, x) && c.rows[i].sequence == Top(c.rows, x);
    var j :| j in Members(c.rows, b) && c.rows[j].sequence == Top(c.rows, b);
  }

  /** Once the highest batch of a wing is complete, no other batch writes the wing's target. */
  lemma LowerPublishesNothing(trace: seq<Cloud>, steps: seq<Timed>, v: nat, k: nat, b: BatchId, x: BatchId, s: Slot)
    requires IsRun(trace, steps) && v < k <= |steps|
    requires FullyApplied(trace[v].rows, b) && HighestFor(trace[k].rows, b, s)
    requires PublishesDays(trace[v], steps[v].step, x, s)
    ensures x == b && DaysFor(trace[v].rows, x, s) == DaysFor(trace[k].rows, b, s)
  {
    PublishedNow(trace, steps, v, x, s);
    RunKeepsApplied(trace, steps, v, v + 1, b, s);
    PublishedIsHighest(trace, steps, v + 1, k, b, x, s);
    RunKeepsApplied(trace, steps, v + 1, k, b, s);
  }

  /** The last write to the wing after step i is a manual one. */
  ghost predicate ManualSince(trace: seq<Cloud>, steps: seq<Timed>, i: nat, k: nat, s: Slot, w: nat)
    requires |trace| == |steps| + 1
  {
    && i < w < k <= |steps| && LastIn(WritesOf(trace, steps, s), i + 1, k, w)
    && WriteOf(trace[w], steps[w].step, s).Manual?
  }

  ghost predicate NoManualSince(trace: seq<Cloud>, steps: seq<Timed>, i: nat, k: nat, s: Slot)
    requires |trace| == |steps| + 1
  {
    forall w :: !ManualSince(trace, steps, i, k, s, w)
  }

  /** What the completing step leaves in the target. */
  lemma CompletionWrites(trace: seq<Cloud>, steps: seq<Timed>, i: nat, k: nat, b: BatchId, s: Slot)
    requires IsRun(trace, steps) && i < k <= |steps| && s in trace[i].targets
    requires !FullyApplied(trace[i].rows, b) && FullyApplied(trace[i + 1].rows, b) && HighestFor(trace[k].rows, b, s)
    requires Republishes(trace[i], steps[i].step, b) <==> !Superseded(trace[i + 1].rows, b)
    ensures s in trace[i + 1].targets
    ensures trace[i + 1].targets[s] == if Superseded(trace[i + 1].rows, b) then trace[i].targets[s] else DaysFor(trace[k].rows, b, s)
  {
    var c, step := trace[i], steps[i].step;
    StepCompletes(c, step, steps[i].now, b);
    RunStepWrites(trace, steps, i, s);
    assert step.ack.id in Members(c.rows, b);
    RunKeepsBatch(trace, steps, i, k, b);
    RunKeepsSlots(trace, steps, i);
    RunKeepsSlots(trace, steps, k);
    KeptDays(c.rows, trace[k].rows, b, s);
  }

  /** A batch that writes the wing after the highest one is complete is that one. */
  lemma LaterWriteIsOwn(trace: seq<Cloud>, steps: seq<Timed>, i: nat, k: nat, b: BatchId, s: Slot, w: nat)
    requires IsRun(trace, steps) && i < w < k <= |steps| && HighestFor(trace[k].rows, b, s)
    requires FullyApplied(trace[i + 1].rows, b) && WriteOf(trace[w], steps[w].step, s).Batch?
    ensures Value(trace[w], WriteOf(trace[w], steps[w].step, s), s) == DaysFor(trace[k].rows, b, s)
    ensures !Superseded(trace[i + 1].rows, b)
  {
    var x := WriteOf(trace[w], steps[w].step, s).b;
    PublicationIsWrite(trace[w], steps[w].step, x, s);
    RunKeepsApplied(trace, steps, i + 1, w, b, s);
    LowerPublishesNothing(trace, steps, w, k, b, x, s);
    PublishedNow(trace, steps, w, x, s);
    if Superseded(trace[i + 1].rows, b) {
      SupersededStays(trace, steps, i + 1, w + 1, b);
    }
  }

  lemma LastSince(trace: seq<Cloud>, steps: seq<Timed>, i: nat, k: nat, b: BatchId, s: Slot) returns (last: Option<nat>)
    requires IsRun(trace, steps) && i < k <= |steps| && s in trace[0].targets
    requires HighestFor(trace[k].rows, b, s) && FullyApplied(trace[i + 1].rows, b)
    ensures s in trace[i + 1].targets && s in trace[k].targets
    ensures if last.Some? then ManualSince(trace, steps, i, k, s, last.value) else NoManualSince(trace, steps, i, k, s)
    ensures last.Some? ==> trace[k].targets[s] == Value(trace[last.value], WriteOf(trace[last.value], steps[last.value].step, s), s)
    ensures last.None? ==>
      trace[k].targets[s] == trace[i + 1].targets[s] || (trace[k].targets[s] == DaysFor(trace[k].rows, b, s) && !Superseded(trace[i + 1].rows, b))
  {
    last := LastWrite(trace, steps, i + 1, k, s);
    LastIsOnly(trace, steps, i, k, s, last);
    if last.Some? && WriteOf(trace[last.value], steps[last.value].step, s).Batch? {
      LaterWriteIsOwn(trace, steps, i, k, b, s, last.value);
      last := None;
    }
  }

  lemma LastIsOnly(trace: seq<Cloud>, steps: seq<Timed>, i: nat, k: nat, s: Slot, last: Option<nat>)
    requires |trace| == |steps| + 1 && i < k <= |steps|
    requires if last.Some? then LastIn(WritesOf(trace, steps, s), i + 1, k, last.value) else NoneIn(WritesOf(trace, steps, s), i + 1, k)
    ensures if last.Some? && WriteOf(trace[last.value], steps[last.value].step, s).Manual? then ManualSince(trace, steps, i, k, s, last.value)
            else NoManualSince(trace, steps, i, k, s)
  {
    var writes := WritesOf(trace, steps, s);
    forall w: nat | ManualSince(trace, steps, i, k, s, w) ensures last == Some(w) {
      OnlyLast(writes, i + 1, k, w, last);
    }
  }

  lemma OnlyLast(writes: seq<Write>, i: nat, k: nat, w: nat, last: Option<nat>)
    requires LastIn(writes, i, k, w)
    requires if last.Some? then LastIn(writes, i, k, last.value) else NoneIn(writes, i, k)
    ensures last == Some(w)
  {
  }

  /** The highest fully applied batch among those that set the wing, over every run, manual commands
    * included. If a manual command was the last to write the wing since that batch was completed, its days
    * are the target exactly when they are the manual command's; otherwise, exactly when no higher batch,
    * whatever wings it sets, was fully applied as that one was completed, or the wing had its days already. */
  lemma HighestBatchExactly(trace: seq<Cloud>, steps: seq<Timed>, k: nat, b: BatchId, s: Slot) returns (i: nat, last: Option<nat>)
    requires IsRun(trace, steps) && k <= |steps| && s in trace[0].targets && HighestFor(trace[k].rows, b, s)
    ensures i < k && !FullyApplied(trace[i].rows, b) && FullyApplied(trace[i + 1].rows, b)
    ensures s in trace[i].targets && s in trace[k].targets
    ensures if last.Some? then ManualSince(trace, steps, i, k, s, last.value) else NoManualSince(trace, steps, i, k, s)
    ensures trace[k].targets[s] == DaysFor(trace[k].rows, b, s) <==>
      if last.Some? then Value(trace[last.value], WriteOf(trace[last.value], steps[last.value].step, s), s) == DaysFor(trace[k].rows, b, s)
      else !Superseded(trace[i + 1].rows, b) || trace[i].targets[s] == DaysFor(trace[k].rows, b, s)
  {
    i := BatchCompletedAt(trace, steps, k, b);
    RunTargets(trace, steps, i, s);
    CompletionWrites(trace, steps, i, k, b, s);
    last := LastSince(trace, steps, i, k, b, s);
  }

  // ------------------------------------------------------------ without manual commands

  ghost predicate IsBatchesRun(trace: seq<Cloud>, steps: seq<Timed>) {
    IsRun(trace, steps) && forall k | 0 <= k < |steps| && steps[k].step.QueueStep? :: steps[k].step.command != SetDays
  }

  ghost predicate NoManual(rows: map<CommandId, Row>) {
    forall id | id in rows && rows[id].command == SetDays :: rows[id].batch.Some?
  }

  lemma StepNoManual(c: Cloud, step: Step, then0: int, now: int)
    requires TableOk(c, then0) && then0 <= now && Enabled(c, step, now) && NoManual(c.rows)
    requires step.QueueStep? ==> step.command != SetDays
    ensures NoManual(Apply(c, step, now).rows)
  {
    var rows := Apply(c, step, now).rows;
    StepKeeps(c, step, then0, now);
    if step.BatchStep? {
      QueueWingsRows(c, step.wings, step.days, step.ids, step.batch, now);
    }
    forall id | id in rows && rows[id].command == SetDays ensures rows[id].batch.Some? {
      if id in c.rows {
        assert Evolves(c.rows[id], rows[id]);
      } else if step.BatchStep? {
        assert id in step.ids;
      }
    }
  }

  lemma {:induction false} RunNoManual(trace: seq<Cloud>, steps: seq<Timed>, k: nat)
    requires IsBatchesRun(trace, steps) && k <= |steps|
    ensures NoManual(trace[k].rows)
  {
    if k > 0 {
      RunNoManual(trace, steps, k - 1);
      RunKeeps(trace, steps, k - 1);
      StepNoManual(trace[k - 1], steps[k - 1].step, Clock(steps, k - 1), steps[k - 1].now);
    }
  }

  /** With batches only, each wing has the days of the highest fully applied batch that sets it exactly when
    * that batch was not superseded as it was completed, or the wing had its days already; and a wing that no
    * fully applied batch sets has its initial target. */
  lemma WingBatchesExactly(trace: seq<Cloud>, steps: seq<Timed>, k: nat, b: BatchId, s: Slot) returns (i: nat)
    requires IsBatchesRun(trace, steps) && k <= |steps| && s in trace[0].targets && HighestFor(trace[k].rows, b, s)
    ensures i < k && !FullyApplied(trace[i].rows, b) && FullyApplied(trace[i + 1].rows, b)
    ensures s in trace[i].targets && s in trace[k].targets
    ensures trace[k].targets[s] == DaysFor(trace[k].rows, b, s)
      <==> !Superseded(trace[i + 1].rows, b) || trace[i].targets[s] == DaysFor(trace[k].rows, b, s)
  {
    var last;
    i, last := HighestBatchExactly(trace, steps, k, b, s);
    if last.Some? {
      RunNoManual(trace, steps, last.value);
      assert false;
    }
  }

  lemma UntouchedWing(trace: seq<Cloud>, steps: seq<Timed>, k: nat, s: Slot)
    requires IsBatchesRun(trace, steps) && k <= |steps| && s in trace[0].targets
    requires forall b | FullyApplied(trace[k].rows, b) :: !SetsWing(trace[k].rows, b, s)
    ensures s in trace[k].targets && trace[k].targets[s] == trace[0].targets[s]
  {
    var w := LastWrite(trace, steps, 0, k, s);
    if w.Some? {
      var write := WriteOf(trace[w.value], steps[w.value].step, s);
      RunNoManual(trace, steps, w.value);
      PublishedStays(trace, steps, w.value, k, write.b, s);
    }
  }

  lemma PublishedStays(trace: seq<Cloud>, steps: seq<Timed>, w: nat, k: nat, b: BatchId, s: Slot)
    requires IsRun(trace, steps) && w < k <= |steps| && PublishesDays(trace[w], steps[w].step, b, s)
    ensures FullyApplied(trace[k].rows, b) && SetsWing(trace[k].rows, b, s)
  {
    RunKeeps(trace, steps, w);
    var id :| Sets(trace[w].rows, id, b, s);
    StepKeepsBatch(trace[w], steps[w].step, Clock(steps, w), steps[w].now, b);
    assert Sets(trace[w + 1].rows, id, b, s);
    RunKeepsApplied(trace, steps, w + 1, k, b, s);
  }

  // ------------------------------------------------------------ a narrow batch hides a wide one

  /** A batch for wings A and B of which A is completed, and a newer one, completed, for A alone. */
  ghost predicate NarrowBatch(c: Cloud) {
    && c.rows == map[1 := Done(A, 5, 1, Some(7)), 2 := Started(B, 25, 2, Some(7)), 3 := Done(A, 20, 3, Some(8))]
    && c.targets == map[A := 20, B := 10] && c.nextSequence == 3
  }

  lemma NarrowBatchIsOk(c: Cloud)
    requires NarrowBatch(c)
    ensures TableOk(c, 0) && BatchSlotsDistinct(c.rows)
  {
    StartedIsOk(A, 5, 1, Some(7));
    StartedIsOk(B, 25, 2, Some(7));
    StartedIsOk(A, 20, 3, Some(8));
    forall id | id in c.rows ensures RowOk(c.rows[id], 0) && c.rows[id].sequence == id && id in {1, 2, 3} {
    }
  }

  lemma BothApplied(rows: map<CommandId, Row>)
    requires rows == map[1 := Done(A, 5, 1, Some(7)), 2 := Done(B, 25, 2, Some(7)), 3 := Done(A, 20, 3, Some(8))]
    ensures FullyApplied(rows, 7) && Superseded(rows, 7) && HighestFor(rows, 7, B) && DaysFor(rows, 7, B) == 25
  {
    assert Members(rows, 7) == {1, 2} && Members(rows, 8) == {3};
    assert FullyApplied(rows, 8) && Top(rows, 8) == 3 && Top(rows, 7) <= 2;
    assert Sets(rows, 2, 7, B);
    DaysOfRow(rows, 7, 2, B, 0);
    forall x | FullyApplied(rows, x) && SetsWing(rows, x, B) ensures x == 7 {
      var id :| Sets(rows, id, x, B);
    }
  }

  /** When the wide batch is complete it is superseded, so wing B does not get its days, although no other
    * batch sets B. */
  lemma NarrowBatchHides(c: Cloud) returns (d: Cloud)
    requires NarrowBatch(c)
    ensures TableOk(c, 0) && d == Acknowledge(c, Ack(2, Completed, ConfigAccepted, None))
    ensures HighestFor(d.rows, 7, B) && DaysFor(d.rows, 7, B) == 25 && B in d.targets && d.targets[B] == 10
  {
    NarrowBatchIsOk(c);
    var ack := Ack(2, Completed, ConfigAccepted, None);
    d := Acknowledge(c, ack);
    RestCompletes(c, ack);
    BothApplied(d.rows);
    BatchAckTarget(c, ack, 7, B);
  }

  lemma RestCompletes(c: Cloud, ack: Ack)
    requires NarrowBatch(c) && ack == Ack(2, Completed, ConfigAccepted, None)
    ensures Answer(c.rows, ack).Applied? && Acknowledge(c, ack).rows == c.rows[2 := Done(B, 25, 2, Some(7))]
  {
    AckRows(c, ack);
  }
}
