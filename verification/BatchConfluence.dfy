/** DAY_BASED batches over one list of wings: whatever order the ACKs come in, the schedule is one batch's
  * days (publish_completed_batch in backend/energy_api/day_allocation.py). */
module BatchConfluence {
  import opened Vocabulary
  import opened Selection
  import opened CloudCommands
  import opened CloudRuns
  import opened TargetWrites
  import opened WingBatches

  /** Batches over exactly the wings `wings`, and no manual set_days. */
  predicate BatchOnly(step: Step, wings: seq<Slot>) {
    match step
    case QueueStep(_, command, _, _) => command != SetDays
    case BatchStep(w, _, _, _) => w == wings
    case _ => true
  }

  /** The batch sets each of the wings and nothing else. */
  ghost predicate Covers(rows: map<CommandId, Row>, wings: seq<Slot>, b: BatchId) {
    && (forall id | id in Members(rows, b) :: rows[id].slot.Wing? && rows[id].slot.slot in wings)
    && (forall s | s in wings :: SetsWing(rows, b, s))
  }

  ghost predicate BatchTable(rows: map<CommandId, Row>, wings: seq<Slot>) {
    forall b | Members(rows, b) != {} :: Covers(rows, wings, b)
  }

  // ------------------------------------------------------------ ranking of batches

  ghost predicate DistinctSequences(rows: map<CommandId, Row>) {
    forall i, j | i in rows && j in rows && i != j :: rows[i].sequence != rows[j].sequence
  }

  lemma DistinctTops(rows: map<CommandId, Row>, a: BatchId, b: BatchId)
    requires DistinctSequences(rows) && a != b
    requires Members(rows, a) != {} && Members(rows, b) != {}
    ensures Top(rows, a) != Top(rows, b)
  {
    var i :| i in Members(rows, a) && rows[i].sequence == Top(rows, a);
    var j :| j in Members(rows, b) && rows[j].sequence == Top(rows, b);
    assert i != j;
  }

  /** Two different batches are never both on top. */
  lemma TopUnique(rows: map<CommandId, Row>, a: BatchId, b: BatchId)
    requires DistinctSequences(rows) && Publishes(rows, a) && Publishes(rows, b)
    ensures a == b
  {
    if a != b {
      DistinctTops(rows, a, b);
    }
  }

  /** If any batch is fully applied, one of them is on top. */
  lemma TopExists(rows: map<CommandId, Row>, some: BatchId) returns (top: BatchId)
    requires FullyApplied(rows, some)
    ensures Publishes(rows, top)
  {
    var ids := set id | id in rows && rows[id].batch.Some? && FullyApplied(rows, rows[id].batch.value);
    var member :| member in Members(rows, some);
    assert member in ids;
    var peak := TopSequence(rows, ids);
    var x :| x in ids && rows[x].sequence == peak;
    top := rows[x].batch.value;
    assert x in Members(rows, top);
    forall other: BatchId | FullyApplied(rows, other) ensures Top(rows, other) <= Top(rows, top) {
      var h :| h in Members(rows, other) && rows[h].sequence == Top(rows, other);
      assert rows[h].batch == Some(other) && h in ids;
      assert rows[h].sequence <= peak;
      assert rows[x].sequence <= Top(rows, top);
    }
  }

  // ------------------------------------------------------------ every batch covers the wings

  lemma KeptCovers(a: map<CommandId, Row>, b: map<CommandId, Row>, wings: seq<Slot>, x: BatchId)
    requires BatchKept(a, b, x) && Covers(a, wings, x)
    ensures Covers(b, wings, x)
  {
    forall s | s in wings ensures SetsWing(b, x, s) {
      var id :| Sets(a, id, x, s);
      assert Sets(b, id, x, s);
    }
  }

  lemma NewBatchCovers(c: Cloud, step: Step, now: int)
    requires step.BatchStep? && Enabled(c, step, now)
    ensures Covers(Apply(c, step, now).rows, step.wings, step.batch)
  {
    QueueWingsRows(c, step.wings, step.days, step.ids, step.batch, now);
    var rows := Apply(c, step, now).rows;
    forall id | id in Members(rows, step.batch) ensures rows[id].slot.Wing? && rows[id].slot.slot in step.wings {
      assert id in step.ids;
    }
    forall s | s in step.wings ensures SetsWing(rows, step.batch, s) {
      var k :| 0 <= k < |step.wings| && step.wings[k] == s;
      assert Sets(rows, step.ids[k], step.batch, s);
    }
  }

  /** Only queue_set_days makes a batch. */
  lemma StepAddsBatch(c: Cloud, step: Step, then0: int, now: int, x: BatchId)
    requires TableOk(c, then0) && then0 <= now && Enabled(c, step, now)
    requires Members(c.rows, x) == {} && !(step.BatchStep? && step.batch == x)
    ensures Members(Apply(c, step, now).rows, x) == {}
  {
    var rows := Apply(c, step, now).rows;
    StepKeeps(c, step, then0, now);
    if step.BatchStep? {
      QueueWingsRows(c, step.wings, step.days, step.ids, step.batch, now);
    }
    forall id | id in rows ensures rows[id].batch != Some(x) {
      if id in c.rows {
        assert Evolves(c.rows[id], rows[id]);
        assert c.rows[id].batch == Some(x) ==> id in Members(c.rows, x);
      } else if step.BatchStep? {
        assert id in step.ids;
      }
    }
  }

  lemma StepKeepsTable(c: Cloud, step: Step, then0: int, now: int, wings: seq<Slot>)
    requires TableOk(c, then0) && then0 <= now && Enabled(c, step, now)
    requires BatchTable(c.rows, wings) && BatchOnly(step, wings)
    ensures BatchTable(Apply(c, step, now).rows, wings)
  {
    forall x | Members(Apply(c, step, now).rows, x) != {} ensures Covers(Apply(c, step, now).rows, wings, x) {
      if Members(c.rows, x) != {} {
        StepKeepsBatch(c, step, then0, now, x);
        KeptCovers(c.rows, Apply(c, step, now).rows, wings, x);
      } else if step.BatchStep? && step.batch == x {
        NewBatchCovers(c, step, now);
      } else {
        StepAddsBatch(c, step, then0, now, x);
      }
    }
  }

  // ------------------------------------------------------------ runs

  ghost predicate IsBatchRun(trace: seq<Cloud>, steps: seq<Timed>, wings: seq<Slot>) {
    IsRun(trace, steps) && forall k | 0 <= k < |steps| :: BatchOnly(steps[k].step, wings)
  }

  lemma {:induction false} RunKeepsTable(trace: seq<Cloud>, steps: seq<Timed>, wings: seq<Slot>, k: nat)
    requires IsBatchRun(trace, steps, wings) && k <= |steps|
    ensures BatchTable(trace[k].rows, wings)
  {
    if k > 0 {
      RunKeepsTable(trace, steps, wings, k - 1);
      RunKeeps(trace, steps, k - 1);
      StepKeepsTable(trace[k - 1], steps[k - 1].step, Clock(steps, k - 1), steps[k - 1].now, wings);
    }
  }

  lemma {:induction false} SameWings(trace: seq<Cloud>, steps: seq<Timed>, k: nat)
    requires IsRun(trace, steps) && k <= |steps|
    ensures trace[k].targets.Keys == trace[0].targets.Keys
  {
    if k > 0 {
      SameWings(trace, steps, k - 1);
      if steps[k - 1].step.BatchStep? {
        var step := steps[k - 1].step;
        QueueWingsIds(trace[k - 1], step.wings, step.days, step.ids, step.batch, steps[k - 1].now);
      }
    }
  }

  /** The batch on top was not superseded as it was completed. */
  lemma TopDecides(trace: seq<Cloud>, steps: seq<Timed>, wings: seq<Slot>, k: nat, top: BatchId, s: Slot)
    requires IsBatchRun(trace, steps, wings) && k <= |steps| && s in trace[0].targets && s in wings
    requires Publishes(trace[k].rows, top)
    ensures s in trace[k].targets && trace[k].targets[s] == DaysFor(trace[k].rows, top, s)
  {
    RunKeepsTable(trace, steps, wings, k);
    var i := WingBatchesExactly(trace, steps, k, top, s);
    if Superseded(trace[i + 1].rows, top) {
      SupersededStays(trace, steps, i + 1, k, top);
    }
  }

  lemma OutsideWings(trace: seq<Cloud>, steps: seq<Timed>, wings: seq<Slot>, k: nat, s: Slot)
    requires IsBatchRun(trace, steps, wings) && k <= |steps| && s in trace[0].targets
    requires s !in wings || forall b :: !FullyApplied(trace[k].rows, b)
    ensures s in trace[k].targets && trace[k].targets[s] == trace[0].targets[s]
  {
    RunKeepsTable(trace, steps, wings, k);
    UntouchedWing(trace, steps, k, s);
  }

  /** Batch confluence. After any syncs, ACKs, failures and expiries in any order, the schedule is the
    * initial one while no batch is fully applied; after that one batch is on top, no fully applied
    * batch has a higher sequence, and every wing carries that batch's days: never a mix of two. */
  lemma BatchConfluence(trace: seq<Cloud>, steps: seq<Timed>, wings: seq<Slot>, k: nat)
    returns (top: Option<BatchId>)
    requires IsBatchRun(trace, steps, wings) && k <= |steps|
    ensures top.None? ==>
      (forall b :: !FullyApplied(trace[k].rows, b)) && trace[k].targets == trace[0].targets
    ensures top.Some? ==>
      && FullyApplied(trace[k].rows, top.value)
      && (forall b | FullyApplied(trace[k].rows, b) && b != top.value :: Top(trace[k].rows, b) < Top(trace[k].rows, top.value))
      && trace[k].targets.Keys == trace[0].targets.Keys
      && (forall s | s in trace[k].targets && s !in wings :: trace[k].targets[s] == trace[0].targets[s])
      && (forall id, s | Sets(trace[k].rows, id, top.value, s) && s in trace[k].targets ::
            trace[k].targets[s] == trace[k].rows[id].param)
      && (forall s | s in wings :: exists id :: Sets(trace[k].rows, id, top.value, s))
  {
    var c := trace[k];
    RunKeepsTable(trace, steps, wings, k);
    RunKeeps(trace, steps, k);
    RunKeepsSlots(trace, steps, k);
    SameWings(trace, steps, k);
    if some :| FullyApplied(c.rows, some) {
      var b := TopExists(c.rows, some);
      top := Some(b);
      forall other | FullyApplied(c.rows, other) && other != b ensures Top(c.rows, other) < Top(c.rows, b) {
        DistinctTops(c.rows, other, b);
      }
      forall s | s in c.targets && s !in wings ensures c.targets[s] == trace[0].targets[s] {
        OutsideWings(trace, steps, wings, k, s);
      }
      forall id, s | Sets(c.rows, id, b, s) && s in c.targets ensures c.targets[s] == c.rows[id].param {
        TopDecides(trace, steps, wings, k, b, s);
        DaysOfRow(c.rows, b, id, s, 0);
      }
      forall s | s in wings ensures exists id :: Sets(c.rows, id, b, s) {
        assert SetsWing(c.rows, b, s);
      }
    } else {
      top := None;
      forall s | s in c.targets ensures c.targets[s] == trace[0].targets[s] {
        OutsideWings(trace, steps, wings, k, s);
      }
    }
  }
}
