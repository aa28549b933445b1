/** The society's configuration over every run of cloud transactions: the reset day, and the version by which
  * a Pi notices a change (pi_command_ack in backend/main.py, publish_completed_batch in
  * backend/energy_api/day_allocation.py). The targets are in TargetWrites. */
module Configuration {
  import opened Vocabulary
  import opened CloudCommands
  import opened CloudRuns
  import opened TargetWrites

  /** The step is the ACK that completes a set_reset_day. */
  ghost predicate SetsDay(c: Cloud, step: Step, id: CommandId) {
    && step.AckStep? && step.ack.id == id && step.ack.status == Completed
    && id in c.rows && c.rows[id].command == SetResetDay && Answer(c.rows, step.ack).Applied?
  }

  /** A completed set_reset_day sets its day, and no other transaction changes the reset day. */
  lemma StepResetDay(c: Cloud, step: Step, now: int)
    requires Enabled(c, step, now)
    ensures forall id | SetsDay(c, step, id) :: Apply(c, step, now).resetDay == c.rows[id].param
    ensures (forall id :: !SetsDay(c, step, id)) ==> Apply(c, step, now).resetDay == c.resetDay
  {
    if step.BatchStep? {
      QueueWingsKeepsConfig(c, step.wings, step.days, step.ids, step.batch, now);
    } else if step.AckStep? && Answer(c.rows, step.ack).Applied? {
      assert SetsDay(c, step, step.ack.id) <==> step.ack.status == Completed && c.rows[step.ack.id].command == SetResetDay;
      AckResetDay(c, step.ack);
    }
  }

  lemma AckResetDay(c: Cloud, ack: Ack)
    requires Answer(c.rows, ack).Applied?
    ensures Acknowledge(c, ack).resetDay ==
      if ack.status == Completed && c.rows[ack.id].command == SetResetDay then c.rows[ack.id].param else c.resetDay
  {
  }

  lemma {:induction false} QueueWingsKeepsConfig(c: Cloud, wings: seq<Slot>, days: map<Slot, int>, ids: seq<CommandId>, batch: BatchId, now: int)
    requires |wings| == |ids| && forall k | 0 <= k < |wings| :: wings[k] in days
    ensures var d := QueueWings(c, wings, days, ids, batch, now);
      d.resetDay == c.resetDay && d.configVersion == c.configVersion && d.targets == c.targets
  {
    if wings != [] {
      QueueWingsKeepsConfig(c, wings[..|wings| - 1], days, ids[..|wings| - 1], batch, now);
    }
  }

  ghost function DayWrites(trace: seq<Cloud>, steps: seq<Timed>): seq<Write>
    requires |trace| == |steps| + 1
  {
    seq(|steps|, j requires 0 <= j < |steps| =>
      if steps[j].step.AckStep? && SetsDay(trace[j], steps[j].step, steps[j].step.ack.id) then Manual(steps[j].step.ack.id) else Nothing)
  }

  lemma DayWritesAt(trace: seq<Cloud>, steps: seq<Timed>, j: nat)
    requires |trace| == |steps| + 1 && j < |steps|
    ensures DayWrites(trace, steps)[j].Nothing? <==> forall id :: !SetsDay(trace[j], steps[j].step, id)
    ensures forall id :: SetsDay(trace[j], steps[j].step, id) ==> DayWrites(trace, steps)[j] == Manual(id)
  {
  }

  /** The last set_reset_day completed between two points of a run. */
  ghost predicate LastDaySet(trace: seq<Cloud>, steps: seq<Timed>, i: nat, k: nat, w: nat, id: CommandId)
    requires |trace| == |steps| + 1
  {
    && i <= w < k <= |steps| && SetsDay(trace[w], steps[w].step, id)
    && forall v, other | w < v < k :: !SetsDay(trace[v], steps[v].step, other)
  }

  ghost predicate NoDaySet(trace: seq<Cloud>, steps: seq<Timed>, i: nat, k: nat)
    requires |trace| == |steps| + 1 && k <= |steps|
  {
    forall v, id | i <= v < k :: !SetsDay(trace[v], steps[v].step, id)
  }

  function DayOf(c: Cloud, write: Write): int {
    if write.Manual? && write.id in c.rows then c.rows[write.id].param else 0
  }

  lemma RunStepResetDay(trace: seq<Cloud>, steps: seq<Timed>, j: nat)
    requires IsRun(trace, steps) && j < |steps|
    ensures trace[j + 1].resetDay ==
      if DayWrites(trace, steps)[j].Nothing? then trace[j].resetDay else DayOf(trace[j], DayWrites(trace, steps)[j])
  {
    StepResetDay(trace[j], steps[j].step, steps[j].now);
    DayWritesAt(trace, steps, j);
  }

  /** Over every run the reset day is that of the set_reset_day completed last, or the one it was. */
  lemma LastResetDay(trace: seq<Cloud>, steps: seq<Timed>, i: nat, k: nat) returns (last: Option<(nat, CommandId)>)
    requires IsRun(trace, steps) && i <= k <= |steps|
    ensures last.None? ==> NoDaySet(trace, steps, i, k) && trace[k].resetDay == trace[i].resetDay
    ensures last.Some? ==> LastDaySet(trace, steps, i, k, last.value.0, last.value.1)
    ensures last.Some? ==> last.value.1 in trace[k].rows && trace[k].resetDay == trace[k].rows[last.value.1].param
  {
    var writes := DayWrites(trace, steps);
    var values := seq(|trace|, j requires 0 <= j < |trace| => trace[j].resetDay);
    var written := seq(|steps|, j requires 0 <= j < |steps| => DayOf(trace[j], writes[j]));
    forall v | i <= v < k ensures values[v + 1] == if writes[v].Nothing? then values[v] else written[v] {
      RunStepResetDay(trace, steps, v);
    }
    var w := LastOf(writes, values, written, i, k);
    forall v | i <= v < k ensures writes[v].Nothing? <==> forall id :: !SetsDay(trace[v], steps[v].step, id) {
      DayWritesAt(trace, steps, v);
    }
    if w.Some? {
      DayWritesAt(trace, steps, w.value);
      last := Some((w.value, writes[w.value].id));
      RunEvolves(trace, steps, w.value, k);
      assert Evolves(trace[w.value].rows[last.value.1], trace[k].rows[last.value.1]);
    } else {
      last := None;
    }
  }

  // ------------------------------------------------------------ the version

  /** Publishing batch b finds a wing of the batch without a target, or with another one. */
  ghost predicate PublicationChanges(c: Cloud, step: Step, b: BatchId) {
    && Republishes(c, step, b)
    && exists id, s :: Differs(c, id, b, s)
  }

  ghost predicate Differs(c: Cloud, id: CommandId, b: BatchId, s: Slot) {
    Sets(c.rows, id, b, s) && (s !in c.targets || c.targets[s] != c.rows[id].param)
  }

  /** The step commits a configuration value. */
  ghost predicate Configures(c: Cloud, step: Step) {
    && step.AckStep? && step.ack.id in c.rows
    && var row := c.rows[step.ack.id];
       || SetsDay(c, step, step.ack.id)
       || (row.slot.Wing? && Commits(c, step, step.ack.id, row.slot.slot))
       || (row.batch.Some? && PublicationChanges(c, step, row.batch.value))
  }

  /** The version grows by one exactly when a value is committed: a completed set_reset_day, a manual set_days
    * that is not overtaken, or a publication that finds another target. */
  lemma StepVersion(c: Cloud, step: Step, then0: int, now: int)
    requires TableOk(c, then0) && Enabled(c, step, now)
    ensures Apply(c, step, now).configVersion == c.configVersion + if Configures(c, step) then 1 else 0
  {
    if step.BatchStep? {
      QueueWingsKeepsConfig(c, step.wings, step.days, step.ids, step.batch, now);
    } else if step.AckStep? && Answer(c.rows, step.ack).Applied? {
      assert RowOk(c.rows[step.ack.id], then0);
      if c.rows[step.ack.id].batch.Some? {
        BatchAckVersion(c, step.ack, c.rows[step.ack.id].batch.value);
      } else {
        ManualAckVersion(c, step.ack);
      }
    }
  }

  lemma ManualAckVersion(c: Cloud, ack: Ack)
    requires Answer(c.rows, ack).Applied? && c.rows[ack.id].batch.None? && (c.rows[ack.id].command == SetDays ==> c.rows[ack.id].slot.Wing?)
    ensures Acknowledge(c, ack).configVersion == c.configVersion + if Configures(c, AckStep(ack)) then 1 else 0
  {
  }

  lemma BatchAckVersion(c: Cloud, ack: Ack, b: BatchId)
    requires Answer(c.rows, ack).Applied? && c.rows[ack.id].batch == Some(b) && c.rows[ack.id].command == SetDays
    ensures Acknowledge(c, ack).configVersion == c.configVersion + if Configures(c, AckStep(ack)) then 1 else 0
  {
    AckRows(c, ack);
    var rows := Acknowledge(c, ack).rows;
    forall id, s ensures Sets(rows, id, b, s) <==> Sets(c.rows, id, b, s) {
    }
    var e := c.(rows := rows);
    forall id, s ensures Changes(e, id, b, s) <==> Differs(c, id, b, s) {
    }
  }

  /** The version has not gone back, and it has grown if the configuration changed. */
  ghost predicate Versioned(a: Cloud, b: Cloud) {
    && a.configVersion <= b.configVersion
    && (a.configVersion == b.configVersion ==> a.targets == b.targets && a.resetDay == b.resetDay)
  }

  /** A Pi that knows the version knows the configuration: whenever the targets or the reset day differ between
    * two points of a run, the version has grown. */
  lemma VersionTells(trace: seq<Cloud>, steps: seq<Timed>, i: nat, k: nat)
    requires IsRun(trace, steps) && i <= k <= |steps|
    ensures Versioned(trace[i], trace[k])
  {
    forall j | i <= j < k ensures Versioned(trace[j], trace[j + 1]) {
      RunStepVersion(trace, steps, j);
    }
    VersionedAlong(trace, i, k);
  }

  lemma {:induction false} VersionedAlong(trace: seq<Cloud>, i: nat, k: nat)
    requires i <= k < |trace| && forall j | i <= j < k :: Versioned(trace[j], trace[j + 1])
    ensures Versioned(trace[i], trace[k])
    decreases k
  {
    if i < k {
      VersionedAlong(trace, i, k - 1);
      assert Versioned(trace[k - 1], trace[k]);
    }
  }

  lemma RunStepVersion(trace: seq<Cloud>, steps: seq<Timed>, j: nat)
    requires IsRun(trace, steps) && j < |steps|
    ensures Versioned(trace[j], trace[j + 1])
  {
    RunKeeps(trace, steps, j);
    RunKeepsSlots(trace, steps, j);
    StepVersion(trace[j], steps[j].step, Clock(steps, j), steps[j].now);
    if !Configures(trace[j], steps[j].step) {
      UnversionedKeeps(trace[j], steps[j].step, steps[j].now);
    }
  }

  lemma UnversionedKeeps(c: Cloud, step: Step, now: int)
    requires Enabled(c, step, now) && BatchSlotsDistinct(c.rows) && !Configures(c, step)
    ensures Apply(c, step, now).targets == c.targets && Apply(c, step, now).resetDay == c.resetDay
  {
    StepResetDay(c, step, now);
    var d := Apply(c, step, now);
    if step.BatchStep? {
      QueueWingsKeepsConfig(c, step.wings, step.days, step.ids, step.batch, now);
    } else if step.AckStep? && Answer(c.rows, step.ack).Applied? {
      AckTargetKeys(c, step.ack);
      forall s | s in c.targets ensures d.targets[s] == c.targets[s] {
        StepWrites(c, step, now, s);
        UnconfiguredWrite(c, step, s);
      }
    }
  }

  lemma AckTargetKeys(c: Cloud, ack: Ack)
    ensures Acknowledge(c, ack).targets.Keys == c.targets.Keys
  {
  }

  lemma UnconfiguredWrite(c: Cloud, step: Step, s: Slot)
    requires BatchSlotsDistinct(c.rows) && !Configures(c, step) && s in c.targets
    ensures Value(c, WriteOf(c, step, s), s) == c.targets[s]
  {
    var write := WriteOf(c, step, s);
    if write.Batch? {
      var id :| Sets(c.rows, id, write.b, s);
      DaysOfRow(c.rows, write.b, id, s, 0);
      assert !Differs(c, id, write.b, s);
    }
  }
}
