/** Manual and batch set_days together, over every run: whose days are in the schedule
  * (newer_set_days_committed in backend/command_reliability.py, pi_command_ack in backend/main.py,
  * publish_completed_batch in backend/energy_api/day_allocation.py). */
module MixedDays {
  import opened Vocabulary
  import opened CloudCommands
  import opened CloudRuns
  import opened TargetWrites

  // ------------------------------------------------------------ the newest manual command

  ghost predicate NewestManual(rows: map<CommandId, Row>, id: CommandId, s: Slot) {
    && Took(rows, id, s) && rows[id].batch.None?
    && forall other | Took(rows, other, s) && rows[other].batch.None? :: rows[other].sequence <= rows[id].sequence
  }

  /** Once it is completed, no other manual command writes the target. */
  lemma OlderManualWritesNothing(trace: seq<Cloud>, steps: seq<Timed>, v: nat, k: nat, id: CommandId, s: Slot)
    requires IsRun(trace, steps) && v < k <= |steps|
    requires Took(trace[v].rows, id, s) && NewestManual(trace[k].rows, id, s)
    ensures !WriteOf(trace[v], steps[v].step, s).Manual?
  {
    if WriteOf(trace[v], steps[v].step, s).Manual? {
      var other := WriteOf(trace[v], steps[v].step, s).id;
      RunStepTakes(trace, steps, v, other, s);
      RunTook(trace, steps, v + 1, k, other, s);
      RunEvolves(trace, steps, v, k);
      assert Evolves(trace[v].rows[other], trace[k].rows[other]) && Evolves(trace[v].rows[id], trace[k].rows[id]);
      RunKeeps(trace, steps, v);
      TookIsApplied(trace[v], Clock(steps, v), id, s);
    }
  }

  /** The last publication after step j that sets the wing. */
  ghost predicate LastPublication(trace: seq<Cloud>, steps: seq<Timed>, j: nat, k: nat, s: Slot, w: nat, b: BatchId)
    requires |trace| == |steps| + 1
  {
    && j < w < k <= |steps| && PublishesDays(trace[w], steps[w].step, b, s)
    && forall v, x | w < v < k :: !PublishesDays(trace[v], steps[v].step, x, s)
  }

  ghost predicate NoPublication(trace: seq<Cloud>, steps: seq<Timed>, j: nat, k: nat, s: Slot)
    requires |trace| == |steps| + 1 && k <= |steps|
  {
    forall v, x | j < v < k :: !PublishesDays(trace[v], steps[v].step, x, s)
  }

  lemma PublicationIsWrite(c: Cloud, step: Step, b: BatchId, s: Slot)
    ensures PublishesDays(c, step, b, s) <==> WriteOf(c, step, s) == Batch(b)
  {
  }

  lemma OnlyPublications(trace: seq<Cloud>, steps: seq<Timed>, j: nat, k: nat, id: CommandId, s: Slot)
    requires IsRun(trace, steps) && j < k <= |steps|
    requires Took(trace[j + 1].rows, id, s) && NewestManual(trace[k].rows, id, s)
    ensures forall v | j < v < k ::
      WritesOf(trace, steps, s)[v].Nothing? <==> forall x :: !PublishesDays(trace[v], steps[v].step, x, s)
  {
    forall v | j < v < k
      ensures WritesOf(trace, steps, s)[v].Nothing? <==> forall x :: !PublishesDays(trace[v], steps[v].step, x, s)
    {
      RunTook(trace, steps, j + 1, v, id, s);
      OlderManualWritesNothing(trace, steps, v, k, id, s);
      forall x ensures PublishesDays(trace[v], steps[v].step, x, s) <==> WriteOf(trace[v], steps[v].step, s) == Batch(x) {
        PublicationIsWrite(trace[v], steps[v].step, x, s);
      }
      assert WriteOf(trace[v], steps[v].step, s).Batch? ==>
        PublishesDays(trace[v], steps[v].step, WriteOf(trace[v], steps[v].step, s).b, s);
    }
  }

  lemma LastIsPublication(trace: seq<Cloud>, steps: seq<Timed>, j: nat, k: nat, id: CommandId, s: Slot, w: nat) returns (b: BatchId)
    requires IsRun(trace, steps) && j < k <= |steps|
    requires Took(trace[j + 1].rows, id, s) && NewestManual(trace[k].rows, id, s)
    requires LastIn(WritesOf(trace, steps, s), j + 1, k, w)
    ensures WriteOf(trace[w], steps[w].step, s) == Batch(b) && LastPublication(trace, steps, j, k, s, w, b)
  {
    RunTook(trace, steps, j + 1, w, id, s);
    OlderManualWritesNothing(trace, steps, w, k, id, s);
    b := WritesOf(trace, steps, s)[w].b;
    PublicationIsWrite(trace[w], steps[w].step, b, s);
    OnlyPublications(trace, steps, j, k, id, s);
  }

  lemma CompletionStands(trace: seq<Cloud>, steps: seq<Timed>, j: nat, k: nat, id: CommandId, s: Slot)
    requires IsRun(trace, steps) && j < k <= |steps| && NewestManual(trace[k].rows, id, s)
    requires Completes(trace[j], steps[j].step, id, s) && s in trace[j].targets
    ensures trace[k].rows[id].param == trace[j].rows[id].param && s in trace[j + 1].targets
    ensures trace[j + 1].targets[s]
      == if NewerCommitted(trace[j].rows, s, trace[j].rows[id].sequence) then trace[j].targets[s] else trace[j].rows[id].param
  {
    RunStepWrites(trace, steps, j, s);
    RunEvolves(trace, steps, j, k);
    assert Evolves(trace[j].rows[id], trace[k].rows[id]);
  }

  /** Over every run: the days of the newest completed manual command are the wing's target exactly when
    * the last batch published after its completion, of those that set the wing, has the same days, or,
    * without such a batch, when its completion found no newer set_days committed or changed nothing.
    * Publication does not look at manual commands, so an older batch overwrites a newer manual one. */
  lemma NewestManualExactly(trace: seq<Cloud>, steps: seq<Timed>, k: nat, id: CommandId, s: Slot)
    returns (j: nat, last: Option<(nat, BatchId)>)
    requires IsRun(trace, steps) && k <= |steps| && s in trace[0].targets && NewestManual(trace[k].rows, id, s)
    ensures j < k && Completes(trace[j], steps[j].step, id, s) && s in trace[j].targets && s in trace[k].targets
    ensures last.Some? ==> LastPublication(trace, steps, j, k, s, last.value.0, last.value.1)
    ensures last.None? ==> NoPublication(trace, steps, j, k, s)
    ensures trace[k].targets[s] == trace[k].rows[id].param <==>
      if last.Some? then DaysFor(trace[last.value.0].rows, last.value.1, s) == trace[k].rows[id].param
      else !NewerCommitted(trace[j].rows, s, trace[j].rows[id].sequence) || trace[j].targets[s] == trace[k].rows[id].param
  {
    j := CompletedAt(trace, steps, k, id, s);
    RunTargets(trace, steps, j, s);
    RunTargets(trace, steps, k, s);
    var w := LastWrite(trace, steps, j + 1, k, s);
    OnlyPublications(trace, steps, j, k, id, s);
    if w.Some? {
      var b := LastIsPublication(trace, steps, j, k, id, s, w.value);
      last := Some((w.value, b));
    } else {
      last := None;
      CompletionStands(trace, steps, j, k, id, s);
    }
  }

  // ------------------------------------------------------------ the step of completion

  /** The row's days are meant to be in force: a completed manual command, or part of a batch that is
    * fully applied. */
  predicate Effective(rows: map<CommandId, Row>, id: CommandId, s: Slot) {
    && id in rows && For(rows[id], s) && rows[id].status.Applied()
    && (rows[id].batch.Some? ==> FullyApplied(rows, rows[id].batch.value))
  }

  ghost predicate NewestEffective(rows: map<CommandId, Row>, id: CommandId, s: Slot) {
    Effective(rows, id, s) && forall other | Effective(rows, other, s) :: rows[other].sequence <= rows[id].sequence
  }

  /** A newer set_days of the wing is completed, but its batch is not, so nothing of it is published. */
  predicate Hides(rows: map<CommandId, Row>, other: CommandId, s: Slot, sequence: nat) {
    && other in rows && For(rows[other], s) && rows[other].status.Applied() && rows[other].sequence > sequence
    && rows[other].batch.Some? && !FullyApplied(rows, rows[other].batch.value)
  }

  ghost predicate Hidden(rows: map<CommandId, Row>, s: Slot, sequence: nat) {
    exists other :: Hides(rows, other, s, sequence)
  }

  /** The ACK that completes a manual set_days of the wing. */
  ghost predicate CompletesManual(c: Cloud, ack: Ack, s: Slot) {
    && ack.id in c.rows && For(c.rows[ack.id], s) && c.rows[ack.id].batch.None? && s in c.targets
    && ack.status == Completed && Answer(c.rows, ack).Applied?
  }

  lemma ManualAckShape(c: Cloud, ack: Ack, s: Slot)
    requires CompletesManual(c, ack, s)
    ensures var d := Acknowledge(c, ack);
      && d.rows == c.rows[ack.id := MoveRow(c.rows[ack.id], ack)] && s in d.targets
      && d.targets[s] == if NewerCommitted(c.rows, s, c.rows[ack.id].sequence) then c.targets[s] else c.rows[ack.id].param
  {
  }

  /** A manual row is in no batch, so completing it applies none. */
  lemma BatchesUntouched(a: map<CommandId, Row>, id: CommandId, row: Row, b: BatchId)
    requires id in a && a[id].batch.None? && row.batch.None?
    ensures FullyApplied(a[id := row], b) <==> FullyApplied(a, b)
  {
    assert Members(a[id := row], b) == Members(a, b);
  }

  /** Nothing newer is in force, so what the query finds is hidden. */
  lemma NewerIsHidden(c: Cloud, ack: Ack, s: Slot)
    requires CompletesManual(c, ack, s) && NewestEffective(Acknowledge(c, ack).rows, ack.id, s)
    ensures NewerCommitted(c.rows, s, c.rows[ack.id].sequence) <==> Hidden(c.rows, s, c.rows[ack.id].sequence)
  {
    ManualAckShape(c, ack, s);
    var rows, after, sequence := c.rows, Acknowledge(c, ack).rows, c.rows[ack.id].sequence;
    if NewerCommitted(rows, s, sequence) {
      var other :| other in rows && rows[other].command == SetDays && rows[other].slot == Wing(s)
        && rows[other].sequence > sequence && rows[other].status.Applied();
      assert after[other] == rows[other] && !Effective(after, other, s);
      BatchesUntouched(rows, ack.id, after[ack.id], rows[other].batch.value);
      assert Hides(rows, other, s, sequence);
    }
    if Hidden(rows, s, sequence) {
      var other :| Hides(rows, other, s, sequence);
      assert rows[other].command == SetDays && rows[other].slot == Wing(s);
    }
  }

  /** The step in which a manual set_days completes and is then the newest one in force: its days are in the
    * schedule exactly when they already were or no newer set_days of the wing is completed in a batch that
    * is not. What becomes of it later is up to NewestManualExactly. */
  lemma NewestEffectiveDecides(c: Cloud, ack: Ack, s: Slot)
    requires CompletesManual(c, ack, s) && NewestEffective(Acknowledge(c, ack).rows, ack.id, s)
    ensures var d := Acknowledge(c, ack);
      && s in d.targets
      && (d.targets[s] == c.rows[ack.id].param
          <==> c.targets[s] == c.rows[ack.id].param || !Hidden(c.rows, s, c.rows[ack.id].sequence))
  {
    ManualAckShape(c, ack, s);
    NewerIsHidden(c, ack, s);
  }

  function Started(slot: Slot, days: int, sequence: nat, batch: Option<BatchId>): Row {
    Row(SetDays, Wing(slot), days, Executing, 0, COMMAND_EXPIRY, Some(0), 1, sequence, batch, None, None)
  }

  /** A manual command for wing A, and a newer batch of which only wing A is completed. */
  function MixedTable(): Cloud {
    var done := Started(A, 5, 2, Some(7)).(status := Completed, result := Some(ConfigAccepted), outcome := Some(Completed));
    Cloud(map[1 := Started(A, 20, 1, None), 2 := done, 3 := Started(B, 25, 3, Some(7))], map[A := 10, B := 10], 15, 0, 3)
  }

  lemma StartedIsOk(slot: Slot, days: int, sequence: nat, batch: Option<BatchId>)
    requires 0 <= days <= 31
    ensures RowOk(Started(slot, days, sequence, batch), 0)
    ensures RowOk(Started(slot, days, sequence, batch).(status := Completed, result := Some(ConfigAccepted), outcome := Some(Completed)), 0)
  {
  }

  lemma MixedTableIsOk()
    ensures TableOk(MixedTable(), 0)
  {
    StartedIsOk(A, 20, 1, None);
    StartedIsOk(A, 5, 2, Some(7));
    StartedIsOk(B, 25, 3, Some(7));
    var rows := MixedTable().rows;
    forall id | id in rows ensures RowOk(rows[id], 0) && rows[id].sequence == id && id in {1, 2, 3} {
    }
  }

  lemma MixedBatchIsOpen()
    ensures !FullyApplied(MixedTable().rows, 7)
  {
    assert 3 in Members(MixedTable().rows, 7);
  }

  lemma MixedAckCompletes(c: Cloud, ack: Ack)
    requires c == MixedTable() && ack == Ack(1, Completed, ConfigAccepted, None)
    ensures CompletesManual(c, ack, A) && NewerCommitted(c.rows, A, 1)
  {
    assert c.rows[2].slot == Wing(A);
  }

  lemma OnlyManualIsEffective(rows: map<CommandId, Row>, row: Row)
    requires rows == MixedTable().rows[1 := row] && row.slot == Wing(A) && row.command == SetDays && row.batch.None?
    requires row.status == Completed
    ensures NewestEffective(rows, 1, A)
  {
    MixedBatchIsOpen();
    BatchesUntouched(MixedTable().rows, 1, row, 7);
    forall other | Effective(rows, other, A) ensures other == 1 {
    }
  }

  /** The manual command completes, no batch is applied, and the schedule keeps the days of neither. */
  lemma MixedExample()
    ensures var c, ack := MixedTable(), Ack(1, Completed, ConfigAccepted, None);
      && TableOk(c, 0) && CompletesManual(c, ack, A) && !FullyApplied(c.rows, 7)
      && NewestEffective(Acknowledge(c, ack).rows, 1, A)
      && A in Acknowledge(c, ack).targets && Acknowledge(c, ack).targets[A] == 10
  {
    var c, ack := MixedTable(), Ack(1, Completed, ConfigAccepted, None);
    MixedTableIsOk();
    MixedBatchIsOpen();
    MixedAckCompletes(c, ack);
    ManualAckShape(c, ack, A);
    OnlyManualIsEffective(Acknowledge(c, ack).rows, MoveRow(c.rows[1], ack));
  }

  // ------------------------------------------------------------ older batches overwrite

  function Done(slot: Slot, days: int, sequence: nat, batch: Option<BatchId>): Row {
    Started(slot, days, sequence, batch).(status := Completed, result := Some(ConfigAccepted), outcome := Some(Completed))
  }

  lemma PublicationOverwrites(c: Cloud, ack: Ack, id: CommandId, b: BatchId, s: Slot)
    requires BatchSlotsDistinct(c.rows) && Sets(c.rows, id, b, s) && s in c.targets
    requires Republishes(c, AckStep(ack), b)
    ensures s in Acknowledge(c, ack).targets && Acknowledge(c, ack).targets[s] == c.rows[id].param
  {
    BatchAckTarget(c, ack, b, s);
    DaysOfRow(c.rows, b, id, s, 0);
  }

  /** The only batch of the table, and all of it is applied. */
  lemma OnlyBatchPublishes(rows: map<CommandId, Row>, b: BatchId)
    requires Members(rows, b) != {} && forall id | id in rows && rows[id].batch.Some? :: rows[id].batch == Some(b) && rows[id].status.Applied()
    ensures Publishes(rows, b)
  {
    forall other | FullyApplied(rows, other) ensures other == b {
      var id :| id in Members(rows, other);
    }
  }

  lemma ManualDecides(rows: map<CommandId, Row>, id: CommandId, s: Slot)
    requires id in rows && For(rows[id], s) && rows[id].batch.None? && rows[id].status == Completed
    requires forall other | other in rows :: rows[other].sequence <= rows[id].sequence
    ensures NewestEffective(rows, id, s)
  {
  }

  /** A batch for wings A and B of which A is completed, and a newer manual command for A. */
  ghost predicate OlderBatch(c: Cloud) {
    && c.rows == map[1 := Done(A, 5, 1, Some(7)), 2 := Started(B, 25, 2, Some(7)), 3 := Started(A, 20, 3, None)]
    && c.targets == map[A := 10, B := 10] && c.nextSequence == 3
  }

  lemma OlderBatchIsOk(c: Cloud)
    requires OlderBatch(c)
    ensures TableOk(c, 0) && BatchSlotsDistinct(c.rows)
  {
    StartedIsOk(A, 20, 3, None);
    StartedIsOk(A, 5, 1, Some(7));
    StartedIsOk(B, 25, 2, Some(7));
    forall id | id in c.rows ensures RowOk(c.rows[id], 0) && c.rows[id].sequence == id && id in {1, 2, 3} {
    }
  }

  lemma NewerManualCommits(c: Cloud) returns (d: Cloud)
    requires OlderBatch(c)
    ensures d == Acknowledge(c, Ack(3, Completed, ConfigAccepted, None)) && CompletesManual(c, Ack(3, Completed, ConfigAccepted, None), A)
    ensures d.rows == c.rows[3 := Done(A, 20, 3, None)] && A in d.targets && d.targets[A] == 20
  {
    var ack := Ack(3, Completed, ConfigAccepted, None);
    d := Acknowledge(c, ack);
    assert CompletesManual(c, ack, A);
    ManualAckShape(c, ack, A);
    assert !NewerCommitted(c.rows, A, 3);
  }

  lemma RestOfBatchPublishes(d: Cloud)
    requires d.rows == map[1 := Done(A, 5, 1, Some(7)), 2 := Started(B, 25, 2, Some(7)), 3 := Done(A, 20, 3, None)]
    ensures Republishes(d, AckStep(Ack(2, Completed, ConfigAccepted, None)), 7)
    ensures Acknowledge(d, Ack(2, Completed, ConfigAccepted, None)).rows == d.rows[2 := Done(B, 25, 2, Some(7))]
  {
    var ack := Ack(2, Completed, ConfigAccepted, None);
    AckRows(d, ack);
    var rows := d.rows[2 := Done(B, 25, 2, Some(7))];
    assert 2 in Members(rows, 7);
    OnlyBatchPublishes(rows, 7);
  }

  /** The newer manual command completes first, then the rest of the older batch: the schedule goes back to
    * the older days, although the manual command is the newest one in force. */
  lemma OlderBatchOverwrites(c: Cloud) returns (d: Cloud, e: Cloud)
    requires OlderBatch(c)
    ensures TableOk(c, 0) && d == Acknowledge(c, Ack(3, Completed, ConfigAccepted, None))
    ensures e == Acknowledge(d, Ack(2, Completed, ConfigAccepted, None))
    ensures A in d.targets && d.targets[A] == 20 && A in e.targets && e.targets[A] == 5
    ensures NewestEffective(e.rows, 3, A) && !Hidden(e.rows, A, 3)
  {
    OlderBatchIsOk(c);
    d := NewerManualCommits(c);
    var ack := Ack(2, Completed, ConfigAccepted, None);
    e := Acknowledge(d, ack);
    RestOfBatchPublishes(d);
    assert Sets(d.rows, 1, 7, A);
    assert BatchSlotsDistinct(d.rows);
    PublicationOverwrites(d, ack, 1, 7, A);
    ManualDecides(e.rows, 3, A);
  }

  /** A batch that is completed and published, and a newer manual command that has committed since. */
  ghost predicate Overtaken(d: Cloud) {
    && d.rows == map[1 := Done(A, 5, 1, Some(7)), 2 := Done(A, 20, 2, None)]
    && d.targets == map[A := 20] && d.nextSequence == 2
  }

  lemma OvertakenIsOk(d: Cloud)
    requires Overtaken(d)
    ensures TableOk(d, 0) && BatchSlotsDistinct(d.rows) && NewestEffective(d.rows, 2, A)
  {
    StartedIsOk(A, 20, 2, None);
    StartedIsOk(A, 5, 1, Some(7));
    forall id | id in d.rows ensures RowOk(d.rows[id], 0) && d.rows[id].sequence == id && id in {1, 2} {
    }
    ManualDecides(d.rows, 2, A);
  }

  /** A late ACKED for a command of the older batch publishes that batch once more. */
  lemma LateAckOverwrites(d: Cloud) returns (e: Cloud)
    requires Overtaken(d)
    ensures TableOk(d, 0) && NewestEffective(d.rows, 2, A) && e == Acknowledge(d, Ack(1, Acked, ConfigAccepted, None))
    ensures A in e.targets && e.targets[A] == 5 && NewestEffective(e.rows, 2, A)
  {
    OvertakenIsOk(d);
    var ack := Ack(1, Acked, ConfigAccepted, None);
    e := Acknowledge(d, ack);
    assert Acked in Edges(d.rows[1].status);
    AckRows(d, ack);
    assert 1 in Members(e.rows, 7);
    OnlyBatchPublishes(e.rows, 7);
    assert Sets(d.rows, 1, 7, A);
    PublicationOverwrites(d, ack, 1, 7, A);
    ManualDecides(e.rows, 2, A);
  }
}
