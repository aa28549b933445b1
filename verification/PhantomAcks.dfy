/** "Completed or acked" is not "completed": what the publication rule counts as applied
  * (APPLIED in backend/energy_api/day_allocation.py). */
module PhantomAcks {
  import opened Vocabulary
  import opened CloudCommands
  import opened CloudRuns
  import opened BuriedFailures
  import opened TargetWrites
  import opened MixedDays

  /** A batch that counts as applied was carried out in full by the Pi exactly when no step of the run
    * acknowledged one of its commands while that command was failed or expired. */
  lemma PublishedMeansCompleted(trace: seq<Cloud>, steps: seq<Timed>, k: nat, b: BatchId)
    requires IsRun(trace, steps) && k <= |steps| && FullyApplied(trace[k].rows, b)
    ensures (forall id | id in Members(trace[k].rows, b) :: trace[k].rows[id].outcome == Some(Completed))
      <==> (forall id | id in Members(trace[k].rows, b) :: !Buried(trace, steps, k, id))
  {
    RunKeeps(trace, steps, k);
    var rows := trace[k].rows;
    forall id | id in Members(rows, b) ensures rows[id].outcome == Some(Completed) <==> !Buried(trace, steps, k, id) {
      assert RowOk(rows[id], Clock(steps, k));
      BuriedExactly(trace, steps, k, id);
    }
  }

  lemma PromotedMembers(a: map<CommandId, Row>, id: CommandId, row: Row, x: BatchId)
    requires id in a && row == a[id].(status := row.status, result := row.result, outcome := row.outcome)
    ensures Members(a, x) == Members(a[id := row], x)
  {
  }

  /** One row of batch `b` becomes applied; every other batch keeps its rank. */
  lemma PromotedBatch(a: map<CommandId, Row>, id: CommandId, row: Row, b: BatchId, x: BatchId)
    requires id in a && a[id].batch == Some(b)
    requires row == a[id].(status := row.status, result := row.result, outcome := row.outcome)
    requires row.status.Applied()
    ensures Members(a[id := row], x) == Members(a, x) && Top(a[id := row], x) == Top(a, x)
    ensures FullyApplied(a, x) ==> FullyApplied(a[id := row], x)
    ensures x != b ==> (FullyApplied(a, x) <==> FullyApplied(a[id := row], x))
  {
    assert Members(a[id := row], x) == Members(a, x);
  }

  lemma PromotionPublishes(a: map<CommandId, Row>, id: CommandId, row: Row, b: BatchId)
    requires id in Members(a, b)
    requires row == a[id].(status := row.status, result := row.result, outcome := row.outcome) && row.status.Applied()
    requires forall other | other in Members(a, b) && other != id :: a[other].status == Completed
    requires forall x | FullyApplied(a, x) :: Top(a, x) <= Top(a, b)
    ensures Publishes(a[id := row], b)
  {
    PromotedMembers(a, id, row, b);
    forall x: BatchId
      ensures Top(a[id := row], x) == Top(a, x)
      ensures x != b ==> (FullyApplied(a, x) <==> FullyApplied(a[id := row], x))
    {
      PromotedBatch(a, id, row, b, x);
    }
    if Superseded(a[id := row], b) {
      var other: BatchId :| other != b && FullyApplied(a[id := row], other) && Top(a[id := row], other) > Top(a[id := row], b);
      assert FullyApplied(a, other);
    }
  }

  lemma FailureIsAcknowledged(rows: map<CommandId, Row>, id: CommandId, token: Token)
    requires id in rows && rows[id].status in {Failed, Expired}
    ensures Answer(rows, Ack(id, Acked, token, None)).Applied?
  {
    assert Acked in Edges(rows[id].status);
  }

  /** The schedule the next sync delivers gives the wing these days. */
  predicate Scheduled(c: Cloud, s: Slot, days: int) {
    s in c.targets && c.targets[s] == days
  }

  /** How a failed command gets published: once the rest of its batch is completed, one ACKED
    * acknowledgement of the failure makes the batch count as applied, and if no higher batch is
    * applied, the failed command's days go into the schedule. */
  lemma PhantomAckPublishes(c: Cloud, id: CommandId, b: BatchId, s: Slot, token: Token)
    requires id in c.rows && c.rows[id].status in {Failed, Expired} && s in c.targets
    requires BatchSlotsDistinct(c.rows) && Sets(c.rows, id, b, s)
    requires forall other | other in Members(c.rows, b) && other != id :: c.rows[other].status == Completed
    requires forall x | FullyApplied(c.rows, x) :: Top(c.rows, x) <= Top(c.rows, b)
    ensures !FullyApplied(c.rows, b)
    ensures Scheduled(Acknowledge(c, Ack(id, Acked, token, None)), s, c.rows[id].param)
  {
    var ack := Ack(id, Acked, token, None);
    FailureIsAcknowledged(c.rows, id, token);
    AckRows(c, ack);
    FailureMoves(c.rows[id], id, token);
    PromotionPublishes(c.rows, id, MoveRow(c.rows[id], ack), b);
    assert id in Members(c.rows, b);
    PublicationOverwrites(c, ack, id, b, s);
  }

  lemma FailureMoves(before: Row, id: CommandId, token: Token)
    requires before.status in {Failed, Expired}
    ensures var row := MoveRow(before, Ack(id, Acked, token, None));
      row == before.(status := row.status, result := row.result, outcome := row.outcome) && row.status.Applied()
  {
  }

  /** The smallest such table: a batch of one command that failed. */
  lemma PhantomAckExample(c: Cloud, row: Row)
    requires row == Row(SetDays, Wing(A), 20, Failed, 0, COMMAND_EXPIRY, Some(0), 1, 1, Some(7), Some(NotAvailable), Some(Failed))
    requires c == Cloud(map[5 := row], map[A := 1], 15, 0, 1)
    ensures TableOk(c, 0) && BatchSlotsDistinct(c.rows)
    ensures Scheduled(Acknowledge(c, Ack(5, Acked, NotAvailable, None)), A, 20)
  {
    assert Sets(c.rows, 5, 7, A);
    forall b: BatchId | Members(c.rows, b) != {} ensures b == 7 {
      var id :| id in Members(c.rows, b);
    }
    PhantomAckPublishes(c, 5, 7, A, NotAvailable);
  }
}
