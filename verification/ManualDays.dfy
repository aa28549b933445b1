/** Manual set_days commands: which of the completed ones is in the schedule, whatever order the ACKs
  * come in (newer_set_days_committed in backend/command_reliability.py, pi_command_ack in
  * backend/main.py). */
module ManualDays {
  import opened Vocabulary
  import opened CloudCommands
  import opened CloudRuns
  import opened BuriedFailures
  import opened TargetWrites
  import opened MixedDays

  ghost predicate IsManualRun(trace: seq<Cloud>, steps: seq<Timed>) {
    IsRun(trace, steps) && forall k | 0 <= k < |steps| :: !steps[k].step.BatchStep?
  }

  ghost predicate Newest(rows: map<CommandId, Row>, id: CommandId, s: Slot) {
    Took(rows, id, s) && forall other | Took(rows, other, s) :: rows[other].sequence <= rows[id].sequence
  }

  ghost predicate Batchless(rows: map<CommandId, Row>) {
    forall id | id in rows :: rows[id].batch.None?
  }

  lemma SyncBatch(row: Row, executed: bool, lastSequence: nat, now: int)
    ensures SyncRow(row, executed, lastSequence, now).batch == row.batch
  {
  }

  lemma StepBatchless(c: Cloud, step: Step, now: int)
    requires Enabled(c, step, now) && !step.BatchStep? && Batchless(c.rows)
    ensures Batchless(Apply(c, step, now).rows)
  {
    match step {
      case QueueStep(_, _, _, _) =>
      case SyncStep(req, pick) =>
        forall id | id in c.rows ensures SyncRows(c.rows, req, now)[id].batch.None? {
          SyncBatch(c.rows[id], id in req.executed, req.lastSequence, now);
        }
      case AckStep(ack) => if Answer(c.rows, ack).Applied? { AckRows(c, ack); }
    }
  }

  lemma {:induction false} RunBatchless(trace: seq<Cloud>, steps: seq<Timed>, k: nat)
    requires IsManualRun(trace, steps) && k <= |steps|
    ensures Batchless(trace[k].rows)
  {
    if k > 0 {
      RunBatchless(trace, steps, k - 1);
      StepBatchless(trace[k - 1], steps[k - 1].step, steps[k - 1].now);
    }
  }

  lemma NothingPublished(trace: seq<Cloud>, steps: seq<Timed>, v: nat, s: Slot)
    requires IsManualRun(trace, steps) && v < |steps|
    ensures forall b :: !PublishesDays(trace[v], steps[v].step, b, s)
  {
    RunBatchless(trace, steps, v);
  }

  /** A newer set_days of the wing was acknowledged before while it was failed or expired. */
  ghost predicate Blocked(trace: seq<Cloud>, steps: seq<Timed>, j: nat, s: Slot, sequence: nat)
    requires |trace| == |steps| + 1 && j <= |steps|
  {
    exists r :: r in trace[j].rows && For(trace[j].rows[r], s) && trace[j].rows[r].sequence > sequence && Buried(trace, steps, j, r)
  }

  /** When the newest completed command completes, what newer_set_days_committed finds is a buried one. */
  lemma CommittedIsBuried(trace: seq<Cloud>, steps: seq<Timed>, j: nat, k: nat, id: CommandId, s: Slot)
    requires IsManualRun(trace, steps) && j < k <= |steps| && s in trace[0].targets
    requires Completes(trace[j], steps[j].step, id, s) && Newest(trace[k].rows, id, s)
    ensures NewerCommitted(trace[j].rows, s, trace[j].rows[id].sequence) <==> Blocked(trace, steps, j, s, trace[j].rows[id].sequence)
  {
    var rows, sequence := trace[j].rows, trace[j].rows[id].sequence;
    RunKeeps(trace, steps, j);
    RunEvolves(trace, steps, j, k);
    assert Evolves(rows[id], trace[k].rows[id]);
    forall r | r in rows && For(rows[r], s) && rows[r].sequence > sequence
      ensures rows[r].status.Applied() <==> Buried(trace, steps, j, r)
    {
      BuriedExactly(trace, steps, j, r);
      assert RowOk(rows[r], Clock(steps, j));
      if Took(rows, r, s) {
        RunTook(trace, steps, j, k, r, s);
      }
    }
  }

  /** Manual confluence, exactly. At any point of any run of manual commands, the days of the completed
    * set_days with the highest sequence number are a wing's target if and only if, when it completed, no
    * newer set_days of the wing had been acknowledged while failed or expired, or the target had its
    * days already. */
  lemma NewestCompletedExactly(trace: seq<Cloud>, steps: seq<Timed>, k: nat, id: CommandId, s: Slot) returns (j: nat)
    requires IsManualRun(trace, steps) && k <= |steps| && s in trace[0].targets && Newest(trace[k].rows, id, s)
    ensures j < k && Completes(trace[j], steps[j].step, id, s)
    ensures s in trace[j].targets && s in trace[k].targets
    ensures trace[k].targets[s] == trace[k].rows[id].param
      <==> !Blocked(trace, steps, j, s, trace[j].rows[id].sequence) || trace[j].targets[s] == trace[j].rows[id].param
  {
    RunBatchless(trace, steps, k);
    var last;
    j, last := NewestManualExactly(trace, steps, k, id, s);
    if last.Some? {
      NothingPublished(trace, steps, last.value.0, s);
      assert false;
    }
    CommittedIsBuried(trace, steps, j, k, id, s);
    RunEvolves(trace, steps, j, k);
    assert Evolves(trace[j].rows[id], trace[k].rows[id]);
  }

  /** While no set_days of the wing is completed, the target is the initial one. */
  lemma NoneCompleted(trace: seq<Cloud>, steps: seq<Timed>, k: nat, s: Slot)
    requires IsManualRun(trace, steps) && k <= |steps| && s in trace[0].targets
    requires forall id :: !Took(trace[k].rows, id, s)
    ensures s in trace[k].targets && trace[k].targets[s] == trace[0].targets[s]
  {
    var w := LastWrite(trace, steps, 0, k, s);
    if w.Some? {
      var id := steps[w.value].step.ack.id;
      RunBatchless(trace, steps, w.value);
      RunStepTakes(trace, steps, w.value, id, s);
      RunTook(trace, steps, w.value + 1, k, id, s);
    }
  }

  /** A failed command that was acknowledged, and an older one that is being carried out. */
  ghost predicate FailureAcked(c: Cloud, failed: Row) {
    && failed == Started(A, 5, 2, None).(status := Acked, outcome := Some(Failed))
    && c.rows == map[1 := Started(A, 20, 1, None), 2 := failed] && c.targets == map[A := 10] && c.nextSequence == 2
  }

  lemma FailureAckedIsOk(c: Cloud, failed: Row)
    requires FailureAcked(c, failed)
    ensures TableOk(c, 0) && NewerCommitted(c.rows, A, 1)
  {
    StartedIsOk(A, 20, 1, None);
    forall id | id in c.rows ensures RowOk(c.rows[id], 0) && c.rows[id].sequence == id && id in {1, 2} {
    }
    assert c.rows[2].slot == Wing(A);
  }

  /** It keeps the days of the older one out. */
  lemma BlockedExample(c: Cloud, failed: Row, ack: Ack)
    requires FailureAcked(c, failed) && ack == Ack(1, Completed, ConfigAccepted, None)
    ensures TableOk(c, 0) && Completes(c, AckStep(ack), 1, A) && AckedFailure(c.rows, 2)
    ensures Newest(Acknowledge(c, ack).rows, 1, A)
    ensures A in Acknowledge(c, ack).targets && Acknowledge(c, ack).targets[A] == 10
  {
    FailureAckedIsOk(c, failed);
    AckRows(c, ack);
    ManualAckTarget(c, ack, A);
  }

  lemma NoneBuriedBefore(trace: seq<Cloud>, steps: seq<Timed>, j: nat, k: nat, s: Slot, sequence: nat)
    requires IsManualRun(trace, steps) && j <= k <= |steps|
    requires forall id | id in trace[k].rows && trace[k].rows[id].command == SetDays :: !Buried(trace, steps, k, id)
    ensures !Blocked(trace, steps, j, s, sequence)
  {
    RunEvolves(trace, steps, j, k);
    forall r | r in trace[j].rows && For(trace[j].rows[r], s) ensures !Buried(trace, steps, j, r) {
      assert Evolves(trace[j].rows[r], trace[k].rows[r]);
    }
  }

  /** If no set_days was acknowledged while failed or expired, every wing's target is the days of the
    * completed set_days with the highest sequence number, or the initial target. */
  lemma NewestCompletedWins(trace: seq<Cloud>, steps: seq<Timed>, k: nat, s: Slot)
    requires IsManualRun(trace, steps) && k <= |steps| && s in trace[0].targets
    requires forall id | id in trace[k].rows && trace[k].rows[id].command == SetDays :: !Buried(trace, steps, k, id)
    ensures s in trace[k].targets
    ensures (forall id :: !Took(trace[k].rows, id, s)) ==> trace[k].targets[s] == trace[0].targets[s]
    ensures forall id | Newest(trace[k].rows, id, s) :: trace[k].targets[s] == trace[k].rows[id].param
  {
    RunTargets(trace, steps, k, s);
    if forall id :: !Took(trace[k].rows, id, s) {
      NoneCompleted(trace, steps, k, s);
    }
    forall id | Newest(trace[k].rows, id, s) ensures trace[k].targets[s] == trace[k].rows[id].param {
      var j := NewestCompletedExactly(trace, steps, k, id, s);
      NoneBuriedBefore(trace, steps, j, k, s, trace[j].rows[id].sequence);
    }
  }
}
