/** What an ACK is answered and what it changes (pi_command_ack and resolve_ack_path in backend/main.py). */
module AckLaws {
  import opened Vocabulary
  import opened CloudCommands
  import opened CloudRuns

  // ------------------------------------------------------------ the way to a status

  /** A command may go from status a to status b in one hop. */
  predicate Hop(a: Status, b: Status) {
    || (a == Queued && b in {Delivered, Expired})
    || (a == Delivered && b in {Executing, Expired, UnknownAfterReboot})
    || (a == Executing && b in {HardwareVerified, Failed, UnknownAfterReboot})
    || (a == UnknownAfterReboot && b in {HardwareVerified, Completed, Failed})
    || (a == HardwareVerified && b in {Completed, Failed})
    || (a in {Completed, Failed, Expired} && b == Acked)
  }

  /** By way of executing, hardware_verified, or both. */
  predicate Way(a: Status, b: Status) {
    || Hop(a, b)
    || (Hop(a, Executing) && Hop(Executing, b))
    || (Hop(a, HardwareVerified) && Hop(HardwareVerified, b))
    || (Hop(a, Executing) && Hop(Executing, HardwareVerified) && Hop(HardwareVerified, b))
  }

  lemma HopsAreEdges(a: Status, b: Status)
    ensures b in Edges(a) <==> Hop(a, b)
  {
  }

  /** A status that a hardware command can reach is reached, and completed by more than one hop only with a
    * positive token. */
  lemma HardwarePathExactly(a: Status, b: Status, token: Token, command: Command)
    requires command.Hardware()
    ensures ResolveAckPath(a, b, token, command).Some?
      <==> Way(a, b) && (b == Completed && !Hop(a, b) ==> token in {VerifiedOn, VerifiedOff, GpioConfirmed})
  {
    HopsAreEdges(a, b);
  }

  /** The token with which a software command completes. */
  predicate ResultOf(command: Command, token: Token) {
    || (command in {SetDays, SetResetDay} && token == ConfigAccepted)
    || (command == ResetDays && token == StateReset)
    || (command == LcdDisplay && token == DisplayUpdated)
    || (command == Restart && token == RestartScheduled)
    || (command == Reboot && token == RebootScheduled)
  }

  lemma SoftwarePathExactly(a: Status, b: Status, token: Token, command: Command)
    requires !command.Hardware()
    ensures ResolveAckPath(a, b, token, command).Some?
      <==> && b != HardwareVerified && (b == Completed ==> ResultOf(command, token))
           && (Hop(a, b) || (a in {Delivered, Executing} && b == Completed) || (a == Delivered && b == Failed))
  {
    HopsAreEdges(a, b);
    ResultIsIt(command, token);
  }

  lemma ResultIsIt(command: Command, token: Token)
    requires !command.Hardware()
    ensures token == SoftwareResult(command) <==> ResultOf(command, token)
  {
  }

  /** The ACK may move the row. */
  predicate MayMove(row: Row, ack: Ack) {
    if row.command.Hardware() then
      Way(row.status, ack.status) && (ack.status == Completed && !Hop(row.status, Completed) ==> ack.token.Positive())
    else
      && ack.status != HardwareVerified && (ack.status == Completed ==> ResultOf(row.command, ack.token))
      && (Hop(row.status, ack.status) || (row.status in {Delivered, Executing} && ack.status == Completed)
          || (row.status == Delivered && ack.status == Failed))
  }

  lemma PathIsMayMove(row: Row, ack: Ack)
    ensures ResolveAckPath(row.status, ack.status, ack.token, row.command).Some? <==> MayMove(row, ack)
  {
    if row.command.Hardware() {
      HardwarePathExactly(row.status, ack.status, ack.token, row.command);
    } else {
      SoftwarePathExactly(row.status, ack.status, ack.token, row.command);
    }
  }

  // ------------------------------------------------------------ the answer

  /** The row is past the ACK's status. */
  predicate PastIt(row: Row, ack: Ack) {
    || row.status == Acked
    || (row.status.Terminal() && !ack.status.Terminal() && ack.status != Acked)
    || (row.status == HardwareVerified && ack.status in {Queued, Delivered, Executing, UnknownAfterReboot})
    || (row.status in {Executing, UnknownAfterReboot} && ack.status in {Queued, Delivered})
    || (row.status == Delivered && ack.status == Queued)
  }

  predicate OldAttempt(row: Row, ack: Ack) {
    ack.attempt.Some? && ack.attempt.value != row.attempt
  }

  /** Every answer, for a row as the queue endpoints write it: an ACK is applied exactly when it moves the row
    * on, belongs to the current attempt and, for hardware_verified, has a positive token; a repetition and
    * anything the row is past are harmless; the rest are conflicts, by name. */
  lemma AnswerExactly(rows: map<CommandId, Row>, ack: Ack, now: int)
    requires ack.id in rows ==> RowOk(rows[ack.id], now)
    ensures Answer(rows, ack) ==
      if ack.id !in rows then UnknownCommand
      else
        var row := rows[ack.id];
        if row.status == ack.status then Idempotent(row.status)
        else if PastIt(row, ack) then Replay(row.status)
        else if row.status.Terminal() && ack.status.Terminal() then Conflict(ConflictingTerminal)
        else if !MayMove(row, ack) then Conflict(IllegalTransition)
        else if OldAttempt(row, ack) then Conflict(StaleAttempt)
        else if ack.status == HardwareVerified && ack.token !in {VerifiedOn, VerifiedOff, GpioConfirmed} then Conflict(VerificationRequired)
        else Reply.Applied(ack.status)
  {
    if ack.id in rows {
      PathIsMayMove(rows[ack.id], ack);
      assert Rank(ack.status) < Rank(rows[ack.id].status) || rows[ack.id].status == Acked <==> PastIt(rows[ack.id], ack);
    }
  }

  /** 200 for a known command means that its row is, after the ACK, at the ACK's status or past it. */
  lemma OkMeansAtLeast(c: Cloud, ack: Ack, now: int)
    requires ack.id in c.rows && RowOk(c.rows[ack.id], now)
    ensures Answer(c.rows, ack).Ok() ==>
      && ack.id in Acknowledge(c, ack).rows
      && var row := Acknowledge(c, ack).rows[ack.id]; row.status == ack.status || PastIt(row, ack)
  {
    AnswerExactly(c.rows, ack, now);
    if Answer(c.rows, ack).Applied? {
      AckRows(c, ack);
    }
  }

  // ------------------------------------------------------------ the effect

  /** An applied ACK writes its status and token into its own row, and the outcome when it is a first terminal
    * one; any other ACK changes nothing at all. */
  lemma AckEffect(c: Cloud, ack: Ack)
    ensures !Answer(c.rows, ack).Applied? ==> Acknowledge(c, ack) == c
    ensures Answer(c.rows, ack).Applied? ==>
      && Acknowledge(c, ack).nextSequence == c.nextSequence
      && Acknowledge(c, ack).rows == c.rows[ack.id := c.rows[ack.id].(
           status := ack.status, result := Some(ack.token),
           outcome := if ack.status in {Completed, Failed, Expired} then Some(ack.status) else c.rows[ack.id].outcome)]
  {
    if Answer(c.rows, ack).Applied? {
      AckRows(c, ack);
    }
  }

  /** Repeating an ACK that was applied is answered as a repetition and changes nothing. */
  lemma AckTwice(c: Cloud, ack: Ack)
    requires Answer(c.rows, ack).Applied?
    ensures var d := Acknowledge(c, ack); Answer(d.rows, ack) == Idempotent(ack.status) && Acknowledge(d, ack) == d
  {
    AckEffect(c, ack);
  }

  /** The Pi's final report of a hardware command in the current attempt: it is refused exactly when the cloud
    * has another terminal status, has the command back in the queue, or, for EXPIRED, has it already started. */
  lemma FinalReport(rows: map<CommandId, Row>, ack: Ack, now: int)
    requires ack.id in rows && RowOk(rows[ack.id], now) && rows[ack.id].command.Hardware() && !OldAttempt(rows[ack.id], ack)
    requires ack.status in {Completed, Failed, Expired} && (ack.status == Completed ==> ack.token.Positive())
    ensures Answer(rows, ack).Ok() <==>
      match rows[ack.id].status
      case Queued => ack.status == Expired
      case Delivered => true
      case Executing => ack.status != Expired
      case UnknownAfterReboot => ack.status != Expired
      case HardwareVerified => ack.status != Expired
      case Acked => true
      case terminal => terminal == ack.status
  {
    AnswerExactly(rows, ack, now);
  }

  // ------------------------------------------------------------ queueing

  /** What a newly queued row holds: five minutes of life, no delivery and no result. */
  predicate Enters(row: Row, command: Command, slot: SlotArg, param: int, sequence: nat, batch: Option<BatchId>, now: int) {
    && row.command == command && row.slot == slot && row.param == param && row.sequence == sequence && row.batch == batch
    && row.status == Queued && row.createdAt == now && row.expiresAt == now + 300 * SECOND
    && row.deliveredAt.None? && row.attempt == 0 && row.result.None? && row.outcome.None?
  }

  /** queue_command takes a known wing for set_active_slot, off_slot and set_days, 0 to 31 days, and a day from 1
    * to 28; the command enters under the next sequence number, and nothing else changes. */
  lemma QueueOneEnters(c: Cloud, id: CommandId, command: Command, slot: SlotArg, param: int, now: int)
    requires id !in c.rows
    ensures var d := QueueOne(c, id, command, slot, param, now);
      && id in d.rows && d == c.(rows := c.rows[id := d.rows[id]], nextSequence := c.nextSequence + 1)
      && Enters(d.rows[id], command, slot, param, c.nextSequence + 1, None, now)
    ensures ValidCommand(command, slot, param) <==>
      match command
      case SetActiveSlot => slot.Wing?
      case OffSlot => slot.Wing?
      case SetDays => slot.Wing? && 0 <= param <= 31
      case SetResetDay => 1 <= param <= 28
      case _ => true
  {
  }

  /** queue_set_days: wing k of the batch enters as the k-th command, with its days. */
  lemma QueueWingsEnter(c: Cloud, step: Step, now: int, k: nat)
    requires step.BatchStep? && Enabled(c, step, now) && k < |step.ids|
    ensures var d := Apply(c, step, now);
      && d.nextSequence == c.nextSequence + |step.ids| && d.targets == c.targets && step.ids[k] in d.rows
      && Enters(d.rows[step.ids[k]], SetDays, Wing(step.wings[k]), step.days[step.wings[k]], c.nextSequence + k + 1, Some(step.batch), now)
      && (forall id :: id in d.rows <==> id in c.rows || id in step.ids)
      && (forall id | id in c.rows :: d.rows[id] == c.rows[id])
  {
    QueueWingsRows(c, step.wings, step.days, step.ids, step.batch, now);
  }
}
