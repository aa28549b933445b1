/** What a completed hardware command says in the cloud: an activation carries a token of a closed wing, a
  * deactivation one of an open wing, over every run of the protocol. */
module CommandMeaning {
  import opened Vocabulary
  import opened Selection
  import opened CommandProtocol
  import opened ProtocolSafety
  import Q = OfflineQueue
  import K = CloudCommands
  import R = CloudRuns

  /** What the cloud says: a delivery offers the row as it is, in its new attempt, and an ACK is answered with the
    * verdict on the row as it was. */
  lemma CloudSpeaks(s: State, c: R.Step)
    requires Enabled(s, CloudStep(c))
    ensures var t := Apply(s, CloudStep(c));
      && t.pi == s.pi && t.history == s.history && t.now == s.now && t.net.requests == s.net.requests && t.net.acks == s.net.acks
      && (c.SyncStep? && c.pick.Some? ==>
            && c.pick.value in s.cloud.rows
            && var row := s.cloud.rows[c.pick.value];
               t.net.offers == s.net.offers +
                 {Offer(c.pick.value, row.command, row.slot, row.param, row.sequence, row.attempt + 1, Some(row.expiresAt))})
      && (!c.SyncStep? || c.pick.None? ==> t.net.offers == s.net.offers)
      && t.net.replies == s.net.replies + if c.AckStep? then {(c.ack, K.Answer(s.cloud.rows, c.ack))} else {}
  {
    if c.SyncStep? && c.pick.Some? {
      var id := c.pick.value;
      var mid := K.SyncRows(s.cloud.rows, c.req, s.now);
      assert id in mid && mid[id] == K.SyncRow(s.cloud.rows[id], id in c.req.executed, c.req.lastSequence, s.now);
      SameOffer(s.cloud.rows[id], id in c.req.executed, c.req.lastSequence, s.now);
    }
  }

  lemma SameOffer(row: K.Row, executed: bool, lastSequence: nat, now: int)
    ensures var next := K.SyncRow(row, executed, lastSequence, now);
      next == row.(status := next.status, deliveredAt := next.deliveredAt, outcome := next.outcome)
  {
  }

  /** The token says that the command was carried out. */
  predicate Fits(command: Command, token: Token) {
    match command
    case SetActiveSlot => token in {VerifiedOn, GpioConfirmed}
    case OffSlot => token in {VerifiedOff, GpioConfirmed}
    case OffAll => token in {VerifiedOff, GpioConfirmed}
    case _ => false
  }

  /** The command can never get an outcome on the Pi any more. */
  ghost predicate Dead(s: State, id: CommandId) {
    && (id in s.pi.queue.rows ==> s.pi.queue.rows[id].status == Q.Expired)
    && (id !in s.pi.queue.rows ==> id in s.cloud.rows && s.cloud.rows[id].expiresAt <= s.now)
  }

  ghost predicate OutcomeFits(s: State, id: CommandId)
    requires id in s.history.outcomes
  {
    s.history.outcomes[id].status == Q.Completed ==>
      id in s.cloud.rows && s.history.outcomes[id].token.Some? && Fits(s.cloud.rows[id].command, s.history.outcomes[id].token.value)
  }

  /** An ACKED for a hardware command repeats the token of its outcome. */
  ghost predicate AckedFits(s: State, ack: K.Ack) {
    ack.status == K.Acked && ack.id in s.cloud.rows && s.cloud.rows[ack.id].command.Hardware() ==>
      if ack.id in s.history.outcomes
      then s.history.outcomes[ack.id].status == Q.Completed ==> s.history.outcomes[ack.id].token == Some(ack.token)
      else Dead(s, ack.id)
  }

  ghost predicate RowFits(s: State, id: CommandId)
    requires id in s.cloud.rows
  {
    var row := s.cloud.rows[id];
    row.command.Hardware() && row.outcome == Some(K.Completed) ==> row.result.Some? && Fits(row.command, row.result.value)
  }

  ghost predicate PhaseFits(s: State) {
    match s.pi.phase
    case Finishing(id, token) => id in s.pi.queue.rows ==> SuccessToken(s.pi.queue.rows[id].action, token)
    case RecoverEnding(_, id, token, _) => id in s.pi.queue.rows ==> token == RecoveryToken(s.pi.queue.rows[id].action)
    case _ => true
  }

  ghost predicate Fitting(s: State) {
    && (forall id | id in s.history.outcomes :: OutcomeFits(s, id))
    && (forall ack | ack in s.net.acks :: AckedFits(s, ack))
    && (forall id | id in s.cloud.rows :: RowFits(s, id))
    && PhaseFits(s)
  }

  /** The Pi's action is what the cloud's command asked for. */
  lemma TokenFits(command: Command, action: Action, token: Token)
    requires Normalize(command) == Some(action)
    ensures SuccessToken(action, token) ==> Fits(command, token)
    ensures Fits(command, RecoveryToken(action))
  {
  }

  // ------------------------------------------------------------ what every step keeps

  /** Rows leave only expired, outcomes are added only for live commands, and no message is sent. */
  ghost predicate Quiet(s: State, t: State) {
    && t.net.acks == s.net.acks
    && (forall id | id in s.cloud.rows :: id in t.cloud.rows && t.cloud.rows[id].command == s.cloud.rows[id].command)
    && (forall id | id in s.history.outcomes :: id in t.history.outcomes && t.history.outcomes[id] == s.history.outcomes[id])
    && (forall id | id in t.history.outcomes && id !in s.history.outcomes :: !Dead(s, id))
    && (forall id | Dead(s, id) :: Dead(t, id))
  }

  lemma QuietKeepsAcks(s: State, t: State)
    requires Quiet(s, t) && Inv(s) && forall ack | ack in s.net.acks :: AckedFits(s, ack)
    ensures forall ack | ack in t.net.acks :: AckedFits(t, ack)
  {
    forall ack | ack in t.net.acks ensures AckedFits(t, ack) {
      assert AckedFits(s, ack) && AckTrue(s.cloud.rows, s.history, ack);
    }
  }

  lemma QuietKeepsOutcomes(s: State, t: State)
    requires Quiet(s, t) && forall id | id in s.history.outcomes :: OutcomeFits(s, id)
    ensures forall id | id in s.history.outcomes :: OutcomeFits(t, id)
  {
    forall id | id in s.history.outcomes ensures OutcomeFits(t, id) {
      assert OutcomeFits(s, id);
    }
  }

  /** A durable update of row `id`. */
  lemma WriteIsQuiet(s: State, id: CommandId, status: Q.Status, token: Token, writable: bool, phase: Phase)
    requires Moves(s, id, status) ==> id !in s.history.outcomes && s.pi.queue.rows[id].status != Q.Expired
    ensures Quiet(s, Write(s, id, status, token, writable, phase))
  {
    var t := Write(s, id, status, token, writable, phase);
    if writable && Moves(s, id, status) {
      WriteShape(s, id, status, token, phase);
      WrittenIsQuiet(s, t, id);
    } else {
      assert t == s.(pi := s.pi.(phase := phase));
      UnwrittenIsQuiet(s, phase);
    }
  }

  predicate Moves(s: State, id: CommandId, status: Q.Status) {
    id in s.pi.queue.rows && Q.CanMove(s.pi.queue.rows[id].status, status)
  }

  lemma NotYetRecorded(s: State, id: CommandId, status: Q.Status)
    requires Inv(s) && Moves(s, id, status) && status != Q.Acked
    ensures id !in s.history.outcomes && (status != Q.Executing ==> s.pi.queue.rows[id].status != Q.Expired)
  {
    assert RowRecorded(s.history, id, s.pi.queue.rows[id]);
  }

  lemma WriteShape(s: State, id: CommandId, status: Q.Status, token: Token, phase: Phase)
    requires id in s.pi.queue.rows && Q.CanMove(s.pi.queue.rows[id].status, status)
    ensures var t := Write(s, id, status, token, true, phase);
      && t.net == s.net && t.cloud == s.cloud && t.now == s.now
      && id in t.pi.queue.rows && t.pi.queue.rows == s.pi.queue.rows[id := t.pi.queue.rows[id]]
      && (t.history.outcomes == s.history.outcomes
          || (id in t.history.outcomes && t.history.outcomes == s.history.outcomes[id := t.history.outcomes[id]]))
  {
  }

  lemma UnwrittenIsQuiet(s: State, phase: Phase)
    ensures Quiet(s, s.(pi := s.pi.(phase := phase)))
  {
  }

  lemma WrittenIsQuiet(s: State, t: State, id: CommandId)
    requires id in s.pi.queue.rows && s.pi.queue.rows[id].status != Q.Expired && id !in s.history.outcomes
    requires t.net == s.net && t.cloud == s.cloud && t.now == s.now
    requires id in t.pi.queue.rows && t.pi.queue.rows == s.pi.queue.rows[id := t.pi.queue.rows[id]]
    requires t.history.outcomes == s.history.outcomes
      || (id in t.history.outcomes && t.history.outcomes == s.history.outcomes[id := t.history.outcomes[id]])
    ensures Quiet(s, t)
  {
  }

  lemma WriteFits(s: State, id: CommandId, status: Q.Status, token: Token, writable: bool, phase: Phase)
    requires Inv(s) && Fitting(s) && status in {Q.HardwareVerified, Q.UnknownAfterReboot, Q.Completed, Q.Failed}
    requires status == Q.Completed && id in s.pi.queue.rows ==> SuccessToken(s.pi.queue.rows[id].action, token)
    requires PhaseFits(Write(s, id, status, token, writable, phase))
    ensures Fitting(Write(s, id, status, token, writable, phase))
  {
    var t := Write(s, id, status, token, writable, phase);
    if Moves(s, id, status) {
      NotYetRecorded(s, id, status);
    }
    WriteIsQuiet(s, id, status, token, writable, phase);
    QuietKeepsAcks(s, t);
    QuietKeepsOutcomes(s, t);
    forall other | other in t.history.outcomes ensures OutcomeFits(t, other) {
      if other !in s.history.outcomes {
        assert other == id && RowMirrors(s.now, s.cloud.rows, id, s.pi.queue.rows[id]);
        TokenFits(s.cloud.rows[id].command, s.pi.queue.rows[id].action, token);
      }
    }
    forall other | other in t.cloud.rows ensures RowFits(t, other) {
      assert RowFits(s, other);
    }
  }

  lemma ExecutingFits(s: State, step: Step)
    requires Inv(s) && Fitting(s) && Enabled(s, step) && (step.Refuse? || step.Succeed?)
    ensures Fitting(Apply(s, step))
  {
    var id := s.pi.phase.id;
    match step {
      case Refuse(token, writable) => WriteFits(s, id, Q.Failed, token, writable, Idle);
      case Succeed(token, writable) => WriteFits(s, id, Q.HardwareVerified, token, writable, Finishing(id, token));
    }
  }

  lemma CompletingFits(s: State, step: Step)
    requires Inv(s) && Fitting(s) && Enabled(s, step) && (step.Finish? || step.RecoverEnd?)
    ensures Fitting(Apply(s, step))
  {
    var phase := s.pi.phase;
    match step {
      case Finish(writable) => WriteFits(s, phase.id, Q.Completed, phase.token, writable, Idle);
      case RecoverEnd(writable) =>
        RecoveryIsSuccess(s, phase.id, phase.token);
        WriteFits(s, phase.id, Q.Completed, phase.token, writable, Recovering(phase.active, phase.todo));
    }
  }

  lemma RecoveryIsSuccess(s: State, id: CommandId, token: Token)
    requires id in s.pi.queue.rows ==> token == RecoveryToken(s.pi.queue.rows[id].action)
    ensures id in s.pi.queue.rows ==> SuccessToken(s.pi.queue.rows[id].action, token)
  {
  }

  lemma FailFits(s: State, token: Token, fault: bool, writable: bool)
    requires Inv(s) && Fitting(s) && Enabled(s, Fail(token, fault, writable))
    ensures Fitting(Apply(s, Fail(token, fault, writable)))
  {
    var w := Write(s, s.pi.phase.id, Q.Failed, token, writable, Idle);
    WriteFits(s, s.pi.phase.id, Q.Failed, token, writable, Idle);
    SameButFault(w, Apply(s, Fail(token, fault, writable)));
  }

  lemma SameButFault(s: State, t: State)
    requires Fitting(s) && t == s.(pi := s.pi.(fault := t.pi.fault))
    ensures Fitting(t)
  {
    forall ack | ack in t.net.acks ensures AckedFits(t, ack) {
      assert AckedFits(s, ack);
    }
    forall id | id in t.history.outcomes ensures OutcomeFits(t, id) {
      assert OutcomeFits(s, id);
    }
    forall id | id in t.cloud.rows ensures RowFits(t, id) {
      assert RowFits(s, id);
    }
  }

  lemma UnknownFits(s: State, id: CommandId, writable: bool, phase: Phase)
    requires Inv(s) && Fitting(s) && phase.Recovering?
    ensures Fitting(Write(s, id, Q.UnknownAfterReboot, Unknown, writable, phase))
  {
    WriteFits(s, id, Q.UnknownAfterReboot, Unknown, writable, phase);
  }

  lemma RecoverFits(s: State, writable: bool)
    requires Inv(s) && Fitting(s) && Enabled(s, Recover(writable))
    ensures Fitting(Apply(s, Recover(writable)))
  {
    var Recovering(active, todo) := s.pi.phase;
    if todo == [] {
      PhaseChangeFits(s, Idle);
    } else {
      var row := s.pi.queue.rows[todo[0]];
      if !RecoveredBy(row, active) {
        UnknownFits(s, todo[0], writable, Recovering(active, todo[1..]));
      } else {
        FoundFits(s, todo[0], row.status == Q.HardwareVerified, writable, active, todo[1..]);
      }
    }
  }

  lemma FoundFits(s: State, id: CommandId, verified: bool, writable: bool, active: Option<Slot>, rest: seq<CommandId>)
    requires Inv(s) && Fitting(s) && id in s.pi.queue.rows
    ensures var token := RecoveryToken(s.pi.queue.rows[id].action);
      var phase := RecoverEnding(active, id, token, rest);
      Fitting(if verified then s.(pi := s.pi.(phase := phase)) else Write(s, id, Q.HardwareVerified, token, writable, phase))
  {
    var token := RecoveryToken(s.pi.queue.rows[id].action);
    var phase := RecoverEnding(active, id, token, rest);
    if verified {
      PhaseChangeFits(s, phase);
    } else {
      WriteFits(s, id, Q.HardwareVerified, token, writable, phase);
    }
  }

  lemma PhaseChangeFits(s: State, phase: Phase)
    requires Inv(s) && Fitting(s) && PhaseFits(s.(pi := s.pi.(phase := phase)))
    ensures Fitting(s.(pi := s.pi.(phase := phase)))
  {
    SamePhaseless(s, s.(pi := s.pi.(phase := phase)));
  }

  /** Only the phase, the fault and the clock change, and nothing was sent. */
  lemma SamePhaseless(s: State, t: State)
    requires Inv(s) && Fitting(s) && t.cloud == s.cloud && t.pi.queue == s.pi.queue && t.history == s.history
    requires t.net.acks == s.net.acks && s.now <= t.now && PhaseFits(t)
    ensures Fitting(t)
  {
    QuietKeepsAcks(s, t);
    QuietKeepsOutcomes(s, t);
    forall id | id in t.cloud.rows ensures RowFits(t, id) {
      assert RowFits(s, id);
    }
  }

  /** Only rows of the Pi change that are not dead, or leave after their expiry, and no outcome is added. */
  lemma QueueChangeFits(s: State, t: State)
    requires Inv(s) && Fitting(s) && t.cloud == s.cloud && t.history.outcomes == s.history.outcomes && t.net.acks == s.net.acks
    requires t.now == s.now && PhaseFits(t) && forall id | Dead(s, id) :: Dead(t, id)
    ensures Fitting(t)
  {
    QuietKeepsAcks(s, t);
    QuietKeepsOutcomes(s, t);
    forall id | id in t.cloud.rows ensures RowFits(t, id) {
      assert RowFits(s, id);
    }
  }

  lemma SentFits(s: State, ack: K.Ack)
    requires Fitting(s) && AckedFits(s, ack)
    ensures Fitting(Sent(s, ack))
  {
    var t := Sent(s, ack);
    forall other | other in t.net.acks ensures AckedFits(t, other) {
      assert AckedFits(s, other);
    }
    forall id | id in t.history.outcomes ensures OutcomeFits(t, id) {
      assert OutcomeFits(s, id);
    }
    forall id | id in t.cloud.rows ensures RowFits(t, id) {
      assert RowFits(s, id);
    }
  }

  lemma AcceptFits(s: State, o: Offer, writable: bool)
    requires Inv(s) && Fitting(s) && Enabled(s, Accept(o, writable))
    ensures Fitting(Accepted(s, o, writable))
  {
    assert OfferTrue(s.cloud.rows, o);
    var expiry := LocalExpiry(o.expiresAt, s.now);
    if o.slot == BadSlot {
      var executing := K.Ack(o.id, K.Executing, NotAvailable, None);
      SentFits(s, executing);
      SentFits(Sent(s, executing), K.Ack(o.id, K.Failed, NotAvailable, None));
    } else if expiry.None? {
      SentFits(s, K.Ack(o.id, K.Expired, NotAvailable, Some(o.attempt)));
    } else {
      QueueChangeFits(s, Accepted(s, o, writable));
    }
  }

  lemma ExpiredStay(q: Q.Queue, claimed: Option<CommandId>, now: int)
    requires Q.ClaimPicks(q, claimed, now)
    ensures var rows := Q.Claim(q, claimed, now).rows;
      rows.Keys == q.rows.Keys && forall id | id in q.rows && q.rows[id].status == Q.Expired :: rows[id].status == Q.Expired
  {
  }

  lemma ClaimFits(s: State, claimed: Option<CommandId>)
    requires Inv(s) && Fitting(s) && Enabled(s, ClaimNext(claimed, true))
    ensures Fitting(Apply(s, ClaimNext(claimed, true)))
  {
    var t := Apply(s, ClaimNext(claimed, true));
    ExpiredStay(s.pi.queue, claimed, s.now);
    QueueChangeFits(s, t);
  }

  lemma CleanupFits(s: State, victims: seq<CommandId>)
    requires Inv(s) && Fitting(s) && Enabled(s, Cleanup(victims))
    ensures Fitting(Apply(s, Cleanup(victims)))
  {
    VictimsExpired(s, victims);
    QueueChangeFits(s, Apply(s, Cleanup(victims)));
  }

  lemma AnsweredFits(s: State, step: Step)
    requires Inv(s) && Fitting(s) && Enabled(s, step) && (step.Confirm? || step.Reject?)
    ensures Fitting(Apply(s, step))
  {
    match step {
      case Confirm(id, _) => MarkFits(s, id, Q.AckAcked);
      case Reject(id, _) => MarkFits(s, id, Q.AckRejected);
    }
  }

  lemma MarkFits(s: State, id: CommandId, ack: Q.AckStatus)
    requires Inv(s) && Fitting(s) && s.pi.phase.Idle? && id in s.pi.queue.rows
    ensures Fitting(s.(pi := s.pi.(queue := s.pi.queue.(rows :=
      s.pi.queue.rows[id := s.pi.queue.rows[id].(ack := ack, ackedAt := Some(s.now))]))))
  {
    QueueChangeFits(s, s.(pi := s.pi.(queue := s.pi.queue.(rows :=
      s.pi.queue.rows[id := s.pi.queue.rows[id].(ack := ack, ackedAt := Some(s.now))]))));
  }

  lemma SendFits(s: State, step: Step)
    requires Inv(s) && Fitting(s) && Enabled(s, step) && (step.SendTerminal? || step.SendAcked?)
    ensures Fitting(Apply(s, step))
  {
    var row := s.pi.queue.rows[step.id];
    if step.SendTerminal? {
      SentFits(s, TerminalAck(step.id, row));
    } else {
      AckedAckFits(s, step.id, row);
      SentFits(s, AckedAck(step.id, row));
    }
  }

  lemma AckedAckFits(s: State, id: CommandId, row: Q.Row)
    requires Inv(s) && id in s.pi.queue.rows && row == s.pi.queue.rows[id] && Q.Unacked(row)
    ensures AckedFits(s, AckedAck(id, row))
  {
    assert RowMirrors(s.now, s.cloud.rows, id, row) && RowRecorded(s.history, id, row);
  }

  lemma SoftwareFits(s: State, step: Step)
    requires Inv(s) && Fitting(s) && Enabled(s, step) && (step.SoftExecuting? || step.SoftTerminal? || step.SoftAcked?)
    ensures Fitting(Apply(s, step))
  {
    assert OfferTrue(s.cloud.rows, step.offer);
    match step {
      case SoftExecuting(o) => SentFits(s, SoftExecutingAck(o));
      case SoftTerminal(o, ok) => SentFits(s, if ok then SoftCompletedAck(o) else K.Ack(o.id, K.Failed, NotAvailable, Some(o.attempt)));
      case SoftAcked(o) => SentFits(s, K.Ack(o.id, K.Acked, K.SoftwareResult(o.command), Some(o.attempt)));
    }
  }

  lemma StartFits(s: State)
    requires Inv(s) && Fitting(s) && Enabled(s, Start)
    ensures Fitting(Apply(s, Start))
  {
    var ack := K.Ack(s.pi.phase.id, K.Executing, Token.Pending, s.pi.queue.rows[s.pi.phase.id].cloudAttempt);
    SentFits(s, ack);
    SamePhaseless(Sent(s, ack), Apply(s, Start));
  }

  // ------------------------------------------------------------ cloud transactions

  lemma SyncRowResult(row: K.Row, executed: bool, lastSequence: nat, now: int)
    ensures var r := K.SyncRow(row, executed, lastSequence, now);
      r.command == row.command && r.result == row.result && (r.outcome == Some(K.Completed) ==> row.outcome == Some(K.Completed))
  {
  }

  lemma SyncRowFits(s: State, req: K.SyncRequest, pick: Option<CommandId>, t: State)
    requires Fitting(s) && K.PicksNext(K.SyncRows(s.cloud.rows, req, s.now), pick) && t.cloud == K.Sync(s.cloud, req, pick, s.now)
    ensures forall id | id in t.cloud.rows :: RowFits(t, id)
  {
    forall id | id in t.cloud.rows ensures RowFits(t, id) {
      assert RowFits(s, id);
      SyncRowResult(s.cloud.rows[id], id in req.executed, req.lastSequence, s.now);
    }
  }

  /** An applied ACK that leaves a hardware row completed carries the token of the Pi's outcome. */
  lemma AckRowFits(s: State, ack: K.Ack, t: State)
    requires Inv(s) && Fitting(s) && ack in s.net.acks && t.cloud == K.Acknowledge(s.cloud, ack)
    ensures forall id | id in t.cloud.rows :: RowFits(t, id)
  {
    forall id | id in t.cloud.rows ensures RowFits(t, id) {
      if K.Answer(s.cloud.rows, ack).Applied? {
        R.AckRows(s.cloud, ack);
        R.AckRowOk(s.cloud.rows, ack, s.now);
        if id == ack.id && s.cloud.rows[id].command.Hardware() {
          MovedRowFits(s, ack, K.MoveRow(s.cloud.rows[id], ack));
        } else {
          assert RowFits(s, id);
        }
      } else {
        assert RowFits(s, id);
      }
    }
  }

  lemma MovedRowFits(s: State, ack: K.Ack, row: K.Row)
    requires Inv(s) && Fitting(s) && ack in s.net.acks && K.Answer(s.cloud.rows, ack).Applied?
    requires s.cloud.rows[ack.id].command.Hardware() && row == K.MoveRow(s.cloud.rows[ack.id], ack)
    requires ack.status == K.Acked ==> s.cloud.rows[ack.id].status.Terminal()
    ensures row.outcome == Some(K.Completed) ==> row.result.Some? && Fits(row.command, row.result.value)
  {
    assert AckTrue(s.cloud.rows, s.history, ack) && AckedFits(s, ack);
    assert CloudAgrees(s.cloud.rows, s.history, ack.id) && R.RowOk(s.cloud.rows[ack.id], s.now);
    if row.outcome == Some(K.Completed) {
      assert ack.status in {K.Completed, K.Acked};
      assert ack.id in s.history.outcomes && OutcomeFits(s, ack.id);
    }
  }

  lemma CloudRowsFit(s: State, c: R.Step, t: State)
    requires Inv(s) && Fitting(s) && Enabled(s, CloudStep(c)) && t.cloud == R.Apply(s.cloud, c, s.now)
    ensures forall id | id in t.cloud.rows :: RowFits(t, id)
  {
    match c {
      case QueueStep(_, _, _, _) =>
        forall id | id in t.cloud.rows ensures RowFits(t, id) {
          assert id in s.cloud.rows ==> RowFits(s, id);
        }
      case BatchStep(wings, days, ids, batch) =>
        R.QueueWingsRows(s.cloud, wings, days, ids, batch, s.now);
        forall id | id in t.cloud.rows ensures RowFits(t, id) {
          assert if id in s.cloud.rows then RowFits(s, id) else id in ids;
        }
      case SyncStep(req, pick) => SyncRowFits(s, req, pick, t);
      case AckStep(ack) => AckRowFits(s, ack, t);
    }
  }

  lemma CloudFits(s: State, c: R.Step)
    requires Inv(s) && Fitting(s) && Enabled(s, CloudStep(c))
    ensures Fitting(CloudStepped(s, c))
  {
    var t := CloudStepped(s, c);
    R.StepKeeps(s.cloud, c, s.now, s.now);
    CloudRowsFit(s, c, t);
    CloudIsQuiet(s, c, t);
    QuietKeepsAcks(s, t);
    QuietKeepsOutcomes(s, t);
  }

  lemma CloudIsQuiet(s: State, c: R.Step, t: State)
    requires Enabled(s, CloudStep(c)) && t == CloudStepped(s, c) && R.TableEvolves(s.cloud.rows, t.cloud.rows)
    ensures Quiet(s, t) && t.history == s.history && t.pi == s.pi
  {
    forall id | id in s.cloud.rows ensures id in t.cloud.rows && t.cloud.rows[id].command == s.cloud.rows[id].command
      && t.cloud.rows[id].expiresAt == s.cloud.rows[id].expiresAt
    {
      assert R.Evolves(s.cloud.rows[id], t.cloud.rows[id]);
    }
  }

  // ------------------------------------------------------------ every step, every run

  lemma WorldFits(s: State, step: Step)
    requires Inv(s) && Fitting(s) && Enabled(s, step)
    requires step.Tick? || step.CloudStep? || step.SendSync? || step.Accept? || step.ClaimNext? || step.Cleanup?
    ensures Fitting(Apply(s, step))
  {
    match step {
      case Tick(_) => SamePhaseless(s, Apply(s, step));
      case CloudStep(c) => CloudFits(s, c);
      case SendSync(_) => SamePhaseless(s, Apply(s, step));
      case Accept(o, writable) => AcceptFits(s, o, writable);
      case ClaimNext(claimed, writable) =>
        if writable {
          ClaimFits(s, claimed);
        }
      case Cleanup(victims) => CleanupFits(s, victims);
    }
  }

  lemma StepFits(s: State, step: Step)
    requires Inv(s) && Fitting(s) && Enabled(s, step)
    ensures Fitting(Apply(s, step))
  {
    if step.Tick? || step.CloudStep? || step.SendSync? || step.Accept? || step.ClaimNext? || step.Cleanup? {
      WorldFits(s, step);
    } else if step.SoftExecuting? || step.SoftTerminal? || step.SoftAcked? {
      SoftwareFits(s, step);
    } else if step.SendTerminal? || step.SendAcked? {
      SendFits(s, step);
    } else if step.Confirm? || step.Reject? {
      AnsweredFits(s, step);
    } else if step.SaveFails? || step.RaiseFault? || step.Crash? || step.Boot? {
      SamePhaseless(s, Apply(s, step));
    } else if step.Start? {
      StartFits(s);
    } else if step.Fail? {
      FailFits(s, step.token, step.fault, step.writable);
    } else if step.Recover? {
      RecoverFits(s, step.writable);
    } else if step.Refuse? || step.Succeed? {
      ExecutingFits(s, step);
    } else {
      CompletingFits(s, step);
    }
  }

  lemma {:induction false} RunFits(trace: seq<State>, steps: seq<Step>, k: nat)
    requires IsRun(trace, steps) && k <= |steps|
    ensures Fitting(trace[k])
  {
    if k > 0 {
      RunFits(trace, steps, k - 1);
      RunKeeps(trace, steps, k - 1);
      StepFits(trace[k - 1], steps[k - 1]);
    }
  }

  /** Over every run: a hardware command whose outcome in the cloud is COMPLETED carries, also after it was
    * acknowledged, a token of the state it asked for, and so does the Pi's durable row it stands for. */
  lemma CompletedMeansDone(trace: seq<State>, steps: seq<Step>, k: nat, id: CommandId)
    requires IsRun(trace, steps) && k <= |steps| && id in trace[k].cloud.rows
    ensures var row := trace[k].cloud.rows[id];
      row.outcome == Some(K.Completed) ==>
        && (row.command == SetActiveSlot ==> row.result in {Some(VerifiedOn), Some(GpioConfirmed)})
        && (row.command in {OffSlot, OffAll} ==> row.result in {Some(VerifiedOff), Some(GpioConfirmed)})
    ensures var row, pi := trace[k].cloud.rows[id], trace[k].pi.queue.rows;
      id in pi && pi[id].status == Q.Completed ==>
        && (row.command == SetActiveSlot ==> pi[id].verification in {Some(VerifiedOn), Some(GpioConfirmed)})
        && (row.command in {OffSlot, OffAll} ==> pi[id].verification in {Some(VerifiedOff), Some(GpioConfirmed)})
  {
    RunFits(trace, steps, k);
    RunKeeps(trace, steps, k);
    var s := trace[k];
    assert RowFits(s, id);
    if id in s.pi.queue.rows && s.pi.queue.rows[id].status == Q.Completed {
      assert RowRecorded(s.history, id, s.pi.queue.rows[id]) && OutcomeFits(s, id);
    }
  }
}
