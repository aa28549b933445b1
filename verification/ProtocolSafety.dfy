/** Safety of the command protocol, over every run. */
module ProtocolSafety {
  import opened Vocabulary
  import opened Selection
  import opened CommandProtocol
  import Q = OfflineQueue
  import K = CloudCommands
  import R = CloudRuns

  // ------------------------------------------------------------ the invariant

  ghost predicate WasClaimed(h: History, id: CommandId) {
    exists k :: 0 <= k < |h.claims| && h.claims[k].id == id
  }

  /** A Pi row is the Pi's copy of a live hardware command of the cloud. */
  ghost predicate RowMirrors(now: int, cloud: map<CommandId, K.Row>, id: CommandId, row: Q.Row) {
    && id in cloud
    && cloud[id].command.Hardware() && Normalize(cloud[id].command) == Some(row.action)
    && row.slot == cloud[id].slot && row.slot != BadSlot
    && row.expiresAt.Some? && row.expiresAt.value <= cloud[id].expiresAt
    && cloud[id].createdAt <= row.deliveredAt <= now
    && (row.ackedAt.Some? ==> row.deliveredAt <= row.ackedAt.value)
    && row.status != Q.Acked
  }

  /** What the history says about a Pi row. */
  ghost predicate RowRecorded(h: History, id: CommandId, row: Q.Row) {
    && (Q.Executed(row) <==> WasClaimed(h, id))
    && (row.status in {Q.Completed, Q.Failed} <==> id in h.outcomes)
    && (id in h.outcomes ==> h.outcomes[id] == Outcome(row.status, row.verification))
  }

  ghost predicate QueueOk(now: int, cloud: map<CommandId, K.Row>, q: Q.Queue, h: History) {
    forall id | id in q.rows :: RowMirrors(now, cloud, id, q.rows[id]) && RowRecorded(h, id, q.rows[id])
  }

  /** A claim names a hardware command, happened before its cloud expiry, and happened once. A command
    * that was claimed and whose row is gone has expired, so it cannot come back. */
  ghost predicate ClaimsOk(now: int, cloud: map<CommandId, K.Row>, q: Q.Queue, h: History) {
    && (forall k | 0 <= k < |h.claims| ::
          && h.claims[k].id in cloud && cloud[h.claims[k].id].command.Hardware() && cloud[h.claims[k].id].slot != BadSlot
          && h.claims[k].at < cloud[h.claims[k].id].expiresAt
          && (h.claims[k].id !in q.rows ==> cloud[h.claims[k].id].expiresAt <= now))
    && (forall i, k | 0 <= i < k < |h.claims| :: h.claims[i].id != h.claims[k].id)
  }

  ghost predicate OutcomesOk(h: History) {
    forall id | id in h.outcomes ::
      && WasClaimed(h, id)
      && h.outcomes[id].status in {Q.Completed, Q.Failed}
      && (h.outcomes[id].status == Q.Completed ==> h.outcomes[id].token.Some? && h.outcomes[id].token.value.Positive())
  }

  /** Every hardware ACK ever sent tells the truth about the Pi; an ACKED software ACK follows a
    * COMPLETED one the cloud accepted. */
  ghost predicate AckTrue(cloud: map<CommandId, K.Row>, h: History, ack: K.Ack) {
    && ack.id in cloud
    && (cloud[ack.id].command.Hardware() ==>
          && ack.status in {K.Executing, K.Completed, K.Failed, K.Expired, K.Acked}
          && (ack.status == K.Executing ==> cloud[ack.id].slot == BadSlot || WasClaimed(h, ack.id))
          && (ack.status == K.Completed ==> ack.id in h.outcomes && h.outcomes[ack.id] == Outcome(Q.Completed, Some(ack.token)))
          && (ack.status == K.Failed ==>
                cloud[ack.id].slot == BadSlot || (ack.id in h.outcomes && h.outcomes[ack.id].status == Q.Failed)))
    && (!cloud[ack.id].command.Hardware() && ack.status == K.Acked ==> cloud[ack.id].outcome == Some(K.Completed))
  }

  ghost predicate OfferTrue(cloud: map<CommandId, K.Row>, o: Offer) {
    && o.id in cloud && cloud[o.id].command == o.command && cloud[o.id].slot == o.slot
    && o.expiresAt == Some(cloud[o.id].expiresAt)
  }

  ghost predicate ReplyTrue(cloud: map<CommandId, K.Row>, ack: K.Ack, reply: K.Reply) {
    && ack.id in cloud
    && (!cloud[ack.id].command.Hardware() && ack.status == K.Completed && reply.Ok() ==>
          cloud[ack.id].outcome == Some(K.Completed))
  }

  ghost predicate NetOk(cloud: map<CommandId, K.Row>, net: Net, h: History) {
    && (forall ack | ack in net.acks :: AckTrue(cloud, h, ack))
    && (forall o | o in net.offers :: OfferTrue(cloud, o))
    && (forall ack, reply | (ack, reply) in net.replies :: ReplyTrue(cloud, ack, reply))
    && (forall req, id | req in net.requests && id in req.executed :: WasClaimed(h, id))
  }

  /** What a cloud row says about a hardware command is what happened on the Pi. */
  ghost predicate CloudAgrees(cloud: map<CommandId, K.Row>, h: History, id: CommandId)
    requires id in cloud
  {
    var row := cloud[id];
    && (row.command.Hardware() ==>
          && (row.status in {K.Executing, K.HardwareVerified} ==> row.slot == BadSlot || WasClaimed(h, id))
          && (row.outcome == Some(K.Completed) ==>
                id in h.outcomes && h.outcomes[id].status == Q.Completed)
          && (row.outcome == Some(K.Failed) ==>
                row.slot == BadSlot || (id in h.outcomes && h.outcomes[id].status == Q.Failed)))
    && (!row.command.Hardware() && row.status == K.Acked ==> row.outcome == Some(K.Completed))
  }

  ghost predicate PhaseOk(phase: Phase, q: Q.Queue) {
    match phase
    case Claimed(id) => id in q.rows ==> Q.Executed(q.rows[id])
    case Running(id) => id in q.rows ==> Q.Executed(q.rows[id])
    case Finishing(_, token) => token.Positive()
    case RecoverEnding(_, _, token, _) => token.Positive()
    case _ => true
  }

  ghost predicate Inv(s: State) {
    && R.TableOk(s.cloud, s.now)
    && QueueOk(s.now, s.cloud.rows, s.pi.queue, s.history)
    && ClaimsOk(s.now, s.cloud.rows, s.pi.queue, s.history)
    && OutcomesOk(s.history)
    && NetOk(s.cloud.rows, s.net, s.history)
    && (forall id | id in s.cloud.rows :: CloudAgrees(s.cloud.rows, s.history, id))
    && PhaseOk(s.pi.phase, s.pi.queue)
  }

  // ------------------------------------------------------------ durable updates

  /** The history grows: claims are appended, outcomes are added and never rewritten. */
  ghost predicate Grows(a: History, b: History) {
    && a.claims <= b.claims
    && forall id | id in a.outcomes :: id in b.outcomes && b.outcomes[id] == a.outcomes[id]
  }

  lemma GrowsKeepsClaimed(a: History, b: History)
    requires Grows(a, b)
    ensures forall id | WasClaimed(a, id) :: WasClaimed(b, id)
  {
    forall id | WasClaimed(a, id) ensures WasClaimed(b, id) {
      var k :| 0 <= k < |a.claims| && a.claims[k].id == id;
      assert b.claims[k].id == id;
    }
  }

  lemma GrowsKeepsNet(cloud: map<CommandId, K.Row>, net: Net, a: History, b: History)
    requires Grows(a, b) && NetOk(cloud, net, a)
    ensures NetOk(cloud, net, b)
  {
    GrowsKeepsClaimed(a, b);
    forall ack | ack in net.acks ensures AckTrue(cloud, b, ack) {
      assert AckTrue(cloud, a, ack);
    }
  }

  lemma GrowsKeepsCloud(cloud: map<CommandId, K.Row>, a: History, b: History)
    requires Grows(a, b) && forall id | id in cloud :: CloudAgrees(cloud, a, id)
    ensures forall id | id in cloud :: CloudAgrees(cloud, b, id)
  {
    GrowsKeepsClaimed(a, b);
    forall id | id in cloud ensures CloudAgrees(cloud, b, id) {
      assert CloudAgrees(cloud, a, id);
    }
  }

  /** A durable update_status by the controller: never back to DELIVERED or EXECUTING, and COMPLETED
    * only with a positive token. */
  lemma WriteKeeps(s: State, id: CommandId, status: Q.Status, token: Token, writable: bool, phase: Phase)
    requires Inv(s) && !phase.Claimed? && !phase.Running? && PhaseOk(phase, s.pi.queue)
    requires status in {Q.HardwareVerified, Q.UnknownAfterReboot, Q.Completed, Q.Failed}
    requires status == Q.Completed ==> token.Positive()
    ensures Inv(Write(s, id, status, token, writable, phase))
  {
    var t := Write(s, id, status, token, writable, phase);
    if writable && id in s.pi.queue.rows && Q.CanMove(s.pi.queue.rows[id].status, status) {
      WriteKeepsQueue(s, id, status, token, t);
      GrowsKeepsNet(s.cloud.rows, s.net, s.history, t.history);
      GrowsKeepsCloud(s.cloud.rows, s.history, t.history);
    }
  }

  /** The row an allowed update leaves, and what the history says of it. */
  lemma WrittenRow(now: int, cloud: map<CommandId, K.Row>, h: History, g: History, id: CommandId, row: Q.Row, status: Q.Status, token: Token)
    requires RowMirrors(now, cloud, id, row) && RowRecorded(h, id, row) && Q.CanMove(row.status, status)
    requires status in {Q.HardwareVerified, Q.UnknownAfterReboot, Q.Completed, Q.Failed}
    requires g == if status in {Q.Completed, Q.Failed} then h.(outcomes := h.outcomes[id := Outcome(status, Some(token))]) else h
    ensures var next := Q.Stamp(row, status, now).(status := status, verification := Some(token));
      RowMirrors(now, cloud, id, next) && RowRecorded(g, id, next)
  {
    assert WasClaimed(g, id) <==> WasClaimed(h, id);
  }

  lemma WriteKeepsQueue(s: State, id: CommandId, status: Q.Status, token: Token, t: State)
    requires QueueOk(s.now, s.cloud.rows, s.pi.queue, s.history) && OutcomesOk(s.history)
    requires id in s.pi.queue.rows && Q.CanMove(s.pi.queue.rows[id].status, status)
    requires status in {Q.HardwareVerified, Q.UnknownAfterReboot, Q.Completed, Q.Failed}
    requires status == Q.Completed ==> token.Positive()
    requires t == Write(s, id, status, token, true, t.pi.phase)
    ensures QueueOk(t.now, t.cloud.rows, t.pi.queue, t.history) && OutcomesOk(t.history)
    ensures Grows(s.history, t.history)
  {
    var row := s.pi.queue.rows[id];
    assert RowMirrors(s.now, s.cloud.rows, id, row) && RowRecorded(s.history, id, row);
    WrittenRow(s.now, s.cloud.rows, s.history, t.history, id, row, status, token);
    forall other ensures WasClaimed(s.history, other) <==> WasClaimed(t.history, other) {
    }
    forall other | other in t.pi.queue.rows && other != id
      ensures RowMirrors(t.now, t.cloud.rows, other, t.pi.queue.rows[other])
      ensures RowRecorded(t.history, other, t.pi.queue.rows[other])
    {
      assert RowMirrors(s.now, s.cloud.rows, other, s.pi.queue.rows[other]);
      assert RowRecorded(s.history, other, s.pi.queue.rows[other]);
    }
  }

  // ------------------------------------------------------------ time and cloud transactions

  lemma TickKeeps(s: State, elapsed: nat)
    requires Inv(s)
    ensures Inv(Apply(s, Tick(elapsed)))
  {
    forall id | id in s.pi.queue.rows ensures RowMirrors(s.now + elapsed, s.cloud.rows, id, s.pi.queue.rows[id]) {
      assert RowMirrors(s.now, s.cloud.rows, id, s.pi.queue.rows[id]);
    }
  }

  /** A cloud table that evolved keeps everything said about the Pi and the messages. */
  lemma EvolvingKeepsQueue(now: int, a: map<CommandId, K.Row>, b: map<CommandId, K.Row>, q: Q.Queue, h: History)
    requires R.TableEvolves(a, b) && QueueOk(now, a, q, h) && ClaimsOk(now, a, q, h)
    ensures QueueOk(now, b, q, h) && ClaimsOk(now, b, q, h)
  {
    forall id | id in q.rows ensures RowMirrors(now, b, id, q.rows[id]) {
      assert RowMirrors(now, a, id, q.rows[id]) && R.Evolves(a[id], b[id]);
    }
  }

  lemma EvolvingKeepsNet(a: map<CommandId, K.Row>, b: map<CommandId, K.Row>, net: Net, h: History)
    requires R.TableEvolves(a, b) && NetOk(a, net, h)
    ensures NetOk(b, net, h)
  {
    forall ack | ack in net.acks ensures AckTrue(b, h, ack) {
      assert AckTrue(a, h, ack) && R.Evolves(a[ack.id], b[ack.id]);
    }
    forall o | o in net.offers ensures OfferTrue(b, o) {
      assert OfferTrue(a, o) && R.Evolves(a[o.id], b[o.id]);
    }
    forall ack, reply | (ack, reply) in net.replies ensures ReplyTrue(b, ack, reply) {
      assert ReplyTrue(a, ack, reply) && R.Evolves(a[ack.id], b[ack.id]);
    }
  }

  lemma SyncRowAgrees(cloud: map<CommandId, K.Row>, h: History, id: CommandId, row: K.Row, executed: bool, lastSequence: nat, now: int)
    requires id in cloud && CloudAgrees(cloud, h, id)
    requires executed ==> WasClaimed(h, id)
    requires row == K.SyncRow(cloud[id], executed, lastSequence, now)
    ensures row.command == cloud[id].command && row.slot == cloud[id].slot
    ensures row.command.Hardware() && row.status in {K.Executing, K.HardwareVerified} ==> row.slot == BadSlot || WasClaimed(h, id)
    ensures row.outcome == cloud[id].outcome || row.outcome == Some(K.Expired)
    ensures row.status == K.Acked ==> cloud[id].status == K.Acked && row.outcome == cloud[id].outcome
  {
  }

  lemma SyncAgrees(s: State, req: K.SyncRequest, pick: Option<CommandId>, id: CommandId)
    requires Inv(s) && req in s.net.requests && id in s.cloud.rows
    requires K.PicksNext(K.SyncRows(s.cloud.rows, req, s.now), pick)
    ensures id in K.Sync(s.cloud, req, pick, s.now).rows
    ensures CloudAgrees(K.Sync(s.cloud, req, pick, s.now).rows, s.history, id)
  {
    var mid := K.SyncRows(s.cloud.rows, req, s.now);
    assert CloudAgrees(s.cloud.rows, s.history, id);
    SyncRowAgrees(s.cloud.rows, s.history, id, mid[id], id in req.executed, req.lastSequence, s.now);
    assert CloudAgrees(mid, s.history, id);
  }

  lemma AckAgrees(s: State, ack: K.Ack, id: CommandId)
    requires Inv(s) && ack in s.net.acks && id in s.cloud.rows
    ensures id in K.Acknowledge(s.cloud, ack).rows
    ensures CloudAgrees(K.Acknowledge(s.cloud, ack).rows, s.history, id)
  {
    assert CloudAgrees(s.cloud.rows, s.history, id);
    if K.Answer(s.cloud.rows, ack).Applied? {
      R.AckRows(s.cloud, ack);
      R.AckRowOk(s.cloud.rows, ack, s.now);
      assert AckTrue(s.cloud.rows, s.history, ack);
    }
  }

  /** 200 on a COMPLETED software ACK means the cloud has the command completed. */
  lemma ReplyAgrees(s: State, ack: K.Ack)
    requires Inv(s) && ack in s.net.acks
    ensures ReplyTrue(K.Acknowledge(s.cloud, ack).rows, ack, K.Answer(s.cloud.rows, ack))
  {
    assert AckTrue(s.cloud.rows, s.history, ack);
    assert CloudAgrees(s.cloud.rows, s.history, ack.id);
    assert R.RowOk(s.cloud.rows[ack.id], s.now);
    if K.Answer(s.cloud.rows, ack).Applied? {
      R.AckRows(s.cloud, ack);
    }
  }

  lemma CloudSwapKeeps(s: State, cloud: K.Cloud)
    requires Inv(s) && R.TableOk(cloud, s.now) && R.TableEvolves(s.cloud.rows, cloud.rows)
    requires forall id | id in cloud.rows :: CloudAgrees(cloud.rows, s.history, id)
    ensures Inv(s.(cloud := cloud))
  {
    EvolvingKeepsQueue(s.now, s.cloud.rows, cloud.rows, s.pi.queue, s.history);
    EvolvingKeepsNet(s.cloud.rows, cloud.rows, s.net, s.history);
  }

  lemma OfferedKeeps(s: State, o: Offer)
    requires Inv(s) && OfferTrue(s.cloud.rows, o)
    ensures Inv(s.(net := s.net.(offers := s.net.offers + {o})))
  {
  }

  lemma RepliedKeeps(s: State, ack: K.Ack, reply: K.Reply)
    requires Inv(s) && ReplyTrue(s.cloud.rows, ack, reply)
    ensures Inv(s.(net := s.net.(replies := s.net.replies + {(ack, reply)})))
  {
  }

  lemma CloudStepKeeps(s: State, c: R.Step)
    requires Inv(s) && Enabled(s, CloudStep(c))
    ensures Inv(CloudStepped(s, c))
  {
    var cloud := R.Apply(s.cloud, c, s.now);
    R.StepKeeps(s.cloud, c, s.now, s.now);
    forall id | id in cloud.rows ensures CloudAgrees(cloud.rows, s.history, id) {
      if id in s.cloud.rows {
        CloudRowKeeps(s, c, id);
      } else {
        NewRowAgrees(s, c, id);
      }
    }
    CloudSwapKeeps(s, cloud);
    CloudMessageKeeps(s, c, cloud);
  }

  lemma CloudMessageKeeps(s: State, c: R.Step, cloud: K.Cloud)
    requires Inv(s) && Enabled(s, CloudStep(c)) && cloud == R.Apply(s.cloud, c, s.now) && Inv(s.(cloud := cloud))
    ensures Inv(CloudStepped(s, c))
  {
    match c {
      case SyncStep(_, Some(id)) =>
        var row := cloud.rows[id];
        OfferedKeeps(s.(cloud := cloud), Offer(id, row.command, row.slot, row.param, row.sequence, row.attempt, Some(row.expiresAt)));
      case AckStep(ack) =>
        ReplyAgrees(s, ack);
        RepliedKeeps(s.(cloud := cloud), ack, K.Answer(s.cloud.rows, ack));
      case _ =>
    }
  }

  lemma CloudRowKeeps(s: State, c: R.Step, id: CommandId)
    requires Inv(s) && Enabled(s, CloudStep(c)) && id in s.cloud.rows
    ensures id in R.Apply(s.cloud, c, s.now).rows
    ensures CloudAgrees(R.Apply(s.cloud, c, s.now).rows, s.history, id)
  {
    assert CloudAgrees(s.cloud.rows, s.history, id);
    match c {
      case QueueStep(_, _, _, _) =>
      case BatchStep(wings, days, ids, batch) => R.QueueWingsRows(s.cloud, wings, days, ids, batch, s.now);
      case SyncStep(req, pick) => SyncAgrees(s, req, pick, id);
      case AckStep(ack) => AckAgrees(s, ack, id);
    }
  }

  lemma NewRowAgrees(s: State, c: R.Step, id: CommandId)
    requires Enabled(s, CloudStep(c)) && id !in s.cloud.rows && id in R.Apply(s.cloud, c, s.now).rows
    ensures CloudAgrees(R.Apply(s.cloud, c, s.now).rows, s.history, id)
  {
    match c {
      case QueueStep(_, _, _, _) =>
      case BatchStep(wings, days, ids, batch) =>
        R.QueueWingsRows(s.cloud, wings, days, ids, batch, s.now);
        var k :| 0 <= k < |ids| && ids[k] == id;
      case SyncStep(req, pick) =>
      case AckStep(ack) =>
        if K.Answer(s.cloud.rows, ack).Applied? {
          R.AckRows(s.cloud, ack);
        }
    }
  }

  // ------------------------------------------------------------ Pi steps

  lemma SentKeeps(s: State, ack: K.Ack)
    requires Inv(s) && AckTrue(s.cloud.rows, s.history, ack)
    ensures Inv(Sent(s, ack))
  {
  }

  lemma SendSyncKeeps(s: State, report: seq<CommandId>)
    requires Inv(s) && Enabled(s, SendSync(report))
    ensures Inv(Apply(s, SendSync(report)))
  {
    forall id | id in report ensures WasClaimed(s.history, id) {
      var k :| 0 <= k < |report| && report[k] == id;
      assert id in Q.ExecutedIds(s.pi.queue.rows);
      assert RowRecorded(s.history, id, s.pi.queue.rows[id]);
    }
  }

  lemma InsertKeeps(s: State, id: CommandId, row: Q.Row)
    requires Inv(s) && s.pi.phase.Idle? && id !in s.pi.queue.rows && !WasClaimed(s.history, id)
    requires RowMirrors(s.now, s.cloud.rows, id, row) && row.status == Q.Delivered
    ensures Inv(s.(pi := s.pi.(queue := s.pi.queue.(rows := s.pi.queue.rows[id := row]))))
  {
    var rows := s.pi.queue.rows[id := row];
    assert id !in s.history.outcomes;
    forall other | other in rows
      ensures RowMirrors(s.now, s.cloud.rows, other, rows[other]) && RowRecorded(s.history, other, rows[other])
    {
      if other != id {
        assert RowMirrors(s.now, s.cloud.rows, other, s.pi.queue.rows[other]);
        assert RowRecorded(s.history, other, s.pi.queue.rows[other]);
      }
    }
  }

  /** A command that was claimed and cleaned up is past its cloud expiry, so it is not taken in again. */
  lemma AcceptKeeps(s: State, o: Offer, writable: bool)
    requires Inv(s) && Enabled(s, Accept(o, writable))
    ensures Inv(Accepted(s, o, writable))
  {
    assert OfferTrue(s.cloud.rows, o);
    var expiry := LocalExpiry(o.expiresAt, s.now);
    if o.slot == BadSlot {
      var executing, failed := K.Ack(o.id, K.Executing, NotAvailable, None), K.Ack(o.id, K.Failed, NotAvailable, None);
      SentKeeps(s, executing);
      SentKeeps(Sent(s, executing), failed);
    } else if expiry.None? {
      SentKeeps(s, K.Ack(o.id, K.Expired, NotAvailable, Some(o.attempt)));
    } else if writable && o.id !in s.pi.queue.rows {
      assert R.RowOk(s.cloud.rows[o.id], s.now);
      InsertKeeps(s, o.id, Q.NewRow(o.slot, Normalize(o.command).value, s.now, expiry, Some(o.sequence), Some(o.attempt), s.now));
    }
  }

  lemma ExpireOverdueKeeps(now: int, cloud: map<CommandId, K.Row>, q: Q.Queue, h: History)
    requires QueueOk(now, cloud, q, h) && ClaimsOk(now, cloud, q, h)
    ensures QueueOk(now, cloud, q.(rows := Q.ExpireOverdue(q.rows, now)), h)
    ensures ClaimsOk(now, cloud, q.(rows := Q.ExpireOverdue(q.rows, now)), h)
  {
    var rows := Q.ExpireOverdue(q.rows, now);
    forall id | id in rows ensures RowMirrors(now, cloud, id, rows[id]) && RowRecorded(h, id, rows[id]) {
      assert RowMirrors(now, cloud, id, q.rows[id]) && RowRecorded(h, id, q.rows[id]);
    }
  }

  lemma ClaimKeepsQueue(now: int, cloud: map<CommandId, K.Row>, q: Q.Queue, h: History, id: CommandId, g: History, after: Q.Queue)
    requires QueueOk(now, cloud, q, h) && ClaimsOk(now, cloud, q, h) && OutcomesOk(h)
    requires id in q.rows && Q.Claimable(q.rows[id], now)
    requires g == h.(claims := h.claims + [Claim(id, now)])
    requires after.rows == q.rows[id := q.rows[id].(status := Q.Executing, startedAt := Some(now), attempts := q.rows[id].attempts + 1)]
    ensures QueueOk(now, cloud, after, g) && ClaimsOk(now, cloud, after, g) && OutcomesOk(g)
  {
    assert RowMirrors(now, cloud, id, q.rows[id]) && RowRecorded(h, id, q.rows[id]);
    assert g.claims[|h.claims|].id == id;
    forall other ensures WasClaimed(g, other) <==> WasClaimed(h, other) || other == id {
      if WasClaimed(h, other) {
        var k :| 0 <= k < |h.claims| && h.claims[k].id == other;
        assert g.claims[k].id == other;
      }
    }
    forall other | other in after.rows
      ensures RowMirrors(now, cloud, other, after.rows[other]) && RowRecorded(g, other, after.rows[other])
    {
      assert RowMirrors(now, cloud, other, q.rows[other]) && RowRecorded(h, other, q.rows[other]);
    }
  }

  lemma ExpireKeeps(s: State, t: State)
    requires Inv(s) && t == s.(pi := t.pi)
    requires t.pi.queue == s.pi.queue.(rows := Q.ExpireOverdue(s.pi.queue.rows, s.now))
    requires t.pi.phase == Idle
    ensures Inv(t)
  {
    ExpireOverdueKeeps(s.now, s.cloud.rows, s.pi.queue, s.history);
  }

  /** The claim itself, after the overdue rows were expired. */
  lemma ClaimedKeeps(s: State, t: State, id: CommandId)
    requires Inv(s) && id in s.pi.queue.rows && Q.Claimable(s.pi.queue.rows[id], s.now)
    requires t == s.(pi := t.pi, history := s.history.(claims := s.history.claims + [Claim(id, s.now)]))
    requires t.pi.queue.rows == s.pi.queue.rows[id :=
      s.pi.queue.rows[id].(status := Q.Executing, startedAt := Some(s.now), attempts := s.pi.queue.rows[id].attempts + 1)]
    requires t.pi.phase == Claimed(id)
    ensures Inv(t)
  {
    ClaimKeepsQueue(s.now, s.cloud.rows, s.pi.queue, s.history, id, t.history, t.pi.queue);
    GrowsKeepsNet(s.cloud.rows, s.net, s.history, t.history);
    GrowsKeepsCloud(s.cloud.rows, s.history, t.history);
  }

  lemma ClaimShape(q: Q.Queue, id: CommandId, now: int)
    requires Q.IsNextClaim(q.rows, now, id)
    ensures var rows := Q.ExpireOverdue(q.rows, now);
      && id in rows && Q.Claimable(rows[id], now)
      && Q.Claim(q, Some(id), now).rows ==
         rows[id := rows[id].(status := Q.Executing, startedAt := Some(now), attempts := rows[id].attempts + 1)]
  {
  }

  lemma ClaimKeeps(s: State, claimed: Option<CommandId>)
    requires Inv(s) && Enabled(s, ClaimNext(claimed, true))
    ensures Inv(Apply(s, ClaimNext(claimed, true)))
  {
    if claimed.None? {
      ExpireKeeps(s, Apply(s, ClaimNext(claimed, true)));
    } else {
      SomeClaimKeeps(s, claimed.value, Apply(s, ClaimNext(claimed, true)));
    }
  }

  lemma SomeClaimKeeps(s: State, id: CommandId, t: State)
    requires Inv(s) && Q.IsNextClaim(s.pi.queue.rows, s.now, id)
    requires t == s.(pi := t.pi, history := s.history.(claims := s.history.claims + [Claim(id, s.now)]))
    requires t.pi.queue == Q.Claim(s.pi.queue, Some(id), s.now) && t.pi.phase == Claimed(id)
    ensures Inv(t)
  {
    ClaimShape(s.pi.queue, id, s.now);
    var mid := s.(pi := s.pi.(queue := s.pi.queue.(rows := Q.ExpireOverdue(s.pi.queue.rows, s.now)), phase := Idle));
    ExpireKeeps(s, mid);
    ClaimedKeeps(mid, t, id);
  }

  lemma TerminalAckTrue(s: State, id: CommandId)
    requires Inv(s) && id in s.pi.queue.rows && Q.Unacked(s.pi.queue.rows[id])
    ensures AckTrue(s.cloud.rows, s.history, TerminalAck(id, s.pi.queue.rows[id]))
    ensures AckTrue(s.cloud.rows, s.history, AckedAck(id, s.pi.queue.rows[id]))
  {
    assert RowMirrors(s.now, s.cloud.rows, id, s.pi.queue.rows[id]) && RowRecorded(s.history, id, s.pi.queue.rows[id]);
  }

  lemma MarkKeeps(s: State, id: CommandId, ack: Q.AckStatus)
    requires Inv(s) && id in s.pi.queue.rows
    ensures Inv(s.(pi := s.pi.(queue := s.pi.queue.(rows :=
      s.pi.queue.rows[id := s.pi.queue.rows[id].(ack := ack, ackedAt := Some(s.now))]))))
  {
    var rows := s.pi.queue.rows[id := s.pi.queue.rows[id].(ack := ack, ackedAt := Some(s.now))];
    forall other | other in rows
      ensures RowMirrors(s.now, s.cloud.rows, other, rows[other]) && RowRecorded(s.history, other, rows[other])
    {
      assert RowMirrors(s.now, s.cloud.rows, other, s.pi.queue.rows[other]);
      assert RowRecorded(s.history, other, s.pi.queue.rows[other]);
    }
  }

  /** A row old enough to be deleted belongs to a command that expired long ago. */
  lemma DisposableIsExpired(s: State, id: CommandId)
    requires Inv(s) && Q.Disposable(s.pi.queue.rows, id, s.now)
    ensures id in s.pi.queue.rows && id in s.cloud.rows && s.cloud.rows[id].expiresAt <= s.now
  {
    assert RowMirrors(s.now, s.cloud.rows, id, s.pi.queue.rows[id]) && R.RowOk(s.cloud.rows[id], s.now);
  }

  lemma VictimsExpired(s: State, victims: seq<CommandId>)
    requires Inv(s) && Enabled(s, Cleanup(victims))
    ensures forall id | id in Listed(victims) :: id in s.cloud.rows && s.cloud.rows[id].expiresAt <= s.now
  {
    forall id | id in Listed(victims) ensures id in s.cloud.rows && s.cloud.rows[id].expiresAt <= s.now {
      var k :| 0 <= k < |victims| && victims[k] == id;
      assert id in Q.DisposableIds(s.pi.queue.rows, s.now);
      DisposableIsExpired(s, id);
    }
  }

  lemma FewerRowsKeep(now: int, cloud: map<CommandId, K.Row>, q: Q.Queue, h: History, gone: set<CommandId>)
    requires QueueOk(now, cloud, q, h) && ClaimsOk(now, cloud, q, h)
    requires forall id | id in gone :: id in cloud && cloud[id].expiresAt <= now
    ensures QueueOk(now, cloud, q.(rows := q.rows - gone), h) && ClaimsOk(now, cloud, q.(rows := q.rows - gone), h)
  {
    forall id | id in q.rows - gone
      ensures RowMirrors(now, cloud, id, (q.rows - gone)[id]) && RowRecorded(h, id, (q.rows - gone)[id])
    {
      assert RowMirrors(now, cloud, id, q.rows[id]) && RowRecorded(h, id, q.rows[id]);
    }
  }

  lemma CleanupKeeps(s: State, victims: seq<CommandId>)
    requires Inv(s) && Enabled(s, Cleanup(victims))
    ensures Inv(Apply(s, Cleanup(victims)))
  {
    VictimsExpired(s, victims);
    FewerRowsKeep(s.now, s.cloud.rows, s.pi.queue, s.history, Listed(victims));
  }

  lemma RecoverKeeps(s: State, writable: bool)
    requires Inv(s) && Enabled(s, Recover(writable))
    ensures Inv(Apply(s, Recover(writable)))
  {
    var Recovering(active, todo) := s.pi.phase;
    if todo != [] {
      var row := s.pi.queue.rows[todo[0]];
      var token := RecoveryToken(row.action);
      if !RecoveredBy(row, active) {
        WriteKeeps(s, todo[0], Q.UnknownAfterReboot, Unknown, writable, Recovering(active, todo[1..]));
      } else if row.status != Q.HardwareVerified {
        WriteKeeps(s, todo[0], Q.HardwareVerified, token, writable, RecoverEnding(active, todo[0], token, todo[1..]));
      }
    }
  }

  lemma SoftwareKeeps(s: State, step: Step)
    requires Inv(s) && Enabled(s, step) && (step.SoftExecuting? || step.SoftTerminal? || step.SoftAcked?)
    ensures Inv(Apply(s, step))
  {
    assert OfferTrue(s.cloud.rows, step.offer);
    if step.SoftAcked? {
      var reply :| (SoftCompletedAck(step.offer), reply) in s.net.replies && reply.Ok();
      assert ReplyTrue(s.cloud.rows, SoftCompletedAck(step.offer), reply);
    }
  }

  lemma StartKeeps(s: State)
    requires Inv(s) && Enabled(s, Start)
    ensures Inv(Apply(s, Start))
  {
    var id := s.pi.phase.id;
    assert RowMirrors(s.now, s.cloud.rows, id, s.pi.queue.rows[id]) && RowRecorded(s.history, id, s.pi.queue.rows[id]);
    SentKeeps(s, K.Ack(id, K.Executing, Token.Pending, s.pi.queue.rows[id].cloudAttempt));
  }

  lemma PhaseKeeps(s: State, step: Step)
    requires Inv(s) && Enabled(s, step) && (step.SaveFails? || step.RaiseFault? || step.Crash? || step.Boot?)
    ensures Inv(Apply(s, step))
  {
  }

  lemma DurableKeeps(s: State, step: Step)
    requires Inv(s) && Enabled(s, step)
    requires step.Refuse? || step.Succeed? || step.Finish? || step.RecoverEnd?
    ensures Inv(Apply(s, step))
  {
    var phase := s.pi.phase;
    match step {
      case Refuse(token, writable) => WriteKeeps(s, phase.id, Q.Failed, token, writable, Idle);
      case Succeed(token, writable) =>
        WriteKeeps(s, phase.id, Q.HardwareVerified, token, writable, Finishing(phase.id, token));
      case Finish(writable) => WriteKeeps(s, phase.id, Q.Completed, phase.token, writable, Idle);
      case RecoverEnd(writable) =>
        WriteKeeps(s, phase.id, Q.Completed, phase.token, writable, Recovering(phase.active, phase.todo));
    }
  }

  lemma FailKeeps(s: State, token: Token, fault: bool, writable: bool)
    requires Inv(s) && Enabled(s, Fail(token, fault, writable))
    ensures Inv(Apply(s, Fail(token, fault, writable)))
  {
    WriteKeeps(s, s.pi.phase.id, Q.Failed, token, writable, Idle);
  }

  lemma SendKeeps(s: State, step: Step)
    requires Inv(s) && Enabled(s, step) && (step.SendTerminal? || step.SendAcked?)
    ensures Inv(Apply(s, step))
  {
    TerminalAckTrue(s, step.id);
    match step {
      case SendTerminal(id) => SentKeeps(s, TerminalAck(id, s.pi.queue.rows[id]));
      case SendAcked(id) => SentKeeps(s, AckedAck(id, s.pi.queue.rows[id]));
    }
  }

  lemma AnsweredKeeps(s: State, step: Step)
    requires Inv(s) && Enabled(s, step) && (step.Confirm? || step.Reject?)
    ensures Inv(Apply(s, step))
  {
    match step {
      case Confirm(id, _) => MarkKeeps(s, id, Q.AckAcked);
      case Reject(id, _) => MarkKeeps(s, id, Q.AckRejected);
    }
  }

  lemma WorldKeeps(s: State, step: Step)
    requires Inv(s) && Enabled(s, step)
    requires step.Tick? || step.CloudStep? || step.SendSync? || step.Accept? || step.ClaimNext? || step.Cleanup?
    ensures Inv(Apply(s, step))
  {
    match step {
      case Tick(elapsed) => TickKeeps(s, elapsed);
      case CloudStep(c) => CloudStepKeeps(s, c);
      case SendSync(report) => SendSyncKeeps(s, report);
      case Accept(o, writable) => AcceptKeeps(s, o, writable);
      case ClaimNext(claimed, writable) =>
        if writable {
          ClaimKeeps(s, claimed);
        }
      case Cleanup(victims) => CleanupKeeps(s, victims);
    }
  }

  /** Every step of the protocol keeps the invariant. */
  lemma StepKeeps(s: State, step: Step)
    requires Inv(s) && Enabled(s, step)
    ensures Inv(Apply(s, step))
  {
    if step.Tick? || step.CloudStep? || step.SendSync? || step.Accept? || step.ClaimNext? || step.Cleanup? {
      WorldKeeps(s, step);
    } else if step.SoftExecuting? || step.SoftTerminal? || step.SoftAcked? {
      SoftwareKeeps(s, step);
    } else if step.SendTerminal? || step.SendAcked? {
      SendKeeps(s, step);
    } else if step.Confirm? || step.Reject? {
      AnsweredKeeps(s, step);
    } else if step.SaveFails? || step.RaiseFault? || step.Crash? || step.Boot? {
      PhaseKeeps(s, step);
    } else if step.Start? {
      StartKeeps(s);
    } else if step.Fail? {
      FailKeeps(s, step.token, step.fault, step.writable);
    } else if step.Recover? {
      RecoverKeeps(s, step.writable);
    } else {
      DurableKeeps(s, step);
    }
  }

  lemma {:induction false} RunKeeps(trace: seq<State>, steps: seq<Step>, k: nat)
    requires IsRun(trace, steps) && k <= |steps|
    ensures Inv(trace[k])
  {
    if k > 0 {
      RunKeeps(trace, steps, k - 1);
      StepKeeps(trace[k - 1], steps[k - 1]);
    }
  }

  // ------------------------------------------------------------ the theorems

  /** claim_next calls of the run that returned a command, with the time of each. */
  function ClaimsIn(trace: seq<State>, steps: seq<Step>): seq<Claim>
    requires |trace| == |steps| + 1
  {
    if steps == [] then []
    else
      var n := |steps| - 1;
      var before := ClaimsIn(trace[..n + 1], steps[..n]);
      match steps[n]
      case ClaimNext(Some(id), true) => before + [Claim(id, trace[n].now)]
      case _ => before
  }

  lemma StepClaims(s: State, step: Step)
    requires Enabled(s, step)
    ensures Apply(s, step).history.claims ==
      match step
      case ClaimNext(Some(id), true) => s.history.claims + [Claim(id, s.now)]
      case _ => s.history.claims
  {
  }

  lemma {:induction false} HistoryIsClaims(trace: seq<State>, steps: seq<Step>, k: nat)
    requires IsRun(trace, steps) && k <= |steps|
    ensures trace[k].history.claims == ClaimsIn(trace[..k + 1], steps[..k])
  {
    if k > 0 {
      HistoryIsClaims(trace, steps, k - 1);
      StepClaims(trace[k - 1], steps[k - 1]);
      assert steps[..k][..k - 1] == steps[..k - 1];
      assert trace[..k + 1][..k] == trace[..k];
    }
  }

  /** Whatever is lost, duplicated, reclaimed, cleaned up or cut off by a crash: claim_next returns
    * each hardware command at most once, and never at or after its cloud expiry. */
  lemma {:induction false} ClaimedOnceBeforeExpiry(trace: seq<State>, steps: seq<Step>)
    requires IsRun(trace, steps)
    ensures var claims, rows := ClaimsIn(trace, steps), trace[|steps|].cloud.rows;
      && (forall i, k | 0 <= i < k < |claims| :: claims[i].id != claims[k].id)
      && (forall k | 0 <= k < |claims| ::
            claims[k].id in rows && rows[claims[k].id].command.Hardware() && claims[k].at < rows[claims[k].id].expiresAt)
  {
    RunKeeps(trace, steps, |steps|);
    HistoryIsClaims(trace, steps, |steps|);
    assert trace[..|steps| + 1] == trace && steps[..|steps|] == steps;
  }

  lemma OutcomeAddedGrows(h: History, id: CommandId, outcome: Outcome)
    requires id !in h.outcomes
    ensures Grows(h, h.(outcomes := h.outcomes[id := outcome]))
  {
  }

  lemma GrowsReflexive(h: History)
    ensures Grows(h, h)
  {
  }

  lemma WriteGrows(s: State, id: CommandId, status: Q.Status, token: Token, writable: bool, phase: Phase)
    requires Inv(s)
    ensures Grows(s.history, Write(s, id, status, token, writable, phase).history)
  {
    GrowsReflexive(s.history);
    if id in s.pi.queue.rows && Q.CanMove(s.pi.queue.rows[id].status, status) && status in {Q.Completed, Q.Failed} {
      assert RowRecorded(s.history, id, s.pi.queue.rows[id]);
      OutcomeAddedGrows(s.history, id, Outcome(status, Some(token)));
    }
  }

  /** The steps that are not a durable update leave the outcomes alone. */
  lemma OtherStepsGrow(s: State, step: Step)
    requires Enabled(s, step)
    requires !step.Refuse? && !step.Succeed? && !step.Finish? && !step.Fail? && !step.Recover? && !step.RecoverEnd?
    ensures Grows(s.history, Apply(s, step).history)
  {
  }

  lemma RecoverGrows(s: State, writable: bool)
    requires Inv(s) && Enabled(s, Recover(writable))
    ensures Grows(s.history, Recovered(s, writable).history)
  {
    var Recovering(active, todo) := s.pi.phase;
    if todo != [] {
      var token := RecoveryToken(s.pi.queue.rows[todo[0]].action);
      WriteGrows(s, todo[0], Q.UnknownAfterReboot, Unknown, writable, Recovering(active, todo[1..]));
      WriteGrows(s, todo[0], Q.HardwareVerified, token, writable, RecoverEnding(active, todo[0], token, todo[1..]));
    }
  }

  lemma RecoverEndGrows(s: State, writable: bool)
    requires Inv(s) && Enabled(s, RecoverEnd(writable))
    ensures Grows(s.history, Apply(s, RecoverEnd(writable)).history)
  {
    WriteGrows(s, s.pi.phase.id, Q.Completed, s.pi.phase.token, writable, Recovering(s.pi.phase.active, s.pi.phase.todo));
  }

  lemma ExecutionGrows(s: State, step: Step)
    requires Inv(s) && Enabled(s, step) && (step.Refuse? || step.Succeed? || step.Finish? || step.Fail?)
    ensures Grows(s.history, Apply(s, step).history)
  {
    var id := s.pi.phase.id;
    match step {
      case Refuse(token, writable) => WriteGrows(s, id, Q.Failed, token, writable, Idle);
      case Succeed(token, writable) => WriteGrows(s, id, Q.HardwareVerified, token, writable, Finishing(id, token));
      case Finish(writable) => WriteGrows(s, id, Q.Completed, s.pi.phase.token, writable, Idle);
      case Fail(token, _, writable) => WriteGrows(s, id, Q.Failed, token, writable, Idle);
    }
  }

  /** The recorded outcome is the first and only one: no step rewrites it. */
  lemma StepGrows(s: State, step: Step)
    requires Inv(s) && Enabled(s, step)
    ensures Grows(s.history, Apply(s, step).history)
  {
    if step.Refuse? || step.Succeed? || step.Finish? || step.Fail? {
      ExecutionGrows(s, step);
    } else if step.Recover? {
      RecoverGrows(s, step.writable);
    } else if step.RecoverEnd? {
      RecoverEndGrows(s, step.writable);
    } else {
      OtherStepsGrow(s, step);
    }
  }

  lemma RunStepGrows(trace: seq<State>, steps: seq<Step>, k: nat)
    requires IsRun(trace, steps) && k < |steps|
    ensures Grows(trace[k].history, trace[k + 1].history)
  {
    RunKeeps(trace, steps, k);
    StepGrows(trace[k], steps[k]);
  }

  lemma {:induction false} GrowsAlong(histories: seq<History>, i: nat, k: nat)
    requires i <= k < |histories|
    requires forall j | i <= j < k :: Grows(histories[j], histories[j + 1])
    ensures Grows(histories[i], histories[k])
    decreases k - i
  {
    if i < k {
      GrowsAlong(histories, i, k - 1);
      assert Grows(histories[k - 1], histories[k]);
    }
  }

  lemma OutcomesAreFinal(trace: seq<State>, steps: seq<Step>, i: nat, k: nat)
    requires IsRun(trace, steps) && i <= k <= |steps|
    ensures Grows(trace[i].history, trace[k].history)
  {
    var histories := seq(|trace|, j requires 0 <= j < |trace| => trace[j].history);
    forall j | i <= j < k ensures Grows(histories[j], histories[j + 1]) {
      RunStepGrows(trace, steps, j);
    }
    GrowsAlong(histories, i, k);
  }

  /** The Pi's database holds the command with that status and token. */
  predicate Durable(s: State, id: CommandId, outcome: Outcome) {
    id in s.pi.queue.rows && Outcome(s.pi.queue.rows[id].status, s.pi.queue.rows[id].verification) == outcome
  }

  lemma StepAddsDurable(s: State, step: Step, id: CommandId)
    requires Enabled(s, step) && id !in s.history.outcomes && id in Apply(s, step).history.outcomes
    ensures id in Apply(s, step).pi.queue.rows
  {
  }

  /** An outcome in the history was in the Pi's database at some point of the run. */
  lemma {:induction false} OutcomeWasDurable(trace: seq<State>, steps: seq<Step>, k: nat, id: CommandId) returns (j: nat)
    requires IsRun(trace, steps) && k <= |steps| && id in trace[k].history.outcomes
    ensures j <= k && Durable(trace[j], id, trace[k].history.outcomes[id])
  {
    if id in trace[k - 1].history.outcomes {
      j := OutcomeWasDurable(trace, steps, k - 1, id);
      RunKeeps(trace, steps, k - 1);
      StepGrows(trace[k - 1], steps[k - 1]);
    } else {
      j := k;
      StepAddsDurable(trace[k - 1], steps[k - 1], id);
      RunKeeps(trace, steps, k);
      assert RowRecorded(trace[k].history, id, trace[k].pi.queue.rows[id]);
    }
  }

  /** The Pi's row for the command was durably `status` at some point of the run so far. */
  ghost predicate Became(trace: seq<State>, k: nat, id: CommandId, status: Q.Status)
    requires k < |trace|
  {
    exists j | 0 <= j <= k :: id in trace[j].pi.queue.rows && trace[j].pi.queue.rows[id].status == status
  }

  /** ... COMPLETED, and with a positive verification token. */
  ghost predicate BecameVerified(trace: seq<State>, k: nat, id: CommandId)
    requires k < |trace|
  {
    exists j | 0 <= j <= k ::
      && id in trace[j].pi.queue.rows && trace[j].pi.queue.rows[id].status == Q.Completed
      && trace[j].pi.queue.rows[id].verification.Some? && trace[j].pi.queue.rows[id].verification.value.Positive()
  }

  /** A Pi row that was COMPLETED at one point is never FAILED at another. */
  lemma OneOutcome(trace: seq<State>, steps: seq<Step>, k: nat, id: CommandId)
    requires IsRun(trace, steps) && k <= |steps|
    ensures !(Became(trace, k, id, Q.Completed) && Became(trace, k, id, Q.Failed))
  {
    if Became(trace, k, id, Q.Completed) && Became(trace, k, id, Q.Failed) {
      var i :| 0 <= i <= k && id in trace[i].pi.queue.rows && trace[i].pi.queue.rows[id].status == Q.Completed;
      var j :| 0 <= j <= k && id in trace[j].pi.queue.rows && trace[j].pi.queue.rows[id].status == Q.Failed;
      RunKeeps(trace, steps, i);
      RunKeeps(trace, steps, j);
      assert RowRecorded(trace[i].history, id, trace[i].pi.queue.rows[id]);
      assert RowRecorded(trace[j].history, id, trace[j].pi.queue.rows[id]);
      OutcomesAreFinal(trace, steps, i, k);
      OutcomesAreFinal(trace, steps, j, k);
    }
  }

  /** Terminal agreement. The cloud has a hardware command completed (or acked after completed) only if
    * the Pi's durable row became COMPLETED with positive verification, and failed only if it became
    * FAILED (or named a slot no wing has, so the Pi never took it in). So the cloud never says
    * completed where the Pi said FAILED, nor failed where the Pi said COMPLETED. */
  lemma TerminalAgreement(trace: seq<State>, steps: seq<Step>, k: nat, id: CommandId)
    requires IsRun(trace, steps) && k <= |steps|
    requires id in trace[k].cloud.rows && trace[k].cloud.rows[id].command.Hardware()
    ensures trace[k].cloud.rows[id].outcome == Some(K.Completed) ==>
      BecameVerified(trace, k, id) && !Became(trace, k, id, Q.Failed)
    ensures trace[k].cloud.rows[id].outcome == Some(K.Failed) ==>
      && (Became(trace, k, id, Q.Failed) || trace[k].cloud.rows[id].slot == BadSlot)
      && !Became(trace, k, id, Q.Completed)
  {
    RunKeeps(trace, steps, k);
    var s := trace[k];
    assert CloudAgrees(s.cloud.rows, s.history, id);
    OneOutcome(trace, steps, k, id);
    if id in s.history.outcomes {
      var j := OutcomeWasDurable(trace, steps, k, id);
      assert WasClaimed(s.history, id);
    } else {
      NeverRecorded(trace, steps, k, id);
    }
  }

  lemma NeverRecorded(trace: seq<State>, steps: seq<Step>, k: nat, id: CommandId)
    requires IsRun(trace, steps) && k <= |steps| && id !in trace[k].history.outcomes
    ensures !Became(trace, k, id, Q.Completed) && !Became(trace, k, id, Q.Failed)
  {
    forall j | 0 <= j <= k && id in trace[j].pi.queue.rows
      ensures trace[j].pi.queue.rows[id].status !in {Q.Completed, Q.Failed}
    {
      RunKeeps(trace, steps, j);
      assert RowRecorded(trace[j].history, id, trace[j].pi.queue.rows[id]);
      OutcomesAreFinal(trace, steps, j, k);
    }
  }

  /** An acknowledged software command is one the Pi completed: the Pi sends ACKED only after its
    * COMPLETED was answered with 200. */
  lemma AckedSoftwareWasCompleted(trace: seq<State>, steps: seq<Step>, k: nat, id: CommandId)
    requires IsRun(trace, steps) && k <= |steps|
    requires id in trace[k].cloud.rows && !trace[k].cloud.rows[id].command.Hardware()
    requires trace[k].cloud.rows[id].status == K.Acked
    ensures trace[k].cloud.rows[id].outcome == Some(K.Completed)
  {
    RunKeeps(trace, steps, k);
    assert CloudAgrees(trace[k].cloud.rows, trace[k].history, id);
  }
}
