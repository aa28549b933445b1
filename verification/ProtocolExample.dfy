/** One run of the protocol from end to end: an off_all is queued, delivered, claimed, carried out and
  * acknowledged. It shows that the runs the safety theorems speak of include complete ones. */
module ProtocolExample {
  import opened Vocabulary
  import opened CommandProtocol
  import opened EmsController
  import Q = OfflineQueue
  import K = CloudCommands
  import R = CloudRuns

  const QUIET: Net := Net({}, {}, {}, {})

  lemma Fresh() returns (s: State)
    ensures Reachable(s) && s.now == 0 && s.cloud == K.Cloud(map[], map[], 15, 0, 0)
    ensures s.pi == Pi(Q.Queue(map[], 0), Off, false) && s.net == QUIET && s.history == History([], map[])
  {
    s := State(0, K.Cloud(map[], map[], 15, 0, 0), Pi(Q.Queue(map[], 0), Off, false), QUIET, History([], map[]));
    var trace, steps: seq<Step> := [s], [];
    assert IsRun(trace, steps) && trace[|steps|] == s;
  }

  lemma Booted() returns (s: State)
    ensures Reachable(s) && s.now == 0 && s.cloud == K.Cloud(map[], map[], 15, 0, 0)
    ensures s.pi == Pi(Q.Queue(map[], 0), Idle, false) && s.net == QUIET && s.history == History([], map[])
  {
    s := Fresh();
    assert Q.InterruptedIds(s.pi.queue.rows) == {};
    ReachableStep(s, Boot(true, None, []));
    s := Apply(s, Boot(true, None, []));
    ReachableStep(s, Recover(true));
    s := Apply(s, Recover(true));
  }

  function QueuedRow(): K.Row {
    K.NewRow(OffAll, NoSlot, 0, 1, None, 0)
  }

  lemma Queued(id: CommandId) returns (s: State, req: K.SyncRequest)
    ensures Reachable(s) && s.now == 0 && s.cloud == K.Cloud(map[id := QueuedRow()], map[], 15, 0, 1)
    ensures s.pi == Pi(Q.Queue(map[], 0), Idle, false) && s.history == History([], map[])
    ensures req in s.net.requests && req == K.SyncRequest(0, {})
  {
    s := Booted();
    var queue := CloudStep(R.QueueStep(id, OffAll, NoSlot, 0));
    ReachableStep(s, queue);
    s := Apply(s, queue);
    assert Q.ExecutedIds(s.pi.queue.rows) == {};
    ReachableStep(s, SendSync([]));
    s := Apply(s, SendSync([]));
    req :| req in s.net.requests;
  }

  lemma Delivered(id: CommandId) returns (s: State, offer: Offer)
    ensures Reachable(s) && s.now == 0 && s.pi == Pi(Q.Queue(map[], 0), Idle, false) && s.history == History([], map[])
    ensures s.cloud.rows == map[id := K.Deliver(QueuedRow(), 0)]
    ensures offer in s.net.offers && offer == Offer(id, OffAll, NoSlot, 0, 1, 1, Some(300 * SECOND))
  {
    var req;
    s, req := Queued(id);
    var sync := CloudStep(R.SyncStep(req, Some(id)));
    assert K.SyncRows(s.cloud.rows, req, 0)[id] == s.cloud.rows[id];
    ReachableStep(s, sync);
    s := Apply(s, sync);
    offer := Offer(id, OffAll, NoSlot, 0, 1, 1, Some(300 * SECOND));
  }

  lemma Entered(id: CommandId) returns (s: State)
    ensures Reachable(s) && s.now == 0 && s.cloud.rows == map[id := K.Deliver(QueuedRow(), 0)]
    ensures s.pi.phase == Idle && !s.pi.fault && s.history.claims == []
    ensures s.pi.queue == Q.Queue(map[id := Q.NewRow(NoSlot, DeactivateAll, 0, Some(300 * SECOND), Some(1), Some(1), 0)], 0)
  {
    var offer;
    s, offer := Delivered(id);
    ReachableStep(s, Accept(offer, true));
    s := Apply(s, Accept(offer, true));
  }

  lemma TakenUp(id: CommandId) returns (s: State)
    ensures Reachable(s) && s.now == 0 && s.cloud.rows == map[id := K.Deliver(QueuedRow(), 0)]
    ensures s.pi.phase == Claimed(id) && !s.pi.fault && s.history.claims == [Claim(id, 0)]
    ensures s.pi.queue.rows.Keys == {id} && s.pi.queue.rows[id].status == Q.Executing
    ensures s.pi.queue.rows[id].action == DeactivateAll && s.pi.queue.rows[id].cloudAttempt == Some(1)
    ensures s.pi.queue.rows[id].ack == Q.AckPending
  {
    s := Entered(id);
    ReachableStep(s, ClaimNext(Some(id), true));
    s := Apply(s, ClaimNext(Some(id), true));
  }

  lemma SwitchedOff(id: CommandId) returns (s: State)
    ensures Reachable(s) && s.now == 0 && s.cloud.rows == map[id := K.Deliver(QueuedRow(), 0)]
    ensures s.pi.phase == Finishing(id, VerifiedOff) && s.history.claims == [Claim(id, 0)]
    ensures s.pi.queue.rows.Keys == {id} && s.pi.queue.rows[id].status == Q.HardwareVerified
    ensures s.pi.queue.rows[id].ack == Q.AckPending && s.pi.queue.rows[id].cloudAttempt == Some(1)
  {
    s := TakenUp(id);
    ReachableStep(s, Step.Start);
    s := Apply(s, Step.Start);
    ReachableStep(s, Succeed(VerifiedOff, true));
    s := Apply(s, Succeed(VerifiedOff, true));
  }

  lemma CarriedOut(id: CommandId) returns (s: State)
    ensures Reachable(s) && s.now == 0 && s.cloud.rows == map[id := K.Deliver(QueuedRow(), 0)]
    ensures s.pi.phase == Idle && s.history.claims == [Claim(id, 0)]
    ensures id in s.pi.queue.rows && s.pi.queue.rows[id].status == Q.Completed && s.pi.queue.rows[id].ack == Q.AckPending
    ensures s.pi.queue.rows[id].verification == Some(VerifiedOff) && s.pi.queue.rows[id].cloudAttempt == Some(1)
  {
    s := SwitchedOff(id);
    ReachableStep(s, Finish(true));
    s := Apply(s, Finish(true));
  }

  /** The row as it waits for its acknowledgement. */
  ghost predicate Waits(s: State, id: CommandId) {
    && Reachable(s) && s.now == 0 && s.history.claims == [Claim(id, 0)] && s.pi.phase == Idle
    && id in s.pi.queue.rows && s.pi.queue.rows[id].status == Q.Completed && s.pi.queue.rows[id].ack == Q.AckPending
    && s.pi.queue.rows[id].verification == Some(VerifiedOff) && s.pi.queue.rows[id].cloudAttempt == Some(1)
  }

  function CompletedMessage(id: CommandId): K.Ack {
    K.Ack(id, K.Completed, VerifiedOff, Some(1))
  }

  function AckedMessage(id: CommandId): K.Ack {
    K.Ack(id, K.Acked, VerifiedOff, Some(1))
  }

  lemma Reported(id: CommandId) returns (s: State)
    ensures Waits(s, id) && s.cloud.rows == map[id := K.Deliver(QueuedRow(), 0)] && CompletedMessage(id) in s.net.acks
  {
    s := CarriedOut(id);
    ReachableStep(s, SendTerminal(id));
    s := Apply(s, SendTerminal(id));
  }

  lemma Heard(s: State, id: CommandId, ack: K.Ack) returns (t: State)
    requires Waits(s, id) && ack in s.net.acks && K.Answer(s.cloud.rows, ack).Ok()
    ensures Waits(t, id) && GotOk(t.net, ack) && t.cloud == K.Acknowledge(s.cloud, ack)
  {
    var step := CloudStep(R.AckStep(ack));
    ReachableStep(s, step);
    t := Apply(s, step);
    assert (ack, K.Answer(s.cloud.rows, ack)) in t.net.replies;
  }

  lemma CompletedInCloud(id: CommandId) returns (s: State)
    ensures Waits(s, id) && GotOk(s.net, CompletedMessage(id))
    ensures id in s.cloud.rows && s.cloud.rows[id].command == OffAll && s.cloud.rows[id].status == K.Completed
    ensures s.cloud.rows[id].result == Some(VerifiedOff) && s.cloud.rows[id].attempt == 1 && s.cloud.rows[id].batch.None?
    ensures s.cloud.rows[id].outcome == Some(K.Completed)
  {
    s := Reported(id);
    s := Heard(s, id, CompletedMessage(id));
  }

  lemma AckSent(id: CommandId) returns (s: State)
    ensures Waits(s, id) && AckedMessage(id) in s.net.acks
    ensures id in s.cloud.rows && s.cloud.rows[id].command == OffAll && s.cloud.rows[id].status == K.Completed
    ensures s.cloud.rows[id].result == Some(VerifiedOff) && s.cloud.rows[id].attempt == 1 && s.cloud.rows[id].batch.None?
    ensures s.cloud.rows[id].outcome == Some(K.Completed)
  {
    s := CompletedInCloud(id);
    ReachableStep(s, SendAcked(id));
    s := Apply(s, SendAcked(id));
  }

  lemma AckedInCloud(id: CommandId) returns (s: State)
    ensures Waits(s, id) && GotOk(s.net, AckedMessage(id))
    ensures id in s.cloud.rows && s.cloud.rows[id].status == K.Acked && s.cloud.rows[id].outcome == Some(K.Completed)
    ensures s.cloud.rows[id].result == Some(VerifiedOff)
  {
    s := AckSent(id);
    s := Heard(s, id, AckedMessage(id));
  }

  /** A command can be claimed, completed with a positive token, acknowledged by the cloud, and noted as
    * acknowledged by the Pi. */
  lemma OffAllIsCarriedOut(id: CommandId) returns (s: State)
    ensures Reachable(s) && s.history.claims == [Claim(id, 0)]
    ensures id in s.cloud.rows && s.cloud.rows[id].status == K.Acked && s.cloud.rows[id].outcome == Some(K.Completed)
    ensures s.cloud.rows[id].result == Some(VerifiedOff)
    ensures id in s.pi.queue.rows && s.pi.queue.rows[id].status == Q.Completed && s.pi.queue.rows[id].ack == Q.AckAcked
  {
    s := AckedInCloud(id);
    ReachableStep(s, Confirm(id, true));
    s := Apply(s, Confirm(id, true));
  }
}
