/** The cloud-to-Pi command protocol as one step relation over cloud rows, Pi rows, messages in
  * flight and one clock.
  *
  * Messages sit in sets that only grow: a message may be delivered late, more than once, or never.
  * The Pi may lose power between any two durable writes (`Crash`). One step is one transaction, one
  * message, or one point of the controller loop (pi_firmware/ems_controller.py).
  */
module CommandProtocol {
  import opened Vocabulary
  import opened Selection
  import Q = OfflineQueue
  import K = CloudCommands
  import R = CloudRuns

  /** The command part of a sync reply. */
  datatype Offer = Offer(id: CommandId, command: Command, slot: SlotArg, param: int, sequence: nat, attempt: nat,
                         expiresAt: Option<int>)

  /** Where the controller is. Everything here is lost in a crash. */
  datatype Phase =
    | Off
    | Recovering(active: Option<Slot>, todo: seq<CommandId>)
    | RecoverEnding(active: Option<Slot>, id: CommandId, token: Token, todo: seq<CommandId>)
    | Idle
    | Claimed(id: CommandId)
    | Running(id: CommandId)
    | Finishing(id: CommandId, token: Token)

  datatype Pi = Pi(queue: Q.Queue, phase: Phase, fault: bool)

  datatype Net = Net(
    requests: set<K.SyncRequest>,
    offers: set<Offer>,
    acks: set<K.Ack>,
    replies: set<(K.Ack, K.Reply)>)

  datatype Claim = Claim(id: CommandId, at: int)

  /** The terminal status and token a Pi row became durable with. */
  datatype Outcome = Outcome(status: Q.Status, token: Option<Token>)

  /** History variables: every claim_next that returned a command, and every durable outcome. */
  datatype History = History(claims: seq<Claim>, outcomes: map<CommandId, Outcome>)

  datatype State = State(now: int, cloud: K.Cloud, pi: Pi, net: Net, history: History)

  const LOCAL_LIFE: int := 300 * SECOND

  // ------------------------------------------------------------ pieces of the controller

  /** _accept_cloud_command: the local expiry, or None when the command is already expired. The cloud
    * expiry is never extended; without one the command lives five minutes. */
  function LocalExpiry(cloudExpires: Option<int>, now: int): Option<int> {
    match cloudExpires
    case None => Some(now + LOCAL_LIFE)
    case Some(e) => if e <= now then None else Some(if e < now + LOCAL_LIFE then e else now + LOCAL_LIFE)
  }

  /** Tokens a successful GPIO operation leaves behind (GpioManager, EmsController.AggregateOffAll). */
  predicate SuccessToken(action: Action, token: Token) {
    match action
    case Activate => token in {VerifiedOn, GpioConfirmed}
    case Deactivate => token in {VerifiedOff, GpioConfirmed}
    case DeactivateAll => token in {VerifiedOff, GpioConfirmed}
  }

  /** _recover_interrupted_commands: the hardware already is where the command wanted it. */
  predicate RecoveredBy(row: Q.Row, active: Option<Slot>) {
    match row.action
    case Activate => active.Some? && row.slot == Wing(active.value)
    case _ => active.None?
  }

  function RecoveryToken(action: Action): Token {
    if action == Activate then VerifiedOn else VerifiedOff
  }

  function TerminalOf(status: Q.Status): K.Status
    requires Q.Final(status)
  {
    match status
    case Completed => K.Completed
    case Failed => K.Failed
    case _ => K.Expired
  }

  function TokenOf(row: Q.Row): Token {
    if row.verification.Some? then row.verification.value else Unknown
  }

  function TerminalAck(id: CommandId, row: Q.Row): K.Ack
    requires Q.Final(row.status)
  {
    K.Ack(id, TerminalOf(row.status), TokenOf(row), row.cloudAttempt)
  }

  function AckedAck(id: CommandId, row: Q.Row): K.Ack {
    K.Ack(id, K.Acked, TokenOf(row), row.cloudAttempt)
  }

  function SoftExecutingAck(o: Offer): K.Ack {
    K.Ack(o.id, K.Executing, Token.Pending, Some(o.attempt))
  }

  function SoftCompletedAck(o: Offer): K.Ack
    requires !o.command.Hardware()
  {
    K.Ack(o.id, K.Completed, K.SoftwareResult(o.command), Some(o.attempt))
  }

  /** _validate_software_command and the run-time checks: may the command end with `ok`? */
  predicate SoftVerdict(o: Offer, ok: bool) {
    match o.command
    case SetDays => ok <==> o.slot.Wing? && 0 <= o.param <= 31
    case SetResetDay => ok <==> 1 <= o.param <= 28
    case LcdDisplay => !ok
    case _ => true
  }

  /** A lemma or step says "200 for this ACK" by membership here. */
  ghost predicate GotOk(net: Net, ack: K.Ack) {
    exists reply :: (ack, reply) in net.replies && reply.Ok()
  }

  ghost predicate GotConflict(net: Net, ack: K.Ack) {
    exists reply :: (ack, reply) in net.replies && !reply.Ok()
  }

  // ------------------------------------------------------------ steps

  datatype Step =
    | Tick(elapsed: nat)
    | CloudStep(step: R.Step)
    | SendSync(report: seq<CommandId>)
    | Accept(offer: Offer, writable: bool)
    | ClaimNext(claimed: Option<CommandId>, writable: bool)
    | Refuse(token: Token, writable: bool)
    | SaveFails
    | RaiseFault
    | Start
    | Succeed(token: Token, writable: bool)
    | Finish(writable: bool)
    | Fail(token: Token, fault: bool, writable: bool)
    | SendTerminal(id: CommandId)
    | SendAcked(id: CommandId)
    | Confirm(id: CommandId, writable: bool)
    | Reject(id: CommandId, writable: bool)
    | Cleanup(victims: seq<CommandId>)
    | Crash
    | Boot(reconciled: bool, active: Option<Slot>, todo: seq<CommandId>)
    | Recover(writable: bool)
    | RecoverEnd(writable: bool)
    | SoftExecuting(offer: Offer)
    | SoftTerminal(offer: Offer, ok: bool)
    | SoftAcked(offer: Offer)

  ghost predicate Enabled(s: State, step: Step) {
    var pi, rows := s.pi, s.pi.queue.rows;
    match step
    case Tick(_) => true
    case CloudStep(c) =>
      && R.Enabled(s.cloud, c, s.now)
      && (c.SyncStep? ==> c.req in s.net.requests)
      && (c.AckStep? ==> c.ack in s.net.acks)
    case SendSync(report) => pi.phase.Idle? && Q.IsExecutedReport(pi.queue, report)
    case Accept(o, _) => pi.phase.Idle? && o in s.net.offers && (o.slot == BadSlot || o.command.Hardware())
    case ClaimNext(claimed, writable) =>
      pi.phase.Idle? && if writable then Q.ClaimPicks(pi.queue, claimed, s.now) else claimed.None?
    case Refuse(token, _) =>
      && pi.phase.Claimed?
      && ((pi.fault && token == Fault)
          || (token == CapabilityStateInvalid && pi.phase.id in rows && rows[pi.phase.id].action == Activate))
    case SaveFails => pi.phase.Claimed? && !pi.fault
    case RaiseFault => !pi.phase.Off?
    case Start => pi.phase.Claimed? && !pi.fault && pi.phase.id in rows
    case Succeed(token, _) => pi.phase.Running? && pi.phase.id in rows && SuccessToken(rows[pi.phase.id].action, token)
    case Finish(_) => pi.phase.Finishing?
    case Fail(_, _, _) => pi.phase.Running?
    case SendTerminal(id) => pi.phase.Idle? && id in rows && Q.Unacked(rows[id])
    case SendAcked(id) => pi.phase.Idle? && id in rows && Q.Unacked(rows[id]) && GotOk(s.net, TerminalAck(id, rows[id]))
    case Confirm(id, _) => pi.phase.Idle? && id in rows && Q.Unacked(rows[id]) && GotOk(s.net, AckedAck(id, rows[id]))
    case Reject(id, _) =>
      && pi.phase.Idle? && id in rows && Q.Unacked(rows[id])
      && (GotConflict(s.net, TerminalAck(id, rows[id])) || GotConflict(s.net, AckedAck(id, rows[id])))
    case Cleanup(victims) => pi.phase.Idle? && Q.IsCleanup(rows, s.now, victims, rows - Listed(victims))
    case Crash => true
    case Boot(reconciled, _, todo) => pi.phase.Off? && (reconciled ==> Q.IsInterruptedList(pi.queue, todo))
    case Recover(_) => pi.phase.Recovering? && (pi.phase.todo != [] ==> pi.phase.todo[0] in rows)
    case RecoverEnd(_) => pi.phase.RecoverEnding?
    case SoftExecuting(o) => pi.phase.Idle? && o in s.net.offers && o.slot != BadSlot && !o.command.Hardware()
    case SoftTerminal(o, ok) =>
      && pi.phase.Idle? && o in s.net.offers && o.slot != BadSlot && !o.command.Hardware()
      && GotOk(s.net, SoftExecutingAck(o)) && SoftVerdict(o, ok)
    case SoftAcked(o) =>
      && pi.phase.Idle? && o in s.net.offers && o.slot != BadSlot && !o.command.Hardware()
      && GotOk(s.net, SoftCompletedAck(o))
  }

  function Sent(s: State, ack: K.Ack): State {
    s.(net := s.net.(acks := s.net.acks + {ack}))
  }

  /** One durable update_status of row `id`, and the phase after it. */
  function Write(s: State, id: CommandId, status: Q.Status, token: Token, writable: bool, phase: Phase): State {
    var (queue, ok) := if writable then Q.Update(s.pi.queue, id, status, Some(token), s.now) else (s.pi.queue, false);
    s.(pi := s.pi.(queue := queue, phase := phase),
       history := if ok && status in {Q.Completed, Q.Failed}
                  then s.history.(outcomes := s.history.outcomes[id := Outcome(status, Some(token))])
                  else s.history)
  }

  /** _accept_cloud_command for everything that is not a software command. */
  function Accepted(s: State, o: Offer, writable: bool): State {
    if o.slot == BadSlot then
      Sent(Sent(s, K.Ack(o.id, K.Executing, NotAvailable, None)), K.Ack(o.id, K.Failed, NotAvailable, None))
    else if Normalize(o.command).None? then s
    else
      var expiry := LocalExpiry(o.expiresAt, s.now);
      if expiry.None? then Sent(s, K.Ack(o.id, K.Expired, NotAvailable, Some(o.attempt)))
      else if !writable then s
      else
        var row := Q.NewRow(o.slot, Normalize(o.command).value, s.now, expiry, Some(o.sequence), Some(o.attempt), s.now);
        s.(pi := s.pi.(queue := Q.Insert(s.pi.queue, o.id, row).0))
  }

  ghost function CloudStepped(s: State, c: R.Step): State
    requires R.Enabled(s.cloud, c, s.now)
  {
    var cloud := R.Apply(s.cloud, c, s.now);
    match c
    case SyncStep(_, Some(id)) =>
      var row := cloud.rows[id];
      var offer := Offer(id, row.command, row.slot, row.param, row.sequence, row.attempt, Some(row.expiresAt));
      s.(cloud := cloud, net := s.net.(offers := s.net.offers + {offer}))
    case AckStep(ack) =>
      s.(cloud := cloud, net := s.net.(replies := s.net.replies + {(ack, K.Answer(s.cloud.rows, ack))}))
    case _ => s.(cloud := cloud)
  }

  function Recovered(s: State, writable: bool): State
    requires s.pi.phase.Recovering? && (s.pi.phase.todo != [] ==> s.pi.phase.todo[0] in s.pi.queue.rows)
  {
    var Recovering(active, todo) := s.pi.phase;
    if todo == [] then s.(pi := s.pi.(phase := Idle))
    else
      var id, rest := todo[0], todo[1..];
      var row := s.pi.queue.rows[id];
      var token := RecoveryToken(row.action);
      if !RecoveredBy(row, active) then
        Write(s, id, Q.UnknownAfterReboot, Unknown, writable, Recovering(active, rest))
      else if row.status == Q.HardwareVerified then
        s.(pi := s.pi.(phase := RecoverEnding(active, id, token, rest)))
      else
        Write(s, id, Q.HardwareVerified, token, writable, RecoverEnding(active, id, token, rest))
  }

  ghost function Apply(s: State, step: Step): State
    requires Enabled(s, step)
  {
    var pi, q := s.pi, s.pi.queue;
    match step
    case Tick(elapsed) => s.(now := s.now + elapsed)
    case CloudStep(c) => CloudStepped(s, c)
    case SendSync(report) =>
      s.(net := s.net.(requests := s.net.requests + {K.SyncRequest(q.lastExecuted, set id | id in report)}))
    case Accept(o, writable) => Accepted(s, o, writable)
    case ClaimNext(claimed, writable) =>
      if !writable then s
      else
        s.(pi := pi.(queue := Q.Claim(q, claimed, s.now), phase := if claimed.Some? then Claimed(claimed.value) else Idle),
           history := if claimed.Some? then s.history.(claims := s.history.claims + [Claim(claimed.value, s.now)]) else s.history)
    case Refuse(token, writable) => Write(s, pi.phase.id, Q.Failed, token, writable, Idle)
    case SaveFails => s.(pi := pi.(phase := Idle, fault := true))
    case RaiseFault => s.(pi := pi.(fault := true))
    case Start =>
      var sent := Sent(s, K.Ack(pi.phase.id, K.Executing, Token.Pending, q.rows[pi.phase.id].cloudAttempt));
      sent.(pi := pi.(phase := Running(pi.phase.id)))
    case Succeed(token, writable) =>
      Write(s, pi.phase.id, Q.HardwareVerified, token, writable, Finishing(pi.phase.id, token))
    case Finish(writable) => Write(s, pi.phase.id, Q.Completed, pi.phase.token, writable, Idle)
    case Fail(token, fault, writable) =>
      var w := Write(s, pi.phase.id, Q.Failed, token, writable, Idle);
      w.(pi := w.pi.(fault := pi.fault || fault))
    case SendTerminal(id) => Sent(s, TerminalAck(id, q.rows[id]))
    case SendAcked(id) => Sent(s, AckedAck(id, q.rows[id]))
    case Confirm(id, writable) =>
      s.(pi := pi.(queue := if writable then Q.MarkAckedSpec(q, id, s.now).0 else q))
    case Reject(id, writable) =>
      s.(pi := pi.(queue := if writable then Q.MarkRejectedSpec(q, id, s.now) else q))
    case Cleanup(victims) => s.(pi := pi.(queue := q.(rows := q.rows - Listed(victims))))
    case Crash => s.(pi := pi.(phase := Off, fault := false))
    case Boot(reconciled, active, todo) =>
      s.(pi := pi.(phase := if reconciled then Recovering(active, todo) else Idle, fault := !reconciled))
    case Recover(writable) => Recovered(s, writable)
    case RecoverEnd(writable) =>
      Write(s, pi.phase.id, Q.Completed, pi.phase.token, writable, Recovering(pi.phase.active, pi.phase.todo))
    case SoftExecuting(o) => Sent(s, SoftExecutingAck(o))
    case SoftTerminal(o, ok) =>
      Sent(s, if ok then SoftCompletedAck(o) else K.Ack(o.id, K.Failed, NotAvailable, Some(o.attempt)))
    case SoftAcked(o) => Sent(s, K.Ack(o.id, K.Acked, K.SoftwareResult(o.command), Some(o.attempt)))
  }

  ghost predicate Initial(s: State) {
    && s.cloud.rows == map[]
    && s.pi == Pi(Q.Queue(map[], 0), Off, false)
    && s.net == Net({}, {}, {}, {})
    && s.history == History([], map[])
  }

  /** A run: any enabled steps in any order. */
  ghost predicate IsRun(trace: seq<State>, steps: seq<Step>) {
    && |trace| == |steps| + 1
    && Initial(trace[0])
    && forall k | 0 <= k < |steps| :: Enabled(trace[k], steps[k]) && trace[k + 1] == Apply(trace[k], steps[k])
  }
}
