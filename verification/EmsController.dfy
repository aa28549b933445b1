/** The controller's command execution (pi_firmware/ems_controller.py) over the queue and the relays.
  *
  * `world` is a ghost state of CommandProtocol that keeps step with the objects: every durable write
  * and every message the methods make is one enabled step of the protocol, and between two of them
  * the clock and the cloud move on freely. What ProtocolSafety proves of every run therefore holds of
  * the controller, and SuccessToken, which the protocol assumes of the hardware, is proved here.
  */
module EmsController {
  import opened Vocabulary
  import opened G = GpioManager
  import opened RelayTrace
  import opened Selection
  import Q = OfflineQueue
  import P = CommandProtocol
  import S = ProtocolSafety
  import K = CloudCommands

  ghost predicate Reachable(s: P.State) {
    exists trace, steps :: P.IsRun(trace, steps) && trace[|steps|] == s
  }

  lemma ReachableStep(s: P.State, step: P.Step)
    requires Reachable(s) && P.Enabled(s, step)
    ensures Reachable(P.Apply(s, step))
  {
    var trace, steps :| P.IsRun(trace, steps) && trace[|steps|] == s;
    RunExtends(trace, steps, step);
  }

  lemma RunExtends(trace: seq<P.State>, steps: seq<P.Step>, step: P.Step)
    requires P.IsRun(trace, steps) && P.Enabled(trace[|steps|], step)
    ensures P.IsRun(trace + [P.Apply(trace[|steps|], step)], steps + [step])
  {
    var longer, more := trace + [P.Apply(trace[|steps|], step)], steps + [step];
    forall k | 0 <= k < |more| ensures P.Enabled(longer[k], more[k]) && longer[k + 1] == P.Apply(longer[k], more[k]) {
      assert longer[k] == trace[k];
      if k < |steps| {
        assert more[k] == steps[k] && longer[k + 1] == trace[k + 1];
      }
    }
  }

  /** What ProtocolSafety says of a reachable state, and with it of the controller at any time: no command
    * was claimed twice, or at or after its cloud expiry, and a cloud row that is COMPLETED stands for a
    * Pi row that became COMPLETED with a positive token. */
  lemma ReachableIsSafe(s: P.State)
    requires Reachable(s)
    ensures S.Inv(s)
    ensures forall i, k | 0 <= i < k < |s.history.claims| :: s.history.claims[i].id != s.history.claims[k].id
    ensures forall k | 0 <= k < |s.history.claims| ::
      s.history.claims[k].id in s.cloud.rows && s.history.claims[k].at < s.cloud.rows[s.history.claims[k].id].expiresAt
    ensures forall id | id in s.cloud.rows && s.cloud.rows[id].command.Hardware() && s.cloud.rows[id].status == K.Completed ::
      && id in s.history.outcomes && s.history.outcomes[id].status == Q.Completed
      && s.history.outcomes[id].token.Some? && s.history.outcomes[id].token.value.Positive()
  {
    var trace, steps :| P.IsRun(trace, steps) && trace[|steps|] == s;
    S.RunKeeps(trace, steps, |steps|);
  }

  /** The rest of the system between two steps of the Pi: time passes, the cloud runs transactions. */
  ghost predicate Meanwhile(s: P.State, t: P.State, now: int) {
    Reachable(t) && t.now == now && t.pi == s.pi && t.history == s.history && s.net.offers <= t.net.offers && t.net.acks == s.net.acks
  }

  lemma TimePasses(s: P.State, elapsed: nat)
    requires Reachable(s)
    ensures Meanwhile(s, s.(now := s.now + elapsed), s.now + elapsed)
  {
    ReachableStep(s, P.Tick(elapsed));
  }

  /** What the two messages of a final row say: its status or ACKED, its token, and the delivery it came with. */
  lemma ReportsTheRow(id: CommandId, row: Q.Row)
    requires Q.Unacked(row)
    ensures var status := if row.status == Q.Completed then K.Completed else if row.status == Q.Failed then K.Failed else K.Expired;
      var token := if row.verification.Some? then row.verification.value else Unknown;
      && P.TerminalAck(id, row) == K.Ack(id, status, token, row.cloudAttempt)
      && P.AckedAck(id, row) == K.Ack(id, K.Acked, token, row.cloudAttempt)
  {
  }

  /** How the cloud's response reaches the Pi: 200, 409, or nothing usable. */
  datatype Http = Accepted | Conflicting | Unreachable

  datatype Response = Response(http: Http, at: int)

  /** The world when the response arrives; a 200 or a 409 was given by the cloud to this very message. */
  ghost predicate Heard(sent: P.State, now: P.State, at: int, ack: K.Ack, http: Http) {
    && Meanwhile(sent, now, at) && sent.now <= at
    && (http == Accepted ==> P.GotOk(now.net, ack))
    && (http == Conflicting ==> P.GotConflict(now.net, ack))
  }

  /** The same for the message of a step that can be made. */
  ghost predicate Answered(s: P.State, step: P.Step, ack: K.Ack, r: Response, now: P.State) {
    P.Enabled(s, step) ==> Heard(P.Apply(s, step), now, r.at, ack, r.http)
  }

  lemma PageHead(q: Q.Queue, page: seq<CommandId>)
    requires Q.IsUnackedPage(q, page)
    ensures page == [] ==> forall id | id in q.rows :: !Q.Unacked(q.rows[id])
    ensures page != [] ==> page[0] in q.rows && Q.Unacked(q.rows[page[0]])
    ensures page != [] ==> forall id | id in q.rows && Q.Unacked(q.rows[id]) :: Q.CompletedKey(q.rows[page[0]]) <= Q.CompletedKey(q.rows[id])
  {
    forall id | id in q.rows && Q.Unacked(q.rows[id])
      ensures page != [] && Q.CompletedKey(q.rows[page[0]]) <= Q.CompletedKey(q.rows[id])
    {
      assert id in Q.UnackedIds(q.rows);
      assert page == [] ==> Q.UnackedIds(q.rows) == {};
    }
  }

  /** Recovery keeps every row's command; a COMPLETED row stays as it is, and one that became COMPLETED
    * was found done by the hardware. */
  ghost predicate RecoveredRow(before: Q.Row, after: Q.Row, active: Option<Slot>) {
    && after.action == before.action && after.slot == before.slot
    && (before.status == Q.Completed ==> after == before)
    && (after.status == Q.Completed && before.status != Q.Completed ==>
          P.RecoveredBy(before, active) && after.verification == Some(P.RecoveryToken(before.action)))
  }

  ghost predicate Recovered(before: map<CommandId, Q.Row>, after: map<CommandId, Q.Row>, active: Option<Slot>) {
    after.Keys == before.Keys && forall id | id in before :: RecoveredRow(before[id], after[id], active)
  }

  /** What recovery makes of an interrupted command, when its writes take effect: COMPLETED when the hardware
    * already is where the command wanted it, and otherwise UNKNOWN_AFTER_REBOOT, unless it was known before. */
  ghost predicate Resolved(before: Q.Row, after: Q.Row, active: Option<Slot>) {
    if before.action == Activate && active.Some? && before.slot == Wing(active.value) then
      after.status == Q.Completed && after.verification == Some(VerifiedOn)
    else if before.action != Activate && active.None? then
      after.status == Q.Completed && after.verification == Some(VerifiedOff)
    else if before.status == Q.Executing then
      after.status == Q.UnknownAfterReboot && after.verification == Some(Unknown)
    else after == before
  }

  lemma RecoveredTwice(a: map<CommandId, Q.Row>, b: map<CommandId, Q.Row>, c: map<CommandId, Q.Row>, active: Option<Slot>)
    requires Recovered(a, b, active) && Recovered(b, c, active)
    ensures Recovered(a, c, active)
  {
    forall id | id in a ensures RecoveredRow(a[id], c[id], active) {
      assert RecoveredRow(a[id], b[id], active) && RecoveredRow(b[id], c[id], active);
    }
  }

  /** Recovery with no wing active, as after every successful boot: no interrupted ACTIVATE becomes
    * COMPLETED, and what does was a deactivation and says VERIFIED_OFF. */
  ghost predicate OnlyOffCompleted(before: map<CommandId, Q.Row>, after: map<CommandId, Q.Row>) {
    forall id | id in before && id in after && after[id].status == Q.Completed && before[id].status != Q.Completed ::
      after[id].action != Activate && after[id].verification == Some(VerifiedOff)
  }

  /** Which writes of a pass take effect: the claim, EXECUTING in the state file, and the one or two updates of
    * the row. */
  datatype Writes = Writes(claim: bool, saved: bool, first: bool, second: bool)

  /** Where the row of a command that was carried out stands, after the writes that took effect. */
  ghost predicate Settled(row: Q.Row, success: bool, writes: Writes) {
    row.status ==
      if !writes.first then Q.Executing
      else if !success then Q.Failed
      else if writes.second then Q.Completed
      else Q.HardwareVerified
  }

  class EmsController {
    const gpio: G.GpioManager
    const queue: Q.OfflineQueue
    var capabilityInvalid: bool
    var disabled: set<Slot>
    var clock: int
    var restartRequested: bool
    var rebootRequested: bool
    ghost var world: P.State

    /** The queue is at `phase` of a reachable state of the protocol. */
    ghost predicate Tracks(phase: P.Phase, fault: bool)
      reads this, queue
    {
      Reachable(world) && world.now == clock && world.pi == P.Pi(queue.Content(), phase, fault)
    }

    /** Between two passes of the main loop. */
    ghost predicate Ready()
      reads this, gpio, queue
    {
      Tracks(P.Idle, gpio.systemState == InFault) && gpio.LockFree()
    }

    /** A new process over the durable queue: every relay is driven off. */
    constructor (queue: Q.OfflineQueue, broken: bool, enabled: set<Slot>, disabled: set<Slot>, capabilityInvalid: bool,
                 stored: Option<Slot>, clock: int, ghost world: P.State)
      requires Reachable(world) && world.now == clock && world.pi == P.Pi(queue.Content(), P.Off, false)
      ensures Tracks(P.Off, false) && gpio.LockFree() && this.queue == queue && fresh(gpio)
      ensures gpio.on == {} && gpio.feedbackEnabled == enabled && gpio.systemState == Booting && !restartRequested && !rebootRequested
    {
      this.queue := queue;
      gpio := new G.GpioManager(broken, enabled, stored);
      this.disabled, this.capabilityInvalid, this.clock := disabled, capabilityInvalid, clock;
      restartRequested, rebootRequested := false, false;
      this.world := world;
    }

    // ---------------------------------------------------------- time and ghost steps

    method Now() returns (t: int)
      requires Reachable(world) && world.now == clock
      modifies `clock, `world
      ensures t == clock && Meanwhile(old(world), world, clock)
    {
      var passed: int :| passed >= 0;
      TimePasses(world, passed);
      ghost var still := world.(now := world.now + passed);
      clock := clock + passed;
      assert Meanwhile(world, still, clock);
      ghost var next :| Meanwhile(world, next, clock);
      world := next;
      return clock;
    }

    ghost method Do(step: P.Step)
      requires Reachable(world) && P.Enabled(world, step)
      modifies `world
      ensures Reachable(world) && world == P.Apply(old(world), step)
    {
      ReachableStep(world, step);
      world := P.Apply(world, step);
    }

    // ---------------------------------------------------------- hardware

    /** What a watched wing's token VERIFIED_OFF, or an unwatched wing's GPIO_CONFIRMED, stands for. */
    function OffToken(s: Slot): Token
      reads gpio`feedbackEnabled
    {
      if s in gpio.feedbackEnabled then VerifiedOff else GpioConfirmed
    }

    /** The relay layer gave up because of feedback read since the trace had `from` events. */
    ghost predicate FeedbackFailed(start: nat)
      reads gpio`trace
    {
      exists why :: Caused(gpio.trace, why) && Since(why, start)
    }

    /** _deactivate_all: every wing is tried, also after a failure; it succeeds unless feedback did not confirm
      * that some wing opened. */
    method DeactivateEvery() returns (success: bool)
      requires gpio.LockFree() && gpio.systemState != InFault
      modifies gpio
      ensures gpio.LockFree() && gpio.on == {} && gpio.feedbackEnabled == old(gpio.feedbackEnabled) && gpio.relays == old(gpio.relays)
      ensures old(gpio.trace) <= gpio.trace
      ensures success ==> forall s :: gpio.verification.At(s) == OffToken(s)
      ensures success <==> gpio.relays != {} && gpio.systemState != InFault
      ensures gpio.systemState == old(gpio.systemState) || (gpio.systemState == InFault && FeedbackFailed(|old(gpio.trace)|))
    {
      success := true;
      var k := 0;
      while k < |SLOTS|
        invariant 0 <= k <= |SLOTS|
        invariant gpio.LockFree() && gpio.feedbackEnabled == old(gpio.feedbackEnabled) && gpio.relays == old(gpio.relays)
        invariant old(gpio.trace) <= gpio.trace
        invariant gpio.systemState == old(gpio.systemState) || (gpio.systemState == InFault && FeedbackFailed(|old(gpio.trace)|))
        invariant success <==> (k > 0 ==> gpio.relays != {}) && gpio.systemState != InFault
        invariant success ==> forall j | 0 <= j < k :: SLOTS[j] !in gpio.on && gpio.verification.At(SLOTS[j]) == OffToken(SLOTS[j])
        invariant !success ==> gpio.on == {}
      {
        var ok := DeactivateNext(SLOTS[k], |old(gpio.trace)|);
        if !ok {
          success := false;
        }
        k := k + 1;
      }
      assert SLOTS[0] == A && SLOTS[1] == B && SLOTS[2] == C && SLOTS[3] == D;
      forall s ensures success ==> s !in gpio.on && gpio.verification.At(s) == OffToken(s) {
        match s {
          case A => assert s == SLOTS[0];
          case B => assert s == SLOTS[1];
          case C => assert s == SLOTS[2];
          case D => assert s == SLOTS[3];
        }
      }
    }

    method DeactivateNext(s: Slot, ghost start: nat) returns (ok: bool)
      requires gpio.LockFree() && start <= |gpio.trace|
      requires gpio.systemState == InFault ==> FeedbackFailed(start)
      modifies gpio
      ensures gpio.LockFree() && gpio.feedbackEnabled == old(gpio.feedbackEnabled) && gpio.relays == old(gpio.relays)
      ensures old(gpio.trace) <= gpio.trace
      ensures ok ==> gpio.on == old(gpio.on) - {s} && gpio.verification == old(gpio.verification).With(s, OffToken(s))
      ensures ok && s in gpio.feedbackEnabled ==> Showed(gpio.summary, s, false, old(gpio.now))
      ensures ok <==> gpio.relays != {} && gpio.systemState != InFault
      ensures gpio.systemState == old(gpio.systemState) || gpio.systemState == InFault
      ensures gpio.systemState == InFault ==> FeedbackFailed(start) && (gpio.on == {} || gpio.on == old(gpio.on))
      ensures !ok && old(gpio.systemState) != InFault ==> gpio.on == {}
    {
      ghost var rounds, why;
      ok, rounds, why := gpio.DeactivateSlot(s);
    }

    /** Every wing in use carries this token. */
    predicate AllShow(token: Token)
      reads this, gpio
    {
      forall s | s in ALL - disabled :: gpio.verification.At(s) == token
    }

    /** _aggregate_off_all_verification: one positive token for all wings in use, or none. */
    method AggregateOffAll() returns (token: Option<Token>)
      ensures token.Some? ==> ALL - disabled != {} && token.value in {VerifiedOff, GpioConfirmed} && AllShow(token.value)
      ensures token.None? ==> ALL - disabled == {} || (!AllShow(VerifiedOff) && !AllShow(GpioConfirmed))
    {
      if ALL - disabled == {} {
        return None;
      }
      if AllShow(VerifiedOff) {
        return Some(VerifiedOff);
      }
      if AllShow(GpioConfirmed) {
        return Some(GpioConfirmed);
      }
      return None;
    }

    /** The relays are where the command wanted them, and every watched wing it moved was read there. */
    ghost predicate Performed(action: Action, slot: SlotArg, since: int)
      reads gpio`on, gpio`activeSlot, gpio`feedbackEnabled, gpio`summary, gpio`verification
    {
      match action
      case Activate =>
        && slot.Wing? && gpio.on == {slot.slot} && gpio.activeSlot == Some(slot.slot)
        && (slot.slot in gpio.feedbackEnabled ==> Showed(gpio.summary, slot.slot, true, since))
      case Deactivate =>
        && slot.Wing? && slot.slot !in gpio.on
        && (slot.slot in gpio.feedbackEnabled ==> Showed(gpio.summary, slot.slot, false, since))
      case DeactivateAll =>
        gpio.on == {} && forall s :: gpio.verification.At(s) == OffToken(s)
    }

    function SlotToken(slot: SlotArg): Token
      reads gpio`verification
    {
      if slot.Wing? then gpio.verification.At(slot.slot) else Unknown
    }

    /** The wings in use all have feedback, or none of them has: only then can off_all succeed. */
    ghost predicate Uniform()
      reads this, gpio
    {
      ALL - disabled != {} && (ALL - disabled <= gpio.feedbackEnabled || ALL - disabled !! gpio.feedbackEnabled)
    }

    /** The relays the command needs are there. */
    predicate Installed(action: Action, slot: SlotArg)
      reads gpio`relays
    {
      gpio.relays != {} && (action == DeactivateAll || slot.Wing?)
    }

    /** The hardware part of process_one_command, and the token it reports. It fails only because a relay is
      * missing, feedback failed, or an off_all was over wings of both kinds. */
    method Operate(action: Action, slot: SlotArg) returns (success: bool, token: Token)
      requires gpio.LockFree() && gpio.systemState == Executing
      modifies gpio
      ensures gpio.LockFree() && gpio.feedbackEnabled == old(gpio.feedbackEnabled) && gpio.relays == old(gpio.relays)
      ensures old(gpio.trace) <= gpio.trace
      ensures success <==> gpio.systemState != InFault && Installed(action, slot) && (action == DeactivateAll ==> Uniform())
      ensures success ==> P.SuccessToken(action, token) && Performed(action, slot, old(gpio.now))
      ensures !success ==> token == SlotToken(slot)
      ensures gpio.systemState == Executing || (gpio.systemState == InFault && gpio.on == {} && FeedbackFailed(|old(gpio.trace)|))
      ensures !Installed(action, slot) ==> gpio.on == old(gpio.on)
    {
      success := false;
      var aggregate := None;
      match action {
        case Activate =>
          if slot.Wing? {
            success := Transition(slot.slot);
          }
        case Deactivate =>
          if slot.Wing? {
            success := DeactivateNext(slot.slot, |gpio.trace|);
          }
        case DeactivateAll =>
          success := DeactivateEvery();
          if success {
            aggregate := AggregateOffAll();
            success := aggregate.Some?;
          }
      }
      token := if success && !slot.Wing? then aggregate.value else SlotToken(slot);
    }

    method Transition(s: Slot) returns (ok: bool)
      requires gpio.LockFree() && gpio.systemState == Executing
      modifies gpio
      ensures gpio.LockFree() && gpio.feedbackEnabled == old(gpio.feedbackEnabled) && gpio.relays == old(gpio.relays)
      ensures old(gpio.trace) <= gpio.trace
      ensures ok <==> gpio.systemState != InFault && gpio.relays != {}
      ensures ok ==> Performed(Activate, Wing(s), old(gpio.now))
      ensures ok ==> gpio.verification.At(s) == if s in gpio.feedbackEnabled then VerifiedOn else GpioConfirmed
      ensures gpio.systemState == Executing || (gpio.systemState == InFault && gpio.on == {} && FeedbackFailed(|old(gpio.trace)|))
      ensures gpio.relays == {} ==> gpio.on == old(gpio.on)
    {
      ghost var rounds, why;
      ok, rounds, why := gpio.TransitionSlot(s);
    }

    // ---------------------------------------------------------- process_one_command

    /** claim_next. */
    method Claim(writable: bool, ghost fault: bool) returns (claimed: Option<CommandId>)
      requires Tracks(P.Idle, fault)
      modifies `clock, `world, queue
      ensures claimed.None? ==> Tracks(P.Idle, fault) && world.history == old(world.history)
      ensures claimed.None? && writable ==> forall id | id in old(queue.rows) :: !Q.Claimable(old(queue.rows[id]), clock)
      ensures claimed.Some? ==> Tracks(P.Claimed(claimed.value), fault) && writable
      ensures claimed.Some? ==> claimed.value in queue.rows && queue.rows[claimed.value].status == Q.Executing
      ensures claimed.Some? ==> world.history == old(world.history).(claims := old(world.history.claims) + [P.Claim(claimed.value, clock)])
    {
      var t := Now();
      claimed := queue.ClaimNext(writable, t);
      Do(P.ClaimNext(claimed, writable));
    }

    /** One durable update_status at a time the clock chooses. */
    method Store(id: CommandId, status: Q.Status, token: Token, writable: bool)
      requires Reachable(world) && world.now == clock && world.pi.queue == queue.Content()
      modifies `clock, `world, queue
      ensures Meanwhile(old(world), world, clock)
      ensures queue.Content() ==
        if writable then Q.Update(old(queue.Content()), id, status, Some(token), clock).0 else old(queue.Content())
    {
      var t := Now();
      var ok := queue.UpdateStatus(id, status, Some(token), writable, t);
    }

    /** The row is still the same command, and where it stands. */
    ghost predicate Stands(id: CommandId, row: Q.Row, status: Q.Status, token: Token)
      reads queue
    {
      && id in queue.rows && queue.rows[id].action == row.action && queue.rows[id].slot == row.slot
      && queue.rows[id].status == status
      && (if status == row.status then queue.rows[id] == row else queue.rows[id].verification == Some(token))
    }

    method StoreRefused(id: CommandId, token: Token, writable: bool, ghost fault: bool)
      requires Tracks(P.Claimed(id), fault) && id in queue.rows && queue.rows[id].status == Q.Executing
      requires (fault && token == Fault) || (token == CapabilityStateInvalid && queue.rows[id].action == Activate)
      modifies `clock, `world, queue
      ensures Tracks(P.Idle, fault) && world.history.claims == old(world.history.claims)
      ensures Stands(id, old(queue.rows[id]), if writable then Q.Failed else Q.Executing, token)
    {
      Store(id, Q.Failed, token, writable);
      Do(P.Refuse(token, writable));
    }

    method StoreVerified(id: CommandId, token: Token, writable: bool)
      requires Tracks(P.Running(id), false) && id in queue.rows && queue.rows[id].status == Q.Executing
      requires P.SuccessToken(queue.rows[id].action, token)
      modifies `clock, `world, queue
      ensures Tracks(P.Finishing(id, token), false) && world.history.claims == old(world.history.claims)
      ensures Stands(id, old(queue.rows[id]), if writable then Q.HardwareVerified else Q.Executing, token)
    {
      Store(id, Q.HardwareVerified, token, writable);
      Do(P.Succeed(token, writable));
    }

    method StoreCompleted(id: CommandId, token: Token, writable: bool)
      requires Tracks(P.Finishing(id, token), false) && id in queue.rows
      requires queue.rows[id].status in {Q.Executing, Q.HardwareVerified}
      modifies `clock, `world, queue
      ensures Tracks(P.Idle, false) && world.history.claims == old(world.history.claims)
      ensures var before := old(queue.rows[id]);
        Stands(id, before, if writable && before.status == Q.HardwareVerified then Q.Completed else before.status, token)
    {
      Store(id, Q.Completed, token, writable);
      Do(P.Finish(writable));
    }

    method StoreFailed(id: CommandId, token: Token, writable: bool, fault: bool)
      requires Tracks(P.Running(id), false) && id in queue.rows && queue.rows[id].status == Q.Executing
      modifies `clock, `world, queue
      ensures Tracks(P.Idle, fault) && world.history.claims == old(world.history.claims)
      ensures Stands(id, old(queue.rows[id]), if writable then Q.Failed else Q.Executing, token)
    {
      Store(id, Q.Failed, token, writable);
      Do(P.Fail(token, fault, writable));
    }

    /** The pass is refused before the hardware: in FAULT, or an ACTIVATE with an invalid capability state. */
    predicate Refuses(state: SystemState, row: Q.Row)
      reads `capabilityInvalid
    {
      state == InFault || (row.action == Activate && capabilityInvalid)
    }

    /** The hardware did what the row says: no FAULT, its relays are there, and an off_all was uniform. */
    ghost predicate Succeeded(row: Q.Row)
      reads this, gpio
    {
      gpio.systemState != InFault && Installed(row.action, row.slot) && (row.action == DeactivateAll ==> Uniform())
    }

    /** process_one_command. Whatever the hardware and the storage do, the pass is a run of protocol steps,
      * and the row says what became of the hardware, as far as the writes took effect: COMPLETED exactly when
      * no FAULT came up, the relays are there and an off_all was uniform. A COMPLETED row stands for hardware
      * in the state the cloud's command asked for, a FAULT for feedback that failed, and a command refused in
      * FAULT touches no relay. */
    method ProcessOneCommand(writes: Writes) returns (claimed: Option<CommandId>)
      requires Ready()
      modifies `clock, `world, queue, gpio
      ensures Ready()
      ensures claimed.None? ==> world.history == old(world.history) && gpio.systemState == old(gpio.systemState)
      ensures claimed.None? ==> gpio.on == old(gpio.on) && gpio.trace == old(gpio.trace)
      ensures claimed.None? && writes.claim ==> forall id | id in old(queue.rows) :: !Q.Claimable(old(queue.rows[id]), clock)
      ensures claimed.Some? ==> claimed.value in queue.rows
      ensures claimed.Some? ==> exists t :: world.history.claims == old(world.history.claims) + [P.Claim(claimed.value, t)]
      ensures claimed.Some? ==> Processed(queue.rows[claimed.value], writes)
      ensures claimed.Some? && queue.rows[claimed.value].status == Q.Completed ==>
        && Accounted(queue.rows[claimed.value], old(gpio.now))
        && claimed.value in world.cloud.rows && Obeyed(world.cloud.rows[claimed.value].command, world.cloud.rows[claimed.value].slot)
    {
      claimed := Claim(writes.claim, gpio.systemState == InFault);
      if claimed.Some? {
        ProcessClaimed(claimed.value, writes);
      }
    }

    /** The row of a claimed command after the pass, by what was the state before it. */
    twostate predicate Processed(row: Q.Row, writes: Writes)
      reads this, gpio
    {
      if Refuses(old(gpio.systemState), row) then
        && gpio.on == old(gpio.on) && gpio.trace == old(gpio.trace) && gpio.systemState == old(gpio.systemState)
        && Settled(row, false, writes)
        && (writes.first ==> row.verification == Some(if gpio.systemState == InFault then Fault else CapabilityStateInvalid))
      else if !writes.saved then
        && gpio.on == old(gpio.on) && gpio.trace == old(gpio.trace) && gpio.systemState == InFault && row.status == Q.Executing
      else
        && CarriedOut(row, old(gpio.now), writes)
        && (gpio.systemState == G.Ready || (gpio.systemState == InFault && gpio.on == {} && FeedbackFailed(|old(gpio.trace)|)))
    }

    method ProcessClaimed(id: CommandId, writes: Writes)
      requires Tracks(P.Claimed(id), gpio.systemState == InFault) && gpio.LockFree()
      requires id in queue.rows && queue.rows[id].status == Q.Executing
      modifies `clock, `world, queue, gpio
      ensures Ready() && world.history.claims == old(world.history.claims)
      ensures id in queue.rows && Processed(queue.rows[id], writes)
      ensures queue.rows[id].status == Q.Completed ==>
        && Accounted(queue.rows[id], old(gpio.now))
        && id in world.cloud.rows && Obeyed(world.cloud.rows[id].command, world.cloud.rows[id].slot)
    {
      if Refuses(gpio.systemState, queue.rows[id]) {
        RefuseClaimed(id, writes.first);
      } else {
        Execute(id, writes);
      }
      if queue.rows[id].status == Q.Completed {
        DoneIsObeyed(id, old(gpio.now));
      }
    }

    /** In FAULT, or with an invalid capability state, the command is refused before any relay is touched. */
    method RefuseClaimed(id: CommandId, writable: bool)
      requires Tracks(P.Claimed(id), gpio.systemState == InFault) && gpio.LockFree()
      requires id in queue.rows && queue.rows[id].status == Q.Executing && Refuses(gpio.systemState, queue.rows[id])
      modifies `clock, `world, queue
      ensures Ready() && world.history.claims == old(world.history.claims)
      ensures Stands(id, old(queue.rows[id]), if writable then Q.Failed else Q.Executing,
        if gpio.systemState == InFault then Fault else CapabilityStateInvalid)
    {
      if gpio.systemState == InFault {
        StoreRefused(id, Fault, writable, true);
      } else {
        StoreRefused(id, CapabilityStateInvalid, writable, false);
      }
    }

    /** A COMPLETED row: its token is the one a success leaves, and the hardware is where it says. */
    ghost predicate Accounted(row: Q.Row, since: int)
      reads gpio`on, gpio`activeSlot, gpio`feedbackEnabled, gpio`summary, gpio`verification
    {
      Performed(row.action, row.slot, since) && row.verification.Some? && P.SuccessToken(row.action, row.verification.value)
    }

    /** The relays are as the cloud's command wants them. */
    ghost predicate Obeyed(command: Command, slot: SlotArg)
      reads gpio`on
    {
      match command
      case SetActiveSlot => slot.Wing? && gpio.on == {slot.slot}
      case OffSlot => slot.Wing? && slot.slot !in gpio.on
      case OffAll => gpio.on == {}
      case _ => false
    }

    lemma DoneIsObeyed(id: CommandId, since: int)
      requires Reachable(world) && world.pi.queue == queue.Content() && id in queue.rows && Accounted(queue.rows[id], since)
      ensures id in world.cloud.rows && Obeyed(world.cloud.rows[id].command, world.cloud.rows[id].slot)
    {
      ReachableIsSafe(world);
      assert S.RowMirrors(world.now, world.cloud.rows, id, world.pi.queue.rows[id]);
    }

    /** The durable outcome of a command whose hardware part has ended. */
    method Settle(id: CommandId, success: bool, token: Token, fault: bool, first: bool, second: bool)
      requires Tracks(P.Running(id), false) && id in queue.rows && queue.rows[id].status == Q.Executing
      requires success ==> P.SuccessToken(queue.rows[id].action, token) && !fault
      modifies `clock, `world, queue
      ensures Tracks(P.Idle, fault) && world.history.claims == old(world.history.claims)
      ensures Stands(id, old(queue.rows[id]),
        if !first then Q.Executing else if !success then Q.Failed else if second then Q.Completed else Q.HardwareVerified, token)
    {
      if success {
        StoreVerified(id, token, first);
        StoreCompleted(id, token, second);
      } else {
        StoreFailed(id, token, first, fault);
      }
    }

    ghost method Begin(id: CommandId)
      requires Tracks(P.Claimed(id), false) && id in queue.rows
      modifies `world
      ensures Tracks(P.Running(id), false) && world.history == old(world.history)
    {
      Do(P.Start);
    }

    ghost method SaveFailed(id: CommandId)
      requires Tracks(P.Claimed(id), false)
      modifies `world
      ensures Tracks(P.Idle, true) && world.history == old(world.history)
    {
      Do(P.SaveFails);
    }

    ghost method Faulted(before: bool)
      requires Tracks(P.Idle, before)
      modifies `world
      ensures Tracks(P.Idle, true) && world.history == old(world.history)
    {
      Do(P.RaiseFault);
    }

    /** What became of the row of a command that was carried out. */
    ghost predicate CarriedOut(row: Q.Row, since: int, writes: Writes)
      reads this, gpio
    {
      && Settled(row, Succeeded(row), writes)
      && (row.status == Q.Completed ==> Accounted(row, since))
      && (row.status == Q.Failed ==> row.verification == Some(SlotToken(row.slot)))
    }

    /** EXECUTING is stored: announce it, operate the hardware, store the outcome. */
    method CarryOut(id: CommandId, writes: Writes)
      requires Tracks(P.Claimed(id), false) && gpio.LockFree() && gpio.systemState == Executing
      requires id in queue.rows && queue.rows[id].status == Q.Executing
      modifies `clock, `world, queue, gpio
      ensures Ready() && world.history.claims == old(world.history.claims)
      ensures id in queue.rows && queue.rows[id].action == old(queue.rows[id].action)
      ensures CarriedOut(queue.rows[id], old(gpio.now), writes)
      ensures gpio.systemState == G.Ready || (gpio.systemState == InFault && gpio.on == {} && FeedbackFailed(|old(gpio.trace)|))
    {
      var row := queue.rows[id];
      Begin(id);
      var success, token := Operate(row.action, row.slot);
      Conclude(id, success, token, old(gpio.now), writes);
      BackToReady(queue.rows[id], old(gpio.now), writes);
    }

    /** The row of a command whose hardware part has ended. */
    method Conclude(id: CommandId, success: bool, token: Token, ghost since: int, writes: Writes)
      requires Tracks(P.Running(id), false) && gpio.LockFree() && gpio.systemState in {Executing, InFault}
      requires id in queue.rows && queue.rows[id].status == Q.Executing
      requires success <==> Succeeded(queue.rows[id])
      requires success ==> P.SuccessToken(queue.rows[id].action, token) && Performed(queue.rows[id].action, queue.rows[id].slot, since)
      requires !success ==> token == SlotToken(queue.rows[id].slot)
      modifies `clock, `world, queue
      ensures Tracks(P.Idle, gpio.systemState == InFault)
      ensures world.history.claims == old(world.history.claims)
      ensures id in queue.rows && queue.rows[id].action == old(queue.rows[id].action)
      ensures CarriedOut(queue.rows[id], since, writes)
    {
      Settle(id, success, token, gpio.systemState == InFault, writes.first, writes.second);
    }

    method BackToReady(ghost row: Q.Row, ghost since: int, ghost writes: Writes)
      requires Tracks(P.Idle, gpio.systemState == InFault) && gpio.LockFree() && CarriedOut(row, since, writes)
      modifies gpio`systemState
      ensures Ready() && CarriedOut(row, since, writes)
      ensures gpio.systemState == if old(gpio.systemState) == InFault then InFault else G.Ready
    {
      if gpio.systemState != InFault {
        gpio.systemState := G.Ready;
      }
    }

    method Execute(id: CommandId, writes: Writes)
      requires Tracks(P.Claimed(id), false) && gpio.LockFree() && gpio.systemState != InFault
      requires id in queue.rows && queue.rows[id].status == Q.Executing
      modifies `clock, `world, queue, gpio
      ensures Ready() && world.history.claims == old(world.history.claims)
      ensures id in queue.rows && queue.rows[id].action == old(queue.rows[id].action)
      ensures !writes.saved ==> queue.rows == old(queue.rows) && gpio.on == old(gpio.on) && gpio.trace == old(gpio.trace)
      ensures !writes.saved ==> gpio.systemState == InFault
      ensures writes.saved ==> CarriedOut(queue.rows[id], old(gpio.now), writes)
      ensures writes.saved ==>
        gpio.systemState == G.Ready || (gpio.systemState == InFault && gpio.on == {} && FeedbackFailed(|old(gpio.trace)|))
    {
      gpio.systemState := Executing;
      if writes.saved {
        CarryOut(id, writes);
      } else {
        gpio.systemState := InFault;
        SaveFailed(id);
      }
    }

    // ---------------------------------------------------------- the other users of the relays

    predicate MayRun(state: SystemState, on: bool)
      reads `capabilityInvalid
    {
      state in {G.Ready, CloudOffline} && !(on && capabilityInvalid)
    }

    /** _execute_local_transition, as the energy allocator calls it. No queue row is involved. `ran`
      * is false when the request was rejected before any hardware step: outside READY and CLOUD_OFFLINE, for
      * an ON with an invalid capability state, or because the state could not be saved. A request that ran
      * fails only in FAULT, for feedback that failed, or without relays. */
    method ExecuteLocalTransition(slot: Slot, on: bool, saved: bool) returns (success: bool, ran: bool)
      requires Ready()
      modifies `clock, `world, gpio
      ensures Ready() && world.history == old(world.history)
      ensures ran <==> saved && MayRun(old(gpio.systemState), on)
      ensures success <==> ran && gpio.systemState != InFault && gpio.relays != {}
      ensures success ==> Performed(if on then Activate else Deactivate, Wing(slot), old(gpio.now))
      ensures !ran ==> gpio.on == old(gpio.on) && gpio.trace == old(gpio.trace) && gpio.activeSlot == old(gpio.activeSlot)
      ensures !MayRun(old(gpio.systemState), on) ==> gpio.systemState == old(gpio.systemState)
      ensures !ran && MayRun(old(gpio.systemState), on) ==> gpio.systemState == InFault
      ensures ran ==>
        gpio.systemState == old(gpio.systemState) || (gpio.systemState == InFault && gpio.on == {} && FeedbackFailed(|old(gpio.trace)|))
    {
      if on && capabilityInvalid {
        return false, false;
      }
      if gpio.systemState != G.Ready && gpio.systemState != CloudOffline {
        return false, false;
      }
      var prior := gpio.systemState;
      gpio.systemState := Executing;
      if !saved {
        gpio.systemState := InFault;
        Faulted(false);
        return false, false;
      }
      var token;
      success, token := Operate(if on then Activate else Deactivate, Wing(slot));
      if gpio.systemState == InFault {
        Faulted(false);
      } else {
        gpio.systemState := prior;
      }
      ran := true;
    }

    /** A pass of the feedback monitor, between two passes of the main loop. */
    method Monitor()
      requires Ready()
      modifies `world, gpio
      ensures Ready() && world.history == old(world.history)
      ensures gpio.systemState == old(gpio.systemState) || (gpio.systemState == InFault && gpio.on == {})
      ensures gpio.systemState == old(gpio.systemState) ==> gpio.on == old(gpio.on)
      ensures gpio.systemState != old(gpio.systemState) && gpio.relays != {} ==> FeedbackFailed(|old(gpio.trace)|)
    {
      ghost var why;
      why := gpio.MonitorPass();
      if gpio.systemState == InFault {
        Faulted(old(gpio.systemState) == InFault);
      }
    }

    // ---------------------------------------------------------- what a sync reports

    /** The command part of the sync request: the last executed sequence number, and the commands begun last. */
    method ReportExecuted() returns (ids: seq<CommandId>)
      requires Ready()
      modifies `world
      ensures Ready() && world.history == old(world.history) && world.net.acks == old(world.net.acks)
      ensures Q.IsExecutedReport(queue.Content(), ids)
      ensures world.net.requests == old(world.net.requests) + {K.SyncRequest(queue.lastExecuted, set id | id in ids)}
    {
      ids := queue.GetExecutedCommandIds();
      Do(P.SendSync(ids));
    }

    // ---------------------------------------------------------- _accept_cloud_command

    /** What the Pi does for a cloud command. */
    predicate ActsFor(command: Command, action: Action) {
      || (command == SetActiveSlot && action == Activate)
      || (command == OffSlot && action == Deactivate)
      || (command == OffAll && action == DeactivateAll)
    }

    /** The offer names a wing, or none, and is still alive at `now`. */
    predicate Acceptable(offer: P.Offer, now: int) {
      offer.slot != BadSlot && offer.command.Hardware() && (offer.expiresAt.Some? ==> now < offer.expiresAt.value)
    }

    /** The row that a new command enters the queue with: it lives for five minutes, and never longer than in
      * the cloud. */
    predicate Entered(row: Q.Row, offer: P.Offer, now: int) {
      && row.slot == offer.slot && ActsFor(offer.command, row.action) && row.status == Q.Delivered && row.ack == Q.AckPending
      && row.createdAt == now && row.deliveredAt == now && row.startedAt.None? && row.completedAt.None? && row.ackedAt.None?
      && row.sequence == Some(offer.sequence) && row.cloudAttempt == Some(offer.attempt)
      && row.expiresAt.Some?
      && (row.expiresAt.value == now + 300 * SECOND || Some(row.expiresAt.value) == offer.expiresAt)
      && row.expiresAt.value <= now + 300 * SECOND && (offer.expiresAt.Some? ==> row.expiresAt.value <= offer.expiresAt.value)
    }

    /** Everything but a software command. A live command for a wing enters the queue, once; the others are
      * answered with FAILED when they name no wing, and with EXPIRED when their life is over. */
    method AcceptCloudCommand(offer: P.Offer, writable: bool)
      requires Ready() && offer in world.net.offers
      requires offer.slot == BadSlot || offer.command.Hardware()
      modifies `clock, `world, queue
      ensures Ready() && world.history == old(world.history) && queue.lastExecuted == old(queue.lastExecuted)
      ensures queue.rows.Keys == old(queue.rows.Keys) + if writable && Acceptable(offer, clock) then {offer.id} else {}
      ensures forall id | id in old(queue.rows) :: queue.rows[id] == old(queue.rows[id])
      ensures offer.id in queue.rows && offer.id !in old(queue.rows) ==> Entered(queue.rows[offer.id], offer, clock)
      ensures world.net.acks == old(world.net.acks) +
        if offer.slot == BadSlot then {K.Ack(offer.id, K.Executing, NotAvailable, None), K.Ack(offer.id, K.Failed, NotAvailable, None)}
        else if !Acceptable(offer, clock) then {K.Ack(offer.id, K.Expired, NotAvailable, Some(offer.attempt))}
        else {}
    {
      var t := Now();
      TakeIn(offer, t, writable);
      DoAccept(offer, writable);
    }

    /** The queue after an accepted offer, or as it was. */
    ghost function TakenIn(q: Q.Queue, offer: P.Offer, now: int, writable: bool): Q.Queue {
      if offer.slot == BadSlot || Normalize(offer.command).None? || P.LocalExpiry(offer.expiresAt, now).None? || !writable then q
      else Q.Insert(q, offer.id, Q.NewRow(offer.slot, Normalize(offer.command).value, now, P.LocalExpiry(offer.expiresAt, now),
                                          Some(offer.sequence), Some(offer.attempt), now)).0
    }

    method TakeIn(offer: P.Offer, now: int, writable: bool)
      modifies queue
      ensures queue.Content() == TakenIn(old(queue.Content()), offer, now, writable)
    {
      if offer.slot != BadSlot && Normalize(offer.command).Some? {
        var expiry := P.LocalExpiry(offer.expiresAt, now);
        if expiry.Some? {
          var ok := queue.AddCommand(offer.id, offer.slot, Normalize(offer.command).value, now, expiry,
                                     Some(offer.sequence), Some(offer.attempt), writable, now);
        }
      }
    }

    ghost method DoAccept(offer: P.Offer, writable: bool)
      requires Reachable(world) && world.pi.phase.Idle? && offer in world.net.offers
      requires offer.slot == BadSlot || offer.command.Hardware()
      modifies `world
      ensures Reachable(world) && world.now == old(world.now) && world.history == old(world.history)
      ensures world.pi == old(world.pi).(queue := TakenIn(old(world.pi.queue), offer, world.now, writable))
      ensures world.net.acks == old(world.net.acks) +
        if offer.slot == BadSlot then {K.Ack(offer.id, K.Executing, NotAvailable, None), K.Ack(offer.id, K.Failed, NotAvailable, None)}
        else if P.LocalExpiry(offer.expiresAt, world.now).None? then {K.Ack(offer.id, K.Expired, NotAvailable, Some(offer.attempt))}
        else {}
    {
      Do(P.Accept(offer, writable));
    }

    // ---------------------------------------------------------- _run_software_command

    /** _validate_software_command. This build has no display. */
    static predicate Supported(offer: P.Offer) {
      match offer.command
      case SetDays => offer.slot.Wing? && 0 <= offer.param <= 31
      case SetResetDay => 1 <= offer.param <= 28
      case ResetDays => true
      case Restart => true
      case Reboot => true
      case _ => false
    }

    /** The report of a software command; `effect` says that the counters were stored, for reset_days, or that
      * no firmware is on trial, for restart and reboot. */
    static function Report(offer: P.Offer, effect: bool): K.Ack
      requires !offer.command.Hardware()
    {
      if Ends(offer, effect) then K.Ack(offer.id, K.Completed, K.SoftwareResult(offer.command), Some(offer.attempt))
      else K.Ack(offer.id, K.Failed, NotAvailable, Some(offer.attempt))
    }

    static predicate Ends(offer: P.Offer, effect: bool) {
      Supported(offer) && (offer.command in {ResetDays, Restart, Reboot} ==> effect)
    }

    static function Announcement(offer: P.Offer): K.Ack {
      K.Ack(offer.id, K.Executing, Token.Pending, Some(offer.attempt))
    }

    static function Acknowledged(offer: P.Offer): K.Ack
      requires !offer.command.Hardware()
    {
      K.Ack(offer.id, K.Acked, K.SoftwareResult(offer.command), Some(offer.attempt))
    }

    /** A software command that the cloud offered, and the controller between two passes. */
    ghost predicate AtHand(offer: P.Offer)
      reads this, gpio, queue
    {
      Ready() && offer in world.net.offers && offer.slot != BadSlot && !offer.command.Hardware()
    }

    method Announce(offer: P.Offer, r: Response, ghost heard: P.State)
      requires AtHand(offer) && Answered(world, P.SoftExecuting(offer), Announcement(offer), r, heard)
      modifies `clock, `world
      ensures AtHand(offer) && world == heard && world.history == old(world.history)
      ensures world.net.acks == old(world.net.acks) + {Announcement(offer)}
      ensures r.http == Accepted ==> P.GotOk(world.net, Announcement(offer))
    {
      Do(P.SoftExecuting(offer));
      clock, world := r.at, heard;
    }

    method TellOutcome(offer: P.Offer, effect: bool, r: Response, ghost heard: P.State)
      requires AtHand(offer) && P.GotOk(world.net, Announcement(offer))
      requires Answered(world, P.SoftTerminal(offer, Ends(offer, effect)), Report(offer, effect), r, heard)
      modifies `clock, `world
      ensures AtHand(offer) && world == heard && world.history == old(world.history)
      ensures world.net.acks == old(world.net.acks) + {Report(offer, effect)}
      ensures r.http == Accepted ==> P.GotOk(world.net, Report(offer, effect))
    {
      Do(P.SoftTerminal(offer, Ends(offer, effect)));
      clock, world := r.at, heard;
    }

    method TellAcked(offer: P.Offer, r: Response, ghost heard: P.State)
      requires AtHand(offer) && Supported(offer) && P.GotOk(world.net, Report(offer, true))
      requires Answered(world, P.SoftAcked(offer), Acknowledged(offer), r, heard)
      modifies `clock, `world
      ensures AtHand(offer) && world == heard && clock == r.at && world.history == old(world.history)
      ensures world.net.acks == old(world.net.acks) + {Acknowledged(offer)}
    {
      Do(P.SoftAcked(offer));
      clock, world := r.at, heard;
    }

    /** _run_software_command. EXECUTING is announced first, and only when the cloud took it the command is judged
      * and reported: COMPLETED with its own result, or FAILED. ACKED follows an accepted COMPLETED, and only then
      * a restart or reboot is requested. The queue and the relays are not touched. */
    method RunSoftwareCommand(offer: P.Offer, effect: bool, first: Response, second: Response, third: Response, ghost heard: seq<P.State>)
      requires AtHand(offer) && |heard| == 3
      requires Answered(world, P.SoftExecuting(offer), Announcement(offer), first, heard[0])
      requires first.http == Accepted ==>
        Answered(heard[0], P.SoftTerminal(offer, Ends(offer, effect)), Report(offer, effect), second, heard[1])
      requires first.http == Accepted && Ends(offer, effect) && second.http == Accepted ==>
        Answered(heard[1], P.SoftAcked(offer), Acknowledged(offer), third, heard[2])
      modifies `clock, `world, `restartRequested, `rebootRequested
      ensures Ready() && world.history == old(world.history)
      ensures var reported := first.http == Accepted; var completed := reported && Ends(offer, effect) && second.http == Accepted;
        && world.net.acks == old(world.net.acks) + {Announcement(offer)} + (if reported then {Report(offer, effect)} else {})
             + (if completed then {Acknowledged(offer)} else {})
        && restartRequested == (old(restartRequested) || (completed && third.http == Accepted && offer.command == Restart))
        && rebootRequested == (old(rebootRequested) || (completed && third.http == Accepted && offer.command == Reboot))
    {
      Announce(offer, first, heard[0]);
      if first.http != Accepted {
        return;
      }
      TellOutcome(offer, effect, second, heard[1]);
      if !Ends(offer, effect) || second.http != Accepted {
        return;
      }
      TellAcked(offer, third, heard[2]);
      if third.http == Accepted {
        restartRequested := restartRequested || offer.command == Restart;
        rebootRequested := rebootRequested || offer.command == Reboot;
      }
    }

    // ---------------------------------------------------------- cleanup_acked, once an hour

    method CleanUp(writable: bool) returns (deleted: nat, ghost victims: seq<CommandId>)
      requires Ready()
      modifies `clock, `world, queue
      ensures Ready() && world.history == old(world.history) && queue.lastExecuted == old(queue.lastExecuted)
      ensures writable ==> Q.IsCleanup(old(queue.rows), clock, victims, queue.rows) && deleted == |victims|
      ensures !writable ==> queue.rows == old(queue.rows) && deleted == 0
    {
      var t := Now();
      deleted, victims := queue.CleanupAcked(writable, t);
      if writable {
        Do(P.Cleanup(victims));
      }
    }

    // ---------------------------------------------------------- flush_acks

    /** get_unacked()[:1]: the pending final row that was completed first, if there is any. */
    method NextUnacked() returns (next: Option<CommandId>)
      requires Ready()
      ensures next.None? ==> forall id | id in queue.rows :: !Q.Unacked(queue.rows[id])
      ensures next.Some? ==> next.value in queue.rows && Q.Unacked(queue.rows[next.value])
      ensures next.Some? ==> forall id | id in queue.rows && Q.Unacked(queue.rows[id]) ::
        Q.CompletedKey(queue.rows[next.value]) <= Q.CompletedKey(queue.rows[id])
    {
      var page := queue.GetUnacked();
      PageHead(queue.Content(), page);
      return if page == [] then None else Some(page[0]);
    }

    /** What comes of one row: `terminal` and `acked` are the responses to the two messages, and the ghost
      * states are the world when they arrive. The row is acknowledged exactly when both messages were
      * accepted, rejected exactly on a conflict, and otherwise left for a later pass; its status never
      * changes and no other row is touched. */
    method FlushRow(id: CommandId, terminal: Http, acked: Http, heardAt: int, endedAt: int, writable: bool,
                    ghost heard: P.State, ghost ended: P.State)
      requires Ready() && id in queue.rows && Q.Unacked(queue.rows[id])
      requires Heard(P.Apply(world, P.SendTerminal(id)), heard, heardAt, P.TerminalAck(id, queue.rows[id]), terminal)
      requires terminal == Accepted ==>
        Heard(P.Apply(heard, P.SendAcked(id)), ended, endedAt, P.AckedAck(id, queue.rows[id]), acked)
      modifies `clock, `world, queue
      ensures Ready() && world.history == old(world.history)
      ensures world.net.acks == old(world.net.acks) + {P.TerminalAck(id, old(queue.rows[id]))}
        + if terminal == Accepted then {P.AckedAck(id, old(queue.rows[id]))} else {}
      ensures var outcome := if terminal == Accepted then acked else terminal;
        queue.rows == if !writable || outcome == Unreachable then old(queue.rows) else
          old(queue.rows)[id := old(queue.rows[id]).(ack := if outcome == Accepted then Q.AckAcked else Q.AckRejected, ackedAt := Some(clock))]
    {
      var row := queue.rows[id];
      Do(P.SendTerminal(id));
      clock, world := heardAt, heard;
      var outcome := terminal;
      if outcome == Accepted {
        Do(P.SendAcked(id));
        clock, world := endedAt, ended;
        outcome := acked;
      }
      if outcome == Accepted {
        StoreAcked(id, writable, gpio.systemState == InFault);
      } else if outcome == Conflicting {
        StoreRejected(id, writable, gpio.systemState == InFault);
      }
    }

    method StoreAcked(id: CommandId, writable: bool, ghost fault: bool)
      requires Tracks(P.Idle, fault) && id in queue.rows && Q.Unacked(queue.rows[id])
      requires P.GotOk(world.net, P.AckedAck(id, queue.rows[id]))
      modifies `world, queue
      ensures Tracks(P.Idle, fault) && world.history == old(world.history) && world.net == old(world.net)
      ensures queue.rows == if writable then old(queue.rows)[id := old(queue.rows[id]).(ack := Q.AckAcked, ackedAt := Some(clock))] else old(queue.rows)
    {
      var ok := queue.MarkAcked(id, writable, clock);
      Do(P.Confirm(id, writable));
    }

    method StoreRejected(id: CommandId, writable: bool, ghost fault: bool)
      requires Tracks(P.Idle, fault) && id in queue.rows && Q.Unacked(queue.rows[id])
      requires P.GotConflict(world.net, P.TerminalAck(id, queue.rows[id])) || P.GotConflict(world.net, P.AckedAck(id, queue.rows[id]))
      modifies `world, queue
      ensures Tracks(P.Idle, fault) && world.history == old(world.history) && world.net == old(world.net)
      ensures queue.rows == if writable then old(queue.rows)[id := old(queue.rows[id]).(ack := Q.AckRejected, ackedAt := Some(clock))] else old(queue.rows)
    {
      var ok := queue.MarkAckRejected(id, writable, clock);
      Do(P.Reject(id, writable));
    }

    // ---------------------------------------------------------- boot and _recover_interrupted_commands

    /** The row of this command alone changed, and it is still the same command. */
    twostate predicate OnlyRow(id: CommandId)
      reads queue
    {
      && id in old(queue.rows) && queue.rows.Keys == old(queue.rows.Keys)
      && queue.rows[id].action == old(queue.rows[id].action) && queue.rows[id].slot == old(queue.rows[id].slot)
      && forall other | other in queue.rows && other != id :: queue.rows[other] == old(queue.rows[other])
    }

    /** The protocol step of a recovery write, on the queue as it was before the write. */
    ghost method DoRecover(id: CommandId, active: Option<Slot>, rest: seq<CommandId>, writable: bool)
      requires Reachable(world) && world.pi.phase == P.Recovering(active, [id] + rest) && id in world.pi.queue.rows
      requires world.pi.queue.rows[id].status != Q.HardwareVerified || !P.RecoveredBy(world.pi.queue.rows[id], active)
      modifies `world
      ensures Reachable(world) && world.now == old(world.now) && world.history.claims == old(world.history.claims)
      ensures var q, row := old(world.pi.queue), old(world.pi.queue.rows[id]);
        var found, token := P.RecoveredBy(row, active), P.RecoveryToken(row.action);
        world.pi == old(world.pi).(
          queue := (if !writable then q
                    else Q.Update(q, id, if found then Q.HardwareVerified else Q.UnknownAfterReboot, Some(if found then token else Unknown), world.now).0),
          phase := if found then P.RecoverEnding(active, id, token, rest) else P.Recovering(active, rest))
    {
      assert ([id] + rest)[1..] == rest;
      Do(P.Recover(writable));
    }

    ghost method DoRecoverEnd(id: CommandId, active: Option<Slot>, token: Token, rest: seq<CommandId>, writable: bool)
      requires Reachable(world) && world.pi.phase == P.RecoverEnding(active, id, token, rest)
      modifies `world
      ensures Reachable(world) && world.now == old(world.now) && world.history.claims == old(world.history.claims)
      ensures world.pi == old(world.pi).(
        queue := (if writable then Q.Update(old(world.pi.queue), id, Q.Completed, Some(token), world.now).0 else old(world.pi.queue)),
        phase := P.Recovering(active, rest))
    {
      Do(P.RecoverEnd(writable));
    }

    /** The command at the head of the list is not found done. */
    method StoreUnknown(id: CommandId, active: Option<Slot>, ghost rest: seq<CommandId>, writable: bool)
      requires Tracks(P.Recovering(active, [id] + rest), false) && id in queue.rows && !P.RecoveredBy(queue.rows[id], active)
      modifies `clock, `world, queue
      ensures Tracks(P.Recovering(active, rest), false) && world.history.claims == old(world.history.claims)
      ensures OnlyRow(id)
      ensures if writable && old(queue.rows[id]).status in {Q.Executing}
        then queue.rows[id].status == Q.UnknownAfterReboot && queue.rows[id].verification == Some(Unknown)
        else queue.rows[id] == old(queue.rows[id])
    {
      Store(id, Q.UnknownAfterReboot, Unknown, writable);
      DoRecover(id, active, rest, writable);
    }

    ghost method AlreadyVerified(id: CommandId, active: Option<Slot>, rest: seq<CommandId>)
      requires Tracks(P.Recovering(active, [id] + rest), false) && id in queue.rows && P.RecoveredBy(queue.rows[id], active)
      requires queue.rows[id].status == Q.HardwareVerified
      modifies `world
      ensures Tracks(P.RecoverEnding(active, id, P.RecoveryToken(queue.rows[id].action), rest), false)
      ensures world.history.claims == old(world.history.claims)
    {
      assert ([id] + rest)[1..] == rest;
      Do(P.Recover(true));
    }

    method StoreFoundVerified(id: CommandId, active: Option<Slot>, ghost rest: seq<CommandId>, writable: bool)
      requires Tracks(P.Recovering(active, [id] + rest), false) && id in queue.rows && P.RecoveredBy(queue.rows[id], active)
      requires queue.rows[id].status != Q.HardwareVerified
      modifies `clock, `world, queue
      ensures Tracks(P.RecoverEnding(active, id, P.RecoveryToken(old(queue.rows[id]).action), rest), false)
      ensures world.history.claims == old(world.history.claims)
      ensures OnlyRow(id)
      ensures if writable && old(queue.rows[id]).status in {Q.Executing, Q.UnknownAfterReboot}
        then queue.rows[id].status == Q.HardwareVerified else queue.rows[id] == old(queue.rows[id])
    {
      Store(id, Q.HardwareVerified, P.RecoveryToken(queue.rows[id].action), writable);
      DoRecover(id, active, rest, writable);
    }

    /** It is found done: HARDWARE_VERIFIED first, unless the row already says so. */
    method StoreFound(id: CommandId, active: Option<Slot>, ghost rest: seq<CommandId>, writable: bool) returns (token: Token)
      requires Tracks(P.Recovering(active, [id] + rest), false) && id in queue.rows && P.RecoveredBy(queue.rows[id], active)
      modifies `clock, `world, queue
      ensures token == P.RecoveryToken(old(queue.rows[id]).action)
      ensures Tracks(P.RecoverEnding(active, id, token, rest), false) && world.history.claims == old(world.history.claims)
      ensures OnlyRow(id)
      ensures queue.rows[id] == old(queue.rows[id]) || queue.rows[id].status == Q.HardwareVerified
      ensures !Q.Interrupted(old(queue.rows[id])) ==> queue.rows[id] == old(queue.rows[id])
      ensures writable && Q.Interrupted(old(queue.rows[id])) ==> queue.rows[id].status == Q.HardwareVerified
    {
      token := P.RecoveryToken(queue.rows[id].action);
      if queue.rows[id].status == Q.HardwareVerified {
        AlreadyVerified(id, active, rest);
      } else {
        StoreFoundVerified(id, active, rest, writable);
      }
    }

    method StoreRecovered(id: CommandId, active: Option<Slot>, token: Token, ghost rest: seq<CommandId>, writable: bool)
      requires Tracks(P.RecoverEnding(active, id, token, rest), false) && id in queue.rows
      modifies `clock, `world, queue
      ensures Tracks(P.Recovering(active, rest), false) && world.history.claims == old(world.history.claims)
      ensures OnlyRow(id)
      ensures if writable && old(queue.rows[id]).status in {Q.HardwareVerified, Q.UnknownAfterReboot}
        then queue.rows[id].status == Q.Completed && queue.rows[id].verification == Some(token)
        else queue.rows[id] == old(queue.rows[id])
    {
      Store(id, Q.Completed, token, writable);
      DoRecoverEnd(id, active, token, rest, writable);
    }

    method RecoverOne(id: CommandId, active: Option<Slot>, ghost rest: seq<CommandId>, writes: Writes)
      requires Tracks(P.Recovering(active, [id] + rest), false) && id in queue.rows
      modifies `clock, `world, queue
      ensures Tracks(P.Recovering(active, rest), false) && world.history.claims == old(world.history.claims)
      ensures Recovered(old(queue.rows), queue.rows, active)
      ensures forall other | other in queue.rows && other != id :: queue.rows[other] == old(queue.rows[other])
      ensures writes.first && writes.second && Q.Interrupted(old(queue.rows[id])) ==> Resolved(old(queue.rows[id]), queue.rows[id], active)
    {
      if P.RecoveredBy(queue.rows[id], active) {
        RecoverFound(id, active, rest, writes);
      } else {
        StoreUnknown(id, active, rest, writes.first);
      }
    }

    method RecoverFound(id: CommandId, active: Option<Slot>, ghost rest: seq<CommandId>, writes: Writes)
      requires Tracks(P.Recovering(active, [id] + rest), false) && id in queue.rows && P.RecoveredBy(queue.rows[id], active)
      modifies `clock, `world, queue
      ensures Tracks(P.Recovering(active, rest), false) && world.history.claims == old(world.history.claims)
      ensures OnlyRow(id)
      ensures queue.rows[id] == old(queue.rows[id]) || queue.rows[id].status == Q.HardwareVerified
        || (queue.rows[id].status == Q.Completed && queue.rows[id].verification == Some(P.RecoveryToken(queue.rows[id].action)))
      ensures !Q.Interrupted(old(queue.rows[id])) ==> queue.rows[id] == old(queue.rows[id])
      ensures writes.first && writes.second && Q.Interrupted(old(queue.rows[id])) ==> queue.rows[id].status == Q.Completed
    {
      var token := StoreFound(id, active, rest, writes.first);
      StoreRecovered(id, active, token, rest, writes.second);
    }

    method RecoverNext(todo: seq<CommandId>, k: nat, active: Option<Slot>, writes: Writes, ghost first: map<CommandId, Q.Row>)
      requires k < |todo| && Tracks(P.Recovering(active, todo[k..]), false) && todo[k] in queue.rows
      requires Recovered(first, queue.rows, active)
      modifies `clock, `world, queue
      ensures Tracks(P.Recovering(active, todo[k + 1..]), false) && world.history.claims == old(world.history.claims)
      ensures Recovered(first, queue.rows, active) && queue.rows.Keys == old(queue.rows.Keys)
      ensures forall other | other in queue.rows && other != todo[k] :: queue.rows[other] == old(queue.rows[other])
      ensures writes.first && writes.second && Q.Interrupted(old(queue.rows[todo[k]])) ==> Resolved(old(queue.rows[todo[k]]), queue.rows[todo[k]], active)
    {
      assert todo[k..] == [todo[k]] + todo[k + 1..];
      RecoverOne(todo[k], active, todo[k + 1..], writes);
      RecoveredTwice(first, old(queue.rows), queue.rows, active);
    }

    /** `storage` says which of a command's two writes take effect. */
    method RecoverEach(todo: seq<CommandId>, active: Option<Slot>, storage: CommandId -> Writes)
      requires Tracks(P.Recovering(active, todo), false) && (forall id | id in todo :: id in queue.rows) && Distinct(todo)
      modifies `clock, `world, queue
      ensures Tracks(P.Idle, false) && world.history.claims == old(world.history.claims)
      ensures Recovered(old(queue.rows), queue.rows, active)
      ensures forall id | id in todo && Q.Interrupted(old(queue.rows[id])) && storage(id).first && storage(id).second ::
        Resolved(old(queue.rows[id]), queue.rows[id], active)
    {
      var k := 0;
      assert todo[0..] == todo;
      while k < |todo|
        invariant 0 <= k <= |todo|
        invariant Tracks(P.Recovering(active, todo[k..]), false) && world.history.claims == old(world.history.claims)
        invariant Recovered(old(queue.rows), queue.rows, active)
        invariant forall j | k <= j < |todo| :: queue.rows[todo[j]] == old(queue.rows[todo[j]])
        invariant forall j | 0 <= j < k && Q.Interrupted(old(queue.rows[todo[j]])) && storage(todo[j]).first && storage(todo[j]).second ::
          Resolved(old(queue.rows[todo[j]]), queue.rows[todo[j]], active)
      {
        RecoverNext(todo, k, active, storage(todo[k]), old(queue.rows));
        k := k + 1;
      }
      ghost var done := true;
      Do(P.Recover(done));
    }

    /** Why reconciliation may fail when no relay is driven: there is no hardware, a watched wing was read ON,
      * or its budget was spent. */
    ghost predicate NotReconciled(since: int)
      reads gpio
    {
      gpio.hardwareFault || gpio.now - since >= FEEDBACK_TIMEOUT || exists s :: s in gpio.feedbackEnabled && Showed(gpio.summary, s, true, since)
    }

    /** Reconcile, and once more when commands were interrupted. */
    method ReconcileTwice() returns (ok: bool, todo: seq<CommandId>)
      requires gpio.LockFree() && gpio.on == {}
      modifies gpio
      ensures gpio.LockFree() && gpio.on == {} && gpio.feedbackEnabled == old(gpio.feedbackEnabled)
      ensures ok ==> gpio.systemState == G.Ready && gpio.activeSlot == None && Q.IsInterruptedList(queue.Content(), todo)
      ensures ok ==> |gpio.attempts| >= |old(gpio.attempts)| + if todo == [] then 2 else 4
      ensures ok ==> forall s | s in gpio.feedbackEnabled :: Showed(gpio.summary, s, false, old(gpio.now))
      ensures !ok ==> gpio.systemState == InFault && NotReconciled(old(gpio.now))
      ensures ok && todo == [] ==> Futile(old(gpio.attempts), gpio.attempts)
    {
      todo := [];
      ok := ReconcileOff();
      if ok {
        todo := queue.GetInterrupted();
        if todo != [] {
          ok := ReconcileOff();
        }
      }
    }

    method ReconcileOff() returns (ok: bool)
      requires gpio.LockFree() && gpio.on == {}
      modifies gpio
      ensures gpio.LockFree() && gpio.on == {} && gpio.feedbackEnabled == old(gpio.feedbackEnabled) && gpio.now >= old(gpio.now)
      ensures ok ==> gpio.systemState == G.Ready && gpio.activeSlot == None && Confirmed(old(gpio.attempts), gpio.attempts)
      ensures ok ==> forall s | s in gpio.feedbackEnabled :: Showed(gpio.summary, s, false, old(gpio.now))
      ensures !ok ==> gpio.systemState == InFault && NotReconciled(old(gpio.now))
      ensures Futile(old(gpio.attempts), gpio.attempts)
    {
      ghost var rounds, start;
      ok, rounds, start := gpio.ReconcileHardwareState();
      if !ok && (exists s :: s in gpio.feedbackEnabled && gpio.Contradicts(gpio.summary, s, {}, old(gpio.now))) {
        ghost var s :| s in gpio.feedbackEnabled && gpio.Contradicts(gpio.summary, s, {}, old(gpio.now));
        assert Showed(gpio.summary, s, true, old(gpio.now));
      }
    }

    ghost method DoBoot(reconciled: bool, active: Option<Slot>, todo: seq<CommandId>)
      requires Reachable(world) && world.pi.phase.Off? && (reconciled ==> Q.IsInterruptedList(world.pi.queue, todo))
      modifies `world
      ensures Reachable(world) && world.now == old(world.now) && world.history == old(world.history)
      ensures world.pi == old(world.pi).(phase := (if reconciled then P.Recovering(active, todo) else P.Idle), fault := !reconciled)
    {
      Do(P.Boot(reconciled, active, todo));
    }

    /** _recover_interrupted_commands, as the protocol's boot step. */
    method RecoverInterrupted(todo: seq<CommandId>, active: Option<Slot>, storage: CommandId -> Writes)
      requires Tracks(P.Off, false) && Q.IsInterruptedList(queue.Content(), todo)
      modifies `clock, `world, queue
      ensures Tracks(P.Idle, false) && world.history.claims == old(world.history.claims)
      ensures Recovered(old(queue.rows), queue.rows, active)
      ensures forall id | id in old(queue.rows) && Q.Interrupted(old(queue.rows[id])) && storage(id).first && storage(id).second ::
        Resolved(old(queue.rows[id]), queue.rows[id], active)
    {
      DoBoot(true, active, todo);
      EveryInterrupted(queue.Content(), todo);
      RecoverEach(todo, active, storage);
    }

    /** boot, with _recover_interrupted_commands. The relays were just driven off, so reconciliation
      * succeeds only with no wing active: an interrupted ACTIVATE is never found done, and only
      * interrupted deactivations become COMPLETED; they all do, when the writes take effect. */
    method Boot(storage: CommandId -> Writes) returns (ok: bool)
      requires Tracks(P.Off, false) && gpio.LockFree() && gpio.on == {}
      modifies `clock, `world, queue, gpio
      ensures Ready() && gpio.on == {} && world.history.claims == old(world.history.claims)
      ensures ok ==> gpio.systemState == G.Ready && gpio.activeSlot == None
      ensures ok ==> forall s | s in gpio.feedbackEnabled :: Showed(gpio.summary, s, false, old(gpio.now))
      ensures ok ==> Recovered(old(queue.rows), queue.rows, None) && OnlyOffCompleted(old(queue.rows), queue.rows)
      ensures ok && (exists id :: id in old(queue.rows) && Q.Interrupted(old(queue.rows[id]))) ==> |gpio.attempts| >= |old(gpio.attempts)| + 4
      ensures ok ==> forall id | id in old(queue.rows) && Q.Interrupted(old(queue.rows[id])) && storage(id).first && storage(id).second ::
        Resolved(old(queue.rows[id]), queue.rows[id], None)
      ensures !ok ==> gpio.systemState == InFault && queue.rows == old(queue.rows) && NotReconciled(old(gpio.now))
    {
      var todo;
      ok, todo := ReconcileTwice();
      if !ok {
        DoBoot(false, None, []);
        return;
      }
      EveryInterrupted(queue.Content(), todo);
      RecoverInterrupted(todo, gpio.activeSlot, storage);
    }
  }

  lemma EveryInterrupted(q: Q.Queue, todo: seq<CommandId>)
    requires Q.IsInterruptedList(q, todo)
    ensures Distinct(todo) && forall id :: id in todo <==> id in q.rows && Q.Interrupted(q.rows[id])
  {
    var ids := Q.InterruptedIds(q.rows);
    assert (map id | id in q.rows :: Q.InterruptedKey(q.rows[id])).Keys == q.rows.Keys;
    AllAreListed(ids, map id | id in q.rows :: Q.InterruptedKey(q.rows[id]), |q.rows|, todo);
    forall id ensures id in todo <==> id in ids {
    }
  }
}
