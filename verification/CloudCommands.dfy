/** The cloud's command table for one device (backend/main.py, backend/command_reliability.py,
  * backend/energy_api/day_allocation.py).
  *
  * `Cloud` is what the database holds; one request is one transaction on it. The functions here state what
  * pi_sync, pi_command_ack, queue_command and queue_set_days do; the class in CommandDesk runs their
  * statements and is tied to them.
  */
module CloudCommands {
  import opened Vocabulary

  datatype Status =
    | Queued | Delivered | Executing | HardwareVerified | UnknownAfterReboot
    | Completed | Failed | Expired | Acked
  {
    predicate Terminal() {
      Completed? || Failed? || Expired?
    }

    predicate Waiting() {
      Queued? || Delivered?
    }

    /** APPLIED of day_allocation.py. */
    predicate Applied() {
      Completed? || Acked?
    }
  }

  type BatchId = nat

  /** One pi_commands row. `param` is params.days or params.day. `outcome` is a history variable: the
    * terminal status the row first entered. No rule reads it. */
  datatype Row = Row(
    command: Command,
    slot: SlotArg,
    param: int,
    status: Status,
    createdAt: int,
    expiresAt: int,
    deliveredAt: Option<int>,
    attempt: nat,
    sequence: nat,
    batch: Option<BatchId>,
    result: Option<Token>,
    outcome: Option<Status>)

  /** `targets` is slot_configs.target_days, `resetDay` and `configVersion` belong to the society. */
  datatype Cloud = Cloud(
    rows: map<CommandId, Row>,
    targets: map<Slot, int>,
    resetDay: int,
    configVersion: nat,
    nextSequence: nat)

  const COMMAND_EXPIRY: int := 300 * SECOND
  const DELIVERY_LEASE: int := 120 * SECOND

  // ------------------------------------------------------------ transition tables

  /** COMMAND_TRANSITIONS. */
  function Edges(s: Status): set<Status> {
    match s
    case Queued => {Delivered, Expired}
    case Delivered => {Executing, Expired, UnknownAfterReboot}
    case Executing => {HardwareVerified, Failed, UnknownAfterReboot}
    case HardwareVerified => {Completed, Failed}
    case UnknownAfterReboot => {HardwareVerified, Completed, Failed}
    case Completed => {Acked}
    case Failed => {Acked}
    case Expired => {Acked}
    case Acked => {}
  }

  /** ACK_STATUS_RANK. */
  function Rank(s: Status): nat {
    match s
    case Queued => 0
    case Delivered => 1
    case Executing => 2
    case UnknownAfterReboot => 2
    case HardwareVerified => 3
    case Completed => 4
    case Failed => 4
    case Expired => 4
    case Acked => 5
  }

  /** SOFTWARE_RESULTS. */
  function SoftwareResult(c: Command): Token
    requires !c.Hardware()
  {
    match c
    case SetDays => ConfigAccepted
    case SetResetDay => ConfigAccepted
    case ResetDays => StateReset
    case LcdDisplay => DisplayUpdated
    case Restart => RestartScheduled
    case Reboot => RebootScheduled
  }

  /** resolve_ack_path: the hops an ACK implies, or None when it is illegal. */
  function ResolveAckPath(current: Status, target: Status, token: Token, command: Command): Option<seq<Status>> {
    if !command.Hardware() then
      if target == HardwareVerified then None
      else if target == Completed && token != SoftwareResult(command) then None
      else if target in Edges(current) then Some([target])
      else match (current, target)
        case (Executing, Completed) => Some([Completed])
        case (Delivered, Completed) => Some([Executing, Completed])
        case (Delivered, Failed) => Some([Executing, Failed])
        case _ => None
    else if target in Edges(current) then Some([target])
    else match (current, target)
      case (Delivered, HardwareVerified) => Some([Executing, HardwareVerified])
      case (Delivered, Completed) => if token.Positive() then Some([Executing, HardwareVerified, Completed]) else None
      case (Executing, Completed) => if token.Positive() then Some([HardwareVerified, Completed]) else None
      case (Delivered, Failed) => Some([Executing, Failed])
      case _ => None
  }

  // ------------------------------------------------------------ queueing

  function NewRow(command: Command, slot: SlotArg, param: int, sequence: nat, batch: Option<BatchId>, now: int): Row {
    Row(command, slot, param, Queued, now, now + COMMAND_EXPIRY, None, 0, sequence, batch, None, None)
  }

  /** validate_command. */
  predicate ValidCommand(command: Command, slot: SlotArg, param: int) {
    && (command in {SetActiveSlot, SetDays, OffSlot} ==> slot.Wing?)
    && (command == SetDays ==> 0 <= param <= 31)
    && (command == SetResetDay ==> 1 <= param <= 28)
  }

  /** queue_command with a fresh id; the sequence is allocated under the device row lock. */
  function QueueOne(c: Cloud, id: CommandId, command: Command, slot: SlotArg, param: int, now: int): Cloud {
    c.(rows := c.rows[id := NewRow(command, slot, param, c.nextSequence + 1, None, now)],
       nextSequence := c.nextSequence + 1)
  }

  /** queue_set_days: one set_days row per wing, in wing order, on consecutive sequence numbers. */
  function QueueWings(c: Cloud, wings: seq<Slot>, days: map<Slot, int>, ids: seq<CommandId>, batch: BatchId, now: int): Cloud
    requires |wings| == |ids| && forall k | 0 <= k < |wings| :: wings[k] in days
  {
    if wings == [] then c
    else
      var last := |wings| - 1;
      var d := QueueWings(c, wings[..last], days, ids[..last], batch, now);
      d.(rows := d.rows[ids[last] := NewRow(SetDays, Wing(wings[last]), days[wings[last]], d.nextSequence + 1, Some(batch), now)],
         nextSequence := d.nextSequence + 1)
  }

  // ------------------------------------------------------------ sync

  datatype SyncRequest = SyncRequest(lastSequence: nat, executed: set<CommandId>)

  /** What the Pi says it executed is promoted to executing and never delivered again. */
  function Promote(row: Row, executed: bool, now: int): Row {
    if !executed then row
    else
      var d := if row.status == Queued
               then row.(status := Delivered, deliveredAt := Some(if row.deliveredAt.Some? then row.deliveredAt.value else now))
               else row;
      if d.status == Delivered then d.(status := Executing) else d
  }

  function Supersede(row: Row, executed: bool, lastSequence: nat): Row {
    if lastSequence > 0 && row.status == Delivered && row.sequence <= lastSequence && !executed
    then row.(status := UnknownAfterReboot)
    else row
  }

  function Reclaim(row: Row, now: int): Row {
    if row.status == Delivered && row.deliveredAt.Some? && row.deliveredAt.value < now - DELIVERY_LEASE && row.expiresAt > now
    then row.(status := Queued, deliveredAt := None)
    else row
  }

  function ExpireUnstarted(row: Row, now: int): Row {
    if row.status.Waiting() && row.expiresAt <= now
    then row.(status := Expired, outcome := Some(Expired))
    else row
  }

  /** expire_stuck_software_commands. Hardware rows are never selected. */
  function ExpireStuck(row: Row, now: int): Row {
    if row.status == Executing && row.expiresAt <= now && !row.command.Hardware()
    then row.(status := Expired, outcome := Some(Expired))
    else row
  }

  function SyncRow(row: Row, executed: bool, lastSequence: nat, now: int): Row {
    ExpireStuck(ExpireUnstarted(Reclaim(Supersede(Promote(row, executed, now), executed, lastSequence), now), now), now)
  }

  function SyncRows(rows: map<CommandId, Row>, req: SyncRequest, now: int): map<CommandId, Row> {
    map id | id in rows :: SyncRow(rows[id], id in req.executed, req.lastSequence, now)
  }

  /** `ORDER BY sequence_no ASC LIMIT 1` over the queued rows. */
  ghost predicate PicksNext(rows: map<CommandId, Row>, pick: Option<CommandId>) {
    match pick
    case None => forall id | id in rows :: rows[id].status != Queued
    case Some(id) =>
      && id in rows && rows[id].status == Queued
      && forall other | other in rows && rows[other].status == Queued :: rows[id].sequence <= rows[other].sequence
  }

  function Deliver(row: Row, now: int): Row {
    row.(status := Delivered, deliveredAt := Some(now), attempt := row.attempt + 1)
  }

  /** The whole command part of one pi_sync transaction. */
  function Sync(c: Cloud, req: SyncRequest, pick: Option<CommandId>, now: int): Cloud
    requires pick.Some? ==> pick.value in c.rows
  {
    var rows := SyncRows(c.rows, req, now);
    c.(rows := if pick.Some? then rows[pick.value := Deliver(rows[pick.value], now)] else rows)
  }

  // ------------------------------------------------------------ publication

  function Members(rows: map<CommandId, Row>, b: BatchId): set<CommandId> {
    set id | id in rows && rows[id].batch == Some(b)
  }

  /** Every command of the batch is completed or acked, and there is one. */
  predicate FullyApplied(rows: map<CommandId, Row>, b: BatchId) {
    Members(rows, b) != {} && forall id | id in Members(rows, b) :: rows[id].status.Applied()
  }

  /** max(sequence_no) over `ids`. */
  ghost function TopSequence(rows: map<CommandId, Row>, ids: set<CommandId>): (top: nat)
    requires ids <= rows.Keys
    ensures forall id | id in ids :: rows[id].sequence <= top
    ensures ids != {} ==> exists id :: id in ids && rows[id].sequence == top
    decreases |ids|
  {
    if ids == {} then 0
    else
      var id :| id in ids;
      var rest := TopSequence(rows, ids - {id});
      if rows[id].sequence > rest then rows[id].sequence else rest
  }

  ghost function Top(rows: map<CommandId, Row>, b: BatchId): nat {
    TopSequence(rows, Members(rows, b))
  }

  /** Another batch is fully applied too and holds a higher sequence number. */
  ghost predicate Superseded(rows: map<CommandId, Row>, b: BatchId) {
    exists other :: other != b && FullyApplied(rows, other) && Top(rows, other) > Top(rows, b)
  }

  predicate Sets(rows: map<CommandId, Row>, id: CommandId, b: BatchId, s: Slot) {
    id in Members(rows, b) && rows[id].slot == Wing(s)
  }

  /** The batch's value for a wing, or `otherwise` when the batch does not set it. */
  ghost function BatchDays(rows: map<CommandId, Row>, b: BatchId, s: Slot, otherwise: int): int {
    if exists id :: Sets(rows, id, b, s) then
      var id :| Sets(rows, id, b, s);
      rows[id].param
    else otherwise
  }

  ghost predicate Publishes(rows: map<CommandId, Row>, b: BatchId) {
    FullyApplied(rows, b) && !Superseded(rows, b)
  }

  predicate Changes(c: Cloud, id: CommandId, b: BatchId, s: Slot) {
    Sets(c.rows, id, b, s) && (s !in c.targets || c.targets[s] != c.rows[id].param)
  }

  ghost predicate BatchChanges(c: Cloud, b: BatchId) {
    exists id, s :: Changes(c, id, b, s)
  }

  /** publish_completed_batch. UPDATE touches only wings that have a slot_configs row. */
  ghost function Publish(c: Cloud, b: BatchId): Cloud {
    if !Publishes(c.rows, b) then c
    else c.(targets := map s | s in c.targets :: BatchDays(c.rows, b, s, c.targets[s]),
            configVersion := if BatchChanges(c, b) then c.configVersion + 1 else c.configVersion)
  }

  /** newer_set_days_committed. */
  ghost predicate NewerCommitted(rows: map<CommandId, Row>, s: Slot, sequence: nat) {
    exists id :: id in rows && rows[id].command == SetDays && rows[id].slot == Wing(s)
      && rows[id].sequence > sequence && rows[id].status.Applied()
  }

  // ------------------------------------------------------------ acknowledgement

  datatype Ack = Ack(id: CommandId, status: Status, token: Token, attempt: Option<nat>)

  datatype AckCode = ConflictingTerminal | IllegalTransition | StaleAttempt | VerificationRequired | InvalidCommandData

  datatype Reply =
    | UnknownCommand
    | Idempotent(status: Status)
    | Replay(status: Status)
    | Applied(status: Status)
    | Conflict(code: AckCode)
  {
    /** HTTP 200. Everything else here is a 409. */
    predicate Ok() {
      !Conflict?
    }
  }

  /** What the endpoint answers; it writes only when the answer is Applied. */
  function Answer(rows: map<CommandId, Row>, ack: Ack): Reply {
    if ack.id !in rows then UnknownCommand
    else
      var row := rows[ack.id];
      if ack.status == row.status then Idempotent(row.status)
      else if row.status == Acked || Rank(ack.status) < Rank(row.status) then Replay(row.status)
      else if Rank(ack.status) == 4 && Rank(row.status) == 4 then Conflict(ConflictingTerminal)
      else if ResolveAckPath(row.status, ack.status, ack.token, row.command).None? then Conflict(IllegalTransition)
      else if ack.attempt.Some? && ack.attempt.value != row.attempt then Conflict(StaleAttempt)
      else if ack.status == HardwareVerified && !ack.token.Positive() then Conflict(VerificationRequired)
      else if ack.status == Completed && row.command == SetDays && !(row.slot.Wing? && 0 <= row.param <= 31)
      then Conflict(InvalidCommandData)
      else if ack.status == Completed && row.command == SetResetDay && !(1 <= row.param <= 28)
      then Conflict(InvalidCommandData)
      else Applied(ack.status)
  }

  function MoveRow(row: Row, ack: Ack): Row {
    row.(status := ack.status, result := Some(ack.token),
         outcome := if ack.status.Terminal() then Some(ack.status) else row.outcome)
  }

  /** The configuration a completed software command commits outside a batch. */
  ghost function Commit(c: Cloud, row: Row): Cloud {
    if row.command == SetDays && row.slot.Wing? && row.batch.None? then
      if NewerCommitted(c.rows, row.slot.slot, row.sequence) then c
      else c.(targets := if row.slot.slot in c.targets then c.targets[row.slot.slot := row.param] else c.targets,
              configVersion := c.configVersion + 1)
    else if row.command == SetResetDay then
      c.(resetDay := row.param, configVersion := c.configVersion + 1)
    else c
  }

  /** One pi_command_ack transaction. */
  ghost function Acknowledge(c: Cloud, ack: Ack): Cloud {
    if !Answer(c.rows, ack).Applied? then c
    else
      var row := c.rows[ack.id];
      var d := if ack.status == Completed then Commit(c, row) else c;
      var e := d.(rows := d.rows[ack.id := MoveRow(row, ack)]);
      if row.batch.Some? && ack.status.Applied() then Publish(e, row.batch.value) else e
  }
}
