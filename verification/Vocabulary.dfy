/** Words shared by the cloud, the Pi and the relay layer. */
module Vocabulary {

  datatype Option<+T> = None | Some(value: T)

  datatype Result<+T, +E> = Ok(value: T) | Err(error: E)

  /** The four wings. */
  datatype Slot = A | B | C | D

  const SLOTS: seq<Slot> := [A, B, C, D]

  /** One value for each wing. */
  datatype PerSlot<+T> = PerSlot(a: T, b: T, c: T, d: T) {
    function At(s: Slot): T {
      match s
      case A => a
      case B => b
      case C => c
      case D => d
    }

    function With(s: Slot, v: T): PerSlot<T> {
      match s
      case A => this.(a := v)
      case B => this.(b := v)
      case C => this.(c := v)
      case D => this.(d := v)
    }
  }

  function Everywhere<T>(v: T): PerSlot<T> {
    PerSlot(v, v, v, v)
  }

  /** Timestamps are integers in microseconds, the resolution of the source's datetimes. */
  const SECOND: int := 1_000_000
  const DAY: int := 86_400 * SECOND

  type CommandId = nat

  /** What a command row carries as its slot: nothing, a wing, or text that names no wing. */
  datatype SlotArg = NoSlot | Wing(slot: Slot) | BadSlot

  datatype Command =
    | SetActiveSlot | OffSlot | OffAll
    | SetDays | SetResetDay | ResetDays | LcdDisplay | Restart | Reboot
  {
    predicate Hardware() {
      SetActiveSlot? || OffSlot? || OffAll?
    }
  }

  /** The Pi's name for a hardware command. */
  datatype Action = Activate | Deactivate | DeactivateAll

  function Normalize(command: Command): Option<Action> {
    match command
    case SetActiveSlot => Some(Activate)
    case OffSlot => Some(Deactivate)
    case OffAll => Some(DeactivateAll)
    case _ => None
  }

  /** Every value a verification or result column can hold. */
  datatype Token =
    | VerifiedOn | VerifiedOff | GpioConfirmed
    | MismatchOnOff | MismatchOffOn | Timeout | NotConfigured | NotAvailable | Pending
    | Unknown | Fault | CapabilityStateInvalid
    | ConfigAccepted | StateReset | DisplayUpdated | RestartScheduled | RebootScheduled
  {
    /** POSITIVE_VERIFICATION: physical state was positively verified. */
    predicate Positive() {
      VerifiedOn? || VerifiedOff? || GpioConfirmed?
    }
  }

  function Max(a: int, b: int): int {
    if a < b then b else a
  }
}
