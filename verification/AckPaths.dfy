/** What resolve_ack_path allows (backend/main.py). */
module AckPaths {
  import opened Vocabulary
  import opened CloudCommands

  /** Every hop of `path`, started at `current`, is an edge of COMMAND_TRANSITIONS. */
  predicate FollowsEdges(current: Status, path: seq<Status>)
    decreases path
  {
    path == [] || (path[0] in Edges(current) && FollowsEdges(path[0], path[1..]))
  }

  lemma OneHop(current: Status, target: Status)
    ensures FollowsEdges(current, [target]) <==> target in Edges(current)
  {
    assert [target][1..] == [];
  }

  lemma OneMoreHop(current: Status, hop: Status, rest: seq<Status>)
    ensures FollowsEdges(current, [hop] + rest) <==> hop in Edges(current) && FollowsEdges(hop, rest)
  {
    assert ([hop] + rest)[1..] == rest;
  }

  /** Every path the function can give is one of these. */
  lemma Paths(current: Status, target: Status, token: Token, command: Command)
    requires ResolveAckPath(current, target, token, command).Some?
    ensures var path := ResolveAckPath(current, target, token, command).value;
      || (target in Edges(current) && path == [target])
      || (!command.Hardware() && current == Executing && target == Completed && path == [target])
      || (current == Delivered && target in {HardwareVerified, Failed} && path == [Executing, target])
      || (!command.Hardware() && current == Delivered && target == Completed && path == [Executing, target])
      || (command.Hardware() && current == Executing && target == Completed && path == [HardwareVerified, target])
      || (command.Hardware() && current == Delivered && target == Completed && path == [Executing, HardwareVerified, target])
  {
  }

  /** A path ends at the target and never passes through a terminal or acked state. It follows
    * COMMAND_TRANSITIONS hop by hop exactly when it is not the software jump from executing (or
    * delivered) to completed, which the table does not list. */
  lemma PathShape(current: Status, target: Status, token: Token, command: Command)
    requires ResolveAckPath(current, target, token, command).Some?
    ensures var path := ResolveAckPath(current, target, token, command).value;
      && path != [] && path[|path| - 1] == target
      && (forall k | 0 <= k < |path| - 1 :: !path[k].Terminal() && path[k] != Acked)
      && (current.Terminal() ==> target == Acked) && current != Acked
      && (FollowsEdges(current, path)
          <==> !(!command.Hardware() && target == Completed && current in {Executing, Delivered}))
  {
    Paths(current, target, token, command);
    OneHop(current, target);
    OneHop(Executing, target);
    OneHop(HardwareVerified, target);
    OneMoreHop(current, Executing, [target]);
    OneMoreHop(current, HardwareVerified, [target]);
    OneMoreHop(Executing, HardwareVerified, [target]);
    OneMoreHop(current, Executing, [HardwareVerified, target]);
    assert [Executing] + [target] == [Executing, target] && [HardwareVerified] + [target] == [HardwareVerified, target];
    assert [Executing] + [HardwareVerified, target] == [Executing, HardwareVerified, target];
  }

  /** A software command is completed only by its own result token and never via hardware_verified. */
  lemma SoftwareCompletion(current: Status, target: Status, token: Token, command: Command)
    requires !command.Hardware()
    ensures ResolveAckPath(current, target, token, command).Some? ==>
      && HardwareVerified !in ResolveAckPath(current, target, token, command).value
      && (target == Completed ==> token == SoftwareResult(command))
  {
    var path := ResolveAckPath(current, target, token, command);
    if path.Some? && target !in Edges(current) {
      assert path.value in {[Completed], [Executing, Completed], [Executing, Failed]};
    }
  }

  /** The documented rule "hardware reaches completed only with positive verification" is not what the
    * table does: the two direct edges are unguarded. A token that is not positive completes a
    * hardware command exactly when the row is hardware_verified or unknown_after_reboot. */
  lemma UnverifiedHardwareCompletion(current: Status, token: Token, command: Command)
    requires command.Hardware() && !token.Positive()
    ensures ResolveAckPath(current, Completed, token, command).Some?
      <==> current in {HardwareVerified, UnknownAfterReboot}
  {
    assert Completed in Edges(current) <==> current in {HardwareVerified, UnknownAfterReboot};
  }

  lemma UnverifiedCompletionExample()
    ensures ResolveAckPath(UnknownAfterReboot, Completed, Unknown, SetActiveSlot) == Some([Completed])
  {
    assert Completed in Edges(UnknownAfterReboot);
  }
}
