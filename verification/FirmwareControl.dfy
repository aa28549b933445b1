/** The controller's side of a firmware update: the health check after a sync, and the guard under which a
  * release is staged (pi_firmware/ems_controller.py).
  *
  * The guard is a flag in memory, set just before the confirmation is written. A write that raises leaves the
  * flag set and the release on trial, and the main loop goes on.
  */
module FirmwareControl {
  import opened Vocabulary
  import opened FirmwareSlots

  class OtaController {
    const firmware: Firmware
    var version: Version
    var bootConfirmed: bool
    var restartForOta: bool
    var running: bool
    var requested: Option<Release>
    /** This process set the flag, and its confirmation was not written. */
    ghost var unwritten: bool

    ghost predicate Valid()
      reads this, firmware
    {
      && firmware.Safe()
      && (!restartForOta && firmware.OnTrial() ==> firmware.active.value.version == Some(version))
      && (!bootConfirmed ==> !unwritten && requested.None? && !restartForOta)
      && (bootConfirmed && !restartForOta ==> (firmware.OnTrial() <==> unwritten))
      && (requested.Some? ==> firmware.Failures(requested.value.version) < MAX_ATTEMPTS && requested.value.version != version)
      && (restartForOta ==> !running)
    }

    /** A new process; `baseline` is the version of the installation outside the slots. */
    constructor (firmware: Firmware, baseline: Version)
      requires firmware.Safe()
      ensures Valid() && this.firmware == firmware && !bootConfirmed && !unwritten && running
    {
      this.firmware := firmware;
      version := if firmware.active.Some? && firmware.active.value.version.Some? then firmware.active.value.version.value else baseline;
      bootConfirmed, restartForOta, running, requested, unwritten := false, false, true, None, false;
    }

    /** sync_cloud, after a successful sync. `writes` is how many writes take effect. The flag then means that
      * nothing is on trial exactly when something was written or there was nothing to write. */
    method AfterSync(healthy: bool, writes: nat)
      requires Valid() && running
      modifies this, firmware
      ensures Valid()
      ensures old(bootConfirmed) ==> bootConfirmed && unwritten == old(unwritten) && firmware.active == old(firmware.active) && running
      ensures !old(bootConfirmed) ==> (bootConfirmed <==> healthy || !old(firmware.OnTrial()))
      ensures !old(bootConfirmed) && bootConfirmed ==> running && firmware.ActiveHalf() == old(firmware.ActiveHalf())
      ensures !old(bootConfirmed) && bootConfirmed ==>
        (firmware.OnTrial() <==> unwritten) && (unwritten <==> old(firmware.OnTrial()) && writes == 0)
      ensures !old(bootConfirmed) && !bootConfirmed ==>
        && (running <==> writes < 4)
        && firmware.attempts == if writes >= 2 then old(firmware.OneMoreFailure()) else old(firmware.attempts)
      ensures !bootConfirmed && !running ==> !firmware.OnTrial() && firmware.ActiveHalf() == old(TrialOf(firmware.log).from)
      ensures old(firmware.Valid()) ==> firmware.Valid()
      ensures Guarded(firmware.log) <==> old(Guarded(firmware.log))
    {
      if bootConfirmed {
        return;
      }
      firmware.left := writes;
      if firmware.OnTrial() && !healthy {
        var failed := firmware.FailHealth();
        running := failed == Broken;
      } else {
        bootConfirmed := true;
        var confirmed := firmware.ConfirmBoot();
        unwritten := firmware.OnTrial();
      }
    }

    /** Another version, with failures left, offered to a confirmed process that is not restarting, and not an
      * operation that is under way. */
    predicate Wanted(r: Release)
      reads this, firmware
    {
      && bootConfirmed && !restartForOta && r.version != version && firmware.Failures(r.version) < 3
      && !(r.operation.Some? && firmware.pending.operation == r.operation
           && (firmware.pending.phase == Verifying || firmware.pending.phase == Staged || firmware.pending.phase == Activating
               || firmware.pending.phase == HealthCheck))
    }

    /** _consider_firmware: may the offered release be installed? */
    method Consider(r: Release)
      requires Valid() && running
      modifies `requested
      ensures Valid()
      ensures requested == old(requested) || requested == Some(r)
      ensures requested != old(requested) ==> bootConfirmed
      ensures Wanted(r) ==> requested == Some(r)
      ensures !Wanted(r) ==> requested == old(requested)
    {
      if r.version == version || restartForOta || !bootConfirmed {
        return;
      }
      if r.operation.Some? && firmware.pending.operation == r.operation && firmware.pending.phase in {Verifying, Staged, Activating, HealthCheck} {
        return;
      }
      if firmware.Failures(r.version) >= MAX_ATTEMPTS {
        return;
      }
      requested := Some(r);
    }

    /** _run_ota_if_requested. Nothing is staged or activated during a trial, except by a process whose
      * confirmation was not written; and then it is. */
    method RunRequested(allowed: bool, writes: nat, again: Option<nat>)
      requires Valid() && running && requested.Some?
      modifies this, firmware
      ensures Valid() && requested == None && bootConfirmed && unwritten == old(unwritten)
      ensures !allowed ==> firmware.log == old(firmware.log) && firmware.active == old(firmware.active) && running
      ensures old(firmware.Valid()) && !unwritten ==> firmware.Valid() && (Guarded(firmware.log) <==> old(Guarded(firmware.log)))
      ensures unwritten && firmware.log != old(firmware.log) ==> !Guarded(firmware.log)
      ensures allowed && !old(firmware.AlreadyUnderWay(requested.value)) && !old(requested.value.verifies) && writes >= 2 ==>
        firmware.attempts == firmware.OneMore(old(requested.value.version)) && running && firmware.active == old(firmware.active)
      ensures !allowed ==> firmware.attempts == old(firmware.attempts)
      ensures allowed && old(Installs(requested.value)) && writes >= 7 ==>
        && restartForOta && firmware.Trying(old(requested.value)) && firmware.log != old(firmware.log)
        && firmware.ActiveHalf() == Other(old(firmware.ActiveHalf()))
      ensures old(firmware.Bounded() && firmware.WithinBounds(requested.value)) ==> firmware.Bounded()
    {
      var r := requested.value;
      requested := None;
      if !allowed {
        return;
      }
      firmware.left := writes;
      var result := firmware.RunOta(r, version, again);
      if result == Done {
        restartForOta, running := true, false;
      }
    }

    predicate Installs(r: Release)
      reads firmware
    {
      r.verifies && r.intact && !firmware.AlreadyUnderWay(r)
    }
  }

  /** The write of the confirmation raises: the flag is set, the release is still on trial, and the controller
    * goes on. */
  method ConfirmationLost(c: OtaController)
    requires c.Valid() && c.running && !c.bootConfirmed && c.firmware.OnTrial()
    modifies c, c.firmware
    ensures c.Valid() && c.running && c.bootConfirmed && c.unwritten && c.firmware.OnTrial()
    ensures c.firmware.ActiveHalf() == old(c.firmware.ActiveHalf())
  {
    c.AfterSync(true, 0);
  }

  /** The next release is then staged and activated during the trial: it overwrites the half to return to,
    * and what it returns to itself is the release that was never confirmed. */
  method ChainedTrial(c: OtaController, r: Release)
    requires c.Valid() && c.running && c.unwritten && !c.restartForOta
    requires c.Installs(r) && r.operation.None? && r.version != c.version && c.firmware.Failures(r.version) < MAX_ATTEMPTS
    modifies c, c.firmware
    ensures c.firmware.Trying(r) && !Guarded(c.firmware.log)
    ensures TrialOf(c.firmware.log).Trial? && TrialOf(c.firmware.log).from == old(c.firmware.ActiveHalf())
    ensures c.firmware.ActiveHalf() == old(TrialOf(c.firmware.log).from)
  {
    c.Consider(r);
    c.RunRequested(true, 7, None);
  }

  /** And without a further release: the next start rolls the healthy one back. */
  method HealthyRolledBack(c: OtaController)
    requires c.Valid() && c.unwritten && !c.restartForOta && c.firmware.active.value.started
    modifies c.firmware
    ensures c.firmware.Safe() && !c.firmware.OnTrial() && c.firmware.ActiveHalf() == old(TrialOf(c.firmware.log).from)
  {
    var half := c.firmware.Boot(3);
  }
}
