/** What the allocation policy decides in each situation (pi_firmware/energy/allocation.py), in terms of the
  * configuration and the measurements themselves; and that a full hold window does complete a wing. */
module AllocationLaws {
  import opened Vocabulary
  import opened AllocationPolicy
  import opened AllocationDay

  // ------------------------------------------------------------ clear, eligible, at the threshold

  /** Nothing blocks the allocation: no fault, M1 enabled, online and seen within 60 s, the contactors read, at
    * most one of them closed, and no attribution fault. */
  predicate Clear(ctx: Context) {
    && !ctx.fault && ctx.m1Enabled && ctx.m1Online
    && ctx.m1Seen.Some? && ctx.now - ctx.m1Seen.value <= 60.0
    && (ctx.active.Nothing? || ctx.active.One?) && !ctx.attribution.FaultyAttribution?
  }

  /** The wing may be allocated, and its target. */
  predicate Eligible(wing: Slot, config: Config, ctx: Context) {
    && ctx.wings.At(wing).emsEnabled && config.wings.At(wing).attribution
    && (if !ctx.wings.At(wing).metered then config.wings.At(wing).manualTarget.Some?
        else if ctx.wings.At(wing).target.Some? then ctx.wings.At(wing).target.value > 0.0
        else config.wings.At(wing).manualTarget.Some? && config.wings.At(wing).manualTarget.value > 0.0)
  }

  function TargetOf(wing: Slot, config: Config, ctx: Context): real
    requires Eligible(wing, config, ctx)
  {
    if ctx.wings.At(wing).metered && ctx.wings.At(wing).target.Some? then ctx.wings.At(wing).target.value
    else config.wings.At(wing).manualTarget.value
  }

  predicate Generating(wing: Slot, config: Config, ctx: Context) {
    && Eligible(wing, config, ctx) && ctx.wings.At(wing).generated.Some?
    && ctx.wings.At(wing).generated.value >= TargetOf(wing, config, ctx) + config.tolerance
  }

  /** M1 is enabled and was seen lately. */
  predicate Alive(ctx: Context) {
    ctx.m1Enabled && ctx.m1Online && ctx.m1Seen.Some? && ctx.now - ctx.m1Seen.value <= 60.0
  }

  /** Nothing blocks exactly when all is clear, and otherwise the reason names what is not: a fault before M1,
    * M1 before the contactors, the contactors before the attribution. */
  lemma ClearExactly(ctx: Context)
    ensures GlobalBlock(ctx).None? <==> Clear(ctx)
    ensures GlobalBlock(ctx) == Some(SystemFault) <==> ctx.fault
    ensures GlobalBlock(ctx) == Some(M1Disabled) <==> !ctx.fault && !ctx.m1Enabled
    ensures GlobalBlock(ctx) == Some(M1StaleOrOffline) <==> !ctx.fault && ctx.m1Enabled && !Alive(ctx)
    ensures GlobalBlock(ctx) == Some(MultipleContactorsOn) <==> !ctx.fault && Alive(ctx) && ctx.active.Multiple?
    ensures GlobalBlock(ctx) == Some(FeedbackUnavailable) <==> !ctx.fault && Alive(ctx) && ctx.active.Unverified?
    ensures GlobalBlock(ctx) == Some(AttributionFault) <==>
      !ctx.fault && Alive(ctx) && !ctx.active.Multiple? && !ctx.active.Unverified? && ctx.attribution.FaultyAttribution?
  {
  }

  lemma EligibleExactly(wing: Slot, config: Config, ctx: Context)
    ensures WingTarget(wing, config, ctx).Target? <==> Eligible(wing, config, ctx)
    ensures Eligible(wing, config, ctx) ==> WingTarget(wing, config, ctx) == Target(TargetOf(wing, config, ctx))
    ensures AtThreshold(wing, config, ctx) <==> Generating(wing, config, ctx)
    ensures !ctx.wings.At(wing).emsEnabled ==> WingTarget(wing, config, ctx) == Ineligible(EmsDisabled)
    ensures WingTarget(wing, config, ctx) == Ineligible(AttributionDisabled) <==>
      ctx.wings.At(wing).emsEnabled && !config.wings.At(wing).attribution
    ensures WingTarget(wing, config, ctx) == Ineligible(NoManualTarget) ==> !ctx.wings.At(wing).metered
    ensures WingTarget(wing, config, ctx) == Ineligible(NoValidTarget) ==> ctx.wings.At(wing).metered
  {
  }

  /** What every evaluation of a hold window found. */
  lemma HoldsExactly(wing: Slot, config: Config, ctx: Context)
    ensures Holds(wing, config, ctx) <==>
      && config.enabled && Clear(ctx) && ctx.active == One(wing) && ctx.attribution == AttributedTo(wing)
      && Generating(wing, config, ctx)
  {
    ClearExactly(ctx);
    EligibleExactly(wing, config, ctx);
  }

  /** An action is decided only with the allocation enabled and clear, and with the policy's own wing on: the
    * current one before a DEACTIVATE and before the next ACTIVATE, none before the first ACTIVATE. An ACTIVATE
    * is for an eligible wing. */
  lemma ActsOnlyWhenClear(st: Day, config: Config, ctx: Context)
    requires Booked(st, ctx.date, config.sequence) && Evaluate(st, config, ctx).1.Do?
    ensures config.enabled && Clear(ctx)
    ensures ctx.active == if Today(st, ctx.date).current.Some? then One(Today(st, ctx.date).current.value) else Nothing
    ensures Evaluate(st, config, ctx).1.action == Activate ==> Eligible(Evaluate(st, config, ctx).1.slot, config, ctx)
    ensures Evaluate(st, config, ctx).1.action == Deactivate ==> ctx.active == One(Evaluate(st, config, ctx).1.slot)
  {
    ActsOnlyWhenSafe(st, config, ctx);
    EvaluateMovesToday(st, config, ctx);
    ClearExactly(ctx);
    if Evaluate(st, config, ctx).1.action == Activate {
      ActivatesEligible(Today(st, ctx.date), config, ctx);
    }
  }

  lemma ActivatesEligible(st: Day, config: Config, ctx: Context)
    requires st.date == Some(ctx.date) && Evaluate(st, config, ctx).1.Do? && Evaluate(st, config, ctx).1.action == Activate
    ensures Eligible(Evaluate(st, config, ctx).1.slot, config, ctx)
  {
    var s := st.(reason := None, reconciled := true);
    AdvanceEligible(s, config, ctx);
    if s.current.Some? {
      AdvanceEligible(Entered(s), config, ctx);
    }
  }

  lemma {:induction false} AdvanceEligible(st: Day, config: Config, ctx: Context)
    ensures var (next, decision) := Advance(st, config, ctx);
      decision.Do? && decision.action == Activate ==> Eligible(decision.slot, config, ctx)
    decreases |config.sequence| - st.index
  {
    if st.index < |config.sequence| {
      var wing := config.sequence[st.index];
      EligibleExactly(wing, config, ctx);
      if !Eligible(wing, config, ctx) {
        AdvanceEligible(st.(skipped := st.skipped + [Skip(wing, WingTarget(wing, config, ctx).reason)], index := st.index + 1), config, ctx);
      }
    }
  }

  // ------------------------------------------------------------ moving on

  /** Position k is the next one from `start` on that may be allocated, or the end of the sequence. */
  predicate IsNext(config: Config, ctx: Context, start: nat, k: nat) {
    && start <= k <= |config.sequence|
    && (forall j | start <= j < k :: !Eligible(config.sequence[j], config, ctx))
    && (k < |config.sequence| ==> Eligible(config.sequence[k], config, ctx))
  }

  /** Moving on passes over exactly the ineligible wings, which are skipped in order. The next eligible wing is
    * activated; at the end the last wing is switched off, or the day is done when nothing is on. */
  lemma {:induction false} AdvanceExactly(st: Day, config: Config, ctx: Context, k: nat)
    requires IsNext(config, ctx, st.index, k)
    ensures var (next, decision) := Advance(st, config, ctx);
      && next.index == k && next.completed == st.completed && next.date == st.date
      && |next.skipped| == |st.skipped| + (k - st.index)
      && next.skipped[..|st.skipped|] == st.skipped
      && (forall j | st.index <= j < k :: next.skipped[|st.skipped| + j - st.index].wing == config.sequence[j])
      && (k < |config.sequence| ==>
            && decision == Do(Activate, config.sequence[k]) && next.status == Running && next.current == Some(config.sequence[k])
            && next.heldSince.None? && next.attempts == st.attempts)
      && (k == |config.sequence| && (st.current.None? || ctx.active.Nothing?) ==>
            decision == Rest && next.status == Status.Completed && next.current.None?)
      && (k == |config.sequence| && st.current.Some? && !ctx.active.Nothing? ==>
            && decision == Do(Deactivate, st.current.value) && next.status == Finalizing && next.attempts == 1
            && next.current == st.current)
    decreases k - st.index
  {
    if st.index < |config.sequence| {
      EligibleExactly(config.sequence[st.index], config, ctx);
    }
    if st.index < k {
      var wing := config.sequence[st.index];
      AdvanceExactly(st.(skipped := st.skipped + [Skip(wing, WingTarget(wing, config, ctx).reason)], index := st.index + 1), config, ctx, k);
    }
  }

  /** Today's state before the evaluation is of this kind. */
  predicate Open(st: Day, config: Config, ctx: Context) {
    st.date == Some(ctx.date) && config.enabled && Clear(ctx)
  }

  /** A new operating day keeps nothing of the one before. */
  lemma NewDayIsFresh(st: Day, date: int)
    ensures st.date != Some(date) ==> Today(st, date) == Day(Some(date), Idle, None, 0, None, [], [], None, None, 0, true)
    ensures st.date == Some(date) ==> Today(st, date) == st
  {
  }

  /** A fresh day with nothing on begins with the first eligible wing. */
  lemma DayBegins(st: Day, config: Config, ctx: Context)
    requires Open(st, config, ctx) && st.status == Idle
    ensures ctx.active.Nothing? ==>
      Evaluate(st, config, ctx) == Advance(st.(reason := None, reconciled := true), config, ctx)
    ensures !ctx.active.Nothing? ==>
      Evaluate(st, config, ctx) == (st.(status := Paused, reason := Some(OperatorActiveAtStart), reconciled := true), Rest)
  {
    ClearExactly(ctx);
  }

  // ------------------------------------------------------------ holding a wing

  /** The wing is allocated and on. */
  predicate Allotted(st: Day, config: Config, ctx: Context, wing: Slot) {
    Open(st, config, ctx) && st.status in {Running, Waiting} && st.current == Some(wing) && ctx.active == One(wing)
  }

  /** A wing that lost its target pauses the day; energy attributed elsewhere clears the timer; below the
    * threshold the timer is cleared as well. */
  lemma NotHeld(st: Day, config: Config, ctx: Context, wing: Slot)
    requires Allotted(st, config, ctx, wing) && !Holds(wing, config, ctx)
    ensures var (next, decision) := Evaluate(st, config, ctx);
      && decision == Rest
      && next == st.(status := next.status, reason := next.reason, heldSince := next.heldSince, reconciled := true)
      && (if !Eligible(wing, config, ctx) then next.status == Paused && next.reason == Some(TargetLost)
          else if ctx.attribution != AttributedTo(wing) then next.status == st.status && next.heldSince.None? && next.reason.None?
          else if st.status == Waiting then next.status == Running && next.heldSince.None? && next.reason.None?
          else next.status == Running && next.heldSince == st.heldSince && next.reason.None?)
  {
    ClearExactly(ctx);
    EligibleExactly(wing, config, ctx);
  }

  /** Held: the timer starts, runs on, or has run for the hold window, and then the wing is done and the next
    * one is taken. */
  lemma Held(st: Day, config: Config, ctx: Context, wing: Slot)
    requires Allotted(st, config, ctx, wing) && Holds(wing, config, ctx)
    ensures st.heldSince.None? ==>
      Evaluate(st, config, ctx) == (st.(status := Waiting, reason := None, heldSince := Some(ctx.now), reconciled := true), Rest)
    ensures st.heldSince.Some? && ctx.now - st.heldSince.value < config.persistence ==>
      Evaluate(st, config, ctx) == (st.(reason := None, reconciled := true), Rest)
    ensures st.heldSince.Some? && ctx.now - st.heldSince.value >= config.persistence ==>
      Evaluate(st, config, ctx) == Advance(st.(reason := None, reconciled := true, completed := st.completed + [wing],
                                               index := st.index + 1, heldSince := None), config, ctx)
  {
    ClearExactly(ctx);
    EligibleExactly(wing, config, ctx);
  }

  // ------------------------------------------------------------ pausing, blocking, finishing

  /** A wing that is not the policy's own pauses an allocated day. */
  lemma MismatchPauses(st: Day, config: Config, ctx: Context)
    requires Open(st, config, ctx) && st.status in {Running, Waiting} && !Shows(ctx.active, st.current)
    ensures Evaluate(st, config, ctx) == (st.(status := Paused, reconciled := true,
      reason := Some(if st.reconciled then ManualIntervention else ReconciliationMismatch)), Rest)
  {
    ClearExactly(ctx);
  }

  /** Disabling pauses a running day and leaves any other alone. */
  lemma DisabledPauses(st: Day, config: Config, ctx: Context)
    requires st.date == Some(ctx.date) && !config.enabled
    ensures Evaluate(st, config, ctx) ==
      (if st.status in {Running, Waiting} then st.(status := Paused, reason := Some(AllocationDisabled)) else st, Rest)
  {
  }

  /** What blocks is remembered, with the status to come back to; the timer is cleared. */
  lemma BlockWaits(st: Day, config: Config, ctx: Context)
    requires st.date == Some(ctx.date) && config.enabled && !Clear(ctx) && st.status !in {Paused, Status.Completed}
    ensures var (next, decision) := Evaluate(st, config, ctx);
      && decision == Rest && next.status == Blocked && next.reason == GlobalBlock(ctx) && next.reason.Some?
      && next == st.(status := next.status, reason := next.reason, resume := next.resume, heldSince := next.heldSince)
      && (st.status == Blocked ==> next.resume == st.resume && next.heldSince == st.heldSince)
      && (st.status != Blocked ==> next.resume == Some(st.status) && next.heldSince.None?)
  {
    ClearExactly(ctx);
  }

  /** Leaving BLOCKED never acts: the day comes back where it was, from before its hold window, or is paused
    * when its wing is not the one that is on. */
  lemma Unblocks(st: Day, config: Config, ctx: Context)
    requires Open(st, config, ctx) && st.status == Blocked
    ensures var (next, decision) := Evaluate(st, config, ctx);
      var back := if st.resume.Some? then st.resume.value else Idle;
      && decision == Rest && next.resume.None?
      && next == st.(status := next.status, reason := next.reason, resume := None, heldSince := next.heldSince)
      && (if back in {Running, Waiting, Finalizing} && !Shows(ctx.active, st.current)
          then next.status == Paused && next.reason == Some(InterventionWhileBlocked)
          else next.status == (if back == Waiting then Running else back) && next.reason.None? && next.heldSince.None?)
  {
    ClearExactly(ctx);
  }

  /** The end of the day: done when nothing is on; otherwise the last wing is switched off, at most three times. */
  lemma FinalizesExactly(st: Day, config: Config, ctx: Context)
    requires Open(st, config, ctx) && st.status == Finalizing && st.current.Some? && (st.reconciled || ctx.active == One(st.current.value))
    ensures var (next, decision) := Evaluate(st, config, ctx);
      if ctx.active.Nothing? then
        decision == Rest && next == st.(status := Status.Completed, reason := None, current := None, reconciled := true)
      else if ctx.active != One(st.current.value) then
        decision == Rest && next == st.(status := Paused, reason := Some(ManualIntervention), reconciled := true)
      else if st.attempts >= 3 then
        decision == Rest && next == st.(status := Paused, reason := Some(FinalDeactivationFailed), reconciled := true)
      else
        decision == Do(Deactivate, st.current.value) && next == st.(attempts := st.attempts + 1, reason := None, reconciled := true)
  {
    ClearExactly(ctx);
  }

  /** The report: an ACTIVATE that did not end with its wing alone on pauses the day without a wing; a final
    * DEACTIVATE that ended with nothing on completes it, and a third one that did not pauses it. */
  lemma ReportExactly(st: Day, slot: Slot, success: bool, active: VerifiedActive)
    ensures AfterExecution(st, Activate, slot, success, active) ==
      if success && active == One(slot) then st else st.(status := Paused, reason := Some(TransitionFailed), current := None)
    ensures AfterExecution(st, Deactivate, slot, success, active) ==
      if st.status != Finalizing then st
      else if success && active.Nothing? then st.(status := Status.Completed, reason := None, current := None)
      else if st.attempts >= 3 then st.(status := Paused, reason := Some(FinalDeactivationFailed))
      else st
  {
  }

  // ------------------------------------------------------------ a full hold window completes

  /** From turn j to turn k the wing is held and the window is not over before turn k. */
  ghost predicate FullWindow(turns: seq<Turn>, j: nat, k: nat, wing: Slot)
    requires k < |turns|
  {
    && j < k && HeldThroughout(turns, j, k, wing)
    && (forall i | j <= i <= k :: turns[i].ctx.date == turns[j].ctx.date)
    && (forall i | j < i < k :: turns[i].ctx.now - turns[j].ctx.now < turns[i].config.persistence)
    && turns[k].ctx.now - turns[j].ctx.now >= turns[k].config.persistence
  }

  lemma {:induction false} TimerRuns(states: seq<Day>, turns: seq<Turn>, j: nat, k: nat, i: nat, wing: Slot)
    requires IsRun(states, turns) && k < |turns| && FullWindow(turns, j, k, wing) && j < i <= k
    requires states[j].status in {Running, Waiting} && states[j].current == Some(wing) && states[j].heldSince.None?
    requires states[j].date == Some(turns[j].ctx.date)
    ensures states[i] == states[j].(status := Waiting, reason := None, heldSince := Some(turns[j].ctx.now), reconciled := true)
    decreases i
  {
    var st, turn := states[i - 1], turns[i - 1];
    HoldsExactly(wing, turn.config, turn.ctx);
    if i - 1 > j {
      TimerRuns(states, turns, j, k, i - 1, wing);
    }
    Held(st, turn.config, turn.ctx, wing);
  }

  /** The other half of the hold window: a wing that is held from one evaluation to another, at least
    * persistence_s apart, is completed by that one, whatever happens at the relays meanwhile. */
  lemma FullWindowCompletes(states: seq<Day>, turns: seq<Turn>, j: nat, k: nat, wing: Slot)
    requires IsRun(states, turns) && k < |turns| && FullWindow(turns, j, k, wing)
    requires states[j].status in {Running, Waiting} && states[j].current == Some(wing) && states[j].heldSince.None?
    requires states[j].date == Some(turns[j].ctx.date)
    ensures states[k + 1].completed == states[k].completed + [wing] && states[k].completed == states[j].completed
  {
    TimerRuns(states, turns, j, k, k, wing);
    var st, turn := states[k], turns[k];
    HoldsExactly(wing, turn.config, turn.ctx);
    Held(st, turn.config, turn.ctx, wing);
    AdvanceKeepsDone(st.(reason := None, reconciled := true, completed := st.completed + [wing], index := st.index + 1, heldSince := None), turn.config, turn.ctx);
  }
}
