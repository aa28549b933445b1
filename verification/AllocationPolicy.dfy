/** The daily allocation policy (pi_firmware/energy/allocation.py): wings take the generation in turn.
  *
  * `Day` is the policy's state dictionary, the functions are its specification, and the class below
  * runs the source's statements over it. Energies and times are real numbers; event texts are left out.
  */
module AllocationPolicy {
  import opened Vocabulary

  // ------------------------------------------------------------ verified_active

  datatype Contact = ContactOn | ContactOff | ContactUnknown

  datatype VerifiedActive = Nothing | One(wing: Slot) | Multiple | Unverified

  ghost predicate Exclusive(feedback: PerSlot<Contact>, wings: seq<Slot>, w: Slot) {
    w in wings && feedback.At(w) == ContactOn && forall v | v in wings && v != w :: feedback.At(v) == ContactOff
  }

  /** verified_active, over wings that are listed once each: one wing ON with every other OFF is that
    * wing, all OFF is nothing, two ON is a fault whatever the rest shows, anything else is unverified. */
  method FindVerifiedActive(feedback: PerSlot<Contact>, wings: seq<Slot>) returns (va: VerifiedActive)
    requires forall i, j | 0 <= i < j < |wings| :: wings[i] != wings[j]
    ensures va.Nothing? <==> forall w | w in wings :: feedback.At(w) == ContactOff
    ensures va.One? ==> Exclusive(feedback, wings, va.wing)
    ensures (exists w :: Exclusive(feedback, wings, w)) ==> va.One?
    ensures va.Multiple? <==> exists v, w :: v in wings && w in wings && v != w && feedback.At(v) == ContactOn && feedback.At(w) == ContactOn
  {
    var on, unclear := [], false;
    for k := 0 to |wings|
      invariant forall w :: w in on <==> w in wings[..k] && feedback.At(w) == ContactOn
      invariant forall i, j | 0 <= i < j < |on| :: on[i] != on[j]
      invariant unclear <==> exists w :: w in wings[..k] && feedback.At(w) == ContactUnknown
    {
      assert wings[..k + 1] == wings[..k] + [wings[k]];
      assert wings[k] !in wings[..k];
      if feedback.At(wings[k]) == ContactOn {
        on := on + [wings[k]];
      }
      if feedback.At(wings[k]) == ContactUnknown {
        unclear := true;
      }
    }
    assert wings[..|wings|] == wings;
    assert forall w :: w in on <==> exists i :: 0 <= i < |on| && on[i] == w;
    if |on| > 1 {
      assert on[0] in on && on[1] in on;
      return Multiple;
    }
    if unclear {
      return Unverified;
    }
    if |on| == 1 {
      assert on[0] in on && forall w | w in on :: w == on[0];
      return One(on[0]);
    }
    return Nothing;
  }

  /** What `verified_active != current_wing` compares. */
  predicate Shows(va: VerifiedActive, wing: Option<Slot>) {
    va == if wing.Some? then One(wing.value) else Nothing
  }

  // ------------------------------------------------------------ state, configuration, context

  datatype Status = Idle | Running | Waiting | Finalizing | Paused | Completed | Blocked

  datatype Reason =
    | SystemFault | M1Disabled | M1StaleOrOffline | MultipleContactorsOn | FeedbackUnavailable | AttributionFault
    | AllocationDisabled | InterventionWhileBlocked | ReconciliationMismatch | ManualIntervention
    | FinalDeactivationFailed | OperatorActiveAtStart | TargetLost | TransitionFailed
    | EmsDisabled | AttributionDisabled | NoManualTarget | NoValidTarget

  datatype Skip = Skip(wing: Slot, reason: Reason)

  datatype Day = Day(
    date: Option<int>,
    status: Status,
    current: Option<Slot>,
    index: nat,
    heldSince: Option<real>,
    completed: seq<Slot>,
    skipped: seq<Skip>,
    reason: Option<Reason>,
    resume: Option<Status>,
    attempts: nat,
    reconciled: bool)

  datatype WingConfig = WingConfig(attribution: bool, manualTarget: Option<real>)

  datatype Config = Config(enabled: bool, sequence: seq<Slot>, tolerance: real, persistence: real, wings: PerSlot<WingConfig>)

  datatype WingContext = WingContext(emsEnabled: bool, metered: bool, target: Option<real>, generated: Option<real>)

  datatype Attribution = AttributedTo(wing: Slot) | NotAttributed | FaultyAttribution

  datatype Context = Context(
    now: real,
    date: int,
    fault: bool,
    m1Enabled: bool,
    m1Online: bool,
    m1Seen: Option<real>,
    active: VerifiedActive,
    attribution: Attribution,
    wings: PerSlot<WingContext>)

  datatype Decision = Rest | Do(action: Action, slot: Slot)

  const MAX_FINALIZE_ATTEMPTS: nat := 3
  const M1_STALE: real := 60.0

  function Fresh(date: Option<int>): Day {
    Day(date, Idle, None, 0, None, [], [], None, None, 0, true)
  }

  // ------------------------------------------------------------ eligibility

  datatype Target = Target(kwh: real) | Ineligible(reason: Reason)

  function WingTarget(wing: Slot, config: Config, ctx: Context): Target {
    var w, c := ctx.wings.At(wing), config.wings.At(wing);
    if !w.emsEnabled then Ineligible(EmsDisabled)
    else if !c.attribution then Ineligible(AttributionDisabled)
    else if !w.metered then
      if c.manualTarget.None? then Ineligible(NoManualTarget) else Target(c.manualTarget.value)
    else
      var t := if w.target.Some? then w.target else c.manualTarget;
      if t.None? || t.value <= 0.0 then Ineligible(NoValidTarget) else Target(t.value)
  }

  function GlobalBlock(ctx: Context): Option<Reason> {
    if ctx.fault then Some(SystemFault)
    else if !ctx.m1Enabled then Some(M1Disabled)
    else if !ctx.m1Online || ctx.m1Seen.None? || ctx.now - ctx.m1Seen.value > M1_STALE then Some(M1StaleOrOffline)
    else if ctx.active.Multiple? then Some(MultipleContactorsOn)
    else if ctx.active.Unverified? then Some(FeedbackUnavailable)
    else if ctx.attribution.FaultyAttribution? then Some(AttributionFault)
    else None
  }

  /** The wing is generating its target: enabled, clear, verified on, attributed, at its threshold. */
  predicate Holds(wing: Slot, config: Config, ctx: Context) {
    && config.enabled && GlobalBlock(ctx).None?
    && ctx.active == One(wing) && ctx.attribution == AttributedTo(wing)
    && AtThreshold(wing, config, ctx)
  }

  predicate AtThreshold(wing: Slot, config: Config, ctx: Context) {
    var target, generated := WingTarget(wing, config, ctx), ctx.wings.At(wing).generated;
    target.Target? && generated.Some? && generated.value >= target.kwh + config.tolerance
  }

  // ------------------------------------------------------------ evaluate

  function Pause(st: Day, reason: Reason): Day {
    st.(status := Paused, reason := Some(reason))
  }

  /** The rest of the sequence from `index` on, ineligible wings skipped. */
  function Advance(st: Day, config: Config, ctx: Context): (Day, Decision)
    decreases |config.sequence| - st.index
  {
    if st.index < |config.sequence| then
      var wing := config.sequence[st.index];
      match WingTarget(wing, config, ctx)
      case Ineligible(reason) => Advance(st.(skipped := st.skipped + [Skip(wing, reason)], index := st.index + 1), config, ctx)
      case Target(_) => (st.(status := Running, reason := None, current := Some(wing), heldSince := None), Do(Activate, wing))
    else if st.current.None? || ctx.active.Nothing? then (Complete(st), Rest)
    else (st.(status := Finalizing, reason := None, attempts := 1), Do(Deactivate, st.current.value))
  }

  function Complete(st: Day): Day {
    st.(status := Completed, reason := None, current := None)
  }

  function Block(st: Day, reason: Reason): Day {
    if st.status == Blocked then st.(reason := Some(reason))
    else st.(status := Blocked, reason := Some(reason), resume := Some(st.status), heldSince := None)
  }

  predicate Allocated(status: Status) {
    status in {Running, Waiting, Finalizing}
  }

  function Unblock(st: Day, active: VerifiedActive): Day {
    var resume := if st.resume.Some? then st.resume.value else Idle;
    if Allocated(resume) && !Shows(active, st.current) then Pause(st, InterventionWhileBlocked).(resume := None)
    else st.(status := if resume == Waiting then Running else resume, reason := None, resume := None, heldSince := None)
  }

  function Finalize(st: Day, ctx: Context): (Day, Decision) {
    if ctx.active.Nothing? then (Complete(st), Rest)
    else if !Shows(ctx.active, st.current) then (Pause(st, ManualIntervention), Rest)
    else if st.attempts >= MAX_FINALIZE_ATTEMPTS then (Pause(st, FinalDeactivationFailed), Rest)
    else (st.(attempts := st.attempts + 1), Do(Deactivate, st.current.value))
  }

  /** RUNNING or WAITING_PERSISTENCE on the allocated, verified wing. */
  function Hold(st: Day, config: Config, ctx: Context): (Day, Decision) {
    if st.current.None? || WingTarget(st.current.value, config, ctx).Ineligible? then (Pause(st, TargetLost), Rest)
    else
      var wing := st.current.value;
      if ctx.attribution != AttributedTo(wing) then (st.(heldSince := None), Rest)
      else if !AtThreshold(wing, config, ctx) then
        (if st.status == Waiting then st.(status := Running, reason := None, heldSince := None) else st, Rest)
      else if st.heldSince.None? then (st.(status := Waiting, reason := None, heldSince := Some(ctx.now)), Rest)
      else if ctx.now - st.heldSince.value < config.persistence then (st, Rest)
      else Advance(st.(completed := st.completed + [wing], index := st.index + 1, heldSince := None), config, ctx)
  }

  /** The part of evaluate that is reached only with no block and outside BLOCKED. */
  function Act(st: Day, config: Config, ctx: Context): (Day, Decision) {
    var s := st.(reconciled := true);
    if !st.reconciled && Allocated(s.status) && !Shows(ctx.active, s.current) then (Pause(s, ReconciliationMismatch), Rest)
    else if s.status == Finalizing then Finalize(s, ctx)
    else if s.status in {Running, Waiting} && !Shows(ctx.active, s.current) then (Pause(s, ManualIntervention), Rest)
    else if s.status == Idle then
      if !ctx.active.Nothing? then (Pause(s, OperatorActiveAtStart), Rest) else Advance(s, config, ctx)
    else Hold(s, config, ctx)
  }

  function Today(st: Day, date: int): Day {
    if st.date == Some(date) then st else Fresh(Some(date))
  }

  function Evaluate(before: Day, config: Config, ctx: Context): (Day, Decision) {
    var st := Today(before, ctx.date);
    if !config.enabled then (if st.status in {Running, Waiting} then Pause(st, AllocationDisabled) else st, Rest)
    else if st.status in {Paused, Completed} then (st, Rest)
    else if GlobalBlock(ctx).Some? then (Block(st, GlobalBlock(ctx).value), Rest)
    else if st.status == Blocked then (Unblock(st, ctx.active), Rest)
    else Act(st.(reason := None), config, ctx)
  }

  /** after_execution. */
  function AfterExecution(st: Day, action: Action, slot: Slot, success: bool, active: VerifiedActive): Day {
    match action
    case Activate =>
      if success && active == One(slot) then st else Pause(st, TransitionFailed).(current := None)
    case Deactivate =>
      if success && active.Nothing? then (if st.status == Finalizing then Complete(st) else st)
      else if st.status == Finalizing && st.attempts >= MAX_FINALIZE_ATTEMPTS then Pause(st, FinalDeactivationFailed)
      else st
    case DeactivateAll => st
  }

  // ------------------------------------------------------------ the policy object

  class AllocationPolicy {
    var config: Config
    var state: Day
    var dirty: bool

    /** A stored state of the known version is taken over, unreconciled. */
    constructor (config: Config, stored: Option<Day>)
      ensures this.config == config && !dirty
      ensures state == (if stored.Some? then stored.value else Fresh(None)).(reconciled := false)
    {
      this.config := config;
      state := (if stored.Some? then stored.value else Fresh(None)).(reconciled := false);
      dirty := false;
    }

    /** What changed is to be saved, except that a state was reconciled or a timer was cleared. */
    twostate predicate Marked()
      reads `state, `dirty
    {
      && (old(dirty) ==> dirty)
      && (!dirty ==> state == old(state).(reconciled := state.reconciled, heldSince := state.heldSince)
                     && (state.heldSince.None? || state.heldSince == old(state).heldSince))
    }

    method Set(status: Status, reason: Option<Reason>)
      modifies `state, `dirty
      ensures state == old(state).(status := status, reason := reason) && dirty
    {
      state := state.(status := status, reason := reason);
      dirty := true;
    }

    method AdvanceToNext(ctx: Context) returns (decision: Decision)
      modifies `state, `dirty
      ensures (state, decision) == Advance(old(state), config, ctx)
      ensures Marked()
    {
      while state.index < |config.sequence|
        invariant Advance(state, config, ctx) == Advance(old(state), config, ctx)
        invariant state.current == old(state).current
        invariant dirty || (state == old(state) && !old(dirty))
        decreases |config.sequence| - state.index
      {
        var wing := config.sequence[state.index];
        match WingTarget(wing, config, ctx) {
          case Ineligible(reason) =>
            state := state.(skipped := state.skipped + [Skip(wing, reason)], index := state.index + 1);
            dirty := true;
          case Target(_) =>
            Set(Running, None);
            state := state.(current := Some(wing), heldSince := None);
            return Do(Activate, wing);
        }
      }
      if state.current.None? || ctx.active.Nothing? {
        Set(Completed, None);
        state := state.(current := None);
        return Rest;
      }
      Set(Finalizing, None);
      state := state.(attempts := 1);
      return Do(Deactivate, state.current.value);
    }

    method FinalizeOff(ctx: Context) returns (decision: Decision)
      modifies `state, `dirty
      ensures (state, decision) == Finalize(old(state), ctx)
      ensures Marked()
    {
      if ctx.active.Nothing? {
        Set(Completed, None);
        state := state.(current := None);
        return Rest;
      }
      if !Shows(ctx.active, state.current) {
        Set(Paused, Some(ManualIntervention));
        return Rest;
      }
      if state.attempts >= MAX_FINALIZE_ATTEMPTS {
        Set(Paused, Some(FinalDeactivationFailed));
        return Rest;
      }
      state := state.(attempts := state.attempts + 1);
      dirty := true;
      return Do(Deactivate, ctx.active.wing);
    }

    /** Losing the attribution clears the timer without marking the state dirty. */
    method HoldWing(ctx: Context) returns (decision: Decision)
      modifies `state, `dirty
      ensures (state, decision) == Hold(old(state), config, ctx)
      ensures Marked()
    {
      if state.current.None? || WingTarget(state.current.value, config, ctx).Ineligible? {
        Set(Paused, Some(TargetLost));
        return Rest;
      }
      var wing := state.current.value;
      if ctx.attribution != AttributedTo(wing) {
        state := state.(heldSince := None);
        return Rest;
      }
      var generated, threshold := ctx.wings.At(wing).generated, WingTarget(wing, config, ctx).kwh + config.tolerance;
      if generated.None? || generated.value < threshold {
        if state.status == Waiting {
          Set(Running, None);
          state := state.(heldSince := None);
        }
        return Rest;
      }
      if state.heldSince.None? {
        Set(Waiting, None);
        state := state.(heldSince := Some(ctx.now));
        return Rest;
      }
      if ctx.now - state.heldSince.value < config.persistence {
        return Rest;
      }
      state := state.(completed := state.completed + [wing], index := state.index + 1, heldSince := None);
      dirty := true;
      decision := AdvanceToNext(ctx);
    }

    method ActNow(ctx: Context) returns (decision: Decision)
      requires state.status !in {Paused, Completed, Blocked}
      modifies `state, `dirty
      ensures (state, decision) == Act(old(state), config, ctx)
      ensures Marked()
    {
      if !state.reconciled {
        state := state.(reconciled := true);
        if Allocated(state.status) && !Shows(ctx.active, state.current) {
          Set(Paused, Some(ReconciliationMismatch));
          return Rest;
        }
      }
      if state.status == Finalizing {
        decision := FinalizeOff(ctx);
        return;
      }
      if state.status != Idle && !Shows(ctx.active, state.current) {
        Set(Paused, Some(ManualIntervention));
        return Rest;
      }
      if state.status == Idle {
        if !ctx.active.Nothing? {
          Set(Paused, Some(OperatorActiveAtStart));
          return Rest;
        }
        decision := AdvanceToNext(ctx);
        return;
      }
      decision := HoldWing(ctx);
    }

    /** BLOCKED and no block any more: reconcile first, never act in the same evaluation. */
    method Resume(ctx: Context)
      requires state.status == Blocked
      modifies `state, `dirty
      ensures state == Unblock(old(state), ctx.active)
      ensures Marked()
    {
      var resume := if state.resume.Some? then state.resume.value else Idle;
      if Allocated(resume) && !Shows(ctx.active, state.current) {
        Set(Paused, Some(InterventionWhileBlocked));
        state := state.(resume := None);
        return;
      }
      Set(if resume == Waiting then Running else resume, None);
      state := state.(resume := None, heldSince := None);
    }

    method EvaluateNow(ctx: Context) returns (decision: Decision)
      modifies `state, `dirty
      ensures (state, decision) == Evaluate(old(state), config, ctx)
      ensures Marked()
    {
      if state.date != Some(ctx.date) {
        state := Fresh(Some(ctx.date));
        dirty := true;
      }
      if !config.enabled {
        if state.status in {Running, Waiting} {
          Set(Paused, Some(AllocationDisabled));
        }
        return Rest;
      }
      if state.status in {Paused, Completed} {
        return Rest;
      }
      var block := GlobalBlock(ctx);
      if block.Some? {
        if state.status != Blocked {
          var was := state.status;
          Set(Blocked, block);
          state := state.(resume := Some(was), heldSince := None);
        } else if state.reason != block {
          state := state.(reason := block);
          dirty := true;
        }
        return Rest;
      }
      if state.status == Blocked {
        Resume(ctx);
        return Rest;
      }
      if state.reason.Some? {
        state := state.(reason := None);
        dirty := true;
      }
      decision := ActNow(ctx);
    }

    method ReportExecution(action: Action, slot: Slot, success: bool, active: VerifiedActive)
      modifies `state, `dirty
      ensures state == AfterExecution(old(state), action, slot, success, active)
      ensures Marked()
    {
      if action == Activate {
        if success && active == One(slot) {
          return;
        }
        Set(Paused, Some(TransitionFailed));
        state := state.(current := None);
      } else if action == Deactivate {
        if success && active.Nothing? {
          if state.status == Finalizing {
            Set(Completed, None);
            state := state.(current := None);
          }
          return;
        }
        if state.status == Finalizing && state.attempts >= MAX_FINALIZE_ATTEMPTS {
          Set(Paused, Some(FinalDeactivationFailed));
        }
      }
    }
  }
}
