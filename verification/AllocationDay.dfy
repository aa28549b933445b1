/** What the allocation policy guarantees about a whole operating day and about a whole process run. */
module AllocationDay {
  import opened Vocabulary
  import opened AllocationPolicy

  /** One pass of the controller: an evaluation and, if it decided an action, the report of how the
    * action went. Configuration, measurements and outcomes are free. */
  datatype Turn = Turn(config: Config, ctx: Context, success: bool, after: VerifiedActive)

  function Decided(st: Day, turn: Turn): Decision {
    Evaluate(st, turn.config, turn.ctx).1
  }

  function Step(st: Day, turn: Turn): Day {
    var (next, decision) := Evaluate(st, turn.config, turn.ctx);
    match decision
    case Rest => next
    case Do(action, slot) => AfterExecution(next, action, slot, turn.success, turn.after)
  }

  ghost predicate IsRun(states: seq<Day>, turns: seq<Turn>) {
    |states| == |turns| + 1 && forall k | 0 <= k < |turns| :: states[k + 1] == Step(states[k], turns[k])
  }

  /** All turns from `i` to `k` fall into one operating day, with one sequence. */
  ghost predicate SameDay(turns: seq<Turn>, i: nat, k: nat, sequence: seq<Slot>)
    requires k <= |turns|
  {
    forall j | i <= j < k :: turns[j].config.sequence == sequence && turns[j].ctx.date == turns[i].ctx.date
  }

  // ------------------------------------------------------------ the books of a day

  /** `done` and `skips`, each in order, are together exactly the wings of `positions`. */
  predicate Partition(positions: seq<Slot>, done: seq<Slot>, skips: seq<Skip>)
    decreases |positions|
  {
    if positions == [] then done == [] && skips == []
    else
      var n := |positions| - 1;
      || (done != [] && done[|done| - 1] == positions[n] && Partition(positions[..n], done[..|done| - 1], skips))
      || (skips != [] && skips[|skips| - 1].wing == positions[n] && Partition(positions[..n], done, skips[..|skips| - 1]))
  }

  lemma PartitionDone(positions: seq<Slot>, done: seq<Slot>, skips: seq<Skip>, wing: Slot)
    requires Partition(positions, done, skips)
    ensures Partition(positions + [wing], done + [wing], skips)
  {
    assert (positions + [wing])[..|positions|] == positions && (done + [wing])[..|done|] == done;
  }

  lemma PartitionSkip(positions: seq<Slot>, done: seq<Slot>, skips: seq<Skip>, skip: Skip)
    requires Partition(positions, done, skips)
    ensures Partition(positions + [skip.wing], done, skips + [skip])
  {
    assert (positions + [skip.wing])[..|positions|] == positions && (skips + [skip])[..|skips|] == skips;
  }

  /** What BLOCKED will resume, otherwise the status. */
  function Underlying(st: Day): Status {
    if st.status == Blocked then (if st.resume.Some? then st.resume.value else Idle) else st.status
  }

  /** Kept by every turn whose configuration has this sequence. */
  ghost predicate Books(st: Day, sequence: seq<Slot>) {
    && st.index <= |sequence| && Partition(sequence[..st.index], st.completed, st.skipped)
    && st.attempts <= MAX_FINALIZE_ATTEMPTS
    && (st.status == Blocked ==> Underlying(st) in {Idle, Running, Waiting, Finalizing})
    && (Underlying(st) == Idle ==> st.index == 0 && st.attempts == 0 && st.current.None?)
    && (Underlying(st) in {Running, Waiting} ==>
          st.index < |sequence| && st.current == Some(sequence[st.index]) && st.attempts == 0)
    && (Underlying(st) == Finalizing ==> st.index == |sequence| && st.current.Some? && st.attempts >= 1)
    && (st.heldSince.Some? ==> st.status in {Waiting, Paused})
    && (st.status == Blocked ==> st.heldSince.None?)
  }

  lemma FreshBooks(date: Option<int>, sequence: seq<Slot>)
    ensures Books(Fresh(date), sequence)
  {
  }

  lemma {:induction false} AdvanceKeeps(st: Day, config: Config, ctx: Context)
    requires st.index <= |config.sequence| && Partition(config.sequence[..st.index], st.completed, st.skipped)
    requires st.attempts == 0 && st.heldSince.None? && st.status != Blocked
    ensures var (next, decision) := Advance(st, config, ctx);
      && Books(next, config.sequence)
      && next.status in {Running, Finalizing, Completed}
      && next.index >= st.index && next.date == st.date && next.completed == st.completed
      && (decision == Rest <==> next.status == Completed)
      && (next.status == Completed ==> st.current.None? || ctx.active.Nothing?)
      && (next.status == Running ==> decision == Do(Activate, config.sequence[next.index]))
      && (next.status == Finalizing ==> next.attempts == 1 && next.current == st.current && decision == Do(Deactivate, next.current.value))
    decreases |config.sequence| - st.index
  {
    var s := config.sequence;
    if st.index < |s| {
      var wing := s[st.index];
      var target := WingTarget(wing, config, ctx);
      if target.Ineligible? {
        var skip := Skip(wing, target.reason);
        PartitionSkip(s[..st.index], st.completed, st.skipped, skip);
        assert s[..st.index] + [wing] == s[..st.index + 1];
        AdvanceKeeps(st.(skipped := st.skipped + [skip], index := st.index + 1), config, ctx);
      }
    }
  }

  lemma QuietKeeps(st: Day, next: Day, sequence: seq<Slot>)
    requires Books(st, sequence) && st.status in {Running, Waiting}
    requires next == st.(status := next.status, reason := next.reason, heldSince := next.heldSince)
    requires next.status in {Running, Waiting, Paused} && (next.heldSince.Some? ==> next.status != Running)
    ensures Books(next, sequence)
  {
  }

  /** The wing has been held long enough. */
  predicate Held(st: Day, config: Config, ctx: Context)
    requires st.current.Some?
  {
    && ctx.attribution == AttributedTo(st.current.value) && AtThreshold(st.current.value, config, ctx)
    && st.heldSince.Some? && ctx.now - st.heldSince.value >= config.persistence
  }

  function Entered(st: Day): Day
    requires st.current.Some?
  {
    st.(completed := st.completed + [st.current.value], index := st.index + 1, heldSince := None)
  }

  lemma HoldCases(st: Day, config: Config, ctx: Context)
    requires st.current.Some? && st.status in {Running, Waiting} && (st.heldSince.Some? ==> st.status != Running)
    ensures Held(st, config, ctx) ==> Hold(st, config, ctx) == Advance(Entered(st), config, ctx)
    ensures !Held(st, config, ctx) ==>
      var (next, decision) := Hold(st, config, ctx);
      && decision == Rest && next == st.(status := next.status, reason := next.reason, heldSince := next.heldSince)
      && next.status in {Running, Waiting, Paused} && (next.heldSince.Some? ==> next.status != Running)
  {
  }

  lemma EnteredKeeps(st: Day, config: Config, ctx: Context)
    requires Books(st, config.sequence) && st.status in {Running, Waiting}
    requires ctx.active == One(st.current.value)
    ensures var (next, decision) := Advance(Entered(st), config, ctx);
      && Books(next, config.sequence) && next.date == st.date
      && next.status in {Running, Finalizing} && next.index > st.index
      && (next.status == Running ==> next.index < |config.sequence| && decision == Do(Activate, config.sequence[next.index]))
      && (next.status == Finalizing ==> next.attempts == 1 && decision == Do(Deactivate, st.current.value))
  {
    PartitionDone(config.sequence[..st.index], st.completed, st.skipped, st.current.value);
    assert config.sequence[..st.index] + [st.current.value] == config.sequence[..st.index + 1];
    AdvanceKeeps(Entered(st), config, ctx);
  }

  lemma HoldKeeps(st: Day, config: Config, ctx: Context)
    requires Books(st, config.sequence) && st.status in {Running, Waiting} && Shows(ctx.active, st.current)
    ensures var (next, decision) := Hold(st, config, ctx);
      && Books(next, config.sequence) && next.date == st.date
      && (decision == Rest ==> next.index == st.index && next.attempts == st.attempts)
      && next.status in {Running, Waiting, Paused, Finalizing}
      && (decision.Do? ==> next.index > st.index)
      && (decision.Do? && decision.action == Activate ==>
            next.status == Running && next.index < |config.sequence| && decision.slot == config.sequence[next.index])
      && (decision.Do? && decision.action != Activate ==>
            decision == Do(Deactivate, st.current.value) && next.attempts == 1 && next.status == Finalizing)
  {
    HoldCases(st, config, ctx);
    if Held(st, config, ctx) {
      EnteredKeeps(st, config, ctx);
    } else {
      QuietKeeps(st, Hold(st, config, ctx).0, config.sequence);
    }
  }

  /** Where the day stands in its sequence: before the first wing, or at a position. */
  function Position(st: Day): int {
    if Underlying(st) == Idle then -1 else st.index
  }

  /** What one evaluation may do to the books, and the decisions it may take. */
  ghost predicate Moved(st: Day, next: Day, decision: Decision, config: Config, ctx: Context) {
    && Books(next, config.sequence) && next.date == Some(ctx.date)
    && Position(next) >= Position(st) && next.attempts >= st.attempts
    && (decision.Do? ==>
          && st.status in {Idle, Running, Waiting, Finalizing} && config.enabled && GlobalBlock(ctx).None?
          && Shows(ctx.active, st.current)
          && decision.action in {Activate, Deactivate})
    && (decision.Do? && decision.action == Activate ==>
          && Position(next) > Position(st) && next.status == Running
          && next.index < |config.sequence| && decision.slot == config.sequence[next.index])
    && (decision.Do? && decision.action == Deactivate ==>
          next.attempts == st.attempts + 1 && next.status == Finalizing && ctx.active == One(decision.slot))
    && (next.status == Completed && st.status != Completed ==> ctx.active.Nothing?)
    && (st.status in {Paused, Completed} ==> next == st && decision == Rest)
  }

  lemma PausesMove(st: Day, s: Day, reason: Reason, config: Config, ctx: Context)
    requires Books(st, config.sequence) && st.date == Some(ctx.date) && st.status !in {Paused, Completed}
    requires s == st.(reason := s.reason, reconciled := s.reconciled)
    ensures Moved(st, Pause(s, reason), Rest, config, ctx)
    ensures Moved(st, Pause(s, reason).(resume := None), Rest, config, ctx)
  {
  }

  lemma FinalizeMoves(st: Day, s: Day, config: Config, ctx: Context)
    requires Books(st, config.sequence) && st.date == Some(ctx.date) && st.status == Finalizing
    requires config.enabled && GlobalBlock(ctx).None?
    requires s == st.(reason := s.reason, reconciled := s.reconciled)
    ensures Moved(st, Finalize(s, ctx).0, Finalize(s, ctx).1, config, ctx)
  {
  }

  lemma IdleMoves(st: Day, s: Day, config: Config, ctx: Context)
    requires Books(st, config.sequence) && st.date == Some(ctx.date) && st.status == Idle
    requires config.enabled && GlobalBlock(ctx).None? && ctx.active.Nothing?
    requires s == st.(reason := s.reason, reconciled := s.reconciled)
    ensures Moved(st, Advance(s, config, ctx).0, Advance(s, config, ctx).1, config, ctx)
  {
    AdvanceKeeps(s, config, ctx);
  }

  lemma HoldMoves(st: Day, s: Day, config: Config, ctx: Context)
    requires Books(st, config.sequence) && st.date == Some(ctx.date) && st.status in {Running, Waiting}
    requires config.enabled && GlobalBlock(ctx).None? && Shows(ctx.active, st.current)
    requires s == st.(reason := s.reason, reconciled := s.reconciled)
    ensures Moved(st, Hold(s, config, ctx).0, Hold(s, config, ctx).1, config, ctx)
  {
    HoldKeeps(s, config, ctx);
  }

  lemma ActMoves(st: Day, config: Config, ctx: Context)
    requires Books(st, config.sequence) && st.date == Some(ctx.date) && st.status !in {Paused, Completed, Blocked}
    requires config.enabled && GlobalBlock(ctx).None?
    ensures var (next, decision) := Act(st.(reason := None), config, ctx); Moved(st, next, decision, config, ctx)
  {
    var s := st.(reason := None, reconciled := true);
    if !Shows(ctx.active, st.current) {
      PausesMove(st, s, ReconciliationMismatch, config, ctx);
      PausesMove(st, s, ManualIntervention, config, ctx);
      PausesMove(st, s, OperatorActiveAtStart, config, ctx);
    }
    if st.status == Finalizing {
      FinalizeMoves(st, s, config, ctx);
    } else if st.status == Idle && ctx.active.Nothing? {
      IdleMoves(st, s, config, ctx);
    } else if Shows(ctx.active, st.current) {
      HoldMoves(st, s, config, ctx);
    }
  }

  lemma BlockMoves(st: Day, config: Config, ctx: Context)
    requires Books(st, config.sequence) && st.date == Some(ctx.date) && st.status !in {Paused, Completed}
    ensures forall reason :: Moved(st, Block(st, reason), Rest, config, ctx)
    ensures st.status == Blocked ==> Moved(st, Unblock(st, ctx.active), Rest, config, ctx)
  {
  }

  lemma EvaluateMoves(st: Day, config: Config, ctx: Context)
    requires Books(st, config.sequence) && st.date == Some(ctx.date)
    ensures var (next, decision) := Evaluate(st, config, ctx); Moved(st, next, decision, config, ctx)
  {
    if st.status in {Paused, Completed} {
    } else if !config.enabled {
      PausesMove(st, st, AllocationDisabled, config, ctx);
    } else if GlobalBlock(ctx).Some? || st.status == Blocked {
      BlockMoves(st, config, ctx);
    } else {
      ActMoves(st, config, ctx);
    }
  }

  /** The books are right for a turn of this date. */
  ghost predicate Booked(st: Day, date: int, sequence: seq<Slot>) {
    Books(Today(st, date), sequence)
  }

  /** They are in any state, whatever was configured and decided before, when a new operating day begins. */
  lemma NewDayIsBooked(st: Day, date: int, sequence: seq<Slot>)
    requires st.date != Some(date) || Books(st, sequence)
    ensures Booked(st, date, sequence)
  {
    FreshBooks(Some(date), sequence);
  }

  /** The first evaluation of a new day, or of a day that is going on. */
  lemma EvaluateMovesToday(st: Day, config: Config, ctx: Context)
    requires Booked(st, ctx.date, config.sequence)
    ensures var (next, decision) := Evaluate(st, config, ctx); Moved(Today(st, ctx.date), next, decision, config, ctx)
  {
    EvaluateMoves(Today(st, ctx.date), config, ctx);
  }

  /** The report of an execution keeps the books and the place in the sequence. */
  lemma ReportKeeps(st: Day, action: Action, slot: Slot, success: bool, active: VerifiedActive, sequence: seq<Slot>)
    requires Books(st, sequence) && st.status in {Running, Finalizing}
    ensures var next := AfterExecution(st, action, slot, success, active);
      && Books(next, sequence) && next.date == st.date && next.attempts == st.attempts && Position(next) == Position(st)
      && (next.status == Completed ==> active.Nothing?)
  {
  }

  /** Every turn keeps the books; and a day's COMPLETED is entered only when nothing is verified on. */
  lemma StepKeeps(st: Day, turn: Turn)
    requires Booked(st, turn.ctx.date, turn.config.sequence)
    ensures var next, today, decision := Step(st, turn), Today(st, turn.ctx.date), Decided(st, turn);
      && Books(next, turn.config.sequence) && next.date == Some(turn.ctx.date)
      && Position(next) >= Position(today) && next.attempts >= today.attempts
      && (decision.Do? && decision.action == Activate ==>
            Position(next) > Position(today) && Position(next) < |turn.config.sequence| && decision.slot == turn.config.sequence[Position(next)])
      && (decision.Do? && decision.action == Deactivate ==> next.attempts == today.attempts + 1)
      && (next.status == Completed && today.status != Completed ==> if decision.Do? then turn.after.Nothing? else turn.ctx.active.Nothing?)
      && (today.status in {Paused, Completed} ==> next == today && decision == Rest)
  {
    EvaluateMovesToday(st, turn.config, turn.ctx);
    var (next, decision) := Evaluate(st, turn.config, turn.ctx);
    if decision.Do? {
      ReportKeeps(next, decision.action, decision.slot, turn.success, turn.after, turn.config.sequence);
    }
  }

  // ------------------------------------------------------------ the day as a whole

  /** The end of each day stretch: how many DEACTIVATEs were decided in turns i..k. */
  function Deactivations(states: seq<Day>, turns: seq<Turn>, i: nat, k: nat): nat
    requires |states| == |turns| + 1 && i <= k <= |turns|
    decreases k
  {
    if i == k then 0
    else Deactivations(states, turns, i, k - 1) + Deactivates(states[k - 1], turns[k - 1])
  }

  /** StepKeeps, as the counting needs it. */
  ghost predicate Counted(st: Day, turn: Turn, next: Day) {
    Booked(st, turn.ctx.date, turn.config.sequence) ==>
      && Books(next, turn.config.sequence) && next.date == Some(turn.ctx.date)
      && Position(next) >= Position(Today(st, turn.ctx.date))
      && next.attempts >= Today(st, turn.ctx.date).attempts + Deactivates(st, turn)
  }

  function Deactivates(st: Day, turn: Turn): nat {
    var decision := Decided(st, turn);
    if decision.Do? && decision.action == Deactivate then 1 else 0
  }

  ghost predicate EachCounted(states: seq<Day>, turns: seq<Turn>)
    requires |states| == |turns| + 1
  {
    forall j | 0 <= j < |turns| :: Counted(states[j], turns[j], states[j + 1])
  }

  lemma RunCounts(states: seq<Day>, turns: seq<Turn>)
    requires IsRun(states, turns)
    ensures EachCounted(states, turns)
  {
    forall j | 0 <= j < |turns| ensures Counted(states[j], turns[j], states[j + 1]) {
      if Booked(states[j], turns[j].ctx.date, turns[j].config.sequence) {
        StepKeeps(states[j], turns[j]);
      }
    }
  }

  lemma {:induction false} AttemptsCount(states: seq<Day>, turns: seq<Turn>, i: nat, k: nat, sequence: seq<Slot>)
    requires |states| == |turns| + 1 && EachCounted(states, turns)
    requires i < k <= |turns| && SameDay(turns, i, k, sequence) && Booked(states[i], turns[i].ctx.date, sequence)
    ensures Books(states[k], sequence) && states[k].date == Some(turns[i].ctx.date)
    ensures states[k].attempts >= Today(states[i], turns[i].ctx.date).attempts + Deactivations(states, turns, i, k)
    ensures Position(states[k]) >= Position(Today(states[i], turns[i].ctx.date))
    decreases k
  {
    assert Counted(states[k - 1], turns[k - 1], states[k]);
    if i < k - 1 {
      AttemptsCount(states, turns, i, k - 1, sequence);
      NewDayIsBooked(states[k - 1], turns[k - 1].ctx.date, sequence);
    }
  }

  /** Over any stretch of one operating day, whatever is measured, configured and executed, and also
    * when the process starts inside the day: completed and skipped are exactly the first `index`
    * positions, and at most three DEACTIVATEs are decided. */
  lemma DayIsBookedAndBounded(states: seq<Day>, turns: seq<Turn>, i: nat, k: nat, sequence: seq<Slot>)
    requires IsRun(states, turns) && i < k <= |turns| && SameDay(turns, i, k, sequence) && Booked(states[i], turns[i].ctx.date, sequence)
    ensures states[k].index <= |sequence| && Partition(sequence[..states[k].index], states[k].completed, states[k].skipped)
    ensures Deactivations(states, turns, i, k) <= MAX_FINALIZE_ATTEMPTS
  {
    RunCounts(states, turns);
    AttemptsCount(states, turns, i, k, sequence);
  }

  predicate Activates(states: seq<Day>, turns: seq<Turn>, k: nat)
    requires |states| == |turns| + 1 && k < |turns|
  {
    var decision := Decided(states[k], turns[k]);
    decision.Do? && decision.action == Activate
  }

  /** Two ACTIVATEs of one day are for two positions of the sequence, the later one further on, and
    * each names the wing of its position. So each position gets at most one. */
  lemma EachPositionActivatedOnce(states: seq<Day>, turns: seq<Turn>, i: nat, k: nat, sequence: seq<Slot>)
    requires IsRun(states, turns) && i < k < |turns| && SameDay(turns, i, k + 1, sequence) && Booked(states[i], turns[i].ctx.date, sequence)
    requires Activates(states, turns, i) && Activates(states, turns, k)
    ensures 0 <= Position(states[i + 1]) < Position(states[k + 1]) < |sequence|
    ensures Decided(states[i], turns[i]).slot == sequence[Position(states[i + 1])]
    ensures Decided(states[k], turns[k]).slot == sequence[Position(states[k + 1])]
  {
    StepKeeps(states[i], turns[i]);
    RunCounts(states, turns);
    if i + 1 < k {
      AttemptsCount(states, turns, i + 1, k, sequence);
    }
    StepKeeps(states[k], turns[k]);
  }

  /** PAUSED and COMPLETED are never left before the next operating day: the state stands still. */
  lemma {:induction false} StaysClosed(states: seq<Day>, turns: seq<Turn>, i: nat, k: nat)
    requires IsRun(states, turns) && i <= k <= |turns| && states[i].status in {Paused, Completed}
    requires forall j | i <= j < k :: states[i].date == Some(turns[j].ctx.date)
    ensures states[k] == states[i]
    ensures forall j | i <= j < k :: Decided(states[j], turns[j]) == Rest
    decreases k
  {
    if i < k {
      StaysClosed(states, turns, i, k - 1);
      assert states[k] == Step(states[k - 1], turns[k - 1]);
    }
  }

  /** COMPLETED is entered only in a step where nothing is verified on: the evaluation's own reading,
    * or, after a final DEACTIVATE, the one taken after it. */
  lemma CompletedMeansAllOff(st: Day, turn: Turn)
    requires Booked(st, turn.ctx.date, turn.config.sequence) && Step(st, turn).status == Completed
    requires st.status != Completed || st.date != Some(turn.ctx.date)
    ensures if Decided(st, turn).Do? then turn.after.Nothing? else turn.ctx.active.Nothing?
  {
    StepKeeps(st, turn);
  }

  /** An action is decided only when allocation is enabled, nothing blocks, and the verified wing is the
    * policy's own; never in the evaluation that leaves BLOCKED, and an ACTIVATE never while another
    * wing than the current one is verified on. */
  lemma ActsOnlyWhenSafe(st: Day, config: Config, ctx: Context)
    requires Booked(st, ctx.date, config.sequence) && Evaluate(st, config, ctx).1.Do?
    ensures config.enabled && GlobalBlock(ctx).None?
    ensures Today(st, ctx.date).status in {Idle, Running, Waiting, Finalizing}
    ensures Shows(ctx.active, Today(st, ctx.date).current)
  {
    EvaluateMovesToday(st, config, ctx);
  }

  // ------------------------------------------------------------ the hold window

  /** Every evaluation from j to k found the wing generating its target. */
  ghost predicate HeldThroughout(turns: seq<Turn>, j: nat, k: nat, wing: Slot)
    requires k < |turns|
  {
    forall i | j <= i <= k :: Holds(wing, turns[i].config, turns[i].ctx)
  }

  lemma {:induction false} AdvanceKeepsDone(st: Day, config: Config, ctx: Context)
    ensures Advance(st, config, ctx).0.completed == st.completed
    ensures st.heldSince.None? ==> Advance(st, config, ctx).0.heldSince.None?
    decreases |config.sequence| - st.index
  {
    if st.index < |config.sequence| {
      var target := WingTarget(config.sequence[st.index], config, ctx);
      if target.Ineligible? {
        AdvanceKeepsDone(st.(skipped := st.skipped + [Skip(config.sequence[st.index], target.reason)], index := st.index + 1), config, ctx);
      }
    }
  }

  /** The timer of a wing that is being held: set by a holding evaluation and kept only by one. */
  predicate TimerOn(st: Day) {
    st.status == Waiting && st.heldSince.Some? && st.current.Some?
  }

  predicate TimerOk(st: Day) {
    st.heldSince.Some? ==> st.status in {Waiting, Paused}
  }

  /** What one evaluation does to the timer and to completed. */
  ghost predicate TimerMoved(st: Day, next: Day, config: Config, ctx: Context) {
    && TimerOk(next)
    && (TimerOn(next) ==>
          && Holds(next.current.value, config, ctx)
          && (next.heldSince.value == ctx.now || (TimerOn(st) && st.heldSince == next.heldSince && st.current == next.current)))
    && (next.completed != st.completed ==>
          && TimerOn(st) && Holds(st.current.value, config, ctx)
          && next.completed == st.completed + [st.current.value]
          && ctx.now - st.heldSince.value >= config.persistence)
  }

  lemma HoldTimer(st: Day, s: Day, config: Config, ctx: Context)
    requires TimerOk(st) && s == st.(reason := s.reason, reconciled := s.reconciled) && st.status in {Running, Waiting}
    requires config.enabled && GlobalBlock(ctx).None? && Shows(ctx.active, s.current)
    ensures TimerMoved(st, Hold(s, config, ctx).0, config, ctx)
  {
    if s.current.Some? {
      AdvanceKeepsDone(s.(completed := s.completed + [s.current.value], index := s.index + 1, heldSince := None), config, ctx);
      AdvanceRuns(s.(completed := s.completed + [s.current.value], index := s.index + 1, heldSince := None), config, ctx);
    }
  }

  lemma {:induction false} AdvanceRuns(st: Day, config: Config, ctx: Context)
    ensures Advance(st, config, ctx).0.status in {Running, Finalizing, Completed}
    decreases |config.sequence| - st.index
  {
    if st.index < |config.sequence| {
      var target := WingTarget(config.sequence[st.index], config, ctx);
      if target.Ineligible? {
        AdvanceRuns(st.(skipped := st.skipped + [Skip(config.sequence[st.index], target.reason)], index := st.index + 1), config, ctx);
      }
    }
  }

  lemma EvaluateTimer(st: Day, config: Config, ctx: Context)
    requires TimerOk(st) && st.date == Some(ctx.date)
    ensures TimerMoved(st, Evaluate(st, config, ctx).0, config, ctx)
  {
    var s := st.(reason := None, reconciled := true);
    if st.status == Idle {
      AdvanceKeepsDone(s, config, ctx);
      AdvanceRuns(s, config, ctx);
    } else if st.status in {Running, Waiting} && config.enabled && GlobalBlock(ctx).None? && Shows(ctx.active, s.current) {
      HoldTimer(st, s, config, ctx);
    }
  }

  lemma TimerStep(st: Day, turn: Turn)
    requires TimerOk(st)
    ensures TimerMoved(Today(st, turn.ctx.date), Step(st, turn), turn.config, turn.ctx)
  {
    EvaluateTimer(Today(st, turn.ctx.date), turn.config, turn.ctx);
  }

  ghost predicate EachTimed(states: seq<Day>, turns: seq<Turn>)
    requires |states| == |turns| + 1
  {
    forall j | 0 <= j < |turns| && TimerOk(states[j]) ::
      TimerMoved(Today(states[j], turns[j].ctx.date), states[j + 1], turns[j].config, turns[j].ctx)
  }

  lemma RunTimes(states: seq<Day>, turns: seq<Turn>)
    requires IsRun(states, turns)
    ensures EachTimed(states, turns)
  {
    forall j | 0 <= j < |turns| && TimerOk(states[j])
      ensures TimerMoved(Today(states[j], turns[j].ctx.date), states[j + 1], turns[j].config, turns[j].ctx)
    {
      TimerStep(states[j], turns[j]);
    }
  }

  lemma {:induction false} TimerOkAlong(states: seq<Day>, turns: seq<Turn>, k: nat)
    requires |states| == |turns| + 1 && EachTimed(states, turns) && k <= |turns| && TimerOk(states[0])
    ensures TimerOk(states[k])
  {
    if k > 0 {
      TimerOkAlong(states, turns, k - 1);
    }
  }

  /** A running timer names a start inside the run from which every evaluation held. */
  lemma {:induction false} TimerStart(states: seq<Day>, turns: seq<Turn>, k: nat) returns (j: nat)
    requires |states| == |turns| + 1 && EachTimed(states, turns)
    requires k <= |turns| && TimerOk(states[0]) && !TimerOn(states[0]) && TimerOn(states[k])
    ensures j < k && turns[j].ctx.now == states[k].heldSince.value
    ensures HeldThroughout(turns, j, k - 1, states[k].current.value)
  {
    TimerOkAlong(states, turns, k - 1);
    if states[k].heldSince.value == turns[k - 1].ctx.now {
      j := k - 1;
    } else {
      j := TimerStart(states, turns, k - 1);
    }
  }

  /** The hold window: `wing`, entered into completed at turn k, was held from some start of at least
    * persistence_s before, at every evaluation of this process in between. */
  ghost predicate HoldWindow(turns: seq<Turn>, k: nat, wing: Slot)
    requires k < |turns|
  {
    exists j :: 0 <= j <= k && turns[k].ctx.now - turns[j].ctx.now >= turns[k].config.persistence && HeldThroughout(turns, j, k, wing)
  }

  predicate Grew(states: seq<Day>, turns: seq<Turn>, k: nat)
    requires |states| == |turns| + 1 && k < |turns|
  {
    states[k + 1].completed != Today(states[k], turns[k].ctx.date).completed
  }

  ghost predicate EveryHoldWindow(states: seq<Day>, turns: seq<Turn>)
    requires |states| == |turns| + 1
  {
    forall k | 0 <= k < |turns| && Grew(states, turns, k) ::
      && states[k].current.Some?
      && states[k + 1].completed == states[k].completed + [states[k].current.value]
      && HoldWindow(turns, k, states[k].current.value)
  }

  lemma CompletionWasHeld(states: seq<Day>, turns: seq<Turn>, k: nat)
    requires IsRun(states, turns) && TimerOk(states[0]) && !TimerOn(states[0])
    requires k < |turns| && Grew(states, turns, k)
    ensures states[k].current.Some? && states[k + 1].completed == states[k].completed + [states[k].current.value]
    ensures HoldWindow(turns, k, states[k].current.value)
  {
    RunTimes(states, turns);
    TimerOkAlong(states, turns, k);
    var j := TimerStart(states, turns, k);
    assert HeldThroughout(turns, j, k, states[k].current.value);
  }

  ghost predicate AlwaysHeld(st: Day) {
    forall states: seq<Day>, turns: seq<Turn> | IsRun(states, turns) && states[0] == st :: EveryHoldWindow(states, turns)
  }

  /** The measurements that complete an inherited timer at once. */
  function Ripe(st: Day): Turn
    requires TimerOn(st) && st.date.Some?
  {
    var wing, now := st.current.value, st.heldSince.value + 1.0;
    var ready := WingContext(true, true, Some(1.0), Some(1.0));
    Turn(Config(true, SLOTS, 0.0, 1.0, Everywhere(WingConfig(true, None))),
         Context(now, st.date.value, false, true, true, Some(now), One(wing), AttributedTo(wing), Everywhere(ready)),
         true, Nothing)
  }

  lemma InheritedTimerCompletes(st: Day)
    requires TimerOn(st) && st.date.Some?
    ensures !AlwaysHeld(st)
  {
    var turn := Ripe(st);
    var states, turns := [st, Step(st, turn)], [turn];
    assert IsRun(states, turns) && states[0] == st;
    var wing := st.current.value;
    assert AtThreshold(wing, turn.config, turn.ctx);
    AdvanceKeepsDone(st.(reason := None, reconciled := true, completed := st.completed + [wing], index := st.index + 1, heldSince := None), turn.config, turn.ctx);
    assert Step(st, turn).completed == st.completed + [wing];
    assert Grew(states, turns, 0);
    assert !HoldWindow(turns, 0, wing);
  }

  /** The hold window holds in every run of a process exactly when the process did not inherit a
    * running timer from the state file: persistence_started_at survives a restart, so the first
    * evaluation after one can complete a wing nobody watched in between. */
  lemma HoldWindowExactly(st: Day)
    requires TimerOk(st) && (TimerOn(st) ==> st.date.Some?)
    ensures AlwaysHeld(st) <==> !TimerOn(st)
  {
    if TimerOn(st) {
      InheritedTimerCompletes(st);
    } else {
      forall states: seq<Day>, turns: seq<Turn> | IsRun(states, turns) && states[0] == st ensures EveryHoldWindow(states, turns) {
        forall k | 0 <= k < |turns| && Grew(states, turns, k)
          ensures states[k].current.Some? && states[k + 1].completed == states[k].completed + [states[k].current.value]
          ensures HoldWindow(turns, k, states[k].current.value)
        {
          CompletionWasHeld(states, turns, k);
        }
      }
    }
  }
}
