/** The relay layer (pi_firmware/gpio_manager.py): break before make with polled feedback, deadlines
  * and fail-safe faults.
  *
  * The methods run under the GPIO lock, so they run one at a time. Feedback is whatever the world
  * gives: each sample is a free choice. The clock moves forward by any amount at any reading and by
  * at least the requested time at each sleep. `trace` is a ghost record of every relay write and
  * every feedback reading, so that claims hold at each instant and not only on return.
  */
module GpioManager {
  import opened Vocabulary
  import opened RelayTrace

  datatype SystemState = Booting | SelfTest | HardwareReconciliation | Ready | Executing | InFault | CloudOffline

  datatype Commanded = CommandedOn | CommandedOff | NotCommanded

  datatype Feedback = FeedbackOn | FeedbackOff | FeedbackUnknown | FeedbackPending

  const ALL: set<Slot> := {A, B, C, D}

  const SAMPLE_STEP: int := FEEDBACK_DEBOUNCE / 50
  const MAX_GAP: int := FEEDBACK_DEBOUNCE / 10

  /** One look at the input: when the clock was read after it, and what it showed. */
  datatype Sample = Sample(at: int, pressed: bool)

  predicate Agreeing(samples: seq<Sample>, value: bool) {
    && |samples| >= 1
    && (forall k | 0 <= k < |samples| :: samples[k].pressed == value)
    && (forall k | 0 <= k < |samples| - 1 :: 0 <= samples[k + 1].at - samples[k].at <= 5 * MS)
  }

  /** All samples agreed, over at least the debounce window, with no gap above 5 ms. */
  predicate Qualified(samples: seq<Sample>, value: bool) {
    Agreeing(samples, value) && samples[|samples| - 1].at - samples[0].at >= 50 * MS
  }

  /** The looks that gave the samples. */
  function Seen(samples: seq<Sample>): seq<Option<bool>> {
    seq(|samples|, k requires 0 <= k < |samples| => Some(samples[k].pressed))
  }

  /** Why no value was qualified: the deadline passed, the input could not be read, it differed from the
    * samples before, or they were too far apart. */
  predicate Rejected(before: seq<Option<bool>>, after: seq<Option<bool>>, samples: seq<Sample>, ended: int, deadline: Option<int>) {
    || (deadline.Some? && deadline.value <= ended)
    || after == before + [None]
    || (samples != [] && Agreeing(samples, samples[0].pressed)
        && |after| == |before| + |samples| + 1 && after[..|after| - 1] == before + Seen(samples)
        && (after[|after| - 1] != Some(samples[0].pressed) || ended - samples[|samples| - 1].at > 5 * MS))
  }

  lemma Unusable(before: seq<Option<bool>>, samples: seq<Sample>, sample: Option<bool>, ended: int, deadline: Option<int>)
    requires samples != [] && Agreeing(samples, samples[0].pressed)
    requires (deadline.Some? && deadline.value <= ended) || sample != Some(samples[0].pressed) || ended - samples[|samples| - 1].at > 5 * MS
    ensures Rejected(before, before + Seen(samples) + [sample], samples, ended, deadline)
  {
    var after := before + Seen(samples) + [sample];
    assert after[..|after| - 1] == before + Seen(samples);
  }

  /** The latest looks qualified nothing. */
  ghost predicate EndedRejected(looks: seq<Option<bool>>, ended: int, deadline: int) {
    exists before, samples :: Rejected(before, looks, samples, ended, Some(deadline))
  }

  lemma SeenStep(samples: seq<Sample>, sample: Sample)
    ensures Seen(samples + [sample]) == Seen(samples) + [Some(sample.pressed)]
  {
  }

  lemma OneMore(samples: seq<Sample>, value: bool, at: int)
    requires Agreeing(samples, value) && 0 <= at - samples[|samples| - 1].at <= 5 * MS
    ensures Agreeing(samples + [Sample(at, value)], value)
  {
  }

  /** What a reading means for a commanded state. */
  function Judge(expected: Commanded, reading: Option<bool>): Token {
    match reading
    case None => Token.Pending
    case Some(on) =>
      match expected
      case CommandedOn => if on then VerifiedOn else MismatchOnOff
      case CommandedOff => if on then MismatchOffOn else VerifiedOff
      case NotCommanded => Token.Pending
  }

  function Shown(reading: Option<bool>): Feedback {
    match reading
    case None => FeedbackPending
    case Some(on) => if on then FeedbackOn else FeedbackOff
  }

  /** What a token says of the commanded state and the reading. */
  ghost predicate Means(expected: Commanded, reading: Option<bool>, token: Token) {
    && (token == VerifiedOn <==> expected == CommandedOn && reading == Some(true))
    && (token == VerifiedOff <==> expected == CommandedOff && reading == Some(false))
    && (token == MismatchOnOff <==> expected == CommandedOn && reading == Some(false))
    && (token == MismatchOffOn <==> expected == CommandedOff && reading == Some(true))
    && (token == Token.Pending <==> expected == NotCommanded || reading == None)
  }

  /** One value for the named wings, and the old ones for the others. */
  function Reset<T>(values: PerSlot<T>, wings: set<Slot>, v: T): PerSlot<T> {
    PerSlot(if A in wings then v else values.a, if B in wings then v else values.b,
            if C in wings then v else values.c, if D in wings then v else values.d)
  }

  function ShownAs(on: bool): Feedback {
    if on then FeedbackOn else FeedbackOff
  }

  function Displayed(feedback: PerSlot<Feedback>, readings: map<Slot, bool>): PerSlot<Feedback> {
    PerSlot(if A in readings then ShownAs(readings[A]) else feedback.a, if B in readings then ShownAs(readings[B]) else feedback.b,
            if C in readings then ShownAs(readings[C]) else feedback.c, if D in readings then ShownAs(readings[D]) else feedback.d)
  }

  /** While the wings are read, nothing is known of a watched one. */
  function StartFeedback(watched: set<Slot>): PerSlot<Feedback> {
    Reset(Everywhere(FeedbackUnknown), watched, FeedbackPending)
  }

  function StartVerification(watched: set<Slot>): PerSlot<Token> {
    Reset(Everywhere(NotConfigured), watched, Token.Pending)
  }

  function ReconciledVerification(watched: set<Slot>, driven: set<Slot>): PerSlot<Token> {
    Reset(Reset(Reset(Everywhere(NotConfigured), driven, GpioConfirmed), watched, VerifiedOff), watched * driven, VerifiedOn)
  }

  function MismatchToken(on: bool): Token {
    if on then MismatchOnOff else MismatchOffOn
  }

  /** A watched wing was read in the state opposite to its relay. */
  predicate Differs(readings: map<Slot, bool>, driven: set<Slot>) {
    exists s :: Opposite(readings, driven, s)
  }

  predicate Opposite(readings: map<Slot, bool>, driven: set<Slot>, s: Slot) {
    s in readings && readings[s] != (s in driven)
  }

  /** The first wing, from A to D, that was read in the state opposite to its relay. */
  predicate FirstOpposite(readings: map<Slot, bool>, driven: set<Slot>, s: Slot) {
    && Opposite(readings, driven, s)
    && (s != A ==> !Opposite(readings, driven, A))
    && (s in {C, D} ==> !Opposite(readings, driven, B))
    && (s == D ==> !Opposite(readings, driven, C))
  }

  /** What the wings say after the states were published. */
  ghost predicate Told(watched: set<Slot>, driven: set<Slot>, commanded: PerSlot<Commanded>, feedback: PerSlot<Feedback>, verification: PerSlot<Token>) {
    forall s ::
      && commanded.At(s) == (if s in driven then CommandedOn else CommandedOff)
      && feedback.At(s) == (if s !in watched then FeedbackUnknown else if s in driven then FeedbackOn else FeedbackOff)
      && verification.At(s) == (if s in watched then (if s in driven then VerifiedOn else VerifiedOff)
                                else if s in driven then GpioConfirmed else NotConfigured)
  }

  lemma ToldByReset(readings: map<Slot, bool>, driven: set<Slot>)
    requires !Differs(readings, driven)
    ensures Told(readings.Keys, driven, Reset(Everywhere(CommandedOff), driven, CommandedOn),
                 Displayed(StartFeedback(readings.Keys), readings), ReconciledVerification(readings.Keys, driven))
  {
    forall s | s in readings ensures readings[s] == (s in driven) {
      assert !Opposite(readings, driven, s);
    }
  }

  /** What is said of one wing when reconciliation is refused: of a watched wing nothing but what was just read,
    * and a mismatch token only where there was one. */
  predicate RefusedWing(readings: map<Slot, bool>, driven: set<Slot>, s: Slot, feedback: Feedback, verification: Token) {
    if s in readings then
      && (feedback == FeedbackPending || feedback == ShownAs(readings[s]))
      && (verification == Token.Pending || (Opposite(readings, driven, s) && verification == MismatchToken(s in driven)))
    else feedback == FeedbackUnknown && (verification == NotConfigured || (s in driven && verification == GpioConfirmed))
  }

  /** How a refusal before the publication leaves the two columns: with what was read, for two relays or
    * contactors; else with the first wing to blame; else as at the start. */
  predicate LeftByRefusal(readings: map<Slot, bool>, driven: set<Slot>, feedback: PerSlot<Feedback>, verification: PerSlot<Token>) {
    var f, v := StartFeedback(readings.Keys), StartVerification(readings.Keys);
    if |driven| > 1 || |On(readings)| > 1 then feedback == Displayed(f, readings) && verification == v
    else if Differs(readings, driven) then
      feedback == f && exists s :: FirstOpposite(readings, driven, s) && verification == v.With(s, MismatchToken(s in driven))
    else feedback == f && verification == v
  }

  lemma RefusalLeaves(readings: map<Slot, bool>, driven: set<Slot>, feedback: PerSlot<Feedback>, verification: PerSlot<Token>)
    requires LeftByRefusal(readings, driven, feedback, verification)
    ensures forall s :: RefusedWing(readings, driven, s, feedback.At(s), verification.At(s))
  {
  }

  /** After the publication: of the watched wings nothing is known any more. */
  predicate LeftByDeadline(readings: map<Slot, bool>, driven: set<Slot>, feedback: PerSlot<Feedback>, verification: PerSlot<Token>) {
    && feedback == Reset(Displayed(StartFeedback(readings.Keys), readings), readings.Keys, FeedbackPending)
    && verification == Reset(ReconciledVerification(readings.Keys, driven), readings.Keys, Token.Pending)
  }

  lemma DeadlineLeaves(readings: map<Slot, bool>, driven: set<Slot>, feedback: PerSlot<Feedback>, verification: PerSlot<Token>)
    requires LeftByDeadline(readings, driven, feedback, verification)
    ensures forall s :: RefusedWing(readings, driven, s, feedback.At(s), verification.At(s))
  {
  }

  function On(readings: map<Slot, bool>): set<Slot> {
    set s | s in readings && readings[s]
  }

  /** The trace gained readings of the wing, begun at `since` or later, and nothing else. */
  ghost predicate Polled(before: Trace, after: Trace, s: Slot, since: int) {
    before <= after && forall k | |before| <= k < |after| :: after[k].Reading? && after[k].slot == s && since <= after[k].began
  }

  /** The reading is the one that was waited for; any value will do when none is named. */
  predicate Meets(reading: Option<bool>, sought: Option<bool>) {
    reading.Some? && (sought.None? || reading == sought)
  }

  /** None of the first `n` events, as far as the trace gained them, is a reading that was waited for. */
  ghost predicate Lacking(before: Trace, after: Trace, sought: Option<bool>, n: int) {
    forall k | |before| <= k < n && k < |after| && after[k].Reading? :: !Meets(after[k].value, sought)
  }

  /** The trace goes on with a relay being switched off. */
  ghost predicate Dropping(before: Trace, after: Trace, since: int) {
    before <= after && |before| < |after| && after[|before|].SwitchedOff? && since <= after[|before|].at
  }

  lemma PolledOnce(before: Trace, mid: Trace, after: Trace, s: Slot, since: int, later: int)
    requires Polled(before, mid, s, since) && Polled(mid, after, s, later) && since <= later && |after| == |mid| + 1
    ensures Polled(before, after, s, since)
    ensures forall sought | Lacking(before, mid, sought, |mid|) ::
      && Lacking(before, after, sought, |after| - 1)
      && (!Meets(after[|mid|].value, sought) ==> Lacking(before, after, sought, |after|))
  {
    assert forall k | |before| <= k < |mid| :: after[k] == mid[k];
  }

  /** Every reading gained but the last was inconclusive. */
  ghost predicate NoneConclusive(before: Trace, after: Trace) {
    forall k | |before| <= k < |after| - 1 :: after[k].Reading? && after[k].value == None
  }

  /** Nothing but relays being switched off, from event `n` on. */
  ghost predicate OnlyOff(t: Trace, n: int) {
    0 <= n && forall k | n <= k < |t| :: t[k].SwitchedOff?
  }

  /** The relay was written, the wing was polled, and then the relays were dropped after the budget. */
  lemma NeverConfirmed(before: Trace, polled: Trace, after: Trace, s: Slot, value: bool, start: int, late: int)
    requires before != [] && (if value then before[|before| - 1].SwitchedOn? else before[|before| - 1].SwitchedOff?)
    requires before[|before| - 1].slot == s && before[|before| - 1].at <= start
    requires Polled(before, polled, s, start) && |before| < |polled| && Lacking(before, polled, Some(value), |polled| - 1)
    requires Dropping(polled, after, late) && start + FEEDBACK_TIMEOUT < late
    ensures Caused(after, NeverShowed(s, value, start, |before|, |polled|))
  {
    assert after[|before| - 1] == before[|before| - 1];
    assert forall k | |before| <= k < |polled| :: after[k] == polled[k];
  }

  lemma NeverReadable(before: Trace, polled: Trace, after: Trace, s: Slot, start: int, late: int)
    requires Polled(before, polled, s, start) && |before| < |polled|
    requires Lacking(before, polled, None, |polled|)
    requires Dropping(polled, after, late) && start + FEEDBACK_TIMEOUT < late
    ensures Caused(after, Unreadable(s, start, |before|, |polled|))
  {
    assert forall k | |before| <= k < |polled| :: after[k] == polled[k];
  }

  /** No other wing was read between the two. */
  ghost predicate OthersKept(before: Summary, after: Summary, slot: Slot) {
    forall s | s != slot :: after.reading.At(s) == before.reading.At(s)
  }

  /** The latest looks showed, once for each wing of `order`, what `readings` say. */
  ghost predicate JustShown(looks: seq<Option<bool>>, order: seq<Slot>, readings: map<Slot, bool>) {
    && |order| <= |looks|
    && forall k | 0 <= k < |order| :: order[k] in readings && looks[|looks| - |order| + k] == Some(readings[order[k]])
  }

  datatype Attempt = Pass(complete: bool) | Again(same: bool)

  /** An attempt was no good, and the next one shows it: a complete pass is looked at again. */
  predicate NoGood(a: Attempt, next: Attempt) {
    if a.Pass? then a.complete ==> next.Again? else !a.same
  }

  /** None of the attempts was any good, except perhaps that the last ended too late. */
  ghost predicate Futile(before: seq<Attempt>, after: seq<Attempt>) {
    before <= after && forall k | |before| <= k < |after| - 1 :: NoGood(after[k], after[k + 1])
  }

  /** The latest of several attempts: a complete pass, and a second look that saw the same. */
  ghost predicate Confirmed(before: seq<Attempt>, after: seq<Attempt>) {
    |before| + 2 <= |after| && after[|after| - 2] == Pass(true) && after[|after| - 1] == Again(true)
  }

  lemma FutileMore(before: seq<Attempt>, after: seq<Attempt>, a: Attempt)
    requires Futile(before, after) && (|before| < |after| ==> NoGood(after[|after| - 1], a))
    ensures Futile(before, after + [a])
  {
    var longer := after + [a];
    assert before <= longer;
    forall k | |before| <= k < |longer| - 1 ensures NoGood(longer[k], longer[k + 1]) {
      if k + 1 < |after| {
        assert longer[k + 1] == after[k + 1];
      } else {
        assert longer[k + 1] == a;
      }
    }
  }

  class GpioManager {
    /** GPIO_INIT_FAILED: there are no relays to drive. */
    var hardwareFault: bool
    var feedbackEnabled: set<Slot>
    /** The installed relays, and the ones among them driven on. */
    var relays: set<Slot>
    var on: set<Slot>
    var commanded: PerSlot<Commanded>
    var feedback: PerSlot<Feedback>
    var verification: PerSlot<Token>
    var activeSlot: Option<Slot>
    var systemState: SystemState
    var now: int
    ghost var trace: Trace
    ghost var summary: Summary
    /** Every look at an input. */
    ghost var looks: seq<Option<bool>>
    /** Every attempt of reconciliation to read all watched wings, and to see them unchanged. */
    ghost var attempts: seq<Attempt>

    /** Holds at every instant, also in the middle of a transition. */
    ghost predicate Valid()
      reads `relays, `hardwareFault, `on, `trace, `summary
    {
      && relays == (if hardwareFault then {} else ALL)
      && summary == Summarise(trace) && summary.lawful
      && on <= relays && on == summary.energised
    }

    /** Holds whenever the lock is free: an energised relay is the one active_slot names. */
    ghost predicate LockFree()
      reads `relays, `hardwareFault, `on, `trace, `summary, `activeSlot
    {
      Valid() && forall s | s in on :: activeSlot == Some(s)
    }

    /** What Valid promises of the whole past: at every instant at most one relay was energised, and
      * every switch-on that took over from wing c came when c had been off for the interlock delay
      * and, if watched, had last been read OFF, in a reading begun after that delay. The last state of
      * the trace is that of the relays. */
    lemma EveryInstant(n: nat)
      requires Valid() && n <= |trace|
      ensures AtMostOneEnergised(trace[..n])
      ensures n < |trace| && trace[n].SwitchedOn? && trace[n].from.Some? && trace[n].from.value != trace[n].slot ==>
        Isolated(trace[..n], trace[n].from.value, trace[n].watched, trace[n].at)
      ensures Energised(trace) == on
    {
      LawfulAtEveryInstant(trace, n);
      SummaryIsFaithful(trace, A);
    }

    /** Initialisation drives every relay off; a failed one leaves none. `stored` is what the state
      * file said. */
    constructor (broken: bool, enabled: set<Slot>, stored: Option<Slot>)
      ensures LockFree() && on == {} && activeSlot == stored && systemState == Booting && hardwareFault == broken && feedbackEnabled == enabled
    {
      hardwareFault, feedbackEnabled := broken, enabled;
      relays, on := if broken then {} else ALL, {};
      commanded, feedback, verification := Everywhere(NotCommanded), Everywhere(FeedbackUnknown), Everywhere(NotConfigured);
      activeSlot, systemState, now := stored, Booting, 0;
      trace, summary, looks, attempts := [], BLANK, [], [];
    }

    // ---------------------------------------------------------- clock and inputs

    method Clock() returns (t: int)
      modifies `now
      ensures t == now >= old(now)
    {
      var passed: int :| passed >= 0;
      now := now + passed;
      return now;
    }

    method Sleep(d: int)
      requires d > 0
      modifies `now
      ensures now >= old(now) + d
    {
      var late: int :| late >= 0;
      now := now + d + late;
    }

    ghost method Record(e: Event)
      requires summary == Summarise(trace)
      modifies `trace, `summary
      ensures trace == old(trace) + [e] && summary == old(summary).Next(e) == Summarise(trace)
    {
      SummaryStep(trace, e);
      trace, summary := trace + [e], summary.Next(e);
    }

    /** is_pressed; None stands for a value that is not a boolean, or an exception. */
    method Look() returns (sample: Option<bool>)
      modifies `now, `looks
      ensures looks == old(looks) + [sample] && now >= old(now)
    {
      var passed: int :| passed >= 0;
      now := now + passed;
      sample := *;
      looks := looks + [sample];
    }

    /** _read_feedback_raw. */
    method ReadFeedbackRaw(slot: Slot, deadline: Option<int>)
      returns (reading: Option<bool>, ghost began: int, ghost samples: seq<Sample>, ghost rounds: nat)
      requires summary == Summarise(trace)
      modifies `now, `trace, `summary, `looks
      ensures old(now) <= began <= now && trace == old(trace) + [Reading(slot, reading, began, now)]
      ensures summary == Summarise(trace) == old(summary).Next(Reading(slot, reading, began, now))
      ensures reading.Some? ==> Qualified(samples, reading.value) && looks == old(looks) + Seen(samples)
      ensures reading.Some? ==> old(now) <= samples[0].at && samples[|samples| - 1].at <= now
      ensures reading.Some? && deadline.Some? ==> now < deadline.value
      ensures reading.None? ==> Rejected(old(looks), looks, samples, now, deadline)
      ensures rounds <= 50
      ensures |looks| <= |old(looks)| + rounds + 1
    {
      began := now;
      reading, samples, rounds := Sampled(deadline);
      Record(Reading(slot, reading, began, now));
    }

    method Sampled(deadline: Option<int>)
      returns (reading: Option<bool>, ghost samples: seq<Sample>, ghost rounds: nat)
      modifies `now, `looks
      ensures now >= old(now)
      ensures reading.Some? ==> Qualified(samples, reading.value) && looks == old(looks) + Seen(samples)
      ensures reading.Some? ==> old(now) <= samples[0].at && samples[|samples| - 1].at <= now
      ensures reading.Some? && deadline.Some? ==> now < deadline.value
      ensures reading.None? ==> Rejected(old(looks), looks, samples, now, deadline)
      ensures rounds <= 50
      ensures |looks| <= |old(looks)| + rounds + 1
    {
      rounds, samples := 0, [];
      var first := Look();
      if first.None? {
        return None, samples, rounds;
      }
      var start := Clock();
      var previous := start;
      samples := [Sample(start, first.value)];
      assert looks == old(looks) + Seen(samples);
      while true
        invariant start <= previous <= now && old(now) <= start
        invariant previous - start < FEEDBACK_DEBOUNCE
        invariant rounds * SAMPLE_STEP <= previous - start
        invariant Agreeing(samples, first.value)
        invariant samples[0].at == start && samples[|samples| - 1].at == previous
        invariant looks == old(looks) + Seen(samples) && |samples| == rounds + 1
        decreases FEEDBACK_DEBOUNCE - (previous - start)
      {
        rounds := rounds + 1;
        var t := Clock();
        if deadline.Some? && deadline.value - t <= 0 {
          return None, samples, rounds;
        }
        Sleep(if deadline.None? || SAMPLE_STEP < deadline.value - t then SAMPLE_STEP else deadline.value - t);
        var sample := Look();
        t := Clock();
        if (deadline.Some? && t >= deadline.value) || sample != first || t - previous > MAX_GAP {
          Unusable(old(looks), samples, sample, t, deadline);
          return None, samples, rounds;
        }
        OneMore(samples, first.value, t);
        SeenStep(samples, Sample(t, first.value));
        samples := samples + [Sample(t, first.value)];
        if t - start >= FEEDBACK_DEBOUNCE {
          return first, samples, rounds;
        }
        previous := t;
      }
    }

    /** verify_slot. */
    method VerifySlot(slot: Slot, expected: Commanded) returns (result: Token, ghost reading: Option<bool>, ghost began: int)
      requires Valid()
      modifies `now, `trace, `summary, `looks, `feedback
      ensures Valid() && old(now) <= began <= now
      ensures slot !in feedbackEnabled ==>
        result == NotConfigured && trace == old(trace) && summary == old(summary) && feedback == old(feedback)
      ensures slot in feedbackEnabled ==>
        && trace == old(trace) + [Reading(slot, reading, began, now)]
        && summary == old(summary).Next(Reading(slot, reading, began, now))
        && result == Judge(expected, reading) && Means(expected, reading, result)
        && (reading.None? ==> exists samples :: Rejected(old(looks), looks, samples, now, None))
        && feedback == (match reading
                        case None => old(feedback).With(slot, FeedbackPending)
                        case Some(on) => if expected == NotCommanded then old(feedback)
                                         else old(feedback).With(slot, if on then FeedbackOn else FeedbackOff))
    {
      reading, began := None, now;
      if slot !in feedbackEnabled {
        return NotConfigured, reading, began;
      }
      var seen, began', samples, rounds := ReadFeedbackRaw(slot, None);
      if seen.None? || expected != NotCommanded {
        feedback := feedback.With(slot, Shown(seen));
      }
      assert seen.None? ==> Rejected(old(looks), looks, samples, now, None);
      return Judge(expected, seen), seen, began';
    }

    /** verify_slot on a watched wing, as the wait loops use it. */
    method Check(slot: Slot, expected: Commanded) returns (result: Token, ghost reading: Option<bool>)
      requires Valid() && slot in feedbackEnabled && expected != NotCommanded
      modifies `now, `trace, `summary, `looks, `feedback
      ensures Valid() && now >= old(now) && summary.off == old(summary).off
      ensures result == Judge(expected, reading)
      ensures reading.Some? ==> Showed(summary, slot, reading.value, old(now))
      ensures OthersKept(old(summary), summary, slot)
      ensures Polled(old(trace), trace, slot, old(now)) && |trace| == |old(trace)| + 1 && trace[|old(trace)|].value == reading
    {
      ghost var began;
      result, reading, began := VerifySlot(slot, expected);
    }

    // ---------------------------------------------------------- relay writes

    method RelayOff(s: Slot)
      requires Valid() && s in relays
      modifies `on, `now, `trace, `summary
      ensures Valid() && on == old(on) - {s}
      ensures now >= old(now) && trace == old(trace) + [SwitchedOff(s, now)]
      ensures summary == old(summary).Next(SwitchedOff(s, now))
    {
      var t := Clock();
      on := on - {s};
      Record(SwitchedOff(s, t));
    }

    predicate Watched(s: Option<Slot>)
      reads `feedbackEnabled
    {
      s.Some? && s.value in feedbackEnabled
    }

    /** The relay write of MAKE. */
    method RelayOn(s: Slot)
      requires Valid() && s in relays && on <= {s}
      requires summary.MayTakeOver(s, activeSlot, Watched(activeSlot), now)
      modifies `on, `now, `trace, `summary
      ensures Valid() && on == {s}
      ensures now >= old(now) && trace == old(trace) + [SwitchedOn(s, now, activeSlot, Watched(activeSlot))]
      ensures summary == old(summary).Next(SwitchedOn(s, now, activeSlot, Watched(activeSlot)))
    {
      var t := Clock();
      on := on + {s};
      Record(SwitchedOn(s, t, activeSlot, Watched(activeSlot)));
    }

    lemma FourRelays()
      requires Valid()
      ensures |relays| <= 4
    {
      assert |ALL| == 4;
    }

    /** _deenergize_all. */
    method DeenergizeAll()
      requires Valid()
      modifies `on, `now, `trace, `summary
      ensures Valid() && on == {}
      ensures now >= old(now) && old(trace) <= trace && (relays != {} ==> Dropping(old(trace), trace, old(now)))
      ensures summary.reading == old(summary).reading
      ensures |trace| <= |old(trace)| + 4
      ensures OnlyOff(trace, |old(trace)|)
    {
      var rest := relays;
      FourRelays();
      while rest != {}
        invariant rest <= relays
        invariant Valid() && on <= rest
        invariant now >= old(now) && old(trace) <= trace 
        invariant summary.reading == old(summary).reading
        invariant if rest == relays then trace == old(trace) else Dropping(old(trace), trace, old(now))
        invariant |trace| + |rest| == |old(trace)| + |relays| && OnlyOff(trace, |old(trace)|)
        decreases |rest|
      {
        var s :| s in rest;
        RelayOff(s);
        rest := rest - {s};
      }
    }

    /** How every hardware failure ends: all relays off, system in FAULT. */
    method FailSafe(slot: Slot, token: Token)
      requires Valid()
      modifies `on, `now, `trace, `summary, `verification, `systemState
      ensures Valid() && on == {} && systemState == InFault
      ensures verification == old(verification).With(slot, token)
      ensures now >= old(now) && old(trace) <= trace && (relays != {} ==> Dropping(old(trace), trace, old(now)))
      ensures summary.reading == old(summary).reading
      ensures |trace| <= |old(trace)| + 4
      ensures OnlyOff(trace, |old(trace)|)
    {
      verification := verification.With(slot, token);
      DeenergizeAll();
      systemState := InFault;
    }

    // ---------------------------------------------------------- waiting for feedback

    /** One more reading in a wait loop that began at `begun`, when the trace was `before`. */
    method PollOnce(slot: Slot, expected: Commanded, ghost sought: Option<bool>, ghost before: Trace, ghost begun: int)
      returns (result: Token, ghost reading: Option<bool>)
      requires Valid() && slot in feedbackEnabled && expected != NotCommanded && Polled(before, trace, slot, begun) && begun <= now
      requires Lacking(before, trace, sought, |trace|)
      modifies `now, `trace, `summary, `looks, `feedback
      ensures Valid() && now >= old(now) && summary.off == old(summary).off
      ensures result == Judge(expected, reading)
      ensures reading.Some? ==> Showed(summary, slot, reading.value, old(now))
      ensures OthersKept(old(summary), summary, slot)
      ensures Polled(before, trace, slot, begun) && |before| < |trace| && trace[|trace| - 1].value == reading
      ensures Lacking(before, trace, sought, |trace| - 1)
      ensures !Meets(reading, sought) ==> Lacking(before, trace, sought, |trace|)
      ensures |trace| == |old(trace)| + 1
    {
      ghost var mid, since := trace, now;
      result, reading := Check(slot, expected);
      PolledOnce(before, mid, trace, slot, begun, since);
    }

    /** The wait loop of opening, closing and deactivating: poll until the feedback agrees with the
      * command inside the budget that began at `start`, or give up when the budget is spent. */
    method Await(slot: Slot, expected: Commanded) returns (ok: bool, ghost rounds: nat, ghost start: int)
      requires Valid() && slot in feedbackEnabled && expected != NotCommanded
      modifies `now, `trace, `summary, `looks, `feedback
      ensures Valid() && now >= old(now) && |trace| > |old(trace)| && summary.off == old(summary).off
      ensures old(now) <= start && Polled(old(trace), trace, slot, start)
      ensures ok ==> Showed(summary, slot, expected == CommandedOn, start) && now - start <= 2000 * MS
      ensures !ok ==> now - start > 2000 * MS && Lacking(old(trace), trace, Some(expected == CommandedOn), |trace| - 1)
      ensures rounds <= 42
      ensures |trace| == |old(trace)| + rounds
    {
      ghost var before := trace;
      var begun := Clock();
      start, rounds := begun, 0;
      while true
        invariant Valid() && summary.off == old(summary).off && Polled(before, trace, slot, begun)
        invariant Lacking(before, trace, Some(expected == CommandedOn), |trace|)
        invariant old(now) <= begun <= now && rounds * POLL <= now - begun && rounds <= 41 && |trace| == |before| + rounds
        decreases FEEDBACK_TIMEOUT - (now - begun)
      {
        rounds := rounds + 1;
        var result, reading := PollOnce(slot, expected, Some(expected == CommandedOn), before, begun);
        var t := Clock();
        if result == (if expected == CommandedOn then VerifiedOn else VerifiedOff) && t - begun <= FEEDBACK_TIMEOUT {
          return true, rounds, start;
        }
        t := Clock();
        if t - begun > FEEDBACK_TIMEOUT {
          return false, rounds, start;
        }
        Sleep(POLL);
      }
    }

    /** The re-qualification after the deadtime, immediately before MAKE: OFF lets it pass, a
      * conclusive ON vetoes at once, an inconclusive sample is taken again until the budget that began
      * at `start` is spent. */
    method Requalify(slot: Slot) returns (ok: bool, last: Token, ghost rounds: nat, ghost start: int)
      requires Valid() && slot in feedbackEnabled
      modifies `now, `trace, `summary, `looks, `feedback
      ensures Valid() && now >= old(now) && |trace| > |old(trace)| && summary.off == old(summary).off
      ensures old(now) <= start && Polled(old(trace), trace, slot, start)
      ensures Lacking(old(trace), trace, None, |trace| - 1)
      ensures ok ==> Showed(summary, slot, false, start)
      ensures !ok ==> last == if trace[|trace| - 1].value == None then Token.Pending else MismatchOffOn
      ensures !ok ==> trace[|trace| - 1].value == Some(true) || (trace[|trace| - 1].value == None && now - start > FEEDBACK_TIMEOUT)
      ensures rounds <= 42
      ensures |trace| == |old(trace)| + rounds
    {
      ghost var before := trace;
      var begun := Clock();
      start, rounds := begun, 0;
      while true
        invariant Valid() && summary.off == old(summary).off && Polled(before, trace, slot, begun)
        invariant Lacking(before, trace, None, |trace|)
        invariant old(now) <= begun <= now && rounds * POLL <= now - begun && rounds <= 41 && |trace| == |before| + rounds
        decreases FEEDBACK_TIMEOUT - (now - begun)
      {
        rounds := rounds + 1;
        var result, reading := PollOnce(slot, CommandedOff, None, before, begun);
        if result == VerifiedOff {
          return true, result, rounds, start;
        }
        var t := Clock();
        if result != Token.Pending || t - begun > FEEDBACK_TIMEOUT {
          return false, result, rounds, start;
        }
        Sleep(POLL);
      }
    }

    // ---------------------------------------------------------- transition_slot

    /** One event more: the wing is switched off. */
    ghost predicate JustSwitchedOff(before: Trace, after: Trace, c: Slot) {
      |after| == |before| + 1 && after[..|before|] == before && after[|before|].SwitchedOff? && after[|before|].slot == c
    }

    /** A wing's relay goes off, and with feedback its opening is confirmed: BREAK of a switch, and the
      * whole of a deactivation. It fails only when no reading showed the wing open within the budget. */
    method Break(c: Slot) returns (ok: bool, ghost rounds: nat, ghost why: Failure)
      requires Valid() && c in relays
      modifies `on, `now, `trace, `summary, `looks, `commanded, `feedback, `verification, `systemState
      ensures Valid() && now >= old(now) && old(trace) <= trace
      ensures ok ==> on == old(on) - {c} && systemState == old(systemState) && verification == old(verification)
      ensures ok ==> summary.off.At(c).Some? && summary.off.At(c).value <= now
      ensures ok ==> |old(trace)| < |trace| && trace[|old(trace)|] == SwitchedOff(c, summary.off.At(c).value)
      ensures ok && c in feedbackEnabled ==> Showed(summary, c, false, old(now))
      ensures c !in feedbackEnabled ==> ok && JustSwitchedOff(old(trace), trace, c)
      ensures !ok ==> on == {} && systemState == InFault && verification == old(verification).With(c, Timeout)
      ensures !ok ==> Caused(trace, why) && Since(why, |old(trace)| + 1) && why.NeverShowed? && why.wing == c && !why.value
      ensures commanded == old(commanded).With(c, CommandedOff)
      ensures rounds <= 42
      ensures |trace| <= |old(trace)| + rounds + 5
    {
      ok, rounds, why := true, 0, Showing(c, false, 0, 0);
      RelayOff(c);
      commanded := commanded.With(c, CommandedOff);
      if c in feedbackEnabled {
        ok, rounds, why := AwaitOpened(c);
      }
    }

    /** The wait for the contactor, right after its relay was switched off. */
    method AwaitOpened(c: Slot) returns (ok: bool, ghost rounds: nat, ghost why: Failure)
      requires Valid() && c in relays && c in feedbackEnabled
      requires trace != [] && trace[|trace| - 1].SwitchedOff? && trace[|trace| - 1].slot == c && trace[|trace| - 1].at <= now
      modifies `on, `now, `trace, `summary, `looks, `feedback, `verification, `systemState
      ensures Valid() && now >= old(now) && old(trace) <= trace
      ensures ok ==> on == old(on) && systemState == old(systemState) && verification == old(verification) && summary.off == old(summary).off
      ensures ok ==> Showed(summary, c, false, old(now))
      ensures !ok ==> on == {} && systemState == InFault && verification == old(verification).With(c, Timeout)
      ensures !ok ==> Caused(trace, why) && Since(why, |old(trace)|) && why.NeverShowed? && why.wing == c && !why.value
      ensures rounds <= 42
      ensures |trace| <= |old(trace)| + rounds + 4
    {
      ghost var start;
      ok, rounds, start := Await(c, CommandedOff);
      why := NeverShowed(c, false, start, |old(trace)|, |trace|);
      if !ok {
        ghost var polled, late := trace, now;
        FailSafe(c, Timeout);
        NeverConfirmed(old(trace), polled, trace, c, false, start, late);
      }
    }

    /** The wing was read ON after the deadtime. */
    ghost predicate Reclosed(t: Trace, c: Slot, why: Failure) {
      && why.Showing? && why.wing == c && why.value && Caused(t, why)
      && t[why.first].SwitchedOff? && t[why.first].slot == c && t[why.first].at + 500 * MS <= t[why.end - 1].began
    }

    /** Why wing c could not be released: it never opened, it was read ON after the deadtime, or it could not
      * be read then. */
    ghost predicate NotReleased(t: Trace, c: Slot, why: Failure) {
      Caused(t, why) && why.wing == c && ((why.NeverShowed? && !why.value) || Reclosed(t, c, why) || why.Unreadable?)
    }

    /** The token that the failure leaves at its wing. */
    function FailureToken(why: Failure): Token {
      match why
      case NeverShowed(_, _, _, _, _) => Timeout
      case Unreadable(_, _, _, _) => Token.Pending
      case Showing(_, value, _, _) => if value then MismatchOffOn else MismatchOnOff
    }

    /** Everything a take-over does before MAKE. */
    method ReleaseOther(c: Slot, target: Slot) returns (ok: bool, ghost rounds: nat, ghost why: Failure)
      requires Valid() && c in relays && target in relays && c != target && on <= {c}
      modifies `on, `now, `trace, `summary, `looks, `commanded, `feedback, `verification, `systemState
      ensures Valid() && now >= old(now) && old(trace) <= trace && on == {}
      ensures ok ==> systemState == old(systemState) && summary.MayTakeOver(target, Some(c), c in feedbackEnabled, now)
      ensures ok ==> verification == old(verification) && commanded == old(commanded).With(c, CommandedOff)
      ensures !ok ==> systemState == InFault && verification == old(verification).With(c, FailureToken(why))
      ensures !ok ==> c in feedbackEnabled && NotReleased(trace, c, why) && Since(why, |old(trace)|)
      ensures commanded.At(c) == CommandedOff
      ensures rounds <= 84
      ensures |trace| <= |old(trace)| + rounds + 10
    {
      ghost var broken := |trace|;
      ok, rounds, why := Break(c);
      if !ok {
        return;
      }
      Sleep(INTERLOCK_DELAY);
      if c in feedbackEnabled {
        ghost var more;
        ok, more, why := MayClose(c, target, broken);
        rounds := rounds + more;
      }
    }

    /** The pre-MAKE veto. */
    method MayClose(c: Slot, target: Slot, ghost broken: nat) returns (ok: bool, ghost rounds: nat, ghost why: Failure)
      requires Valid() && c in feedbackEnabled && target in relays && target != c && on == {}
      requires broken < |trace| && summary.off.At(c).Some? && trace[broken] == SwitchedOff(c, summary.off.At(c).value)
      requires summary.off.At(c).value + INTERLOCK_DELAY <= now
      modifies `on, `now, `trace, `summary, `looks, `commanded, `feedback, `verification, `systemState
      ensures Valid() && now >= old(now) && old(trace) <= trace && on == {}
      ensures ok ==> systemState == old(systemState) && summary.MayTakeOver(target, Some(c), true, now)
      ensures ok ==> verification == old(verification) && commanded == old(commanded)
      ensures !ok ==> systemState == InFault && verification == old(verification).With(c, FailureToken(why))
      ensures !ok ==> NotReleased(trace, c, why) && Since(why, broken)
      ensures commanded.At(c) == old(commanded).At(c)
      ensures rounds <= 42
      ensures |trace| <= |old(trace)| + rounds + 5
    {
      ghost var before := trace;
      var last;
      ghost var start;
      ok, last, rounds, start := Requalify(c);
      why := if trace[|trace| - 1].value == None then Unreadable(c, start, |before|, |trace|) else Showing(c, true, broken, |trace|);
      if !ok {
        ghost var polled, late := trace, now;
        Veto(c, target, last);
        if polled[|polled| - 1].value == None {
          NeverReadable(before, polled, trace, c, start, late);
        }
      }
    }

    method Veto(c: Slot, target: Slot, last: Token)
      requires Valid() && target in relays && target != c
      modifies `on, `now, `trace, `summary, `commanded, `verification, `systemState
      ensures Valid() && now >= old(now) && on == {} && systemState == InFault && Dropping(old(trace), trace, old(now))
      ensures verification == old(verification).With(c, last) && commanded == old(commanded).With(target, CommandedOff)
      ensures |trace| <= |old(trace)| + 5 && trace[|old(trace)|].slot == target
    {
      commanded := commanded.With(target, CommandedOff);
      RelayOff(target);
      FailSafe(c, last);
    }

    /** The wait for the contactor, right after its relay was switched on. */
    method AwaitClosed(target: Slot) returns (ok: bool, ghost rounds: nat, ghost why: Failure)
      requires Valid() && target in relays && target in feedbackEnabled && on == {target}
      requires trace != [] && trace[|trace| - 1].SwitchedOn? && trace[|trace| - 1].slot == target && trace[|trace| - 1].at <= now
      modifies `on, `now, `trace, `summary, `looks, `commanded, `feedback, `verification, `systemState
      ensures Valid() && now >= old(now) && old(trace) <= trace
      ensures ok ==> on == {target} && systemState == old(systemState) && verification == old(verification) && commanded == old(commanded)
      ensures ok ==> Showed(summary, target, true, old(now))
      ensures !ok ==> on == {} && systemState == InFault && verification == old(verification).With(target, Timeout)
      ensures !ok ==> NotClosed(trace, target, why) && Since(why, |old(trace)|) && commanded == old(commanded).With(target, CommandedOff)
      ensures rounds <= 42
      ensures |trace| <= |old(trace)| + rounds + 5
    {
      ghost var start;
      ok, rounds, start := Await(target, CommandedOn);
      why := NeverShowed(target, true, start, |old(trace)|, |trace|);
      if !ok {
        GiveUpClosing(target, old(trace), start);
      }
    }

    method GiveUpClosing(target: Slot, ghost before: Trace, ghost start: int)
      requires Valid() && target in relays && before != []
      requires before[|before| - 1].SwitchedOn? && before[|before| - 1].slot == target && before[|before| - 1].at <= start
      requires Polled(before, trace, target, start) && |before| < |trace| && Lacking(before, trace, Some(true), |trace| - 1)
      requires start + FEEDBACK_TIMEOUT < now
      modifies `on, `now, `trace, `summary, `commanded, `verification, `systemState
      ensures Valid() && now >= old(now) && old(trace) <= trace && on == {} && systemState == InFault
      ensures verification == old(verification).With(target, Timeout) && commanded == old(commanded).With(target, CommandedOff)
      ensures Caused(trace, NeverShowed(target, true, start, |before|, |old(trace)|))
      ensures |old(trace)| < |trace| <= |old(trace)| + 5 && trace[|old(trace)|].slot == target
    {
      RelayOff(target);
      commanded := commanded.With(target, CommandedOff);
      FailSafe(target, Timeout);
      NeverConfirmed(before, old(trace), trace, target, true, start, old(now));
    }

    /** The relay write of MAKE and the wait for the contactor to close. It fails only when no reading showed
      * the wing closed within the budget. */
    method Close(target: Slot) returns (ok: bool, ghost rounds: nat, ghost why: Failure)
      requires Valid() && target in relays && on <= {target}
      requires summary.MayTakeOver(target, activeSlot, Watched(activeSlot), now)
      modifies `on, `now, `trace, `summary, `looks, `commanded, `feedback, `verification, `systemState
      ensures Valid() && now >= old(now) && old(trace) <= trace
      ensures ok ==> on == {target} && systemState == old(systemState) && verification == old(verification)
      ensures ok && target in feedbackEnabled ==> Showed(summary, target, true, old(now))
      ensures target !in feedbackEnabled ==> ok
      ensures !ok ==> on == {} && systemState == InFault && verification == old(verification).With(target, Timeout)
      ensures !ok ==> NotClosed(trace, target, why) && Since(why, |old(trace)|)
      ensures commanded == old(commanded).With(target, if ok then CommandedOn else CommandedOff)
      ensures rounds <= 42
      ensures |trace| <= |old(trace)| + rounds + 6
    {
      ok, rounds, why := true, 0, Showing(target, false, 0, 0);
      RelayOn(target);
      commanded := commanded.With(target, CommandedOn);
      if target in feedbackEnabled {
        ok, rounds, why := AwaitClosed(target);
      }
    }

    /** MAKE: the target is closed, verified and named active, or everything is off. */
    method Make(target: Slot) returns (ok: bool, ghost rounds: nat, ghost why: Failure)
      requires Valid() && target in relays && on <= {target}
      requires summary.MayTakeOver(target, activeSlot, Watched(activeSlot), now)
      modifies `on, `now, `trace, `summary, `looks, `commanded, `feedback, `verification, `systemState, `activeSlot
      ensures Valid() && now >= old(now) && old(trace) <= trace
      ensures ok ==> on == {target} && activeSlot == Some(target) && systemState == old(systemState)
      ensures ok ==> verification == old(verification).With(target, if target in feedbackEnabled then VerifiedOn else GpioConfirmed)
      ensures ok && target in feedbackEnabled ==> Showed(summary, target, true, old(now))
      ensures target !in feedbackEnabled ==> ok
      ensures !ok ==> on == {} && systemState == InFault && activeSlot == old(activeSlot)
      ensures !ok ==> NotClosed(trace, target, why) && Since(why, |old(trace)|) && verification == old(verification).With(target, Timeout)
      ensures commanded == old(commanded).With(target, if ok then CommandedOn else CommandedOff)
      ensures rounds <= 42
      ensures |trace| <= |old(trace)| + rounds + 6
    {
      ok, rounds, why := Close(target);
      if ok {
        verification := verification.With(target, if target in feedbackEnabled then VerifiedOn else GpioConfirmed);
        activeSlot := Some(target);
      }
    }

    /** The wing was switched on and never read ON within the budget. */
    ghost predicate NotClosed(t: Trace, target: Slot, why: Failure) {
      Caused(t, why) && why.NeverShowed? && why.wing == target && why.value
    }

    /** The wing a transition takes over from. */
    predicate TakesOver(target: Slot)
      reads `activeSlot
    {
      activeSlot.Some? && activeSlot.value != target
    }

    /** transition_slot. Once past the two guards it ends with the target energised, named active and
      * positively verified, or with every relay off and the system in FAULT; and the latter only because
      * feedback did not confirm in time that the other wing opened or the target closed, or showed the other
      * wing closed again. */
    method TransitionSlot(target: Slot) returns (ok: bool, ghost rounds: nat, ghost why: Failure)
      requires LockFree()
      modifies `on, `now, `trace, `summary, `looks, `commanded, `feedback, `verification, `systemState, `activeSlot
      ensures LockFree() && now >= old(now) && old(trace) <= trace
      ensures target !in relays || old(systemState) == InFault ==>
        !ok && trace == old(trace) && on == old(on) && systemState == old(systemState) && activeSlot == old(activeSlot)
        && verification == old(verification) && commanded == old(commanded)
      ensures ok ==> on == {target} && activeSlot == Some(target) && systemState == old(systemState)
      ensures ok ==> commanded.At(target) == CommandedOn && (old(TakesOver(target)) ==> commanded.At(old(activeSlot).value) == CommandedOff)
      ensures ok ==> verification == old(verification).With(target, if target in feedbackEnabled then VerifiedOn else GpioConfirmed)
      ensures ok && target in feedbackEnabled ==> Showed(summary, target, true, old(now))
      ensures !ok && target in relays && old(systemState) != InFault ==> on == {} && systemState == InFault
      ensures !ok && target in relays && old(systemState) != InFault ==>
        && Since(why, |old(trace)|) && verification == old(verification).With(why.wing, FailureToken(why))
        && ((target in feedbackEnabled && NotClosed(trace, target, why))
            || (old(TakesOver(target)) && old(activeSlot).value in feedbackEnabled && NotReleased(trace, old(activeSlot).value, why)))
      ensures rounds <= 126
      ensures |trace| <= |old(trace)| + rounds + 16
    {
      rounds, why := 0, Showing(target, false, 0, 0);
      if target !in relays || systemState == InFault {
        return false, rounds, why;
      }
      if activeSlot.Some? && activeSlot.value != target {
        ok, rounds, why := ReleaseOther(activeSlot.value, target);
        if !ok {
          return;
        }
      }
      ghost var more;
      ok, more, why := Make(target);
      rounds := rounds + more;
    }

    // ---------------------------------------------------------- deactivate_slot

    method DeactivateSlot(target: Slot) returns (ok: bool, ghost rounds: nat, ghost why: Failure)
      requires LockFree()
      modifies `on, `now, `trace, `summary, `looks, `commanded, `feedback, `verification, `systemState, `activeSlot
      ensures LockFree() && now >= old(now) && old(trace) <= trace
      ensures target !in relays || old(systemState) == InFault ==>
        !ok && trace == old(trace) && on == old(on) && systemState == old(systemState) && activeSlot == old(activeSlot)
        && verification == old(verification) && commanded == old(commanded)
      ensures ok ==> on == old(on) - {target} && systemState == old(systemState) && commanded == old(commanded).With(target, CommandedOff)
      ensures ok ==> activeSlot == if old(activeSlot) == Some(target) then None else old(activeSlot)
      ensures ok ==> verification == old(verification).With(target, if target in feedbackEnabled then VerifiedOff else GpioConfirmed)
      ensures ok && target in feedbackEnabled ==> Showed(summary, target, false, old(now))
      ensures target !in feedbackEnabled && target in relays && old(systemState) != InFault ==>
        ok && JustSwitchedOff(old(trace), trace, target)
      ensures !ok && target in relays && old(systemState) != InFault ==> on == {} && systemState == InFault
      ensures !ok && target in relays && old(systemState) != InFault ==>
        && target in feedbackEnabled && Caused(trace, why) && Since(why, |old(trace)|)
        && why.NeverShowed? && why.wing == target && !why.value && verification == old(verification).With(target, Timeout)
      ensures rounds <= 42
      ensures |trace| <= |old(trace)| + rounds + 5
    {
      rounds, why := 0, Showing(target, false, 0, 0);
      if target !in relays || systemState == InFault {
        return false, rounds, why;
      }
      ok, rounds, why := Break(target);
      if ok {
        if activeSlot == Some(target) {
          activeSlot := None;
        }
        verification := verification.With(target, if target in feedbackEnabled then VerifiedOff else GpioConfirmed);
      }
    }

    /** A deactivation leaves no wing active, so a wing may be switched on right after it: nothing waits for
      * the interlock delay, and without feedback nothing at all comes between the two writes. */
    method SwitchOnAfterDeactivation(target: Slot, next: Slot) returns (ok: bool)
      requires LockFree() && systemState != InFault
      requires target in relays && next in relays && next != target && activeSlot == Some(target)
      modifies `on, `now, `trace, `summary, `looks, `commanded, `feedback, `verification, `systemState, `activeSlot
      ensures Valid() && (ok ==> on == {next} && activeSlot == None)
      ensures ok ==> |trace| > 0 && trace[|trace| - 1] == SwitchedOn(next, now, None, false)
      ensures ok && target !in feedbackEnabled ==>
        |trace| == |old(trace)| + 2 && trace[|trace| - 2].SwitchedOff? && trace[|trace| - 2].slot == target
      ensures target !in feedbackEnabled ==> ok
    {
      ghost var rounds, why;
      ok, rounds, why := DeactivateSlot(target);
      if ok {
        RelayOn(next);
      }
    }

    // ---------------------------------------------------------- _local_monitor_loop

    /** One wing of a monitor pass: an inconclusive reading is taken again until the budget that began
      * at `start`, when the trace was `first`, is spent. */
    method Observe(slot: Slot, expected: Commanded)
      returns (result: Token, ghost reading: Option<bool>, ghost rounds: nat, ghost start: int, ghost first: Trace)
      requires Valid() && slot in feedbackEnabled && expected != NotCommanded
      modifies `now, `trace, `summary, `looks, `feedback
      ensures Valid() && now >= old(now) && |old(trace)| < |trace| && old(trace) <= trace
      ensures result == Judge(expected, reading) && Read(trace[|trace| - 1], slot, reading)
      ensures reading.Some? ==> Showed(summary, slot, reading.value, old(now))
      ensures result == Token.Pending ==> now - start > FEEDBACK_TIMEOUT
      ensures result == Token.Pending ==>
        old(trace) <= first && |first| < |trace| && Polled(first, trace, slot, start) && Lacking(first, trace, None, |trace|)
      ensures OthersKept(old(summary), summary, slot)
      ensures rounds <= 42
      ensures |trace| == |old(trace)| + rounds
      ensures NoneConclusive(old(trace), trace)
    {
      rounds := 1;
      result, reading := PollOnce(slot, expected, None, trace, now);
      start, first := now, trace;
      if result == Token.Pending {
        ghost var more;
        result, reading, more, start := Reobserve(slot, expected);
        rounds := rounds + more;
      }
    }

    method Reobserve(slot: Slot, expected: Commanded)
      returns (result: Token, ghost reading: Option<bool>, ghost rounds: nat, ghost start: int)
      requires Valid() && slot in feedbackEnabled && expected != NotCommanded
      modifies `now, `trace, `summary, `looks, `feedback
      ensures Valid() && now >= old(now) && |old(trace)| < |trace| && Polled(old(trace), trace, slot, start)
      ensures result == Judge(expected, reading) && trace[|trace| - 1].value == reading
      ensures reading.Some? ==> Showed(summary, slot, reading.value, old(now))
      ensures result == Token.Pending ==> now - start > FEEDBACK_TIMEOUT && Lacking(old(trace), trace, None, |trace|)
      ensures OthersKept(old(summary), summary, slot)
      ensures rounds <= 41
      ensures |trace| == |old(trace)| + rounds
      ensures Lacking(old(trace), trace, None, |trace| - 1)
    {
      ghost var before, summaryBefore := trace, summary;
      var begun := Clock();
      var t := begun;
      start, rounds, result, reading := begun, 0, Token.Pending, None;
      while result == Token.Pending && t - begun <= FEEDBACK_TIMEOUT
        invariant Valid() && old(now) <= begun <= t <= now && rounds * POLL <= t - begun && rounds <= 41 && |trace| == |before| + rounds
        invariant rounds == 0 ==> t == begun && result == Token.Pending
        invariant Polled(before, trace, slot, begun) && (rounds > 0 ==> |before| < |trace| && trace[|trace| - 1].value == reading)
        invariant result == Judge(expected, reading)
        invariant reading.Some? ==> Showed(summary, slot, reading.value, old(now))
        invariant OthersKept(summaryBefore, summary, slot)
        invariant Lacking(before, trace, None, |trace| - 1)
        invariant result == Token.Pending ==> Lacking(before, trace, None, |trace|)
        decreases FEEDBACK_TIMEOUT - (t - begun)
      {
        rounds := rounds + 1;
        Sleep(POLL);
        result, reading := PollOnce(slot, expected, None, before, begun);
        t := Clock();
      }
    }

    /** The wing showed the opposite of what it was commanded, or could not be read within the budget. */
    ghost predicate Misbehaved(t: Trace, slot: Slot, why: Failure)
      reads `feedbackEnabled, `commanded
    {
      && slot in feedbackEnabled && commanded.At(slot) != NotCommanded
      && Caused(t, why) && why.wing == slot && (why.Unreadable? || (why.Showing? && why.value == (commanded.At(slot) == CommandedOff)))
    }

    /** No reading gained was of the state opposite to the commanded one: none is overlooked. */
    ghost predicate NoneOpposite(before: Trace, after: Trace)
      reads `commanded
    {
      forall k | |before| <= k < |after| && after[k].Reading? ::
        after[k].value == None || after[k].value == Some(commanded.At(after[k].slot) == CommandedOn)
    }

    lemma AsCommanded(before: Trace, slot: Slot)
      requires NoneConclusive(before, trace) && trace != [] && Read(trace[|trace| - 1], slot, Some(commanded.At(slot) == CommandedOn))
      ensures NoneOpposite(before, trace)
    {
    }

    lemma MisbehavedStays(before: Trace, after: Trace, why: Failure)
      requires before <= after && Misbehaved(before, why.wing, why)
      ensures Misbehaved(after, why.wing, why)
    {
      CausedStays(before, after, why);
    }

    method Mismatched(slot: Slot, value: bool)
      requires Valid() && trace != [] && Read(trace[|trace| - 1], slot, Some(value))
      requires slot in feedbackEnabled && commanded.At(slot) == if value then CommandedOff else CommandedOn
      modifies `on, `now, `trace, `summary, `verification, `systemState
      ensures Valid() && on == {} && systemState == InFault && now >= old(now) && old(trace) <= trace
      ensures verification == old(verification).With(slot, if value then MismatchOffOn else MismatchOnOff)
      ensures relays != {} ==> Misbehaved(trace, slot, Showing(slot, value, |old(trace)| - 1, |old(trace)|))
    {
      FailSafe(slot, if value then MismatchOffOn else MismatchOnOff);
    }

    method Inconclusive(slot: Slot, ghost first: Trace, ghost start: int)
      requires Valid() && Polled(first, trace, slot, start) && |first| < |trace| && Lacking(first, trace, None, |trace|)
      requires start + FEEDBACK_TIMEOUT < now
      requires slot in feedbackEnabled && commanded.At(slot) != NotCommanded
      modifies `on, `now, `trace, `summary, `verification, `systemState
      ensures Valid() && on == {} && systemState == InFault && now >= old(now) && old(trace) <= trace
      ensures verification == old(verification).With(slot, Token.Pending)
      ensures relays != {} ==> Misbehaved(trace, slot, Unreadable(slot, start, |first|, |old(trace)|))
      ensures OnlyOff(trace, |old(trace)|)
    {
      FailSafe(slot, Token.Pending);
      if relays != {} {
        NeverReadable(first, old(trace), trace, slot, start, old(now));
      }
    }

    /** The monitor's check of one wing; `expired` says that the pass ends here. */
    method MonitorWing(slot: Slot) returns (expired: bool, ghost why: Failure)
      requires LockFree()
      modifies `on, `now, `trace, `summary, `looks, `feedback, `verification, `systemState
      ensures LockFree() && now >= old(now) && old(trace) <= trace
      ensures systemState == old(systemState) || (systemState == InFault && on == {})
      ensures systemState == old(systemState) != InFault ==>
        on == old(on) && !expired && Checked(slot, old(now)) && verification == old(verification)
      ensures systemState != old(systemState) ==> verification == old(verification).With(slot, FailureToken(why)) && (expired <==> why.Unreadable?)
      ensures systemState != old(systemState) && relays != {} ==> Misbehaved(trace, slot, why) && Since(why, |old(trace)|)
      ensures old(systemState) == InFault && old(on) == {} ==> on == {}
      ensures OthersKept(old(summary), summary, slot) || systemState == InFault
      ensures expired ==> OnlyOff(trace, why.end)
      ensures systemState == old(systemState) != InFault ==> NoneOpposite(old(trace), trace)
    {
      why := Showing(slot, false, 0, 0);
      var expected := commanded.At(slot);
      if slot !in feedbackEnabled || expected == NotCommanded {
        return false, why;
      }
      var result;
      ghost var reading, rounds, start, first;
      result, reading, rounds, start, first := Observe(slot, expected);
      expired := result == Token.Pending;
      if expired {
        why := Unreadable(slot, start, |first|, |trace|);
        Inconclusive(slot, first, start);
      } else if result == MismatchOnOff || result == MismatchOffOn {
        why := Showing(slot, result == MismatchOffOn, |trace| - 1, |trace|);
        Mismatched(slot, result == MismatchOffOn);
      } else {
        AsCommanded(old(trace), slot);
      }
    }

    /** One pass of the monitor. It only reads and, on a fault, drops every relay: a pass that leaves
      * the system out of FAULT has just read every watched wing in its commanded state, and one that ends in
      * FAULT read a wing in the opposite state or could not read it within the budget. */
    method MonitorPass() returns (ghost why: Failure)
      requires LockFree()
      modifies `on, `now, `trace, `summary, `looks, `feedback, `verification, `systemState
      ensures LockFree() && now >= old(now) && old(trace) <= trace
      ensures old(systemState) !in {Ready, CloudOffline} ==> trace == old(trace) && on == old(on) && systemState == old(systemState)
      ensures systemState == old(systemState) || (systemState == InFault && on == {})
      ensures systemState == old(systemState) ==> on == old(on) && verification == old(verification)
      ensures systemState != old(systemState) && relays != {} ==> Misbehaved(trace, why.wing, why) && Since(why, |old(trace)|)
      ensures systemState == old(systemState) && old(systemState) in {Ready, CloudOffline} ==> forall s :: Checked(s, old(now))
      ensures systemState != old(systemState) && why.Unreadable? ==> OnlyOff(trace, why.end)
      ensures systemState == old(systemState) != InFault ==> NoneOpposite(old(trace), trace)
    {
      why := Showing(A, false, 0, 0);
      if systemState != Ready && systemState != CloudOffline {
        return;
      }
      var k := 0;
      while k < |SLOTS|
        invariant 0 <= k <= |SLOTS|
        invariant LockFree() && now >= old(now) && old(trace) <= trace
        invariant systemState == old(systemState) || (systemState == InFault && on == {})
        invariant systemState == old(systemState) ==> on == old(on) && verification == old(verification)
        invariant systemState != old(systemState) && relays != {} ==> Misbehaved(trace, why.wing, why) && Since(why, |old(trace)|)
        invariant systemState == old(systemState) ==> NoneOpposite(old(trace), trace)
        invariant systemState != old(systemState) ==> !why.Unreadable?
        invariant systemState == old(systemState) ==>
          forall j | 0 <= j < k :: Checked(SLOTS[j], old(now))
      {
        var expired;
        ghost var cause;
        ghost var before := trace;
        ghost var quiet := systemState == old(systemState);
        expired, cause := MonitorWing(SLOTS[k]);
        if quiet {
          why := cause;
        } else if relays != {} {
          MisbehavedStays(before, trace, why);
        }
        k := k + 1;
        if expired {
          break;
        }
      }
      if systemState == old(systemState) {
        EveryWing(old(now));
      }
    }

    lemma EveryWing(since: int)
      requires forall j | 0 <= j < |SLOTS| :: Checked(SLOTS[j], since)
      ensures forall s :: Checked(s, since)
    {
      assert SLOTS[0] == A && SLOTS[1] == B && SLOTS[2] == C && SLOTS[3] == D;
      forall s ensures Checked(s, since) {
        match s {
          case A => assert Checked(SLOTS[0], since);
          case B => assert Checked(SLOTS[1], since);
          case C => assert Checked(SLOTS[2], since);
          case D => assert Checked(SLOTS[3], since);
        }
      }
    }

    /** The wing needs no check, or its last reading, begun at `since` or later, showed its commanded
      * state. */
    ghost predicate Checked(s: Slot, since: int)
      reads `feedbackEnabled, `commanded, `summary
    {
      s in feedbackEnabled && commanded.At(s) != NotCommanded ==>
        Showed(summary, s, commanded.At(s) == CommandedOn, since)
    }

    // ---------------------------------------------------------- reconcile_hardware_state

    /** One wing of a pass; `since` is when the pass began, and `readings` are those of the wings before. */
    method ReadOne(slot: Slot, deadline: int, readings: map<Slot, bool>, ghost since: int) returns (reading: Option<bool>)
      requires Valid() && slot !in readings && since <= now
      requires forall s | s in readings :: Showed(summary, s, readings[s], since)
      modifies `now, `trace, `summary, `looks
      ensures Valid() && now >= old(now) && old(trace) <= trace
      ensures reading.None? ==> |old(trace)| < |trace| && trace[|trace| - 1].Reading? && trace[|trace| - 1].value == None
      ensures reading.None? ==> EndedRejected(looks, now, deadline)
      ensures reading.Some? ==> Showed(summary, slot, reading.value, since)
      ensures forall s | s in readings :: Showed(summary, s, readings[s], since)
    {
      ghost var began, samples, rounds;
      ghost var before, unseen := summary, looks;
      reading, began, samples, rounds := ReadFeedbackRaw(slot, Some(deadline));
      if reading.None? {
        assert Rejected(unseen, looks, samples, now, Some(deadline));
        assert EndedRejected(looks, now, deadline);
      }
      forall s | s in readings ensures Showed(summary, s, readings[s], since) {
        assert s != slot && summary.reading.At(s) == before.reading.At(s);
      }
    }

    /** One attempt to read every watched wing before the deadline. */
    method ReadAll(deadline: int) returns (complete: bool, readings: map<Slot, bool>)
      requires Valid()
      modifies `now, `trace, `summary, `looks, `attempts
      ensures Valid() && now >= old(now) && old(trace) <= trace
      ensures attempts == old(attempts) + [Pass(complete)]
      ensures !complete ==> |old(trace)| < |trace| && trace[|trace| - 1].Reading? && trace[|trace| - 1].value == None
      ensures !complete ==> EndedRejected(looks, now, deadline)
      ensures complete ==> readings.Keys == feedbackEnabled
      ensures complete ==> forall s | s in feedbackEnabled :: Showed(summary, s, readings[s], old(now))
    {
      readings := map[];
      var rest := feedbackEnabled;
      while rest != {}
        invariant Valid() && now >= old(now) && old(trace) <= trace
        invariant rest <= feedbackEnabled && readings.Keys == feedbackEnabled - rest
        invariant forall s | s in readings :: Showed(summary, s, readings[s], old(now))
        invariant attempts == old(attempts)
        decreases |rest|
      {
        var slot :| slot in rest;
        rest := rest - {slot};
        var reading := ReadOne(slot, deadline, readings, old(now));
        if reading.None? {
          attempts := attempts + [Pass(false)];
          return false, readings;
        }
        readings := readings[slot := reading.value];
      }
      complete := true;
      attempts := attempts + [Pass(true)];
    }

    /** The second look: every watched input once more, none of which qualifies anything by itself. */
    method StillShows(readings: map<Slot, bool>) returns (same: bool, ghost order: seq<Slot>)
      requires readings.Keys == feedbackEnabled
      modifies `now, `looks, `attempts
      ensures now >= old(now)
      ensures attempts == old(attempts) + [Again(same)]
      ensures !same ==> exists s :: s in readings && looks != [] && looks[|looks| - 1] != Some(readings[s])
      ensures same ==> (forall s :: s in order <==> s in feedbackEnabled) && JustShown(looks, order, readings)
      ensures same ==> |looks| == |old(looks)| + |order|
    {
      same, order := true, [];
      var rest := feedbackEnabled;
      while same && rest != {}
        invariant rest <= feedbackEnabled
        invariant same ==> (forall s :: s in order <==> s in feedbackEnabled && s !in rest) && JustShown(looks, order, readings)
        invariant |looks| == |old(looks)| + |order| && attempts == old(attempts)
        invariant !same ==> exists s :: s in readings && looks != [] && looks[|looks| - 1] != Some(readings[s])
        invariant now >= old(now)
        decreases |rest|
      {
        var slot :| slot in rest;
        rest := rest - {slot};
        var sample := Look();
        order := order + [slot];
        same := sample == Some(readings[slot]);
      }
      attempts := attempts + [Again(same)];
    }

    /** One round of polling: a complete pass, and a second look that found nothing changed. */
    method PollRound(deadline: int) returns (snapshot: Option<map<Slot, bool>>, ghost order: seq<Slot>)
      requires Valid()
      modifies `now, `trace, `summary, `looks, `attempts
      ensures Valid() && now >= old(now) && old(trace) <= trace
      ensures snapshot.Some? ==> snapshot.value.Keys == feedbackEnabled && now < deadline
      ensures snapshot.Some? ==> (forall s :: s in order <==> s in feedbackEnabled) && JustShown(looks, order, snapshot.value)
      ensures snapshot.Some? ==> forall s | s in feedbackEnabled :: Showed(summary, s, snapshot.value[s], old(now))
      ensures snapshot.Some? ==> attempts == old(attempts) + [Pass(true), Again(true)]
      ensures snapshot.None? ==> (attempts == old(attempts) + [Pass(false)] || attempts == old(attempts) + [Pass(true), Again(false)]
        || (now >= deadline && (attempts == old(attempts) + [Pass(true)] || attempts == old(attempts) + [Pass(true), Again(true)])))
    {
      order := [];
      var complete, readings := ReadAll(deadline);
      var t := Clock();
      if !complete || t >= deadline {
        return None, order;
      }
      var steady;
      steady, order := StillShows(readings);
      t := Clock();
      snapshot := if steady && t < deadline then Some(readings) else None;
    }

    lemma RoundIsFutile(before: seq<Attempt>, mid: seq<Attempt>, after: seq<Attempt>, late: bool)
      requires Futile(before, mid) && (|before| < |mid| ==> mid[|mid| - 1] in {Pass(false), Again(false)})
      requires (after == mid + [Pass(false)] || after == mid + [Pass(true), Again(false)]
        || (late && (after == mid + [Pass(true)] || after == mid + [Pass(true), Again(true)])))
      ensures Futile(before, after) && |before| < |after| && (!late ==> after[|after| - 1] in {Pass(false), Again(false)})
    {
      var one := mid + [after[|mid|]];
      FutileMore(before, mid, after[|mid|]);
      if |after| > |mid| + 1 {
        assert after == one + [after[|mid| + 1]];
        FutileMore(before, one, after[|mid| + 1]);
      } else {
        assert after == one;
      }
    }

    /** The polling part: the first round that gives a snapshot, or None at the deadline. */
    method Snapshot(deadline: int) returns (snapshot: Option<map<Slot, bool>>, ghost rounds: nat, ghost order: seq<Slot>)
      requires Valid()
      modifies `now, `trace, `summary, `looks, `attempts
      ensures Valid() && now >= old(now) && old(trace) <= trace
      ensures snapshot.Some? ==> snapshot.value.Keys == feedbackEnabled && now < deadline
      ensures snapshot.None? ==> now >= deadline
      ensures Futile(old(attempts), attempts) && (snapshot.Some? ==> Confirmed(old(attempts), attempts))
      ensures snapshot.Some? ==> (forall s :: s in order <==> s in feedbackEnabled) && JustShown(looks, order, snapshot.value)
      ensures snapshot.Some? ==> forall s | s in feedbackEnabled :: Showed(summary, s, snapshot.value[s], old(now))
      ensures rounds <= (if deadline > old(now) then (deadline - old(now)) / SAMPLE_STEP else 0) + 1
      ensures |attempts| <= |old(attempts)| + 2 * rounds
    {
      rounds, order := 0, [];
      var t := Clock();
      while t < deadline
        invariant Valid() && old(now) <= t <= now && old(trace) <= trace
        invariant rounds * SAMPLE_STEP <= t - old(now) || t >= deadline
        invariant rounds > 0 ==> (rounds - 1) * SAMPLE_STEP <= deadline - old(now)
        invariant Futile(old(attempts), attempts) && |attempts| <= |old(attempts)| + 2 * rounds
        invariant t < deadline && |old(attempts)| < |attempts| ==> attempts[|attempts| - 1] in {Pass(false), Again(false)}
        decreases deadline - t
      {
        rounds := rounds + 1;
        ghost var before := attempts;
        snapshot, order := PollRound(deadline);
        RoundIsFutile(old(attempts), before, attempts, snapshot.Some? || now >= deadline);
        if snapshot.Some? {
          return;
        }
        t := Clock();
        if t < deadline {
          Sleep(if SAMPLE_STEP < deadline - t then SAMPLE_STEP else deadline - t);
        }
        t := Clock();
      }
      return None, rounds, order;
    }

    /** reconcile_hardware_state. On success active_slot names exactly the energised relay, and every
      * watched wing was just read in agreement with its relay; otherwise every relay is off and the
      * system is in FAULT. It needs no earlier agreement between active_slot and the relays. */
    method ReconcileHardwareState() returns (ok: bool, ghost rounds: nat, ghost start: int)
      requires Valid()
      modifies `on, `now, `trace, `summary, `looks, `attempts, `commanded, `feedback, `verification, `systemState, `activeSlot
      ensures LockFree() && now >= old(now) && old(trace) <= trace
      ensures hardwareFault ==> !ok
      ensures !ok ==> on == {} && systemState == InFault
      ensures old(now) <= start && (ok ==> now - start < 2000 * MS)
      ensures !ok ==> hardwareFault || Refused(old(on), old(now), start + 2000 * MS, old(attempts))
      ensures !ok ==> hardwareFault || Withdrawn(old(on), old(now))
      ensures ok ==> on == old(on) && systemState == Ready && Confirmed(old(attempts), attempts)
      ensures ok ==> on == if activeSlot.Some? then {activeSlot.value} else {}
      ensures ok ==> forall s | s in feedbackEnabled :: Showed(summary, s, s in on, old(now))
      ensures ok ==> Published()
      ensures rounds <= 2001
      ensures |attempts| <= |old(attempts)| + 2 * rounds
      ensures Futile(old(attempts), attempts)
    {
      rounds := 0;
      var t := Clock();
      start := t;
      if hardwareFault {
        GiveUp();
        return false, rounds, start;
      }
      ok, rounds := PollAndPublish(t + FEEDBACK_TIMEOUT, old(now));
    }

    /** What a reconciled system says of its wings. */
    ghost predicate Published()
      reads `on, `feedbackEnabled, `commanded, `feedback, `verification
    {
      Told(feedbackEnabled, on, commanded, feedback, verification)
    }

    /** What it says when it was refused: of a watched wing nothing but what was just read, and a mismatch token
      * only where there was one. */
    ghost predicate Withdrawn(driven: set<Slot>, since: int)
      reads `feedbackEnabled, `feedback, `verification, `summary
    {
      forall s :: WithdrawnWing(summary, driven, since, s, feedback.At(s), verification.At(s))
    }

    ghost predicate WithdrawnWing(u: Summary, driven: set<Slot>, since: int, s: Slot, shown: Feedback, token: Token)
      reads `feedbackEnabled
    {
      if s in feedbackEnabled then
        && (shown == FeedbackPending || (shown in {FeedbackOn, FeedbackOff} && Showed(u, s, shown == FeedbackOn, since)))
        && (token == Token.Pending || (Contradicts(u, s, driven, since) && token == if s in driven then MismatchOnOff else MismatchOffOn))
      else shown == FeedbackUnknown && (token == NotConfigured || (s in driven && token == GpioConfirmed))
    }

    lemma NothingReadYet(driven: set<Slot>, since: int)
      requires feedback == StartFeedback(feedbackEnabled) && verification == StartVerification(feedbackEnabled)
      ensures Withdrawn(driven, since)
    {
    }

    /** The wing was read in the state opposite to its relay. */
    ghost predicate Contradicts(u: Summary, s: Slot, driven: set<Slot>, since: int) {
      Showed(u, s, s !in driven, since)
    }

    lemma Opposed(u: Summary, v: Summary, readings: map<Slot, bool>, driven: set<Slot>, since: int)
      requires Differs(readings, driven) && v.reading == u.reading
      requires forall s | s in readings :: Showed(u, s, readings[s], since)
      ensures exists s :: s in readings && Contradicts(v, s, driven, since)
    {
      var s :| s in readings && readings[s] != (s in driven);
      assert Contradicts(v, s, driven, since);
    }

    /** Why reconciliation is refused: two relays were driven, a watched wing was read in the state opposite to
      * its relay, or the deadline came before any attempt was any good. */
    ghost predicate Refused(driven: set<Slot>, since: int, deadline: int, before: seq<Attempt>)
      reads `feedbackEnabled, `summary, `now, `attempts
    {
      || |driven| > 1
      || (exists s :: s in feedbackEnabled && Contradicts(summary, s, driven, since))
      || (deadline <= now && Futile(before, attempts))
    }

    method PollAndPublish(deadline: int, ghost since: int) returns (ok: bool, ghost rounds: nat)
      requires Valid() && deadline - now <= FEEDBACK_TIMEOUT && since <= now
      modifies `on, `now, `trace, `summary, `looks, `attempts, `commanded, `feedback, `verification, `systemState, `activeSlot
      ensures LockFree() && now >= old(now) && old(trace) <= trace
      ensures !ok ==> on == {} && systemState == InFault && Refused(old(on), since, deadline, old(attempts))
      ensures !ok ==> Withdrawn(old(on), since)
      ensures ok ==> on == old(on) && systemState == Ready && now < deadline && Confirmed(old(attempts), attempts)
      ensures ok ==> on == if activeSlot.Some? then {activeSlot.value} else {}
      ensures ok ==> forall s | s in feedbackEnabled :: Showed(summary, s, s in on, since)
      ensures ok ==> Published()
      ensures rounds <= 2001
      ensures |attempts| <= |old(attempts)| + 2 * rounds
      ensures Futile(old(attempts), attempts)
    {
      var snapshot;
      snapshot, rounds := TakeSnapshot(deadline, since);
      if snapshot.None? {
        GiveUp();
        NothingReadYet(old(on), since);
        return false, rounds;
      }
      ok := PublishSnapshot(snapshot.value, deadline, since, old(attempts));
    }

    method TakeSnapshot(deadline: int, ghost since: int) returns (snapshot: Option<map<Slot, bool>>, ghost rounds: nat)
      requires Valid() && deadline - now <= FEEDBACK_TIMEOUT && since <= now
      modifies `now, `trace, `summary, `looks, `attempts, `feedback, `verification, `systemState
      ensures Valid() && now >= old(now) && old(trace) <= trace && Futile(old(attempts), attempts)
      ensures feedback == StartFeedback(feedbackEnabled) && verification == StartVerification(feedbackEnabled)
      ensures snapshot.None? ==> now >= deadline
      ensures snapshot.Some? ==> Confirmed(old(attempts), attempts)
      ensures snapshot.Some? ==> snapshot.value.Keys == feedbackEnabled && forall s | s in snapshot.value :: Showed(summary, s, snapshot.value[s], since)
      ensures rounds <= 2001
      ensures |attempts| <= |old(attempts)| + 2 * rounds
      ensures systemState == HardwareReconciliation
    {
      systemState := HardwareReconciliation;
      feedback, verification := StartFeedback(feedbackEnabled), StartVerification(feedbackEnabled);
      ghost var order;
      snapshot, rounds, order := Snapshot(deadline);
    }

    method PublishSnapshot(readings: map<Slot, bool>, deadline: int, ghost since: int, ghost before: seq<Attempt>) returns (ok: bool)
      requires Valid() && readings.Keys == feedbackEnabled && Futile(before, attempts)
      requires feedback == StartFeedback(feedbackEnabled) && verification == StartVerification(feedbackEnabled)
      requires forall s | s in readings :: Showed(summary, s, readings[s], since)
      modifies `on, `now, `trace, `summary, `commanded, `feedback, `verification, `systemState, `activeSlot
      ensures LockFree() && now >= old(now) && old(trace) <= trace
      ensures !ok ==> on == {} && systemState == InFault && Refused(old(on), since, deadline, before)
      ensures !ok ==> Withdrawn(old(on), since)
      ensures ok ==> on == old(on) && systemState == Ready && now < deadline
      ensures ok ==> on == if activeSlot.Some? then {activeSlot.value} else {}
      ensures ok ==> forall s | s in feedbackEnabled :: Showed(summary, s, s in on, since)
      ensures ok ==> Published()
    {
      ok := Publish(readings, deadline);
      if ok {
        ReadAsDriven(summary, readings, on, since);
      } else {
        if Differs(readings, old(on)) {
          Opposed(old(summary), summary, readings, old(on), since);
        }
        WithdrawnAsRead(readings, old(on), since, old(summary));
      }
    }

    lemma ReadAsDriven(u: Summary, readings: map<Slot, bool>, driven: set<Slot>, since: int)
      requires !Differs(readings, driven) && forall s | s in readings :: Showed(u, s, readings[s], since)
      ensures forall s | s in readings :: Showed(u, s, s in driven, since)
    {
      forall s | s in readings ensures Showed(u, s, s in driven, since) {
        assert !Opposite(readings, driven, s);
      }
    }

    lemma WithdrawnAsRead(readings: map<Slot, bool>, driven: set<Slot>, since: int, u: Summary)
      requires LeftByRefusal(readings, driven, feedback, verification) || LeftByDeadline(readings, driven, feedback, verification)
      requires readings.Keys == feedbackEnabled && summary.reading == u.reading
      requires forall s | s in readings :: Showed(u, s, readings[s], since)
      ensures Withdrawn(driven, since)
    {
      if LeftByRefusal(readings, driven, feedback, verification) {
        RefusalLeaves(readings, driven, feedback, verification);
      } else {
        DeadlineLeaves(readings, driven, feedback, verification);
      }
      forall s ensures WithdrawnWing(summary, driven, since, s, feedback.At(s), verification.At(s)) {
        assert RefusedWing(readings, driven, s, feedback.At(s), verification.At(s));
        assert s in readings ==> Showed(summary, s, readings[s], since);
      }
    }

    /** The part after the poll: refuse two relays, two contactors, or a relay that disagrees with its
      * contactor, then publish what was read, all before the deadline. */
    method Publish(readings: map<Slot, bool>, deadline: int) returns (ok: bool)
      requires Valid() && readings.Keys == feedbackEnabled
      requires feedback == StartFeedback(feedbackEnabled) && verification == StartVerification(feedbackEnabled)
      modifies `on, `now, `trace, `summary, `commanded, `feedback, `verification, `systemState, `activeSlot
      ensures LockFree() && now >= old(now) && old(trace) <= trace && summary.reading == old(summary).reading
      ensures !ok ==> on == {} && systemState == InFault
      ensures !ok ==> LeftByRefusal(readings, old(on), feedback, verification) || LeftByDeadline(readings, old(on), feedback, verification)
      ensures !ok ==> |old(on)| > 1 || Differs(readings, old(on)) || deadline <= now
      ensures ok ==> on == old(on) && systemState == Ready && summary == old(summary) && now < deadline
      ensures ok ==> on == if activeSlot.Some? then {activeSlot.value} else {}
      ensures ok ==> !Differs(readings, on) && Published()
    {
      ok := CheckAgreement(readings, deadline);
      if ok {
        ok := PublishAndConfirm(readings, deadline);
      }
    }

    method PublishAndConfirm(readings: map<Slot, bool>, deadline: int) returns (ok: bool)
      requires Valid() && |on| <= 1 && readings.Keys == feedbackEnabled && !Differs(readings, on)
      requires feedback == StartFeedback(readings.Keys)
      modifies `on, `now, `trace, `summary, `commanded, `feedback, `verification, `systemState, `activeSlot
      ensures LockFree() && now >= old(now) && old(trace) <= trace && summary.reading == old(summary).reading
      ensures !ok ==> on == {} && systemState == InFault && deadline <= now && LeftByDeadline(readings, old(on), feedback, verification)
      ensures ok ==> on == old(on) && systemState == Ready && summary == old(summary) && now < deadline && Published()
      ensures ok ==> on == if activeSlot.Some? then {activeSlot.value} else {}
    {
      PublishStates(readings);
      ok := Confirm(readings, deadline);
    }

    /** The last look at the deadline: too late, and nothing is known of a watched wing. */
    method Confirm(readings: map<Slot, bool>, deadline: int) returns (ok: bool)
      requires Valid() && readings.Keys == feedbackEnabled
      requires feedback == Displayed(StartFeedback(readings.Keys), readings) && verification == ReconciledVerification(readings.Keys, on)
      requires Published()
      modifies `on, `now, `trace, `summary, `feedback, `verification, `systemState
      ensures Valid() && now >= old(now) && old(trace) <= trace && summary.reading == old(summary).reading
      ensures ok ==> on == old(on) && systemState == Ready && summary == old(summary) && now < deadline
      ensures ok ==> Published()
      ensures !ok ==> on == {} && systemState == InFault && deadline <= now && LeftByDeadline(readings, old(on), feedback, verification)
    {
      var t := Clock();
      ok := t < deadline;
      if ok {
        systemState := Ready;
      } else {
        feedback, verification := Reset(feedback, feedbackEnabled, FeedbackPending), Reset(verification, feedbackEnabled, Token.Pending);
        GiveUp();
      }
    }

    /** Two relays or two contactors: what was read is shown. A wing that disagrees with its relay: the first one
      * is blamed. Too late: nothing is said. */
    method CheckAgreement(readings: map<Slot, bool>, deadline: int) returns (ok: bool)
      requires Valid() && readings.Keys == feedbackEnabled
      requires feedback == StartFeedback(feedbackEnabled) && verification == StartVerification(feedbackEnabled)
      modifies `on, `now, `trace, `summary, `feedback, `verification, `systemState
      ensures Valid() && now >= old(now) && old(trace) <= trace && summary.reading == old(summary).reading
      ensures !ok ==> on == {} && systemState == InFault
      ensures !ok ==> |old(on)| > 1 || Differs(readings, old(on)) || deadline <= now
      ensures ok ==> |on| <= 1 && on == old(on) && summary == old(summary) && trace == old(trace) && !Differs(readings, on)
      ensures ok ==> feedback == old(feedback) && verification == old(verification)
      ensures !ok ==> LeftByRefusal(readings, old(on), feedback, verification)
      ensures ok ==> now < deadline
    {
      if |on| > 1 || |On(readings)| > 1 {
        RefuseMany(readings);
        return false;
      }
      var blamed := FindOpposite(readings);
      if blamed.Some? {
        Blame(readings, blamed.value);
        return false;
      }
      var t := Clock();
      if t >= deadline {
        GiveUp();
        return false;
      }
      ok := true;
    }

    method RefuseMany(readings: map<Slot, bool>)
      requires Valid() && readings.Keys == feedbackEnabled && (|on| > 1 || |On(readings)| > 1)
      requires feedback == StartFeedback(feedbackEnabled) && verification == StartVerification(feedbackEnabled)
      modifies `on, `now, `trace, `summary, `feedback, `systemState
      ensures Valid() && now >= old(now) && old(trace) <= trace && summary.reading == old(summary).reading
      ensures on == {} && systemState == InFault && (|old(on)| > 1 || Differs(readings, old(on)))
      ensures LeftByRefusal(readings, old(on), feedback, verification)
    {
      if |on| <= 1 {
        TwoContactors(readings, on);
      }
      feedback := Displayed(feedback, readings);
      GiveUp();
    }

    method Blame(readings: map<Slot, bool>, s: Slot)
      requires Valid() && readings.Keys == feedbackEnabled && |on| <= 1 && |On(readings)| <= 1 && FirstOpposite(readings, on, s)
      requires feedback == StartFeedback(feedbackEnabled) && verification == StartVerification(feedbackEnabled)
      modifies `on, `now, `trace, `summary, `verification, `systemState
      ensures Valid() && now >= old(now) && old(trace) <= trace && summary.reading == old(summary).reading
      ensures on == {} && systemState == InFault && Differs(readings, old(on))
      ensures LeftByRefusal(readings, old(on), feedback, verification)
    {
      FailSafe(s, MismatchToken(s in on));
    }

    method FindOpposite(readings: map<Slot, bool>) returns (blamed: Option<Slot>)
      ensures blamed.Some? ==> FirstOpposite(readings, on, blamed.value) && Differs(readings, on)
      ensures blamed.None? ==> !Differs(readings, on)
    {
      var k, slots := 0, [A, B, C, D];
      assert slots[0] == A && slots[1] == B && slots[2] == C && slots[3] == D;
      while k < |slots|
        invariant 0 <= k <= |slots|
        invariant forall j | 0 <= j < k :: !Opposite(readings, on, slots[j])
      {
        if slots[k] in readings && readings[slots[k]] != (slots[k] in on) {
          return Some(slots[k]);
        }
        k := k + 1;
      }
      forall s ensures !Opposite(readings, on, s) {
        match s {
          case A => assert s == slots[0];
          case B => assert s == slots[1];
          case C => assert s == slots[2];
          case D => assert s == slots[3];
        }
      }
      assert forall s :: !Opposite(readings, on, s);
      return None;
    }

    lemma SmallerSet(a: set<Slot>, b: set<Slot>)
      requires a <= b
      ensures |a| <= |b|
    {
      assert b == a + (b - a);
    }

    /** Two contactors are closed and at most one relay is driven. */
    lemma TwoContactors(readings: map<Slot, bool>, driven: set<Slot>)
      requires |On(readings)| > 1 && |driven| <= 1
      ensures Differs(readings, driven)
    {
      if On(readings) <= driven {
        SmallerSet(On(readings), driven);
        assert false;
      }
      var s :| s in On(readings) && s !in driven;
      assert Opposite(readings, driven, s);
    }

    method GiveUp()
      requires Valid()
      modifies `on, `now, `trace, `summary, `systemState
      ensures Valid() && on == {} && systemState == InFault && now >= old(now) && old(trace) <= trace
      ensures summary.reading == old(summary).reading
    {
      DeenergizeAll();
      systemState := InFault;
    }

    method PublishStates(readings: map<Slot, bool>)
      requires |on| <= 1 && readings.Keys == feedbackEnabled && !Differs(readings, on) && feedback == StartFeedback(readings.Keys)
      modifies `commanded, `feedback, `verification, `activeSlot
      ensures on == if activeSlot.Some? then {activeSlot.value} else {}
      ensures feedback == Displayed(old(feedback), readings) && verification == ReconciledVerification(readings.Keys, on)
      ensures Published()
    {
      if on != {} {
        var slot :| slot in on;
        assert |on - {slot}| == |on| - 1;
        assert on == {slot};
        activeSlot := Some(slot);
      } else {
        activeSlot := None;
      }
      feedback := Displayed(feedback, readings);
      commanded := Reset(Everywhere(CommandedOff), on, CommandedOn);
      verification := ReconciledVerification(feedbackEnabled, on);
      ToldByReset(readings, on);
    }
  }
}
