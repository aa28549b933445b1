/** What happened at the relays, event by event, and the two rules every instant must meet. */
module RelayTrace {
  import opened Vocabulary

  const MS: int := 1000
  const FEEDBACK_TIMEOUT: int := 2000 * MS
  const FEEDBACK_DEBOUNCE: int := 50 * MS
  const INTERLOCK_DELAY: int := 500 * MS
  const POLL: int := 50 * MS

  /** `from` is active_slot when a relay is switched on and `watched` says whether that wing has
    * feedback. A reading took place from `began` to `at`; None means it could not be qualified. */
  datatype Event =
    | SwitchedOff(slot: Slot, at: int)
    | SwitchedOn(slot: Slot, at: int, from: Option<Slot>, watched: bool)
    | Reading(slot: Slot, value: Option<bool>, began: int, at: int)

  type Trace = seq<Event>

  // ------------------------------------------------------------ the rules, on the trace itself

  /** The relays that are energised after the trace; at the start none is. */
  function Energised(t: Trace): set<Slot> {
    if t == [] then {}
    else
      var past, e := Energised(t[..|t| - 1]), t[|t| - 1];
      match e
      case SwitchedOff(slot, _) => past - {slot}
      case SwitchedOn(slot, _, _, _) => past + {slot}
      case Reading(_, _, _, _) => past
  }

  /** When the relay was last switched off, if it has not been switched on since. */
  function OffSince(t: Trace, s: Slot): Option<int> {
    if t == [] then None
    else
      match t[|t| - 1]
      case SwitchedOff(slot, at) => if slot == s then Some(at) else OffSince(t[..|t| - 1], s)
      case SwitchedOn(slot, _, _, _) => if slot == s then None else OffSince(t[..|t| - 1], s)
      case Reading(_, _, _, _) => OffSince(t[..|t| - 1], s)
  }

  /** What the latest feedback reading of the wing showed, and when it began. */
  function LastReading(t: Trace, s: Slot): Option<(Option<bool>, int)> {
    if t == [] then None
    else
      match t[|t| - 1]
      case Reading(slot, value, began, _) => if slot == s then Some((value, began)) else LastReading(t[..|t| - 1], s)
      case _ => LastReading(t[..|t| - 1], s)
  }

  predicate AtMostOneEnergised(t: Trace) {
    |Energised(t)| <= 1
  }

  /** Wing c has been off for the interlock delay by `at`, and if it is watched, its last reading was
    * OFF and began only after that delay. */
  predicate Isolated(t: Trace, c: Slot, watched: bool, at: int) {
    Rested(OffSince(t, c), LastReading(t, c), watched, at)
  }

  predicate Rested(off: Option<int>, reading: Option<(Option<bool>, int)>, watched: bool, at: int) {
    && off.Some? && off.value + 500 * MS <= at
    && (watched ==> reading.Some? && reading.value.0 == Some(false) && off.value + 500 * MS <= reading.value.1)
  }

  // ------------------------------------------------------------ a running summary of the trace

  /** What the rules need to know of a trace, kept up to date event by event. `lawful` stays true as
    * long as every event so far kept both rules. */
  datatype Summary = Summary(
    energised: set<Slot>,
    off: PerSlot<Option<int>>,
    reading: PerSlot<Option<(Option<bool>, int)>>,
    lawful: bool)
  {
    function Next(e: Event): Summary {
      match e
      case SwitchedOff(slot, at) => this.(energised := energised - {slot}, off := off.With(slot, Some(at)))
      case SwitchedOn(slot, at, from, watched) =>
        this.(energised := energised + {slot}, off := off.With(slot, None),
              lawful := lawful && energised <= {slot} && MayTakeOver(slot, from, watched, at))
      case Reading(slot, value, began, _) => this.(reading := reading.With(slot, Some((value, began))))
    }

    /** May `slot` be switched on at `at`, when `from` is the wing it takes over from? */
    predicate MayTakeOver(slot: Slot, from: Option<Slot>, watched: bool, at: int) {
      from.Some? && from.value != slot ==> Rested(off.At(from.value), reading.At(from.value), watched, at)
    }
  }

  /** The last reading of the wing showed `value` and began at `since` or later. */
  predicate Showed(u: Summary, slot: Slot, value: bool, since: int) {
    var r := u.reading.At(slot);
    r.Some? && r.value.0 == Some(value) && since <= r.value.1
  }

  const BLANK: Summary := Summary({}, Everywhere(None), Everywhere(None), true)

  function Summarise(t: Trace): Summary {
    if t == [] then BLANK else Summarise(t[..|t| - 1]).Next(t[|t| - 1])
  }

  lemma SummaryStep(t: Trace, e: Event)
    ensures Summarise(t + [e]) == Summarise(t).Next(e)
  {
    assert (t + [e])[..|t|] == t;
  }

  /** The summary is the trace's. */
  lemma {:induction false} SummaryIsFaithful(t: Trace, s: Slot)
    ensures Summarise(t).energised == Energised(t)
    ensures Summarise(t).off.At(s) == OffSince(t, s)
    ensures Summarise(t).reading.At(s) == LastReading(t, s)
  {
    if t != [] {
      SummaryIsFaithful(t[..|t| - 1], s);
    }
  }

  lemma {:induction false} LawfulPast(t: Trace, n: nat)
    requires Summarise(t).lawful && n <= |t|
    ensures Summarise(t[..n]).lawful
    decreases |t|
  {
    if n == |t| {
      assert t[..n] == t;
    } else {
      LawfulPast(t[..|t| - 1], n);
      assert t[..|t| - 1][..n] == t[..n];
    }
  }

  lemma {:induction false} LawfulIsExclusive(t: Trace)
    requires Summarise(t).lawful
    ensures |Summarise(t).energised| <= 1
  {
    if t != [] {
      var past, e := Summarise(t[..|t| - 1]), t[|t| - 1];
      LawfulIsExclusive(t[..|t| - 1]);
      match e {
        case SwitchedOff(slot, _) => assert past.energised == (past.energised - {slot}) + (past.energised * {slot});
        case SwitchedOn(slot, _, _, _) => assert past.energised + {slot} == {slot};
        case Reading(_, _, _, _) =>
      }
    }
  }

  /** A lawful trace keeps both rules at every instant: at most one relay is energised, and every
    * switch-on that takes over from wing c comes when c has been off for the interlock delay and, if c
    * has feedback, its last reading was OFF and was taken after that delay. */
  lemma LawfulAtEveryInstant(t: Trace, n: nat)
    requires Summarise(t).lawful && n <= |t|
    ensures AtMostOneEnergised(t[..n])
    ensures n < |t| && t[n].SwitchedOn? && t[n].from.Some? && t[n].from.value != t[n].slot ==>
      Isolated(t[..n], t[n].from.value, t[n].watched, t[n].at)
  {
    LawfulPast(t, n);
    LawfulExclusive(t[..n]);
    if n < |t| {
      TakenOverLawfully(t, n);
    }
  }

  lemma TakenOverLawfully(t: Trace, n: nat)
    requires Summarise(t).lawful && n < |t|
    ensures t[n].SwitchedOn? && t[n].from.Some? && t[n].from.value != t[n].slot ==>
      Isolated(t[..n], t[n].from.value, t[n].watched, t[n].at)
  {
    if t[n].SwitchedOn? {
      LawfulPast(t, n + 1);
      assert t[..n + 1] == t[..n] + [t[n]];
      LawfulTakeOver(t[..n], t[n]);
    }
  }

  lemma LawfulExclusive(t: Trace)
    requires Summarise(t).lawful
    ensures AtMostOneEnergised(t)
  {
    LawfulIsExclusive(t);
    SummaryIsFaithful(t, A);
  }

  lemma LawfulTakeOver(t: Trace, e: Event)
    requires Summarise(t + [e]).lawful && e.SwitchedOn?
    ensures e.from.Some? && e.from.value != e.slot ==> Isolated(t, e.from.value, e.watched, e.at)
  {
    SummaryStep(t, e);
    if e.from.Some? {
      SummaryIsFaithful(t, e.from.value);
    }
  }

  // ------------------------------------------------------------ why the relay layer may give up

  /** From event i up to event j the wing's feedback was read, begun at `since` or later, and nothing else. */
  predicate OnlyRead(t: Trace, s: Slot, since: int, i: nat, j: nat) {
    i < j <= |t| && forall k | i <= k < j :: t[k].Reading? && t[k].slot == s && since <= t[k].began
  }

  predicate Read(e: Event, s: Slot, value: Option<bool>) {
    e.Reading? && e.slot == s && e.value == value
  }

  /** Why every relay is switched off from event `end` on. */
  datatype Failure =
    /** The relay was switched, and up to the end of the budget no reading showed `value`, except perhaps a
      * last one that was judged too late. */
    | NeverShowed(wing: Slot, value: bool, start: int, first: nat, end: nat)
    /** Every reading up to the end of the budget was inconclusive. */
    | Unreadable(wing: Slot, start: int, first: nat, end: nat)
    /** The last reading showed `value`, and the wing was to show the opposite. */
    | Showing(wing: Slot, value: bool, first: nat, end: nat)

  predicate Caused(t: Trace, f: Failure) {
    && f.end < |t| && t[f.end].SwitchedOff?
    && match f
       case NeverShowed(s, value, start, first, end) =>
         && 1 <= first && OnlyRead(t, s, start, first, end)
         && (if value then t[first - 1].SwitchedOn? else t[first - 1].SwitchedOff?)
         && t[first - 1].slot == s && t[first - 1].at <= start
         && (forall k | first <= k < end - 1 :: t[k].value != Some(value))
         && start + 2000 * MS < t[end].at
       case Unreadable(s, start, first, end) =>
         && OnlyRead(t, s, start, first, end)
         && (forall k | first <= k < end :: t[k].value == None)
         && start + 2000 * MS < t[end].at
       case Showing(s, value, first, end) => first < end && Read(t[end - 1], s, Some(value))
  }

  /** The readings it rests on are among the events from `start` on. */
  predicate Since(f: Failure, start: nat) {
    start <= f.first < f.end
  }

  lemma CausedStays(t: Trace, longer: Trace, f: Failure)
    requires t <= longer && Caused(t, f)
    ensures Caused(longer, f)
  {
    assert forall k | 0 <= k < |t| :: longer[k] == t[k];
  }

  // ------------------------------------------------------------ what the rule does not cover

  /** The wing has been off for the interlock delay by `at`. */
  predicate OffLongEnough(t: Trace, c: Slot, at: int) {
    OffSince(t, c).Some? && OffSince(t, c).value + 500 * MS <= at
  }

  /** The deadtime is tied to active_slot. When a relay is switched on in a lawful trace, every other wing
    * that was switched off has been off for the interlock delay exactly when each of those that
    * active_slot did not name had been off that long by itself. */
  lemma DeadtimeExactly(t: Trace, n: nat)
    requires Summarise(t).lawful && n < |t| && t[n].SwitchedOn?
    ensures (forall c | c != t[n].slot && OffSince(t[..n], c).Some? :: OffLongEnough(t[..n], c, t[n].at))
      <==> (forall c | c != t[n].slot && OffSince(t[..n], c).Some? && t[n].from != Some(c) :: OffLongEnough(t[..n], c, t[n].at))
  {
    LawfulAtEveryInstant(t, n);
  }

  /** A deactivation empties active_slot, so the next wing may be switched on at once. */
  lemma NoDeadtimeAfterDeactivation(at: int)
    ensures var t := [SwitchedOn(A, at, None, false), SwitchedOff(A, at + 1), SwitchedOn(B, at + 2, None, false)];
      && Summarise(t).lawful && OffSince(t[..2], A) == Some(at + 1) && !OffLongEnough(t[..2], A, t[2].at)
  {
    var first := [SwitchedOn(A, at, None, false)];
    var second := first + [SwitchedOff(A, at + 1)];
    var third := second + [SwitchedOn(B, at + 2, None, false)];
    SummaryStep([], SwitchedOn(A, at, None, false));
    assert [] + [SwitchedOn(A, at, None, false)] == first;
    SummaryStep(first, SwitchedOff(A, at + 1));
    SummaryStep(second, SwitchedOn(B, at + 2, None, false));
    assert third == [SwitchedOn(A, at, None, false), SwitchedOff(A, at + 1), SwitchedOn(B, at + 2, None, false)];
    assert third[..2] == second && second[..1] == first;
  }
}
