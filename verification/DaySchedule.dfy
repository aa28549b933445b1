/** Which wing a cycle day belongs to, and how many days each wing has used (scheduled_wing and
  * scheduled_usage in pi_firmware/energy/day_based.py; backend/energy_api/day_allocation.py has the
  * same scheduled_wing).
  *
  * The reference is the schedule written out, one wing per cycle day. The source's two cursor loops
  * are proved against it.
  */
module DaySchedule {
  import opened Vocabulary
  import opened Selection
  import Cal = Calendar
  import Days = DayAllocation

  // ------------------------------------------------------------ the schedule written out

  function Block(w: Slot, days: PerSlot<int>, enabled: set<Slot>): seq<Slot> {
    if w in enabled && days.At(w) > 0 then seq(days.At(w), _ => w) else []
  }

  /** The wing of each cycle day, in the order of `wings`. */
  function Written(wings: seq<Slot>, days: PerSlot<int>, enabled: set<Slot>): seq<Slot> {
    if wings == [] then [] else Written(wings[..|wings| - 1], days, enabled) + Block(wings[|wings| - 1], days, enabled)
  }

  function Schedule(days: PerSlot<int>, enabled: set<Slot>): seq<Slot> {
    Written(SLOTS, days, enabled)
  }

  /** The wing of cycle day `index`, which counts from 1. */
  function WingOf(schedule: seq<Slot>, index: int): Option<Slot> {
    if 1 <= index <= |schedule| then Some(schedule[index - 1]) else None
  }

  /** How many of the cycle days 1..index are the wing's. */
  function DaysOf(schedule: seq<Slot>, w: Slot, index: int): nat
    decreases if index > 0 then index else 0
  {
    if index <= 0 then 0
    else DaysOf(schedule, w, index - 1) + if WingOf(schedule, index) == Some(w) then 1 else 0
  }

  // ------------------------------------------------------------ scheduled_wing

  lemma WrittenStep(wings: seq<Slot>, k: nat, days: PerSlot<int>, enabled: set<Slot>)
    requires k < |wings|
    ensures Written(wings[..k + 1], days, enabled) == Written(wings[..k], days, enabled) + Block(wings[k], days, enabled)
  {
    assert wings[..k + 1][..k] == wings[..k];
  }

  lemma WrittenSnoc(wings: seq<Slot>, w: Slot, days: PerSlot<int>, enabled: set<Slot>)
    ensures Written(wings + [w], days, enabled) == Written(wings, days, enabled) + Block(w, days, enabled)
  {
    assert (wings + [w])[..|wings|] == wings;
  }

  lemma {:induction false} WrittenTogether(wings: seq<Slot>, more: seq<Slot>, days: PerSlot<int>, enabled: set<Slot>)
    ensures Written(wings + more, days, enabled) == Written(wings, days, enabled) + Written(more, days, enabled)
    decreases |more|
  {
    if more == [] {
      assert wings + more == wings;
    } else {
      var init, last := more[..|more| - 1], more[|more| - 1];
      WrittenTogether(wings, init, days, enabled);
      WrittenSnoc(wings + init, last, days, enabled);
      assert wings + more == wings + init + [last];
    }
  }

  lemma WrittenSplit(wings: seq<Slot>, k: nat, days: PerSlot<int>, enabled: set<Slot>)
    requires k <= |wings|
    ensures Written(wings, days, enabled) == Written(wings[..k], days, enabled) + Written(wings[k..], days, enabled)
  {
    WrittenTogether(wings[..k], wings[k..], days, enabled);
    assert wings[..k] + wings[k..] == wings;
  }

  lemma WrittenPrefix(wings: seq<Slot>, k: nat, days: PerSlot<int>, enabled: set<Slot>)
    requires k <= |wings|
    ensures Written(wings[..k], days, enabled) <= Written(wings, days, enabled)
  {
    WrittenSplit(wings, k, days, enabled);
  }

  /** The cursor walk over the wings finds the wing of the written schedule. */
  method ScheduledWing(days: PerSlot<int>, index: int, enabled: set<Slot>) returns (wing: Option<Slot>)
    ensures wing == WingOf(Schedule(days, enabled), index)
  {
    var cursor, k, wings := 1, 0, SLOTS;
    while k < |wings|
      invariant 0 <= k <= |wings| && wings == SLOTS
      invariant cursor == |Written(wings[..k], days, enabled)| + 1
      invariant index < 1 || index >= cursor
    {
      var w := wings[k];
      WrittenStep(wings, k, days, enabled);
      WrittenPrefix(wings, k + 1, days, enabled);
      k := k + 1;
      if w !in enabled {
        continue;
      }
      var count := days.At(w);
      if count <= 0 {
        continue;
      }
      if cursor <= index < cursor + count {
        return Some(w);
      }
      cursor := cursor + count;
    }
    assert wings[..k] == wings;
    return None;
  }

  // ------------------------------------------------------------ scheduled_usage

  lemma {:induction false} WrittenWings(wings: seq<Slot>, days: PerSlot<int>, enabled: set<Slot>)
    ensures forall v | v in Written(wings, days, enabled) :: v in wings && v in enabled && days.At(v) > 0
  {
    if wings != [] {
      WrittenWings(wings[..|wings| - 1], days, enabled);
    }
  }

  /** After the first k blocks the schedule has only the later wings. */
  lemma LaterWings(wings: seq<Slot>, k: nat, days: PerSlot<int>, enabled: set<Slot>)
    requires k <= |wings|
    ensures var s, start := Written(wings, days, enabled), |Written(wings[..k], days, enabled)|;
      start <= |s| && forall i | start <= i < |s| :: s[i] in wings[k..]
  {
    WrittenSplit(wings, k, days, enabled);
    WrittenWings(wings[k..], days, enabled);
    Shifted(Written(wings[..k], days, enabled), Written(wings[k..], days, enabled));
  }

  lemma Shifted(s: seq<Slot>, t: seq<Slot>)
    ensures forall i | |s| <= i < |s + t| :: (s + t)[i] in t
  {
    forall i | |s| <= i < |s + t| ensures (s + t)[i] in t {
      assert (s + t)[i] == t[i - |s|];
    }
  }

  function Within(x: int, most: int): int {
    if x < 0 then 0 else if x > most then most else x
  }

  /** The k-th block is exactly the days of its wing. */
  lemma BlockIsAllOfIt(wings: seq<Slot>, k: nat, days: PerSlot<int>, enabled: set<Slot>, index: int)
    requires Distinct(wings) && k < |wings|
    ensures var s, start, count := Written(wings, days, enabled), |Written(wings[..k], days, enabled)|, |Block(wings[k], days, enabled)|;
      WingOf(s, index) == Some(wings[k]) <==> start < index <= start + count
  {
    var w := wings[k];
    var s, before := Written(wings, days, enabled), Written(wings[..k], days, enabled);
    WrittenStep(wings, k, days, enabled);
    WrittenPrefix(wings, k, days, enabled);
    WrittenPrefix(wings, k + 1, days, enabled);
    WrittenWings(wings[..k], days, enabled);
    LaterWings(wings, k + 1, days, enabled);
    assert w !in wings[..k] && w !in wings[k + 1..];
    if 1 <= index <= |before| {
      assert s[index - 1] == before[index - 1] && before[index - 1] in before;
    }
  }

  /** A wing whose days are exactly start+1 .. start+count has used the clamped number of them. */
  lemma {:induction false} UsedSoFar(s: seq<Slot>, w: Slot, start: nat, count: nat, index: int)
    requires forall i: int :: WingOf(s, i) == Some(w) <==> start < i <= start + count
    ensures DaysOf(s, w, index) == Within(index - start, count)
    decreases if index > 0 then index else 0
  {
    if index > 0 {
      UsedSoFar(s, w, start, count, index - 1);
      assert WingOf(s, index) == Some(w) <==> start < index <= start + count;
    }
  }

  lemma BlockUsed(wings: seq<Slot>, k: nat, days: PerSlot<int>, enabled: set<Slot>, index: int)
    requires Distinct(wings) && k < |wings|
    ensures DaysOf(Written(wings, days, enabled), wings[k], index) ==
      Within(index - |Written(wings[..k], days, enabled)|, |Block(wings[k], days, enabled)|)
  {
    forall i: int
      ensures var start := |Written(wings[..k], days, enabled)|;
        WingOf(Written(wings, days, enabled), i) == Some(wings[k]) <==> start < i <= start + |Block(wings[k], days, enabled)|
    {
      BlockIsAllOfIt(wings, k, days, enabled, i);
    }
    UsedSoFar(Written(wings, days, enabled), wings[k], |Written(wings[..k], days, enabled)|, |Block(wings[k], days, enabled)|, index);
  }

  /** scheduled_usage: the closed form of each enabled wing is the number of cycle days up to today on
    * which scheduled_wing returns it; a bad reset day or a date off the calendar is an error. */
  method ScheduledUsage(today: Cal.Date, resetDay: int, days: PerSlot<int>, enabled: set<Slot>)
    returns (r: Result<map<Slot, int>, Cal.Error>)
    requires Cal.Valid(today)
    ensures r.Err? <==> Cal.PeriodBounds(today, resetDay).Err?
    ensures r.Ok? ==> r.value.Keys == enabled && Cal.CycleDayIndex(today, resetDay).Ok?
    ensures r.Ok? ==> forall w | w in enabled ::
      r.value[w] == DaysOf(Schedule(days, enabled), w, Cal.CycleDayIndex(today, resetDay).value)
  {
    var found := Cal.CycleDayIndex(today, resetDay);
    if found.Err? {
      return Err(found.error);
    }
    Cal.PeriodContains(today, resetDay);
    var usage := Usage(days, found.value, enabled);
    return Ok(usage);
  }

  method Usage(days: PerSlot<int>, index: int, enabled: set<Slot>) returns (usage: map<Slot, int>)
    requires index >= 1
    ensures usage.Keys == enabled
    ensures forall w | w in enabled :: usage[w] == DaysOf(Schedule(days, enabled), w, index)
  {
    usage := UsageOf(SLOTS, days, index, enabled);
    forall w | w in enabled ensures w in usage && usage[w] == DaysOf(Schedule(days, enabled), w, index) {
      var k := Place(w);
    }
  }

  method UsageOf(wings: seq<Slot>, days: PerSlot<int>, index: int, enabled: set<Slot>) returns (usage: map<Slot, int>)
    requires Distinct(wings) && index >= 1
    ensures usage.Keys <= enabled
    ensures forall j | 0 <= j < |wings| && wings[j] in enabled ::
      wings[j] in usage && usage[wings[j]] == DaysOf(Written(wings, days, enabled), wings[j], index)
  {
    var cursor, k := 1, 0;
    usage := map[];
    while k < |wings|
      invariant 0 <= k <= |wings|
      invariant cursor == |Written(wings[..k], days, enabled)| + 1
      invariant usage.Keys <= enabled
      invariant forall j | 0 <= j < k && wings[j] in enabled ::
        wings[j] in usage && usage[wings[j]] == DaysOf(Written(wings, days, enabled), wings[j], index)
    {
      var w := wings[k];
      WrittenStep(wings, k, days, enabled);
      BlockUsed(wings, k, days, enabled, index);
      k := k + 1;
      if w !in enabled {
        continue;
      }
      assert forall j | 0 <= j < k - 1 :: wings[j] != w;
      var count := days.At(w);
      if count <= 0 {
        usage := usage[w := 0];
        continue;
      }
      var start, end := cursor, cursor + count - 1;
      cursor := cursor + count;
      usage := usage[w := if index < start then 0 else if index > end then count else index - start + 1];
    }
  }

  lemma Place(w: Slot) returns (k: nat)
    ensures k < |SLOTS| && SLOTS[k] == w && w in SLOTS
  {
    k := match w case A => 0 case B => 1 case C => 2 case D => 3;
  }

  // ------------------------------------------------------------ the whole cycle

  /** Together the wings have used as many days as have passed, up to the scheduled ones. */
  lemma {:induction false} UsageSums(schedule: seq<Slot>, index: int)
    ensures DaysOf(schedule, A, index) + DaysOf(schedule, B, index) + DaysOf(schedule, C, index) + DaysOf(schedule, D, index)
      == Within(index, |schedule|)
    decreases if index > 0 then index else 0
  {
    if index > 0 {
      UsageSums(schedule, index - 1);
      if index <= |schedule| {
        var w := schedule[index - 1];
        assert w.A? || w.B? || w.C? || w.D?;
      }
    }
  }

  /** The days a wing is due: none when it is disabled or its count is not positive. */
  function Due(w: Slot, days: PerSlot<int>, enabled: set<Slot>): nat {
    if w in enabled && days.At(w) > 0 then days.At(w) else 0
  }

  lemma ScheduleLength(wings: seq<Slot>, days: PerSlot<int>, enabled: set<Slot>)
    requires wings == [A, B, C, D]
    ensures |Written(wings, days, enabled)| == Due(A, days, enabled) + Due(B, days, enabled) + Due(C, days, enabled) + Due(D, days, enabled)
  {
    WrittenStep(wings, 0, days, enabled);
    WrittenStep(wings, 1, days, enabled);
    WrittenStep(wings, 2, days, enabled);
    WrittenStep(wings, 3, days, enabled);
    assert wings[..4] == wings;
  }

  /** Once the schedule is over, the wing of a block has had the whole block. */
  lemma BlockDone(wings: seq<Slot>, k: nat, days: PerSlot<int>, enabled: set<Slot>, index: int)
    requires Distinct(wings) && k < |wings| && index >= |Written(wings, days, enabled)|
    ensures DaysOf(Written(wings, days, enabled), wings[k], index) == Due(wings[k], days, enabled)
  {
    BlockUsed(wings, k, days, enabled, index);
    WrittenStep(wings, k, days, enabled);
    WrittenPrefix(wings, k + 1, days, enabled);
  }

  /** When the days sum to the cycle, every cycle day has one wing, and by the last day each wing has
    * had exactly its days. */
  lemma FullCycle(days: PerSlot<int>, enabled: set<Slot>, cycle: int, w: Slot)
    requires Due(A, days, enabled) + Due(B, days, enabled) + Due(C, days, enabled) + Due(D, days, enabled) == cycle
    ensures forall index | 1 <= index <= cycle :: WingOf(Schedule(days, enabled), index).Some?
    ensures DaysOf(Schedule(days, enabled), w, cycle) == Due(w, days, enabled)
  {
    ScheduleLength(SLOTS, days, enabled);
    var k := Place(w);
    BlockDone(SLOTS, k, days, enabled, cycle);
  }

  lemma {:induction false} SumAppend(s: seq<Slot>, t: seq<Slot>, f: map<Slot, int>)
    requires forall w | w in s + t :: w in f
    ensures (forall w | w in s :: w in f) && forall w | w in t :: w in f
    ensures Days.SumDays(s + t, f) == Days.SumDays(s, f) + Days.SumDays(t, f)
  {
    if t == [] {
      assert s + t == s;
    } else {
      SumAppend(s, t[..|t| - 1], f);
      assert (s + t)[..|s + t| - 1] == s + t[..|t| - 1];
    }
  }

  /** What resolve_days returns fills the cycle it was resolved for: every date of the period has
    * exactly one wing, and each enabled wing is scheduled on exactly the days it was given. */
  lemma ResolvedFillsCycle(resolved: map<Slot, int>, enabled: set<Slot>, days: PerSlot<int>, cycle: int, w: Slot)
    requires resolved.Keys == enabled && Days.SumDays(Days.EnabledOrder(enabled), resolved) == cycle
    requires forall v | v in enabled :: resolved[v] >= 0 && days.At(v) == resolved[v]
    ensures forall index | 1 <= index <= cycle :: WingOf(Schedule(days, enabled), index).Some?
    ensures DaysOf(Schedule(days, enabled), w, cycle) == if w in enabled then resolved[w] else 0
  {
    var a, b, c, d := Days.Keep(A, enabled), Days.Keep(B, enabled), Days.Keep(C, enabled), Days.Keep(D, enabled);
    SumAppend(a + b + c, d, resolved);
    SumAppend(a + b, c, resolved);
    SumAppend(a, b, resolved);
    KeepSum(A, resolved, enabled, days);
    KeepSum(B, resolved, enabled, days);
    KeepSum(C, resolved, enabled, days);
    KeepSum(D, resolved, enabled, days);
    FullCycle(days, enabled, cycle, w);
  }

  lemma KeepSum(w: Slot, resolved: map<Slot, int>, enabled: set<Slot>, days: PerSlot<int>)
    requires resolved.Keys == enabled && forall v | v in enabled :: resolved[v] >= 0 && days.At(v) == resolved[v]
    ensures Days.SumDays(Days.Keep(w, enabled), resolved) == Due(w, days, enabled)
  {
    if w in enabled {
      assert [w][..0] == [];
    }
  }
}
