/** Apportioning a cycle's days (backend/energy_api/day_allocation.py) in exact arithmetic: shares are
  * real numbers, where the source divides floats. */
module DayAllocation {
  import opened Vocabulary
  import opened Selection

  datatype Error =
    | BadCycle | NotANumber(wing: Slot) | NegativeUnits(wing: Slot) | NoUnits
    | NotAnObject | DisabledWing | BadKind | NotWholeDays(wing: Slot) | DaysOutOfRange(wing: Slot) | NotTheCycle

  /** A value of the request's JSON. A boolean is no number here, but `false` compares equal to 0. Other
    * is a text, a list or an object. */
  datatype Supplied = Absent | Null | False | True | Whole(n: int) | Decimal(x: real) | Other

  // ------------------------------------------------------------ sums over a list of wings

  ghost predicate SameWings(s: seq<Slot>, t: seq<Slot>) {
    forall w :: w in s <==> w in t
  }

  function Sum(s: seq<Slot>, f: map<Slot, real>): real
    requires forall w | w in s :: w in f
  {
    if s == [] then 0.0 else Sum(s[..|s| - 1], f) + f[s[|s| - 1]]
  }

  function SumDays(s: seq<Slot>, f: map<Slot, int>): int
    requires forall w | w in s :: w in f
  {
    if s == [] then 0 else SumDays(s[..|s| - 1], f) + f[s[|s| - 1]]
  }

  lemma {:induction false} SumWithout(s: seq<Slot>, f: map<Slot, real>, i: nat)
    requires i < |s| && forall w | w in s :: w in f
    ensures Sum(s, f) == Sum(s[..i] + s[i + 1..], f) + f[s[i]]
  {
    var n := |s| - 1;
    if i == n {
      assert s[..i] + s[i + 1..] == s[..n];
    } else {
      SumWithout(s[..n], f, i);
      var rest := s[..i] + s[i + 1..];
      assert rest[..|rest| - 1] == s[..n][..i] + s[..n][i + 1..];
    }
  }

  lemma Without(s: seq<Slot>, i: nat)
    requires Distinct(s) && i < |s|
    ensures Distinct(s[..i] + s[i + 1..])
    ensures forall w :: w in s[..i] + s[i + 1..] <==> w in s && w != s[i]
  {
    var rest := s[..i] + s[i + 1..];
    forall w | w in s && w != s[i] ensures w in rest {
      var j :| 0 <= j < |s| && s[j] == w;
      assert rest[if j < i then j else j - 1] == w;
    }
  }

  lemma SomeWing(s: seq<Slot>)
    ensures s == [] || exists w :: w in s
  {
    assert s != [] ==> s[0] in s;
  }

  /** A sum does not depend on the order. */
  lemma {:induction false} SumReordered(s: seq<Slot>, t: seq<Slot>, f: map<Slot, real>)
    requires Distinct(s) && Distinct(t) && SameWings(s, t) && forall w | w in s :: w in f
    ensures Sum(s, f) == Sum(t, f) && |s| == |t|
  {
    if s == [] {
      SomeWing(t);
    } else {
      var n := |s| - 1;
      assert s[n] in s && s[n] in t;
      var i :| 0 <= i < |t| && t[i] == s[n];
      WithoutLast(s, t, i);
      SumReordered(s[..n], t[..i] + t[i + 1..], f);
      SumWithout(t, f, i);
    }
  }

  /** Taking the same wing out of both lists leaves lists of the same wings. */
  lemma WithoutLast(s: seq<Slot>, t: seq<Slot>, i: nat)
    requires Distinct(s) && Distinct(t) && SameWings(s, t) && s != [] && i < |t| && t[i] == s[|s| - 1]
    ensures var rest := t[..i] + t[i + 1..];
      Distinct(s[..|s| - 1]) && Distinct(rest) && SameWings(s[..|s| - 1], rest)
  {
    var n := |s| - 1;
    Without(t, i);
    Without(s, n);
    assert s[..n] + s[n + 1..] == s[..n];
    forall w ensures w in s[..n] <==> w in t[..i] + t[i + 1..] {
      assert w in s[..n] <==> w in s && w != s[n];
    }
  }

  /** The parts cut off by flooring add up to what is missing. */
  lemma {:induction false} SumSplit(s: seq<Slot>, exact: map<Slot, real>, whole: map<Slot, int>, fraction: map<Slot, real>)
    requires forall w | w in s :: w in exact && w in whole && w in fraction && fraction[w] == exact[w] - whole[w] as real
    ensures Sum(s, exact) == SumDays(s, whole) as real + Sum(s, fraction)
  {
    if s != [] {
      SumSplit(s[..|s| - 1], exact, whole, fraction);
    }
  }

  predicate Fractions(f: map<Slot, real>, s: seq<Slot>) {
    forall w | w in s :: w in f && 0.0 <= f[w] < 1.0
  }

  lemma {:induction false} SumOfFractions(s: seq<Slot>, f: map<Slot, real>)
    requires Fractions(f, s)
    ensures 0.0 <= Sum(s, f) && (s != [] ==> Sum(s, f) < |s| as real) && (s == [] ==> Sum(s, f) == 0.0)
  {
    if s != [] {
      SumOfFractions(s[..|s| - 1], f);
    }
  }

  lemma {:induction false} SumOfZeros(s: seq<Slot>, f: map<Slot, real>, n: nat)
    requires n <= |s| && (forall w | w in s :: w in f) && forall i | n <= i < |s| :: f[s[i]] == 0.0
    ensures Sum(s, f) == Sum(s[..n], f)
  {
    if n < |s| {
      SumOfZeros(s[..|s| - 1], f, n);
      assert s[..|s| - 1][..n] == s[..n];
    } else {
      assert s[..n] == s;
    }
  }

  // ------------------------------------------------------------ units_to_days

  /** The exact share of a wing. */
  function Share(units: real, total: real, cycleDays: int): real
    requires total > 0.0
  {
    units / total * cycleDays as real
  }

  function Index(order: seq<Slot>, w: Slot): (i: nat)
    requires w in order
    ensures i < |order| && order[i] == w
  {
    if order[0] == w then 0 else 1 + Index(order[1..], w)
  }

  /** v comes before w: a larger fraction, or the same one and listed earlier. */
  predicate Outranks(order: seq<Slot>, f: map<Slot, real>, v: Slot, w: Slot) {
    && v in f && w in f && v in order && w in order
    && (f[v] > f[w] || (f[v] == f[w] && Index(order, v) < Index(order, w)))
  }

  predicate Ranked(order: seq<Slot>, f: map<Slot, real>, ranked: seq<Slot>) {
    forall i, j | 0 <= i < j < |ranked| :: Outranks(order, f, ranked[i], ranked[j])
  }

  lemma IndexAt(order: seq<Slot>, i: nat)
    requires Distinct(order) && i < |order|
    ensures Index(order, order[i]) == i
  {
  }

  /** sorted(order, key=...): by falling fraction, ties in the order given. */
  method Rank(order: seq<Slot>, f: map<Slot, real>) returns (ranked: seq<Slot>)
    requires Distinct(order) && forall w | w in order :: w in f
    ensures Distinct(ranked) && SameWings(ranked, order) && Ranked(order, f, ranked)
  {
    ranked := [];
    for k := 0 to |order|
      invariant forall w :: w in ranked <==> w in order[..k]
      invariant forall j | 0 <= j < |ranked| :: ranked[j] in order && ranked[j] in f
      invariant Distinct(ranked) && Ranked(order, f, ranked)
    {
      var w, i := order[k], 0;
      assert order[..k + 1] == order[..k] + [w] && w !in order[..k];
      while i < |ranked| && f[ranked[i]] >= f[w]
        invariant i <= |ranked| && forall j | 0 <= j < i :: f[ranked[j]] >= f[w]
      {
        i := i + 1;
      }
      forall v | v in order[..k] ensures Index(order, v) < Index(order, w) {
        var j :| 0 <= j < k && order[j] == v;
        IndexAt(order, j);
        IndexAt(order, k);
      }
      InsertDistinct(ranked, w, i);
      InsertRanked(order, f, ranked, w, i);
      ranked := ranked[..i] + [w] + ranked[i..];
    }
    assert order[..|order|] == order;
  }

  lemma InsertDistinct(s: seq<Slot>, w: Slot, i: nat)
    requires i <= |s| && Distinct(s) && w !in s
    ensures var longer := s[..i] + [w] + s[i..]; Distinct(longer) && forall v :: v in longer <==> v in s || v == w
  {
    assert s == s[..i] + s[i..];
  }

  lemma InsertOrdered(before: (Slot, Slot) -> bool, s: seq<Slot>, w: Slot, i: nat)
    requires i <= |s| && forall a, b | 0 <= a < b < |s| :: before(s[a], s[b])
    requires (forall j | 0 <= j < i :: before(s[j], w)) && forall j | i <= j < |s| :: before(w, s[j])
    ensures var longer := s[..i] + [w] + s[i..]; forall a, b | 0 <= a < b < |longer| :: before(longer[a], longer[b])
  {
  }

  lemma InsertRanked(order: seq<Slot>, f: map<Slot, real>, ranked: seq<Slot>, w: Slot, i: nat)
    requires i <= |ranked| && w in f && w in order && forall j | 0 <= j < |ranked| :: ranked[j] in f && ranked[j] in order
    requires Ranked(order, f, ranked)
    requires forall j | 0 <= j < i :: f[ranked[j]] >= f[w]
    requires forall j | 0 <= j < |ranked| :: Index(order, ranked[j]) < Index(order, w)
    requires i < |ranked| ==> f[ranked[i]] < f[w]
    ensures Ranked(order, f, ranked[..i] + [w] + ranked[i..])
  {
    var before := (x, y) => Outranks(order, f, x, y);
    forall j | i <= j < |ranked| ensures before(w, ranked[j]) {
      assert i < j ==> Outranks(order, f, ranked[i], ranked[j]);
    }
    forall j | 0 <= j < i ensures before(ranked[j], w) {
    }
    forall a, b | 0 <= a < b < |ranked| ensures before(ranked[a], ranked[b]) {
      assert Outranks(order, f, ranked[a], ranked[b]);
    }
    InsertOrdered(before, ranked, w, i);
    var longer := ranked[..i] + [w] + ranked[i..];
    forall a, b | 0 <= a < b < |longer| ensures Outranks(order, f, longer[a], longer[b]) {
      assert before(longer[a], longer[b]);
    }
  }

  /** Positive whole remainder: none of the first `remainder` ranked wings has a whole share. */
  lemma ExtrasHaveFractions(ranked: seq<Slot>, order: seq<Slot>, f: map<Slot, real>, remainder: int)
    requires Fractions(f, ranked) && Ranked(order, f, ranked)
    requires Sum(ranked, f) == remainder as real
    ensures 0 <= remainder <= |ranked|
    ensures forall i | 0 <= i < remainder :: f[ranked[i]] > 0.0
  {
    SumOfFractions(ranked, f);
    forall i | 0 <= i < remainder ensures f[ranked[i]] > 0.0 {
      if f[ranked[i]] == 0.0 {
        forall j | i < j < |ranked| ensures f[ranked[j]] == 0.0 {
          assert Outranks(order, f, ranked[i], ranked[j]);
        }
        SumOfZeros(ranked, f, i);
        SumOfFractions(ranked[..i], f);
      }
    }
  }

  function Floors(s: seq<Slot>, exact: map<Slot, real>): map<Slot, int>
    requires forall w | w in s :: w in exact
  {
    map w | w in s :: exact[w].Floor
  }

  /** The result of units_to_days, said without computing it: the days sum to the cycle; each wing has
    * the whole part of its share, or one day more; a day more goes to larger fractions before smaller
    * ones, to earlier wings before later ones, and never to a wing whose share is whole. */
  ghost predicate Apportions(order: seq<Slot>, share: map<Slot, real>, days: map<Slot, int>, cycleDays: int)
    requires forall w | w in order :: w in share && w in days
  {
    && SumDays(order, days) == cycleDays
    && (forall w | w in order :: days[w] == share[w].Floor || days[w] == share[w].Floor + 1)
    && (forall v, w | v in order && w in order && days[v] == share[v].Floor + 1 && days[w] == share[w].Floor ::
          Outranks(order, Parts(order, share), v, w))
    && (forall w | w in order && share[w] == share[w].Floor as real :: days[w] == share[w].Floor)
  }

  function Parts(s: seq<Slot>, exact: map<Slot, real>): map<Slot, real>
    requires forall w | w in s :: w in exact
  {
    map w | w in s :: exact[w] - exact[w].Floor as real
  }

  lemma {:induction false} SumRaised(s: seq<Slot>, days: map<Slot, int>, w: Slot)
    requires Distinct(s) && w in s && forall v | v in s :: v in days
    ensures SumDays(s, days[w := days[w] + 1]) == SumDays(s, days) + 1
  {
    var n := |s| - 1;
    if s[n] == w {
      SumUntouched(s[..n], days, w, days[w] + 1);
    } else {
      SumRaised(s[..n], days, w);
    }
  }

  lemma {:induction false} SumUntouched(s: seq<Slot>, days: map<Slot, int>, w: Slot, value: int)
    requires w !in s && forall v | v in s :: v in days
    ensures SumDays(s, days[w := value]) == SumDays(s, days)
  {
    if s != [] {
      SumUntouched(s[..|s| - 1], days, w, value);
    }
  }

  /** The loop that hands out the remainder. */
  method HandOut(order: seq<Slot>, ranked: seq<Slot>, whole: map<Slot, int>, remainder: int) returns (days: map<Slot, int>)
    requires Distinct(order) && Distinct(ranked) && SameWings(ranked, order) && (forall w | w in order :: w in whole)
    requires 0 <= remainder <= |ranked|
    ensures days.Keys == whole.Keys
    ensures SumDays(order, days) == SumDays(order, whole) + remainder
    ensures forall w | w in order :: days[w] == whole[w] + if w in ranked[..remainder] then 1 else 0
  {
    days := whole;
    for i := 0 to remainder
      invariant days.Keys == whole.Keys
      invariant SumDays(order, days) == SumDays(order, whole) + i
      invariant forall w | w in order :: days[w] == whole[w] + if w in ranked[..i] then 1 else 0
    {
      assert ranked[..i + 1] == ranked[..i] + [ranked[i]] && ranked[i] in ranked && ranked[i] !in ranked[..i];
      SumRaised(order, days, ranked[i]);
      days := days[ranked[i] := days[ranked[i]] + 1];
    }
  }

  lemma Apportioned(order: seq<Slot>, share: map<Slot, real>, ranked: seq<Slot>, days: map<Slot, int>, remainder: int, cycleDays: int)
    requires forall w | w in order :: w in share && w in days
    requires Distinct(ranked) && SameWings(ranked, order) && Ranked(order, Parts(order, share), ranked)
    requires Fractions(Parts(order, share), ranked) && Sum(ranked, Parts(order, share)) == remainder as real
    requires 0 <= remainder <= |ranked| && SumDays(order, days) == cycleDays
    requires forall w | w in order :: days[w] == share[w].Floor + if w in ranked[..remainder] then 1 else 0
    ensures Apportions(order, share, days, cycleDays)
  {
    ExtrasHaveFractions(ranked, order, Parts(order, share), remainder);
    forall v, w | v in order && w in order && days[v] == share[v].Floor + 1 && days[w] == share[w].Floor
      ensures Outranks(order, Parts(order, share), v, w)
    {
      var i :| 0 <= i < remainder && ranked[i] == v;
      assert w in ranked;
      var j :| 0 <= j < |ranked| && ranked[j] == w;
      assert j >= remainder;
    }
  }

  /** A value units_to_days can use. */
  predicate Countable(v: Supplied) {
    match v
    case Absent => true
    case Whole(n) => n >= 0
    case Decimal(x) => x >= 0.0
    case _ => false
  }

  function Amount(v: Supplied): real {
    match v
    case Whole(n) => n as real
    case Decimal(x) => x
    case _ => 0.0
  }

  function Amounts(order: seq<Slot>, units: PerSlot<Supplied>): map<Slot, real> {
    map w | w in order :: Amount(units.At(w))
  }

  function Total(order: seq<Slot>, units: PerSlot<Supplied>): real {
    Sum(order, Amounts(order, units))
  }

  function Shares(order: seq<Slot>, units: PerSlot<Supplied>, cycleDays: int): map<Slot, real>
    requires Total(order, units) > 0.0
  {
    var total := Total(order, units);
    map w | w in order :: Share(Amount(units.At(w)), total, cycleDays)
  }

  lemma ShareAdds(x: real, y: real, total: real, cycleDays: int)
    requires total > 0.0
    ensures Share(x + y, total, cycleDays) == Share(x, total, cycleDays) + Share(y, total, cycleDays)
    ensures Share(0.0, total, cycleDays) == 0.0 && Share(total, total, cycleDays) == cycleDays as real
  {
  }

  lemma {:induction false} SumOfShares(s: seq<Slot>, amounts: map<Slot, real>, shares: map<Slot, real>, total: real, cycleDays: int)
    requires total > 0.0
    requires forall w | w in s :: w in amounts && w in shares && shares[w] == Share(amounts[w], total, cycleDays)
    ensures Sum(s, shares) == Share(Sum(s, amounts), total, cycleDays)
  {
    ShareAdds(0.0, 0.0, total, cycleDays);
    if s != [] {
      var n := |s| - 1;
      SumOfShares(s[..n], amounts, shares, total, cycleDays);
      ShareAdds(Sum(s[..n], amounts), amounts[s[n]], total, cycleDays);
    }
  }

  /** The shares sum to the cycle. */
  lemma SharesSum(order: seq<Slot>, units: PerSlot<Supplied>, cycleDays: int)
    requires Total(order, units) > 0.0
    ensures Sum(order, Shares(order, units, cycleDays)) == cycleDays as real
  {
    SumOfShares(order, Amounts(order, units), Shares(order, units, cycleDays), Total(order, units), cycleDays);
    ShareAdds(0.0, 0.0, Total(order, units), cycleDays);
  }

  /** The remainder is what the fractions add up to, so every rank it reaches exists. */
  lemma RemainderInRange(order: seq<Slot>, ranked: seq<Slot>, share: map<Slot, real>, cycleDays: int)
    requires Distinct(order) && Distinct(ranked) && SameWings(ranked, order) && forall w | w in order :: w in share
    requires Sum(order, share) == cycleDays as real
    ensures var remainder := cycleDays - SumDays(order, Floors(order, share));
      && Fractions(Parts(order, share), ranked) && Sum(ranked, Parts(order, share)) == remainder as real
      && 0 <= remainder <= |ranked|
  {
    SumSplit(order, share, Floors(order, share), Parts(order, share));
    SumReordered(order, ranked, Parts(order, share));
    SumOfFractions(ranked, Parts(order, share));
  }

  /** The first wing of the order that is not good. */
  ghost predicate FirstNot(order: seq<Slot>, good: Slot -> bool, w: Slot) {
    w in order && !good(w) && forall v | v in order[..Index(order, w)] :: good(v)
  }

  method FirstFailing(order: seq<Slot>, good: Slot -> bool) returns (bad: Option<Slot>)
    ensures bad.None? ==> forall w | w in order :: good(w)
    ensures bad.Some? ==> FirstNot(order, good, bad.value)
  {
    for k := 0 to |order|
      invariant forall w | w in order[..k] :: good(w)
    {
      if !good(order[k]) {
        FirstIndex(order, k);
        return Some(order[k]);
      }
      assert order[..k + 1] == order[..k] + [order[k]];
    }
    assert order[..|order|] == order;
    return None;
  }

  lemma {:induction false} FirstIndex(order: seq<Slot>, k: nat)
    requires k < |order| && order[k] !in order[..k]
    ensures Index(order, order[k]) == k
  {
    if k > 0 {
      assert order[0] in order[..k];
      assert order[1..][..k - 1] == order[1..k] && forall w | w in order[1..k] :: w in order[..k];
      FirstIndex(order[1..], k - 1);
    }
  }

  /** The error names the first wing whose units cannot be used, and says what is wrong with them. */
  ghost predicate UnitsBlamed(order: seq<Slot>, units: PerSlot<Supplied>, e: Error) {
    && (e.NotANumber? || e.NegativeUnits?)
    && FirstNot(order, w => Countable(units.At(w)), e.wing)
    && (e.NegativeUnits? <==> units.At(e.wing).Whole? || units.At(e.wing).Decimal?)
  }

  /** units_to_days: why it refuses, or how it apportions. */
  method UnitsToDays(units: PerSlot<Supplied>, cycleDays: int, order: seq<Slot>) returns (r: Result<map<Slot, int>, Error>)
    requires Distinct(order)
    ensures r.Err? <==>
      || cycleDays < 0
      || (exists w :: w in order && !Countable(units.At(w)))
      || (cycleDays > 0 && Total(order, units) <= 0.0)
    ensures r.Err? ==>
      if cycleDays < 0 then r.error == BadCycle
      else if exists w :: w in order && !Countable(units.At(w)) then UnitsBlamed(order, units, r.error)
      else r.error == NoUnits
    ensures r.Ok? ==> forall w :: w in r.value <==> w in order
    ensures r.Ok? && cycleDays == 0 ==> forall w | w in order :: r.value[w] == 0
    ensures r.Ok? && cycleDays > 0 ==>
      Total(order, units) > 0.0 && Apportions(order, Shares(order, units, cycleDays), r.value, cycleDays)
  {
    if cycleDays < 0 {
      return Err(BadCycle);
    }
    var bad := FirstFailing(order, w => Countable(units.At(w)));
    if bad.Some? {
      assert bad.value in order && !Countable(units.At(bad.value));
      return Err(if units.At(bad.value).Whole? || units.At(bad.value).Decimal? then NegativeUnits(bad.value) else NotANumber(bad.value));
    }
    if cycleDays == 0 {
      return Ok(map w | w in order :: 0);
    }
    if Total(order, units) <= 0.0 {
      return Err(NoUnits);
    }
    var exact := Shares(order, units, cycleDays);
    var whole := Floors(order, exact);
    var remainder := cycleDays - SumDays(order, whole);
    var ranked := Rank(order, Parts(order, exact));
    SharesSum(order, units, cycleDays);
    RemainderInRange(order, ranked, exact, cycleDays);
    var days := HandOut(order, ranked, whole, remainder);
    Apportioned(order, exact, ranked, days, remainder, cycleDays);
    return Ok(days);
  }

  lemma {:induction false} DaysWithinSum(s: seq<Slot>, days: map<Slot, int>, w: Slot)
    requires w in s && Distinct(s) && forall v | v in s :: v in days && days[v] >= 0
    ensures 0 <= days[w] <= SumDays(s, days)
  {
    var n := |s| - 1;
    if s[n] == w {
      DaysSumPositive(s[..n], days);
    } else {
      DaysWithinSum(s[..n], days, w);
    }
  }

  lemma {:induction false} DaysSumPositive(s: seq<Slot>, days: map<Slot, int>)
    requires forall v | v in s :: v in days && days[v] >= 0
    ensures SumDays(s, days) >= 0
  {
    if s != [] {
      DaysSumPositive(s[..|s| - 1], days);
    }
  }

  // ------------------------------------------------------------ resolve_days

  datatype Kind = Days | Units | OtherKind

  /** The value is written as this number. */
  predicate Written(v: Supplied, x: real) {
    v == Decimal(x) || (v.Whole? && v.n as real == x) || (v.Absent? && x == 0.0)
  }

  /** A wing's share is to the cycle as its units are to all units, whichever way they are written. */
  lemma ShareExactly(order: seq<Slot>, units: PerSlot<Supplied>, cycleDays: int, w: Slot, x: real)
    requires Total(order, units) > 0.0 && w in order && Written(units.At(w), x)
    ensures Shares(order, units, cycleDays)[w] * Total(order, units) == x * cycleDays as real
  {
    assert Amount(units.At(w)) == x;
    ShareTimes(x, Total(order, units), cycleDays);
  }

  lemma ShareTimes(x: real, total: real, cycleDays: int)
    requires total > 0.0
    ensures Share(x, total, cycleDays) * total == x * cycleDays as real
  {
    assert x / total * total == x;
  }

  /** What a disabled wing may be given. */
  predicate Zero(v: Supplied) {
    v.Absent? || v.Null? || v.False? || v == Whole(0) || v == Decimal(0.0)
  }

  /** A day count a DAYS request may give. */
  predicate DayCount(v: Supplied) {
    v.Absent? || (v.Whole? && 0 <= v.n <= 31)
  }

  function Requested(v: Supplied): int {
    if v.Whole? then v.n else 0
  }

  predicate Earlier(v: Slot, w: Slot) {
    (v == A && w != A) || (v == B && w in {C, D}) || (v == C && w == D)
  }

  /** The enabled wings, from A to D. */
  function EnabledOrder(enabled: set<Slot>): (order: seq<Slot>)
    ensures Distinct(order) && forall w :: w in order <==> w in enabled
    ensures forall i, j | 0 <= i < j < |order| :: Earlier(order[i], order[j])
  {
    assert forall w: Slot :: w.A? || w.B? || w.C? || w.D?;
    Keep(A, enabled) + Keep(B, enabled) + Keep(C, enabled) + Keep(D, enabled)
  }

  function Keep(w: Slot, enabled: set<Slot>): (kept: seq<Slot>)
    ensures forall v :: v in kept <==> v == w && w in enabled
  {
    if w in enabled then [w] else []
  }

  lemma ShareIsPositive(units: real, total: real, cycleDays: int)
    requires total > 0.0 && units >= 0.0 && cycleDays >= 0
    ensures Share(units, total, cycleDays) >= 0.0
  {
    assert units / total >= 0.0;
  }

  /** Every day count is between 0 and the cycle. */
  lemma ApportionedWithin(order: seq<Slot>, units: PerSlot<Supplied>, days: map<Slot, int>, cycleDays: int)
    requires Distinct(order) && cycleDays > 0 && Total(order, units) > 0.0
    requires (forall w | w in order :: w in days) && forall w | w in order :: Countable(units.At(w))
    requires Apportions(order, Shares(order, units, cycleDays), days, cycleDays)
    ensures forall w | w in order :: 0 <= days[w] <= cycleDays
  {
    forall w | w in order ensures days[w] >= 0 {
      ShareIsPositive(Amount(units.At(w)), Total(order, units), cycleDays);
    }
    forall w | w in order ensures 0 <= days[w] <= cycleDays {
      DaysWithinSum(order, days, w);
    }
  }

  lemma {:induction false} ZerosSum(s: seq<Slot>, days: map<Slot, int>)
    requires forall w | w in s :: w in days && days[w] == 0
    ensures SumDays(s, days) == 0
  {
    if s != [] {
      ZerosSum(s[..|s| - 1], days);
    }
  }

  predicate OnlyEnabled(wings: PerSlot<Supplied>, enabled: set<Slot>) {
    forall w | w in SLOTS && w !in enabled :: Zero(wings.At(w))
  }

  function RequestedDays(wings: PerSlot<Supplied>, order: seq<Slot>): map<Slot, int> {
    map w | w in order :: Requested(wings.At(w))
  }

  /** Why units are refused. */
  ghost predicate UnitsRefused(order: seq<Slot>, units: PerSlot<Supplied>, cycleDays: int, e: Error) {
    if cycleDays < 0 then e == BadCycle
    else if exists w :: w in order && !Countable(units.At(w)) then UnitsBlamed(order, units, e)
    else if cycleDays > 0 && Total(order, units) <= 0.0 then e == NoUnits
    else e.DaysOutOfRange? && cycleDays > 31
  }

  /** Why day counts are refused: the first wing with none, or their sum. */
  ghost predicate DaysRefused(order: seq<Slot>, wings: PerSlot<Supplied>, e: Error) {
    if exists w :: w in order && !DayCount(wings.At(w)) then
      && (e.DaysOutOfRange? || e.NotWholeDays?)
      && FirstNot(order, w => DayCount(wings.At(w)), e.wing)
      && (e.DaysOutOfRange? <==> wings.At(e.wing).Whole?)
    else e == NotTheCycle
  }

  /** Which values of the request are taken: units from 0 on, whole or decimal, and none for an absent wing; whole
    * days from 0 to 31, or none; and for a disabled wing only what compares equal to nothing. */
  lemma ValuesTaken(v: Supplied)
    ensures Countable(v) <==> v.Absent? || (v.Whole? && v.n >= 0) || (v.Decimal? && v.x >= 0.0)
    ensures DayCount(v) <==> v.Absent? || (v.Whole? && 0 <= v.n <= 31)
    ensures DayCount(v) ==> Written(v, Requested(v) as real)
    ensures Zero(v) <==> v in {Absent, Null, False, Whole(0), Decimal(0.0)}
  {
  }

  method DaysFromUnits(wings: PerSlot<Supplied>, cycleDays: int, order: seq<Slot>) returns (r: Result<map<Slot, int>, Error>)
    requires Distinct(order)
    ensures cycleDays <= 31 ==> (r.Ok? <==>
      0 <= cycleDays && (forall w | w in order :: Countable(wings.At(w))) && (cycleDays > 0 ==> Total(order, wings) > 0.0))
    ensures r.Err? ==> UnitsRefused(order, wings, cycleDays, r.error)
    ensures r.Ok? ==> (forall w :: w in r.value <==> w in order) && SumDays(order, r.value) == cycleDays
    ensures r.Ok? ==> forall w | w in order :: 0 <= r.value[w] <= 31 && r.value[w] <= cycleDays
    ensures r.Ok? && cycleDays > 0 ==>
      Total(order, wings) > 0.0 && Apportions(order, Shares(order, wings, cycleDays), r.value, cycleDays)
  {
    r := UnitsToDays(wings, cycleDays, order);
    if r.Ok? {
      if cycleDays > 0 {
        ApportionedWithin(order, wings, r.value, cycleDays);
      } else {
        ZerosSum(order, r.value);
      }
      var days := r.value;
      var bad := FirstFailing(order, w => w in days && days[w] <= 31);
      if bad.Some? {
        return Err(DaysOutOfRange(bad.value));
      }
    }
  }

  /** resolve_days: exactly the enabled wings get days, each 0..31, and together they fill the cycle. A
    * DAYS request is taken as it stands or refused; a UNITS request is apportioned. */
  method ResolveDays(kind: Kind, wings: Option<PerSlot<Supplied>>, enabled: set<Slot>, cycleDays: int)
    returns (r: Result<map<Slot, int>, Error>)
    ensures r.Ok? ==> wings.Some? && OnlyEnabled(wings.value, enabled) && kind != OtherKind
    ensures r.Err? ==>
      if wings.None? then r.error == NotAnObject
      else if !OnlyEnabled(wings.value, enabled) then r.error == DisabledWing
      else if kind == OtherKind then r.error == BadKind
      else if kind == Days then DaysRefused(EnabledOrder(enabled), wings.value, r.error)
      else UnitsRefused(EnabledOrder(enabled), wings.value, cycleDays, r.error)
    ensures r.Ok? ==> (forall w :: w in r.value <==> w in enabled) && SumDays(EnabledOrder(enabled), r.value) == cycleDays
    ensures r.Ok? ==> forall w | w in enabled :: 0 <= r.value[w] <= 31 && r.value[w] <= cycleDays
    ensures kind == Days ==> (r.Ok? <==>
      && wings.Some? && OnlyEnabled(wings.value, enabled) && (forall w | w in enabled :: DayCount(wings.value.At(w)))
      && SumDays(EnabledOrder(enabled), RequestedDays(wings.value, EnabledOrder(enabled))) == cycleDays)
    ensures r.Ok? && kind == Days ==> forall w | w in enabled :: Written(wings.value.At(w), r.value[w] as real)
    ensures kind == Units && 0 < cycleDays <= 31 ==> (r.Ok? <==>
      && wings.Some? && OnlyEnabled(wings.value, enabled) && (forall w | w in enabled :: Countable(wings.value.At(w)))
      && Total(EnabledOrder(enabled), wings.value) > 0.0)
    ensures r.Ok? && kind == Units && cycleDays > 0 ==>
      var order := EnabledOrder(enabled);
      Total(order, wings.value) > 0.0 && Apportions(order, Shares(order, wings.value, cycleDays), r.value, cycleDays)
  {
    var order := EnabledOrder(enabled);
    if wings.None? {
      return Err(NotAnObject);
    }
    if !OnlyEnabled(wings.value, enabled) {
      return Err(DisabledWing);
    }
    match kind {
      case OtherKind =>
        return Err(BadKind);
      case Units =>
        r := DaysFromUnits(wings.value, cycleDays, order);
      case Days =>
        r := TakeDays(wings.value, cycleDays, order);
    }
  }

  method TakeDays(wings: PerSlot<Supplied>, cycleDays: int, order: seq<Slot>) returns (r: Result<map<Slot, int>, Error>)
    requires Distinct(order)
    ensures r.Ok? <==> (forall w | w in order :: DayCount(wings.At(w))) && SumDays(order, RequestedDays(wings, order)) == cycleDays
    ensures r.Err? ==> DaysRefused(order, wings, r.error)
    ensures r.Ok? ==> r.value == RequestedDays(wings, order)
    ensures r.Ok? ==> forall w | w in order :: r.value[w] <= cycleDays
  {
    var bad := FirstFailing(order, w => DayCount(wings.At(w)));
    if bad.Some? {
      assert bad.value in order && !DayCount(wings.At(bad.value));
      return Err(if wings.At(bad.value).Whole? then DaysOutOfRange(bad.value) else NotWholeDays(bad.value));
    }
    var days := RequestedDays(wings, order);
    if SumDays(order, days) != cycleDays {
      return Err(NotTheCycle);
    }
    forall w | w in order ensures days[w] <= cycleDays {
      DaysWithinSum(order, days, w);
    }
    return Ok(days);
  }
}
