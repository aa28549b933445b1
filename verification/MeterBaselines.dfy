/** Meter baselines (pi_firmware/energy/energy_state.py): cumulative registers to accepted deltas. kWh and
  * seconds are real numbers. */
module MeterBaselines {
  import opened Vocabulary

  const BACKWARD_TOLERANCE: real := 0.0005
  const PLAUSIBILITY_FACTOR: real := 1.5
  const MAX_GAP: real := 21600.0

  datatype Reading = Reading(serial: nat, kwh: real, ts: real, maxKw: Option<real>)

  datatype Baseline = Baseline(serial: nat, kwh: real, ts: real, events: nat)

  datatype Event = BaselineSet | MeterReplaced | ResetOrRollover | GapRebaseline | ImplausibleJump

  /** One accepted reading is a delta, or an event and no delta. */
  datatype Outcome = Delta(kwh: real) | Rebased(event: Event)

  function NonNegative(x: real): real {
    if x < 0.0 then 0.0 else x
  }

  predicate Implausible(delta: real, elapsed: real, maxKw: Option<real>) {
    && maxKw.Some? && maxKw.value != 0.0 && elapsed > 0.0
    && delta > maxKw.value * (elapsed / 3600.0) * PLAUSIBILITY_FACTOR + BACKWARD_TOLERANCE
  }

  /** What a reading means after the previous accepted one of the same meter. */
  function Judge(prev: Option<Baseline>, r: Reading): Outcome {
    if prev.None? then Rebased(BaselineSet)
    else if prev.value.serial != r.serial then Rebased(MeterReplaced)
    else if r.kwh < prev.value.kwh - BACKWARD_TOLERANCE then Rebased(ResetOrRollover)
    else if r.ts - prev.value.ts > MAX_GAP then Rebased(GapRebaseline)
    else
      var delta := NonNegative(r.kwh - prev.value.kwh);
      if Implausible(delta, NonNegative(r.ts - prev.value.ts), r.maxKw) then Rebased(ImplausibleJump) else Delta(delta)
  }

  /** The register rose by more than one and a half times the meter's rating allows in the time. */
  predicate Jumped(a: Reading, r: Reading) {
    && r.maxKw.Some? && r.maxKw.value != 0.0 && r.ts > a.ts
    && (if r.kwh < a.kwh then 0.0 else r.kwh - a.kwh) > r.maxKw.value * ((r.ts - a.ts) / 3600.0) * 1.5 + 0.0005
  }

  /** The next reading of the same meter, in time, not backwards, and plausible. */
  predicate Regular(a: Reading, r: Reading) {
    r.serial == a.serial && r.kwh >= a.kwh - 0.0005 && r.ts - a.ts <= 21600.0 && !Jumped(a, r)
  }

  /** How a reading is judged after another: a delta exactly when it is regular, and then what the register
    * rose by; otherwise the event of the first rule it breaks. */
  lemma JudgeExactly(a: Reading, r: Reading)
    ensures Judge(After(a), r) ==
      if r.serial != a.serial then Rebased(MeterReplaced)
      else if r.kwh < a.kwh - 0.0005 then Rebased(ResetOrRollover)
      else if r.ts - a.ts > 21600.0 then Rebased(GapRebaseline)
      else if Jumped(a, r) then Rebased(ImplausibleJump)
      else Delta(if r.kwh < a.kwh then 0.0 else r.kwh - a.kwh)
    ensures Judge(After(a), r).Delta? <==> Regular(a, r)
  {
  }

  /** A run is free of events exactly when each reading is regular after the one before. */
  lemma EventFreeExactly(run: seq<Reading>)
    ensures EventFree(run) <==> forall k | 0 < k < |run| :: Regular(run[k - 1], run[k])
  {
    forall k | 0 < k < |run| ensures OutcomeOf(run, k).Delta? <==> Regular(run[k - 1], run[k]) {
      JudgeExactly(run[k - 1], run[k]);
    }
  }

  // ------------------------------------------------------------ runs of one meter

  /** The baseline a reading leaves, as far as the next one is judged by it. */
  function After(r: Reading): Option<Baseline> {
    Some(Baseline(r.serial, r.kwh, r.ts, 0))
  }

  /** How reading k of a run is judged; what came before the run does not matter for k > 0. */
  function OutcomeOf(run: seq<Reading>, k: nat): Outcome
    requires 0 < k < |run|
  {
    Judge(After(run[k - 1]), run[k])
  }

  ghost predicate EventFree(run: seq<Reading>) {
    forall k | 0 < k < |run| :: OutcomeOf(run, k).Delta?
  }

  /** The energy accepted over the run, and its backward readings. */
  function Accepted(run: seq<Reading>): real {
    if |run| < 2 then 0.0
    else
      var outcome := OutcomeOf(run, |run| - 1);
      Accepted(run[..|run| - 1]) + if outcome.Delta? then outcome.kwh else 0.0
  }

  function Backward(run: seq<Reading>): nat {
    if |run| < 2 then 0
    else Backward(run[..|run| - 1]) + if run[|run| - 1].kwh < run[|run| - 2].kwh then 1 else 0
  }

  /** Over any event-free run every delta is non-negative, and their sum is what the register gained, or
    * more by at most half a watt-hour per backward reading. */
  lemma {:induction false} AcceptedIsGained(run: seq<Reading>)
    requires run != [] && EventFree(run)
    ensures forall k | 0 < k < |run| :: OutcomeOf(run, k).kwh >= 0.0
    ensures var gained := run[|run| - 1].kwh - run[0].kwh;
      gained <= Accepted(run) <= gained + Backward(run) as real * BACKWARD_TOLERANCE
  {
    var n := |run| - 1;
    if n > 0 {
      var init := run[..n];
      forall k | 0 < k < |init| ensures OutcomeOf(init, k) == OutcomeOf(run, k) {
      }
      AcceptedIsGained(init);
      assert OutcomeOf(run, n).Delta?;
    }
  }

  /** Without a backward reading the sum is exact. */
  lemma ForwardIsExact(run: seq<Reading>)
    requires run != [] && EventFree(run) && forall k | 0 < k < |run| :: run[k].kwh >= run[k - 1].kwh
    ensures Accepted(run) == run[|run| - 1].kwh - run[0].kwh
  {
    NoneBackward(run);
    AcceptedIsGained(run);
  }

  lemma {:induction false} NoneBackward(run: seq<Reading>)
    requires forall k | 0 < k < |run| :: run[k].kwh >= run[k - 1].kwh
    ensures Backward(run) == 0
  {
    if |run| >= 2 {
      NoneBackward(run[..|run| - 1]);
    }
  }

  // ------------------------------------------------------------ the baselines object

  /** The baseline the run leaves, whatever number of events it has counted. */
  predicate LeftBy(run: seq<Reading>, b: Baseline) {
    run != [] && var last := run[|run| - 1]; b.serial == last.serial && b.kwh == last.kwh && b.ts == last.ts
  }

  lemma JudgedInRun(run: seq<Reading>, b: Baseline, r: Reading)
    requires LeftBy(run, b)
    ensures OutcomeOf(run + [r], |run|) == Judge(Some(b), r)
  {
    assert (run + [r])[|run| - 1] == run[|run| - 1];
  }

  class MeterBaselines {
    var meters: map<nat, Baseline>
    var dirty: bool
    /** Every accepted reading of each meter. */
    ghost var runs: map<nat, seq<Reading>>

    /** The baseline of a meter is its last accepted reading. */
    ghost predicate Valid()
      reads this
    {
      && runs.Keys == meters.Keys
      && forall m | m in meters :: LeftBy(runs[m], meters[m])
    }

    constructor ()
      ensures Valid() && meters == map[] && !dirty
    {
      meters, dirty, runs := map[], false, map[];
    }

    function Get(meter: nat): Option<Baseline>
      reads `meters
    {
      if meter in meters then Some(meters[meter]) else None
    }

    ghost function Run(meter: nat): seq<Reading>
      reads `runs
    {
      if meter in runs then runs[meter] else []
    }

    /** The branches of accept. */
    static method Classify(prev: Option<Baseline>, r: Reading) returns (delta: Option<real>, event: Option<Event>)
      ensures delta.None? <==> event.Some?
      ensures Judge(prev, r) == if event.Some? then Rebased(event.value) else Delta(delta.value)
    {
      delta, event := None, None;
      if prev.None? {
        event := Some(BaselineSet);
      } else if prev.value.serial != r.serial {
        event := Some(MeterReplaced);
      } else if r.kwh < prev.value.kwh - BACKWARD_TOLERANCE {
        event := Some(ResetOrRollover);
      } else if r.ts - prev.value.ts > MAX_GAP {
        event := Some(GapRebaseline);
      } else {
        var gained := NonNegative(r.kwh - prev.value.kwh);
        delta := Some(gained);
        if Implausible(gained, NonNegative(r.ts - prev.value.ts), r.maxKw) {
          event, delta := Some(ImplausibleJump), None;
        }
      }
    }

    /** accept: the reading becomes the baseline whatever the outcome, no other meter is touched, and the
      * outcome is the one of the meter's run. */
    method Accept(meter: nat, r: Reading) returns (delta: Option<real>, event: Option<Event>)
      requires Valid()
      modifies this
      ensures Valid() && dirty && Run(meter) == old(Run(meter)) + [r]
      ensures forall m | m != meter :: Get(m) == old(Get(m)) && Run(m) == old(Run(m))
      ensures Get(meter) == Some(Baseline(r.serial, r.kwh, r.ts,
        (if old(Get(meter)).Some? then old(Get(meter)).value.events else 0) + if event.Some? then 1 else 0))
      ensures delta.None? <==> event.Some?
      ensures |Run(meter)| == 1 ==> event == Some(BaselineSet)
      ensures |Run(meter)| > 1 ==>
        OutcomeOf(Run(meter), |Run(meter)| - 1) == if event.Some? then Rebased(event.value) else Delta(delta.value)
    {
      var prev := Get(meter);
      delta, event := Classify(prev, r);
      if prev.Some? {
        JudgedInRun(Run(meter), prev.value, r);
      }
      var before := if prev.Some? then prev.value.events else 0;
      meters := meters[meter := Baseline(r.serial, r.kwh, r.ts, before + if event.Some? then 1 else 0)];
      runs := runs[meter := Run(meter) + [r]];
      dirty := true;
    }
  }
}
