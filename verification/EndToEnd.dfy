/** The protocol seen from the cloud: what batches and schedules mean end to end. */
module EndToEnd {
  import opened Vocabulary
  import P = CommandProtocol
  import S = ProtocolSafety
  import K = CloudCommands
  import R = CloudRuns
  import B = BatchConfluence
  import M = ManualDays
  import W = TargetWrites
  import A = PhantomAcks
  import F = BuriedFailures

  /** The cloud transactions of a protocol run, with the clock of each. */
  function CloudSteps(trace: seq<P.State>, steps: seq<P.Step>): seq<R.Timed>
    requires |trace| == |steps| + 1
  {
    if steps == [] then []
    else
      var n := |steps| - 1;
      CloudSteps(trace[..n + 1], steps[..n]) + if steps[n].CloudStep? then [R.Timed(steps[n].step, trace[n].now)] else []
  }

  /** The cloud's states between those transactions. */
  function Clouds(trace: seq<P.State>, steps: seq<P.Step>): seq<K.Cloud>
    requires |trace| == |steps| + 1
  {
    if steps == [] then [trace[0].cloud]
    else
      var n := |steps| - 1;
      Clouds(trace[..n + 1], steps[..n]) + if steps[n].CloudStep? then [trace[n + 1].cloud] else []
  }

  lemma OnlyCloudSteps(s: P.State, step: P.Step)
    requires P.Enabled(s, step)
    ensures step.CloudStep? ==>
      R.Enabled(s.cloud, step.step, s.now) && P.Apply(s, step).cloud == R.Apply(s.cloud, step.step, s.now) && P.Apply(s, step).now == s.now
    ensures !step.CloudStep? ==> P.Apply(s, step).cloud == s.cloud && P.Apply(s, step).now >= s.now
  {
  }

  lemma RunStep(trace: seq<P.State>, steps: seq<P.Step>, k: nat)
    requires P.IsRun(trace, steps) && k < |steps|
    ensures P.Enabled(trace[k], steps[k]) && trace[k + 1] == P.Apply(trace[k], steps[k])
  {
  }

  lemma OneMoreTransaction(clouds: seq<K.Cloud>, timed: seq<R.Timed>, step: R.Step, now: int)
    requires R.IsRun(clouds, timed) && R.Enabled(clouds[|timed|], step, now)
    requires timed != [] ==> timed[|timed| - 1].now <= now
    ensures R.IsRun(clouds + [R.Apply(clouds[|timed|], step, now)], timed + [R.Timed(step, now)])
  {
    var c, t := clouds + [R.Apply(clouds[|timed|], step, now)], timed + [R.Timed(step, now)];
    assert c[0] == clouds[0];
    forall k | 0 <= k < |t|
      ensures R.Enabled(c[k], t[k].step, t[k].now) && c[k + 1] == R.Apply(c[k], t[k].step, t[k].now)
    {
      assert c[k] == clouds[k];
      if k < |timed| {
        assert t[k] == timed[k] && c[k + 1] == clouds[k + 1];
      }
    }
  }

  ghost predicate Taken(steps: seq<P.Step>, transaction: R.Step) {
    exists j :: 0 <= j < |steps| && steps[j].CloudStep? && steps[j].step == transaction
  }

  /** Each cloud transaction of the projection is one of the protocol run. */
  lemma {:induction false} TransactionsAreSteps(trace: seq<P.State>, steps: seq<P.Step>, k: nat)
    requires |trace| == |steps| + 1 && k < |CloudSteps(trace, steps)|
    ensures Taken(steps, CloudSteps(trace, steps)[k].step)
  {
    var n := |steps| - 1;
    var earlier, timed := CloudSteps(trace[..n + 1], steps[..n]), CloudSteps(trace, steps);
    if k < |earlier| {
      assert timed[k] == earlier[k];
      TransactionsAreSteps(trace[..n + 1], steps[..n], k);
      var j :| 0 <= j < |steps[..n]| && steps[..n][j].CloudStep? && steps[..n][j].step == earlier[k].step;
      assert steps[j] == steps[..n][j];
    } else {
      assert steps[n].CloudStep? && timed[k] == R.Timed(steps[n].step, trace[n].now);
    }
  }

  lemma RunPrefix(trace: seq<P.State>, steps: seq<P.Step>, n: nat)
    requires P.IsRun(trace, steps) && n <= |steps|
    ensures P.IsRun(trace[..n + 1], steps[..n])
  {
  }

  /** Every protocol run is, on the cloud's side, a run of cloud transactions. */
  lemma {:induction false} ProjectsToCloudRun(trace: seq<P.State>, steps: seq<P.Step>)
    requires P.IsRun(trace, steps)
    ensures var clouds, timed := Clouds(trace, steps), CloudSteps(trace, steps);
      && R.IsRun(clouds, timed)
      && clouds[0] == trace[0].cloud && clouds[|timed|] == trace[|steps|].cloud
      && (timed != [] ==> timed[|timed| - 1].now <= trace[|steps|].now)
  {
    if steps != [] {
      var n := |steps| - 1;
      RunPrefix(trace, steps, n);
      ProjectsToCloudRun(trace[..n + 1], steps[..n]);
      RunStep(trace, steps, n);
      OnlyCloudSteps(trace[n], steps[n]);
      if steps[n].CloudStep? {
        OneMoreTransaction(Clouds(trace[..n + 1], steps[..n]), CloudSteps(trace[..n + 1], steps[..n]), steps[n].step, trace[n].now);
      }
    }
  }

  /** In every protocol run whose set_days all come from batches over the same wings, the schedule the
    * next sync delivers is the initial one, or the days of one batch that the Pi accepted in full, and
    * no batch accepted in full is newer. The phantom acknowledgements that break this for arbitrary
    * ACKs never arise, because the Pi acknowledges only what was completed. */
  lemma ScheduleIsOneAcceptedBatch(trace: seq<P.State>, steps: seq<P.Step>, wings: seq<Slot>) returns (top: Option<K.BatchId>)
    requires P.IsRun(trace, steps)
    requires forall k | 0 <= k < |steps| && steps[k].CloudStep? :: B.BatchOnly(steps[k].step, wings)
    ensures var c, initial := trace[|steps|].cloud, trace[0].cloud.targets;
      && (top.None? ==> c.targets == initial && forall b :: !K.FullyApplied(c.rows, b))
      && (top.Some? ==>
            && K.FullyApplied(c.rows, top.value)
            && (forall id | id in K.Members(c.rows, top.value) :: c.rows[id].outcome == Some(K.Completed))
            && (forall b | K.FullyApplied(c.rows, b) && b != top.value :: K.Top(c.rows, b) < K.Top(c.rows, top.value))
            && (forall id, s | K.Sets(c.rows, id, top.value, s) && s in c.targets :: c.targets[s] == c.rows[id].param)
            && (forall s | s in c.targets && s !in wings :: s in initial && c.targets[s] == initial[s]))
  {
    ProjectsToCloudRun(trace, steps);
    var clouds, timed := Clouds(trace, steps), CloudSteps(trace, steps);
    forall k | 0 <= k < |timed| ensures B.BatchOnly(timed[k].step, wings) {
      TransactionsAreSteps(trace, steps, k);
    }
    top := B.BatchConfluence(clouds, timed, wings, |timed|);
    if top.Some? {
      A.PublishedMeansCompleted(clouds, timed, |timed|, top.value);
      NothingIsBuried(trace, steps);
      R.RunKeeps(clouds, timed, |timed|);
    }
  }

  /** In no protocol run does any step acknowledge a software command while it is failed or expired. */
  lemma NothingIsBuried(trace: seq<P.State>, steps: seq<P.Step>)
    requires P.IsRun(trace, steps)
    ensures var clouds, timed := Clouds(trace, steps), CloudSteps(trace, steps);
      && |clouds| == |timed| + 1
      && forall id | id in trace[|steps|].cloud.rows && !trace[|steps|].cloud.rows[id].command.Hardware() ::
           !F.Buried(clouds, timed, |timed|, id)
  {
    ProjectsToCloudRun(trace, steps);
    var clouds, timed := Clouds(trace, steps), CloudSteps(trace, steps);
    forall id | id in trace[|steps|].cloud.rows && !trace[|steps|].cloud.rows[id].command.Hardware()
      ensures !F.Buried(clouds, timed, |timed|, id)
    {
      F.BuriedExactly(clouds, timed, |timed|, id);
      if trace[|steps|].cloud.rows[id].status == K.Acked {
        S.AckedSoftwareWasCompleted(trace, steps, |steps|, id);
      }
    }
  }

  /** With manual set_days only, every wing's target is the newest completed one, end to end. */
  lemma NewestCompletedSetDaysWins(trace: seq<P.State>, steps: seq<P.Step>, s: Slot)
    requires P.IsRun(trace, steps) && s in trace[0].cloud.targets
    requires forall k | 0 <= k < |steps| && steps[k].CloudStep? :: !steps[k].step.BatchStep?
    ensures var c := trace[|steps|].cloud;
      && s in c.targets
      && ((forall id :: !W.Took(c.rows, id, s)) ==> c.targets[s] == trace[0].cloud.targets[s])
      && forall id | M.Newest(c.rows, id, s) :: c.targets[s] == c.rows[id].param
  {
    ProjectsToCloudRun(trace, steps);
    NothingIsBuried(trace, steps);
    var clouds, timed := Clouds(trace, steps), CloudSteps(trace, steps);
    forall k | 0 <= k < |timed| ensures !timed[k].step.BatchStep? {
      TransactionsAreSteps(trace, steps, k);
    }
    M.NewestCompletedWins(clouds, timed, |timed|, s);
  }
}
