/** A/B firmware slots (pi_firmware/ota_manager.py, ota_boot.sh and the OTA part of
  * pi_firmware/ems_controller.py).
  *
  * Signatures, hashes and file contents are opaque: whether an artifact verifies is a parameter. Every
  * write of active.json, pending.json or attempts.json is atomic, and so is putting a written directory
  * in place; removing one leaves a remnant first. `left` is how many of these steps take effect before one
  * does not, because the power fails or the write raises. `log` is a ghost record of what happened to the
  * slots.
  */
module FirmwareSlots {
  import opened Vocabulary

  datatype Half = SlotA | SlotB

  function Other(h: Half): Half {
    if h == SlotA then SlotB else SlotA
  }

  type Version = nat

  /** What a slot directory holds; a remnant is what is left while it is being removed. */
  datatype Image = NoImage | Remnant | Image(version: Version)

  // ------------------------------------------------------------ the rules, on the log itself

  datatype Event =
    | Rewrote(half: Half, image: Image)
    | Activated(half: Half, from: Half)
    | Started(half: Half)
    | Confirmed
    | RolledBack(half: Half)

  type Log = seq<Event>

  /** The half that is active after the log; slot A before any activation. */
  function ActiveBy(log: Log): Half {
    if log == [] then SlotA
    else
      match log[|log| - 1]
      case Activated(half, _) => half
      case RolledBack(half) => half
      case _ => ActiveBy(log[..|log| - 1])
  }

  /** An activation that was neither confirmed nor rolled back: the half it names as the one to return to,
    * and how often the activated half was started since. */
  datatype Trial = NoTrial | Trial(from: Half, starts: nat)

  function TrialOf(log: Log): Trial {
    if log == [] then NoTrial
    else
      var past := log[..|log| - 1];
      match log[|log| - 1]
      case Rewrote(_, _) => TrialOf(past)
      case Activated(_, from) => Trial(from, 0)
      case Started(_) => var t := TrialOf(past); if t.Trial? then t.(starts := t.starts + 1) else t
      case Confirmed => NoTrial
      case RolledBack(_) => NoTrial
  }

  /** What the code keeps whatever happens: the active half is never rewritten; an activation names the
    * other half as the one to return to; a half on trial is started at most once; a rollback returns to
    * the half the activation named. */
  predicate EventOk(past: Log, e: Event) {
    match e
    case Rewrote(half, _) => half != ActiveBy(past)
    case Activated(half, from) => half == Other(from)
    case Started(half) => half == ActiveBy(past) && (TrialOf(past).Trial? ==> TrialOf(past).starts == 0)
    case Confirmed => TrialOf(past).Trial?
    case RolledBack(half) => TrialOf(past).Trial? && half == TrialOf(past).from
  }

  ghost predicate Lawful(log: Log) {
    forall k | 0 <= k < |log| :: EventOk(log[..k], log[k])
  }

  lemma LawfulStep(log: Log, e: Event)
    requires Lawful(log) && EventOk(log, e)
    ensures Lawful(log + [e])
  {
    var longer := log + [e];
    forall k | 0 <= k < |longer| ensures EventOk(longer[..k], longer[k]) {
      if k < |log| {
        assert longer[..k] == log[..k];
      } else {
        assert longer[..k] == log;
      }
    }
  }

  lemma After(log: Log, e: Event)
    ensures (log + [e])[..|log|] == log && (log + [e])[|log|] == e && |log + [e]| == |log| + 1
  {
  }

  predicate Ends(e: Event) {
    e.Activated? || e.Confirmed? || e.RolledBack?
  }

  /** In plain words: from an activation on, as long as nothing confirms it, rolls it back or activates
    * another half, the half stays active, is not rewritten, and is started at most once; and what then
    * rolls it back restores the half that the activation named. */
  lemma {:induction false} TrialIsOneStart(log: Log, i: nat, k: nat)
    requires Lawful(log) && i < k <= |log| && log[i].Activated?
    requires forall j | i < j < k :: !Ends(log[j])
    ensures ActiveBy(log[..k]) == log[i].half && TrialOf(log[..k]) == Trial(log[i].from, StartsIn(log, i + 1, k))
    ensures StartsIn(log, i + 1, k) <= 1
    ensures k < |log| && log[k].RolledBack? ==> log[k].half == log[i].from
    ensures k < |log| && log[k].Rewrote? ==> log[k].half != log[i].half
    decreases k
  {
    assert log[..k][..k - 1] == log[..k - 1] && log[..k][k - 1] == log[k - 1];
    if i + 1 < k {
      TrialIsOneStart(log, i, k - 1);
      assert EventOk(log[..k - 1], log[k - 1]);
    }
    if k < |log| {
      assert EventOk(log[..k], log[k]);
    }
  }

  /** A trial began with an activation that nothing has ended since. */
  lemma {:induction false} TrialBegan(log: Log, k: nat) returns (i: nat)
    requires k <= |log| && TrialOf(log[..k]).Trial?
    ensures i < k && log[i].Activated? && forall j | i < j < k :: !Ends(log[j])
    decreases k
  {
    assert log[..k][..k - 1] == log[..k - 1] && log[..k][k - 1] == log[k - 1];
    if log[k - 1].Activated? {
      i := k - 1;
    } else {
      i := TrialBegan(log, k - 1);
    }
  }

  /** What the half holds after the log. */
  function ImageIn(log: Log, half: Half): Image {
    if log == [] then NoImage
    else
      match log[|log| - 1]
      case Rewrote(h, image) => if h == half then image else ImageIn(log[..|log| - 1], half)
      case _ => ImageIn(log[..|log| - 1], half)
  }

  predicate StagedBetween(log: Log, i: nat, k: nat)
    requires k <= |log|
  {
    exists j :: i < j < k && log[j].Rewrote?
  }

  predicate RewrittenBetween(log: Log, i: nat, k: nat, half: Half)
    requires k <= |log|
  {
    exists j :: i < j < k && log[j].Rewrote? && log[j].half == half
  }

  /** An activation at i that a rollback at k undoes. */
  ghost predicate UndoneAt(log: Log, i: nat, k: nat) {
    && i < k < |log| && log[i].Activated? && log[k].RolledBack?
    && forall j | i < j < k :: !Ends(log[j])
  }

  /** The half holds the image of some rewriting between i and k. */
  predicate HoldsNewImage(log: Log, i: nat, k: nat, half: Half)
    requires k <= |log|
  {
    exists j :: i < j < k && log[j].Rewrote? && log[j].half == half && ImageIn(log[..k], half) == log[j].image
  }

  lemma ImageStep(log: Log, k: nat, half: Half)
    requires k < |log|
    ensures ImageIn(log[..k + 1], half) ==
      if log[k].Rewrote? && log[k].half == half then log[k].image else ImageIn(log[..k], half)
  {
    assert log[..k + 1][..k] == log[..k] && log[..k + 1][k] == log[k];
  }

  lemma {:induction false} LastImage(log: Log, i: nat, k: nat, half: Half)
    requires i < k <= |log| && !log[i].Rewrote?
    ensures if RewrittenBetween(log, i, k, half) then HoldsNewImage(log, i, k, half)
            else ImageIn(log[..k], half) == ImageIn(log[..i], half)
    decreases k
  {
    ImageStep(log, k - 1, half);
    if i + 1 < k {
      LastImage(log, i, k - 1, half);
      if log[k - 1].Rewrote? && log[k - 1].half == half {
        assert RewrittenBetween(log, i, k, half);
      } else if RewrittenBetween(log, i, k - 1, half) {
        var j :| i < j < k - 1 && log[j].Rewrote? && log[j].half == half && ImageIn(log[..k - 1], half) == log[j].image;
        assert HoldsNewImage(log, i, k, half);
      }
    }
  }

  lemma NotDuring(log: Log, i: nat, k: nat, j: nat)
    requires Lawful(log) && UndoneAt(log, i, k) && i < j < k
    ensures TrialOf(log[..j]).Trial? && (log[j].Rewrote? ==> log[j].half == log[k].half)
  {
    TrialIsOneStart(log, i, j);
    TrialIsOneStart(log, i, k);
    assert EventOk(log[..i], log[i]);
  }

  lemma RewritesHitFallback(log: Log, i: nat, k: nat)
    requires Lawful(log) && UndoneAt(log, i, k)
    ensures RewrittenBetween(log, i, k, log[k].half) <==> StagedBetween(log, i, k)
  {
    forall j | i < j < k && log[j].Rewrote? ensures log[j].half == log[k].half {
      NotDuring(log, i, k, j);
    }
  }

  /** Every rollback undoes an activation, and returns to the half that one names. Everything staged while a
    * release is on trial is written into that half. So it is what it was before the activation exactly when
    * nothing was staged during the trial; otherwise what comes back is an image written meanwhile, which
    * was never tried. */
  lemma RollbackReturnsExactly(log: Log, k: nat) returns (i: nat)
    requires Lawful(log) && k < |log| && log[k].RolledBack?
    ensures UndoneAt(log, i, k) && log[k].half == log[i].from
    ensures RewrittenBetween(log, i, k, log[k].half) <==> StagedBetween(log, i, k)
    ensures if StagedBetween(log, i, k) then HoldsNewImage(log, i, k, log[k].half)
            else ImageIn(log[..k], log[k].half) == ImageIn(log[..i], log[k].half)
    ensures ImageIn(log[..k + 1], log[k].half) == ImageIn(log[..k], log[k].half)
  {
    assert EventOk(log[..k], log[k]);
    i := TrialBegan(log, k);
    TrialIsOneStart(log, i, k);
    RewritesHitFallback(log, i, k);
    LastImage(log, i, k, log[k].half);
    ImageStep(log, k, log[k].half);
  }

  /** Staging and activation happen only while nothing is on trial, and an activation names the half that is
    * active. */
  predicate GuardedEvent(past: Log, e: Event) {
    match e
    case Rewrote(_, _) => TrialOf(past).NoTrial?
    case Activated(_, from) => TrialOf(past).NoTrial? && from == ActiveBy(past)
    case _ => true
  }

  ghost predicate Guarded(log: Log) {
    forall k | 0 <= k < |log| :: GuardedEvent(log[..k], log[k])
  }

  /** Then every rollback returns to the half, and the release, that were active before the activation, and
    * that were not themselves on trial. */
  lemma GuardedRollbackRestores(log: Log, k: nat) returns (i: nat)
    requires Lawful(log) && Guarded(log) && k < |log| && log[k].RolledBack?
    ensures UndoneAt(log, i, k) && TrialOf(log[..i]).NoTrial?
    ensures log[k].half == ActiveBy(log[..i]) && ImageIn(log[..k + 1], log[k].half) == ImageIn(log[..i], log[k].half)
  {
    i := RollbackReturnsExactly(log, k);
    assert GuardedEvent(log[..i], log[i]);
    forall j | i < j < k ensures !log[j].Rewrote? {
      NotDuring(log, i, k, j);
      assert GuardedEvent(log[..j], log[j]);
    }
  }

  lemma GuardedStep(log: Log, e: Event)
    ensures Guarded(log + [e]) <==> Guarded(log) && GuardedEvent(log, e)
  {
    var longer := log + [e];
    forall k | 0 <= k < |longer| ensures longer[..k] == (if k < |log| then log[..k] else log) {
    }
    if Guarded(longer) {
      forall k | 0 <= k < |log| ensures GuardedEvent(log[..k], log[k]) {
        assert GuardedEvent(longer[..k], longer[k]);
      }
      assert GuardedEvent(longer[..|log|], longer[|log|]);
    }
  }

  /** Starts among log[lo..hi]. */
  function StartsIn(log: Log, lo: nat, hi: nat): nat
    requires hi <= |log|
    decreases hi
  {
    if hi <= lo then 0 else StartsIn(log, lo, hi - 1) + if log[hi - 1].Started? then 1 else 0
  }

  // ------------------------------------------------------------ the files

  datatype ActiveDoc = ActiveDoc(
    half: Half,
    version: Option<Version>,
    confirmed: bool,
    started: bool,
    previous: Option<Half>,
    previousVersion: Option<Version>)

  datatype Phase = Absent | Verifying | Verified | Staged | Activating | HealthCheck | Failed | RolledBackState

  /** pending.json. A rewritten document that keeps the rest of the old one keeps these fields. */
  datatype PendingDoc = PendingDoc(
    phase: Phase,
    version: Option<Version>,
    target: Option<Half>,
    previous: Option<Half>,
    operation: Option<nat>)

  const NO_PENDING: PendingDoc := PendingDoc(Absent, None, None, None, None)
  const MAX_ATTEMPTS: nat := 3

  /** A release as the cloud serves it; `verifies` and `intact` are the verdicts of the signature check
    * and of re-reading the written files. */
  datatype Release = Release(version: Version, operation: Option<nat>, multifile: bool, verifies: bool, intact: bool)

  /** Broken: a write did not take effect. */
  datatype Ending = Done | Refused | Broken

  class Firmware {
    var active: Option<ActiveDoc>
    var pending: PendingDoc
    var attempts: map<Version, nat>
    var images: map<Half, Image>
    var left: nat
    ghost var log: Log

    constructor ()
      ensures Valid() && log == [] && active == None && attempts == map[]
    {
      active, pending, attempts := None, NO_PENDING, map[];
      images := map[SlotA := NoImage, SlotB := NoImage];
      left, log := 0, [];
    }

    function ActiveHalf(): Half
      reads `active
    {
      if active.Some? then active.value.half else SlotA
    }

    /** A new release is on trial: boot_confirmed is false. */
    predicate OnTrial()
      reads `active
    {
      active.Some? && !active.value.confirmed
    }

    function Failures(version: Version): nat
      reads `attempts
    {
      if version in attempts then attempts[version] else 0
    }

    /** active.json says what the log says, and the log is lawful. */
    ghost predicate Sound()
      reads `images, `log, `active
    {
      && images.Keys == {SlotA, SlotB} && images[SlotA] == ImageIn(log, SlotA) && images[SlotB] == ImageIn(log, SlotB)
      && Lawful(log) && ActiveHalf() == ActiveBy(log)
      && (OnTrial() <==> TrialOf(log).Trial?)
      && (OnTrial() ==>
            && TrialOf(log).from == Other(ActiveHalf())
            && active.value.previous == Some(TrialOf(log).from) && active.value.version.Some?
            && TrialOf(log).starts <= (if active.value.started then 1 else 0))
    }

    /** A staged release names a half, and the other one as the one to return to. */
    ghost predicate StagedWell()
      reads `pending
    {
      pending.phase == Staged ==> pending.version.Some? && pending.target.Some? && pending.previous == Some(Other(pending.target.value))
    }

    /** Holds after every single durable write, also where one breaks, whatever is staged when. */
    ghost predicate Safe()
      reads `images, `log, `active, `pending
    {
      Sound() && StagedWell()
    }

    /** A staged release is for the half that is not active, remembers the one that is, and nothing is on
      * trial. */
    ghost predicate StagedForOther()
      reads `active, `pending
    {
      pending.phase == Staged ==>
        && !OnTrial() && pending.version.Some?
        && pending.target == Some(Other(ActiveHalf())) && pending.previous == Some(ActiveHalf())
    }

    /** Holds as well as long as nothing is staged during a trial. */
    ghost predicate Valid()
      reads `images, `log, `active, `pending
    {
      Sound() && StagedForOther()
    }

    /** At most three failures are ever recorded for a version, if no exhausted version is tried. */
    ghost predicate Bounded()
      reads `attempts, `active
    {
      && (forall v :: Failures(v) <= MAX_ATTEMPTS)
      && (OnTrial() && active.value.version.Some? ==> Failures(active.value.version.value) < MAX_ATTEMPTS)
    }

    ghost method Note(e: Event)
      requires Lawful(log) && EventOk(log, e)
      modifies `log
      ensures log == old(log) + [e] && Lawful(log)
      ensures Guarded(log) <==> old(Guarded(log)) && GuardedEvent(old(log), e)
      ensures ImageIn(log, SlotA) == if e.Rewrote? && e.half == SlotA then e.image else ImageIn(old(log), SlotA)
      ensures ImageIn(log, SlotB) == if e.Rewrote? && e.half == SlotB then e.image else ImageIn(old(log), SlotB)
      ensures ActiveBy(log) == if e.Activated? || e.RolledBack? then e.half else ActiveBy(old(log))
      ensures TrialOf(log) == match e
        case Rewrote(_, _) => TrialOf(old(log))
        case Activated(_, from) => Trial(from, 0)
        case Started(_) => (if TrialOf(old(log)).Trial? then Trial(TrialOf(old(log)).from, TrialOf(old(log)).starts + 1) else NoTrial)
        case Confirmed => NoTrial
        case RolledBack(_) => NoTrial
    {
      LawfulStep(log, e);
      After(log, e);
      GuardedStep(log, e);
      log := log + [e];
    }

    // ---------------------------------------------------------- durable writes

    method SavePending(doc: PendingDoc) returns (up: bool)
      modifies `pending, `left
      ensures pending == (if up then doc else old(pending)) && left == (if up then old(left) - 1 else 0) && (up <==> old(left) > 0)
    {
      up := left > 0;
      if up {
        left, pending := left - 1, doc;
      }
    }

    method SaveActive(doc: ActiveDoc) returns (up: bool)
      modifies `active, `left
      ensures active == (if up then Some(doc) else old(active)) && left == (if up then old(left) - 1 else 0) && (up <==> old(left) > 0)
    {
      up := left > 0;
      if up {
        left, active := left - 1, Some(doc);
      }
    }

    method SaveAttempts(version: Version) returns (up: bool)
      modifies `attempts, `left
      ensures attempts == if up then old(attempts)[version := old(Failures(version)) + 1] else old(attempts)
      ensures left == (if up then old(left) - 1 else 0) && (up <==> old(left) > 0)
    {
      up := left > 0;
      if up {
        left, attempts := left - 1, attempts[version := Failures(version) + 1];
      }
    }

    /** Removing or replacing a slot directory; the half must not be the active one. */
    method SaveImage(half: Half, image: Image) returns (up: bool)
      requires Sound() && half != ActiveHalf()
      modifies `images, `left, `log
      ensures Sound() && images[half] == (if up then image else old(images)[half])
      ensures images[ActiveHalf()] == old(images)[ActiveHalf()]
      ensures old(log) <= log && (Guarded(log) <==> old(Guarded(log)) && (!OnTrial() || log == old(log)))
      ensures left == (if up then old(left) - 1 else 0) && (up <==> old(left) > 0)
    {
      up := left > 0;
      if up {
        left, images := left - 1, images[half := image];
        Note(Rewrote(half, image));
      }
    }

    /** shutil.rmtree: file by file, so the power may fail with a part of the directory left. */
    method Remove(half: Half) returns (up: bool)
      requires Sound() && half != ActiveHalf()
      modifies `images, `left, `log
      ensures Sound() && images[ActiveHalf()] == old(images)[ActiveHalf()]
      ensures images[half] == (if up then NoImage else if old(left) == 1 then Remnant else old(images)[half])
      ensures old(log) <= log && (Guarded(log) <==> old(Guarded(log)) && (!OnTrial() || log == old(log)))
      ensures (up <==> old(left) > 1) && left == (if up then old(left) - 2 else 0)
    {
      up := SaveImage(half, Remnant);
      if up {
        up := SaveImage(half, NoImage);
      }
    }

    // ---------------------------------------------------------- staging

    /** What staging writes before the files: nothing is staged while they are being written. */
    method WriteSlot(r: Release, first: PendingDoc) returns (result: Ending)
      requires Safe() && first.phase != Staged
      modifies `images, `left, `log, `pending
      ensures Safe() && images[ActiveHalf()] == old(images)[ActiveHalf()]
      ensures !OnTrial() && old(StagedForOther()) ==> StagedForOther()
      ensures (result == Refused ==> !r.intact) && (result == Done ==> r.intact)
      ensures !r.intact && old(left) > 0 ==> result == Refused && images == old(images) && pending == first
      ensures old(log) <= log && (Guarded(log) <==> old(Guarded(log)) && (!OnTrial() || log == old(log)))
      ensures r.intact && old(left) >= 5 ==> result == Done && left >= old(left) - 5
      ensures result == Done ==> pending == PendingDoc(Staged, Some(r.version), Some(Other(ActiveHalf())), Some(ActiveHalf()), first.operation)
      ensures result == Done ==> images[Other(ActiveHalf())] == Image(r.version)
      ensures result == Done ==> left == old(left) - if old(images)[Other(ActiveHalf())] == NoImage then 3 else 5
    {
      var up := SavePending(first);
      if !up {
        return Broken;
      }
      var target := Other(ActiveHalf());
      if !r.intact {
        return Refused;
      }
      if images[target] != NoImage {
        up := Remove(target);
        if !up {
          return Broken;
        }
      }
      up := SaveImage(target, Image(r.version));
      if !up {
        return Broken;
      }
      up := SavePending(PendingDoc(Staged, Some(r.version), Some(target), Some(ActiveHalf()), first.operation));
      return if up then Done else Broken;
    }

    predicate AlreadyUnderWay(r: Release)
      reads `pending
    {
      r.multifile && r.operation.Some? && pending.operation == r.operation && pending.phase in {Verified, Staged, Activating, HealthCheck}
    }

    /** stage_signed_firmware and stage_multifile_release. Whatever is going on, the active half is not
      * touched; outside a trial, what is staged can be activated. */
    method Stage(r: Release) returns (result: Ending)
      requires Safe()
      modifies `images, `left, `log, `pending
      ensures Safe() && images[ActiveHalf()] == old(images)[ActiveHalf()]
      ensures old(Valid()) && !OnTrial() ==> Valid()
      ensures old(AlreadyUnderWay(r)) ==> result == Done && pending == old(pending) && images == old(images)
      ensures r.multifile && r.operation.Some? && old(pending).operation == r.operation && old(pending).phase !in {Absent, Verifying, Failed, RolledBackState} ==>
        result == Done && pending == old(pending) && images == old(images)
      ensures !r.multifile || r.operation.None? || old(pending).operation != r.operation || old(pending).phase in {Absent, Verifying, Failed, RolledBackState} ==>
        !old(AlreadyUnderWay(r))
      ensures old(log) <= log && (Guarded(log) <==> old(Guarded(log)) && (!OnTrial() || log == old(log)))
      ensures r.verifies && r.intact && old(left) >= 5 ==> result == Done && left >= old(left) - 5
      ensures !old(AlreadyUnderWay(r)) ==> (result == Refused ==> !r.verifies || !r.intact) && (result == Done ==> r.verifies && r.intact)
      ensures !old(AlreadyUnderWay(r)) && !r.verifies ==>
        result == Refused && pending == old(pending) && images == old(images) && left == old(left)
      ensures !old(AlreadyUnderWay(r)) && r.verifies && !r.intact && old(left) > 0 ==>
        && result == Refused && images == old(images)
        && pending == (if r.multifile then PendingDoc(Verifying, Some(r.version), None, None, r.operation)
                       else PendingDoc(Verified, Some(r.version), None, None, None))
      ensures result == Done && !old(AlreadyUnderWay(r)) ==>
        && pending.phase == Staged && pending.version == Some(r.version)
        && pending.target == Some(Other(ActiveHalf())) && pending.previous == Some(ActiveHalf())
        && pending.operation == (if r.multifile then r.operation else None)
        && images[Other(ActiveHalf())] == Image(r.version)
    {
      if AlreadyUnderWay(r) {
        return Done;
      }
      if !r.verifies {
        return Refused;
      }
      var first := if r.multifile then PendingDoc(Verifying, Some(r.version), None, None, r.operation)
                   else PendingDoc(Verified, Some(r.version), None, None, None);
      result := WriteSlot(r, first);
    }

    // ---------------------------------------------------------- activation

    /** activate_staged. Two writes: the power may fail between them, and then a second call is a no-op
      * that reports success although nothing was activated. */
    method ActivateStaged(running: Version) returns (result: Ending)
      requires Safe()
      modifies `pending, `active, `left, `log
      ensures Safe() && (old(Valid()) ==> Valid())
      ensures old(pending.phase) == Activating ==> result == Done && active == old(active) && pending == old(pending)
      ensures old(pending.phase) !in {Staged, Activating} ==> result == Refused && active == old(active)
      ensures old(pending.phase) == Staged && images[old(pending.target.value)] == NoImage ==> result == Refused && active == old(active)
      ensures result == Done && old(pending.phase) == Staged ==>
        active == Some(ActiveDoc(old(pending.target.value), old(pending.version), false, false, old(pending.previous), Some(running)))
      ensures result == Done && old(pending.phase) == Staged ==> images[ActiveHalf()] != NoImage
      ensures result != Done ==> active == old(active) && log == old(log)
      ensures old(pending.phase) != Staged ==> log == old(log)
      ensures old(pending.phase) == Staged && images[old(pending.target.value)] != NoImage ==>
        (result == Done <==> old(left) >= 2) && (result != Done ==> result == Broken)
        && (old(left) == 1 ==> pending == old(pending).(phase := Activating))
      ensures Guarded(log) <==> old(Guarded(log)) && (log == old(log) || (!old(OnTrial()) && old(pending.previous) == Some(old(ActiveHalf()))))
    {
      if pending.phase == Activating {
        return Done;
      }
      if pending.phase != Staged || images[pending.target.value] == NoImage {
        return Refused;
      }
      var p := pending;
      var up := SavePending(p.(phase := Activating));
      if !up {
        return Broken;
      }
      up := SaveActive(ActiveDoc(p.target.value, p.version, false, false, p.previous, Some(running)));
      if !up {
        return Broken;
      }
      Note(Activated(p.target.value, p.previous.value));
      return Done;
    }

    /** record_failure. */
    method RecordFailure(version: Version) returns (up: bool)
      requires Safe()
      modifies `pending, `attempts, `left
      ensures Safe() && (old(Valid()) ==> Valid())
      ensures attempts == if old(left) > 0 then old(attempts)[version := old(Failures(version)) + 1] else old(attempts)
      ensures forall v :: Failures(v) <= old(Failures(v)) + if v == version then 1 else 0
      ensures up <==> old(left) >= 2
      ensures pending == if up then PendingDoc(Failed, Some(version), None, None, None) else old(pending)
      ensures left == if up then old(left) - 2 else 0
    {
      up := SaveAttempts(version);
      if up {
        up := SavePending(PendingDoc(Failed, Some(version), None, None, None));
      }
    }

    /** The failures, with one more for the release on trial. */
    function OneMoreFailure(): map<Version, nat>
      requires OnTrial() && active.value.version.Some?
      reads `active, `attempts
    {
      attempts[active.value.version.value := Failures(active.value.version.value) + 1]
    }

    /** The document a failed trial falls back to. */
    function Fallback(): ActiveDoc
      requires active.Some?
      reads `active, `pending
    {
      var d := active.value;
      var named := if d.previous.Some? then d.previous else pending.previous;
      ActiveDoc(if named.Some? then named.value else Other(d.half), d.previousVersion, true, false, None, None)
    }

    /** The common part of fail_health and rollback_if_unconfirmed: restore the previous half, then record
      * the failure. The failure may stay unrecorded, the restored half may not stay in doubt. */
    method RollBack() returns (up: bool)
      requires Safe() && OnTrial()
      modifies `active, `pending, `attempts, `left, `log
      ensures Safe() && (old(Valid()) ==> Valid())
      ensures (active == old(active) && attempts == old(attempts) && !up) || (!OnTrial() && ActiveHalf() == old(TrialOf(log).from))
      ensures active == if old(left) > 0
        then Some(ActiveDoc(old(TrialOf(log).from), old(active.value.previousVersion), true, false, None, None)) else old(active)
      ensures active.Some? && (up <==> old(left) >= 3) && left == if up then old(left) - 3 else 0
      ensures attempts == if old(left) >= 2 then old(OneMoreFailure()) else old(attempts)
      ensures pending == if up then PendingDoc(Failed, old(active.value.version), None, None, None) else old(pending)
      ensures old(Bounded()) ==> Bounded()
      ensures Guarded(log) <==> old(Guarded(log))
    {
      var failed := active.value.version;
      var fallback := Fallback();
      up := SaveActive(fallback);
      if up {
        Note(RolledBack(fallback.half));
        up := RecordFailure(failed.value);
      }
    }

    method FailHealth() returns (result: Ending)
      requires Safe()
      modifies `active, `pending, `attempts, `left, `log
      ensures Safe() && (old(Valid()) ==> Valid())
      ensures !old(OnTrial()) ==> result == Refused && active == old(active) && attempts == old(attempts)
      ensures old(OnTrial()) ==> result == (if old(left) >= 4 then Done else Broken)
      ensures old(OnTrial()) ==> (OnTrial() <==> old(left) == 0) && (OnTrial() ==> active == old(active))
      ensures !OnTrial() && old(OnTrial()) ==> ActiveHalf() == old(TrialOf(log).from)
      ensures old(OnTrial()) ==> attempts == if old(left) >= 2 then old(OneMoreFailure()) else old(attempts)
      ensures result == Done ==> pending == PendingDoc(RolledBackState, old(active.value.version), None, None, None)
      ensures old(Bounded()) ==> Bounded()
      ensures Guarded(log) <==> old(Guarded(log))
    {
      if !OnTrial() {
        return Refused;
      }
      var version := active.value.version;
      var up := RollBack();
      if up {
        up := SavePending(pending.(phase := RolledBackState, version := version));
      }
      return if up then Done else Broken;
    }

    method ConfirmBoot() returns (result: Ending)
      requires Safe()
      modifies `active, `pending, `left, `log
      ensures Safe() && (old(Valid()) ==> Valid())
      ensures !old(OnTrial()) ==> result == Refused && active == old(active)
      ensures OnTrial() <==> old(OnTrial()) && old(left) == 0
      ensures old(OnTrial()) ==> result == if old(left) >= 2 then Done else Broken
      ensures result == Done ==> !OnTrial() && active == Some(old(active.value).(confirmed := true)) && pending == NO_PENDING
      ensures active.Some? == old(active).Some? && (active.Some? ==> active.value.version == old(active.value.version))
      ensures ActiveHalf() == old(ActiveHalf())
      ensures old(Bounded()) ==> Bounded()
      ensures Guarded(log) <==> old(Guarded(log))
    {
      if !OnTrial() {
        return Refused;
      }
      var up := SaveActive(active.value.(confirmed := true));
      if !up {
        return Broken;
      }
      Note(Confirmed);
      up := SavePending(NO_PENDING);
      return if up then Done else Broken;
    }

    // ---------------------------------------------------------- starting

    /** rollback_if_unconfirmed, which ota_boot.sh runs before it starts a half. When it comes back with
      * power, the active half may be started. */
    method RollbackIfUnconfirmed() returns (up: bool)
      requires Safe()
      modifies `active, `pending, `attempts, `left, `log
      ensures Safe() && (old(Valid()) ==> Valid())
      ensures up ==> EventOk(log, Started(ActiveHalf()))
      ensures old(OnTrial()) ==> (up <==> old(left) >= if old(active.value.started) then 3 else 2)
      ensures old(OnTrial()) && !old(active.value.started) && old(left) > 0 ==>
        OnTrial() && active == Some(old(active.value).(started := true))
      ensures up && OnTrial() ==> pending == old(pending).(phase := HealthCheck)
      ensures attempts == if old(OnTrial()) && old(active.value.started) && old(left) >= 2 then old(OneMoreFailure()) else old(attempts)
      ensures up && OnTrial() ==> active.value.started && TrialOf(log).starts == 0
      ensures (up || old(left) > 0) && old(OnTrial()) && old(active.value.started) ==> !OnTrial() && ActiveHalf() == old(TrialOf(log).from)
      ensures old(Bounded()) ==> Bounded()
      ensures Guarded(log) <==> old(Guarded(log))
      ensures !old(OnTrial()) ==> up && active == old(active)
    {
      if !OnTrial() {
        return true;
      }
      if !active.value.started {
        up := SaveActive(active.value.(started := true));
        if up {
          up := SavePending(pending.(phase := HealthCheck));
        }
        return;
      }
      up := RollBack();
    }

    /** ota_boot.sh after power comes back: roll back or mark the first start, then start the active half,
      * or the base installation when there is none. */
    method Boot(power: nat) returns (running: Option<Half>)
      requires Safe()
      modifies `active, `pending, `attempts, `left, `log
      ensures Safe() && (old(Valid()) ==> Valid())
      ensures running.Some? ==> running.value == ActiveHalf() && log != [] && log[|log| - 1] == Started(running.value)
      ensures running.Some? <==>
        && old(active).Some? && images[ActiveHalf()] != NoImage
        && (old(OnTrial()) ==> power >= if old(active.value.started) then 3 else 2)
      ensures running.Some? && OnTrial() ==> TrialOf(log).starts == 1
      ensures power > 0 && old(OnTrial()) && old(active.value.started) ==> !OnTrial() && ActiveHalf() == old(TrialOf(log).from)
      ensures running.Some? && OnTrial() ==> active == Some(old(active.value).(started := true)) && pending == old(pending).(phase := HealthCheck)
      ensures attempts == if old(OnTrial()) && old(active.value.started) && power >= 2 then old(OneMoreFailure()) else old(attempts)
      ensures old(Bounded()) ==> Bounded()
      ensures Guarded(log) <==> old(Guarded(log))
      ensures old(active).Some? && !old(OnTrial()) && old(images)[old(ActiveHalf())] != NoImage ==>
        running == Some(old(ActiveHalf())) && active == old(active)
    {
      left := power;
      if active.None? {
        return None;
      }
      var up := RollbackIfUnconfirmed();
      if !up || images[ActiveHalf()] == NoImage {
        return None;
      }
      Note(Started(ActiveHalf()));
      return Some(ActiveHalf());
    }

    /** What is staged for the release's operation is the release, and it is not the one on trial. */
    predicate WithinBounds(r: Release)
      reads `active, `pending
    {
      && (AlreadyUnderWay(r) ==> pending.version == Some(r.version))
      && (OnTrial() ==> active.value.version != Some(r.version))
    }

    method StageAndActivate(r: Release, running: Version) returns (result: Ending)
      requires Safe()
      modifies `active, `pending, `images, `left, `log
      ensures Safe() && (old(Valid()) && !old(OnTrial()) ==> Valid())
      ensures images[old(ActiveHalf())] == old(images)[old(ActiveHalf())]
      ensures result != Done ==> active == old(active)
      ensures result == Done && !old(AlreadyUnderWay(r)) ==> Trying(r)
      ensures result == Done && old(AlreadyUnderWay(r)) ==> active == old(active) || (OnTrial() && active.value.version == old(pending.version))
      ensures result == Done && old(AlreadyUnderWay(r)) && old(pending.phase) == Activating ==> active == old(active)
      ensures result == Done && !old(AlreadyUnderWay(r)) ==> ActiveHalf() == Other(old(ActiveHalf())) && log != old(log)
      ensures r.verifies && r.intact && old(left) >= 7 && !old(AlreadyUnderWay(r)) ==> result == Done
      ensures !old(AlreadyUnderWay(r)) && result == Refused ==> !r.verifies || !r.intact
      ensures !old(AlreadyUnderWay(r)) && !r.verifies ==> result == Refused && left == old(left)
      ensures old(Valid()) && !old(OnTrial()) ==> (Guarded(log) <==> old(Guarded(log)))
      ensures old(OnTrial()) && log != old(log) ==> !Guarded(log)
    {
      result := Stage(r);
      if result == Done {
        result := ActivateStaged(running);
      }
    }

    /** The release is on trial in the active half, and the other one is the half to return to. */
    predicate Trying(r: Release)
      reads `active, `images
    {
      && OnTrial() && active.value.version == Some(r.version) && active.value.previous == Some(Other(ActiveHalf()))
      && ActiveHalf() in images && images[ActiveHalf()] == Image(r.version)
    }

    twostate function OneMore(version: Version): map<Version, nat>
      reads `attempts
    {
      old(attempts)[version := old(Failures(version)) + 1]
    }

    /** _run_ota_if_requested. A release that is refused, or whose staging or activation raises, costs one
      * recorded failure; `again` says how many more writes take effect then, or that the power is gone. */
    method RunOta(r: Release, running: Version, again: Option<nat>) returns (result: Ending)
      requires Safe() && Failures(r.version) < MAX_ATTEMPTS
      modifies `active, `pending, `attempts, `images, `left, `log
      ensures Safe() && (old(Valid()) && !old(OnTrial()) ==> Valid())
      ensures images[old(ActiveHalf())] == old(images)[old(ActiveHalf())]
      ensures result != Done ==> active == old(active)
      ensures result == Done && !old(AlreadyUnderWay(r)) ==> Trying(r) && ActiveHalf() == Other(old(ActiveHalf())) && log != old(log)
      ensures result == Done && old(AlreadyUnderWay(r)) && old(pending.phase) == Activating ==> active == old(active)
      ensures r.verifies && r.intact && old(left) >= 7 && !old(AlreadyUnderWay(r)) ==> result == Done
      ensures !old(AlreadyUnderWay(r)) && !r.verifies ==> result == if old(left) >= 2 then Refused else Broken
      ensures result == Done ==> attempts == old(attempts)
      ensures result == Refused ==> attempts == OneMore(r.version) && pending == PendingDoc(Failed, Some(r.version), None, None, None)
      ensures result == Broken && !old(AlreadyUnderWay(r)) && r.verifies && r.intact ==>
        attempts == if again.Some? && again.value > 0 then OneMore(r.version) else old(attempts)
      ensures old(Bounded() && WithinBounds(r)) ==> Bounded()
      ensures old(Valid()) && !old(OnTrial()) ==> (Guarded(log) <==> old(Guarded(log)))
      ensures old(OnTrial()) && log != old(log) ==> !Guarded(log)
    {
      result := StageAndActivate(r, running);
      if result == Refused {
        var up := RecordFailure(r.version);
        return if up then Refused else Broken;
      }
      if result == Broken && again.Some? {
        left := again.value;
        var up := RecordFailure(r.version);
      }
    }
  }

  /** A power failure between the two writes of an activation: what is activated next reports success and
    * activates nothing. */
  method ActivationCutShort(f: Firmware, running: Version) returns (first: Ending, second: Ending)
    requires f.Valid() && f.pending.phase == Staged && f.images[f.pending.target.value] != NoImage
    modifies f
    ensures f.Valid() && first == Broken && second == Done
    ensures f.active == old(f.active) && !f.OnTrial() && f.pending.phase == Activating
  {
    f.left := 1;
    first := f.ActivateStaged(running);
    f.left := 2;
    second := f.ActivateStaged(running);
  }

  /** Why staging needs a guard: a release staged while another one is on trial names the trial's half as the
    * one to return to. If the trial is rolled back and the power fails before the failure is recorded, what
    * is staged can be activated, and rolling that back would start the release that failed. */
  method StagedDuringTrial(f: Firmware, r: Release, running: Version) returns (result: Ending)
    requires f.Safe() && f.OnTrial() && r.verifies && r.intact && !r.multifile
    modifies f
    ensures f.Safe() && result == Done && f.OnTrial() && f.ActiveHalf() == old(TrialOf(f.log).from)
    ensures TrialOf(f.log).from == old(f.ActiveHalf()) && f.images[old(f.ActiveHalf())] == old(f.images[f.ActiveHalf()])
  {
    f.left := 5;
    result := f.Stage(r);
    f.left := 1;
    var up := f.RollBack();
    f.left := 2;
    result := f.ActivateStaged(running);
  }

  /** The same in the plain case: a release staged during a trial overwrites the half to return to, so
    * after the rollback it is started as confirmed without ever having been tried. */
  method UntriedReleaseStarts(f: Firmware, r: Release) returns (running: Option<Half>)
    requires f.Safe() && f.OnTrial() && r.verifies && r.intact && !r.multifile
    modifies f
    ensures f.Safe() && !f.OnTrial() && running == Some(old(TrialOf(f.log).from))
    ensures f.images[f.ActiveHalf()] == Image(r.version) && f.ActiveHalf() == old(TrialOf(f.log).from)
  {
    f.left := 5;
    var result := f.Stage(r);
    f.left := 3;
    var up := f.RollBack();
    running := f.Boot(0);
  }
}
