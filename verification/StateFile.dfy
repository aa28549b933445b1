/** The crash-safe state file (PiStateManager in pi_firmware/state.py).
  *
  * A file holds nothing, something that does not verify, or a document; serialisation and SHA-256 are
  * opaque, so exactly what was written verifies. A rename changes the directory at once for the running
  * system, but reaches the disk only with a directory fsync: the window lists the directories the disk may
  * hold if the power fails now, from the last one known to be on it to the current one.
  */
module StateFile {
  import opened Vocabulary

  datatype Document = Document(generation: nat, body: nat)

  datatype File = Missing | Corrupt | Good(doc: Document)

  datatype Directory = Directory(state: File, backup: File, recovery: File, temp: File)

  /** What _load_state restores: the first candidate that verifies. */
  function Load(d: Directory): Option<Document> {
    if d.state.Good? then Some(d.state.doc)
    else if d.backup.Good? then Some(d.backup.doc)
    else if d.recovery.Good? then Some(d.recovery.doc)
    else None
  }

  /** The candidates in the order _load_state tries them. */
  method LoadState(d: Directory) returns (loaded: Option<Document>)
    ensures loaded == Load(d)
  {
    var candidates := [d.state, d.backup, d.recovery];
    assert candidates[0] == d.state && candidates[1] == d.backup && candidates[2] == d.recovery;
    for k := 0 to |candidates|
      invariant forall j | 0 <= j < k :: !candidates[j].Good?
    {
      if candidates[k].Good? {
        assert k == 0 || (k == 1 && !candidates[0].Good?) || (k == 2 && !candidates[0].Good? && !candidates[1].Good?);
        return Some(candidates[k].doc);
      }
    }
    assert !candidates[0].Good? && !candidates[1].Good? && !candidates[2].Good?;
    return None;
  }

  // ------------------------------------------------------------ one save, directory by directory

  /** Where a save stops. */
  datatype Fate = Refused | WriteFails | RenameToBackupFails | RenameFails | SyncFails | Succeeds

  /** A STATE that exists becomes the BACKUP. */
  function BackUp(d: Directory): seq<Directory> {
    if d.state.Missing? then [] else [d.(backup := d.state, state := Missing)]
  }

  function BackedUp(d: Directory): Directory {
    if d.state.Missing? then d else d.(backup := d.state, state := Missing)
  }

  function Replaced(d: Directory): Directory {
    d.(state := d.temp, temp := Missing)
  }

  /** The directories a save of `doc` with this fate passes through, in order. */
  function Passing(d: Directory, doc: Document, fate: Fate): seq<Directory> {
    var begun, written := d.(temp := Corrupt), d.(temp := Good(doc));
    match fate
    case Refused => []
    case WriteFails => [begun]
    case RenameToBackupFails => [begun, written]
    case RenameFails => [begun, written] + BackUp(written)
    case _ => [begun, written] + BackUp(written) + [Replaced(BackedUp(written))]
  }

  /** The directory in which it leaves the running system. */
  function Reached(d: Directory, doc: Document, fate: Fate): Directory {
    var written := d.(temp := Good(doc));
    match fate
    case Refused => d
    case WriteFails => d.(temp := Corrupt)
    case RenameToBackupFails => written
    case RenameFails => BackedUp(written)
    case _ => Replaced(BackedUp(written))
  }

  lemma ReachedIsLast(d: Directory, doc: Document, fate: Fate)
    ensures var passing := Passing(d, doc, fate);
      if passing == [] then fate == Refused && Reached(d, doc, fate) == d
      else passing[|passing| - 1] == Reached(d, doc, fate)
  {
  }

  /** Wherever a save stops, the document that was loadable before it is loadable, or the new one when the
    * new file is in place; provided STATE itself is absent or verifies. */
  lemma SaveIsSafe(d: Directory, doc: Document, fate: Fate)
    requires !d.state.Corrupt?
    ensures forall k | 0 <= k < |Passing(d, doc, fate)| ::
      var e := Passing(d, doc, fate)[k];
      Load(e) == if fate in {SyncFails, Succeeds} && k == |Passing(d, doc, fate)| - 1 then Some(doc) else Load(d)
    ensures !Reached(d, doc, fate).state.Corrupt?
    ensures Load(Reached(d, doc, fate)) == if fate in {SyncFails, Succeeds} then Some(doc) else Load(d)
  {
  }

  /** With something to restore before the save, there is something to restore at every point of it
    * exactly when STATE is not corrupt or RECOVERY is good: a corrupt STATE is renamed over the good
    * BACKUP before the new document takes its place. */
  lemma NeverNothing(d: Directory, doc: Document)
    requires Load(d).Some?
    ensures (forall k | 0 <= k < |Passing(d, doc, Succeeds)| :: Load(Passing(d, doc, Succeeds)[k]).Some?)
      <==> !d.state.Corrupt? || d.recovery.Good?
  {
    var passing := Passing(d, doc, Succeeds);
    if d.state.Corrupt? && !d.recovery.Good? {
      assert Load(passing[2]).None?;
    } else if !d.state.Corrupt? {
      SaveIsSafe(d, doc, Succeeds);
    }
  }

  /** STATE is restored if it verifies, else BACKUP, else RECOVERY. */
  lemma LoadsTheFirst(d: Directory)
    ensures d.state.Good? ==> Load(d) == Some(d.state.doc)
    ensures !d.state.Good? && d.backup.Good? ==> Load(d) == Some(d.backup.doc)
    ensures !d.state.Good? && !d.backup.Good? && d.recovery.Good? ==> Load(d) == Some(d.recovery.doc)
    ensures Load(d).None? <==> !d.state.Good? && !d.backup.Good? && !d.recovery.Good?
  {
  }

  /** What a save leaves: the new document in STATE and the previous STATE in BACKUP, once it got through; the
    * previous STATE in BACKUP alone between the two renames; and before them the files as they were. RECOVERY
    * is never touched. */
  lemma SaveLeaves(d: Directory, doc: Document, fate: Fate)
    ensures var e := Reached(d, doc, fate);
      && e.recovery == d.recovery
      && (fate in {SyncFails, Succeeds} ==>
            e.state == Good(doc) && e.temp == Missing && e.backup == if d.state == Missing then d.backup else d.state)
      && (fate == RenameFails ==>
            e.state == Missing && e.temp == Good(doc) && e.backup == if d.state == Missing then d.backup else d.state)
      && (fate in {Refused, WriteFails, RenameToBackupFails} ==> e.state == d.state && e.backup == d.backup)
  {
  }

  /** Two stored documents are on the disk: when STATE is damaged, the one before it is restored. */
  lemma DamageFallsBack(d: Directory, doc: Document, next: Document, damaged: Directory)
    requires var e := Reached(Reached(d, doc, Succeeds), next, Succeeds); damaged == e.(state := Corrupt)
    ensures Load(damaged) == Some(doc)
  {
  }

  // ------------------------------------------------------------ runs of saves

  datatype Save = Save(doc: Document, fate: Fate)

  /** The directory of the running system after the saves. */
  function After(d: Directory, saves: seq<Save>): Directory {
    if saves == [] then d
    else var last := saves[|saves| - 1]; Reached(After(d, saves[..|saves| - 1]), last.doc, last.fate)
  }

  /** Every directory the disk may keep after saves of which none was stored, begun when it held `d`. */
  function Window(d: Directory, saves: seq<Save>): seq<Directory> {
    if saves == [] then [d]
    else
      var last, init := saves[|saves| - 1], saves[..|saves| - 1];
      Window(d, init) + Passing(After(d, init), last.doc, last.fate)
  }

  /** No save of the run was stored. */
  predicate NoneStored(saves: seq<Save>) {
    forall k | 0 <= k < |saves| :: saves[k].fate != Succeeds
  }

  function Loadable(window: seq<Directory>): set<Option<Document>> {
    set k | 0 <= k < |window| :: Load(window[k])
  }

  /** The documents whose save failed only at the directory fsync. */
  function Unsynced(saves: seq<Save>): set<Option<Document>> {
    set k | 0 <= k < |saves| && saves[k].fate == SyncFails :: Some(saves[k].doc)
  }

  lemma {:induction false} WindowEnds(d: Directory, saves: seq<Save>)
    ensures Window(d, saves) != [] && Window(d, saves)[|Window(d, saves)| - 1] == After(d, saves)
  {
    if saves != [] {
      var last, init := saves[|saves| - 1], saves[..|saves| - 1];
      WindowEnds(d, init);
      ReachedIsLast(After(d, init), last.doc, last.fate);
    }
  }

  lemma {:induction false} AfterIsSound(d: Directory, saves: seq<Save>)
    requires !d.state.Corrupt?
    ensures !After(d, saves).state.Corrupt?
  {
    if saves != [] {
      var last, init := saves[|saves| - 1], saves[..|saves| - 1];
      AfterIsSound(d, init);
      SaveIsSafe(After(d, init), last.doc, last.fate);
    }
  }

  lemma UnsyncedStep(saves: seq<Save>)
    requires saves != []
    ensures var last, init := saves[|saves| - 1], saves[..|saves| - 1];
      Unsynced(saves) == Unsynced(init) + if last.fate == SyncFails then {Some(last.doc)} else {}
  {
    var last, init := saves[|saves| - 1], saves[..|saves| - 1];
    forall x | x in Unsynced(init) ensures x in Unsynced(saves) {
      var k :| 0 <= k < |init| && init[k].fate == SyncFails && x == Some(init[k].doc);
      assert saves[k] == init[k];
    }
    forall x | x in Unsynced(saves) ensures x in Unsynced(init) + if last.fate == SyncFails then {Some(last.doc)} else {} {
      var k :| 0 <= k < |saves| && saves[k].fate == SyncFails && x == Some(saves[k].doc);
      assert k < |init| ==> init[k] == saves[k];
    }
  }

  lemma LoadableAppends(window: seq<Directory>, more: seq<Directory>)
    ensures Loadable(window + more) == Loadable(window) + Loadable(more)
  {
    forall x | x in Loadable(window) + Loadable(more) ensures x in Loadable(window + more) {
      if x in Loadable(window) {
        var k :| 0 <= k < |window| && x == Load(window[k]);
        assert (window + more)[k] == window[k];
      } else {
        var k :| 0 <= k < |more| && x == Load(more[k]);
        assert (window + more)[|window| + k] == more[k];
      }
    }
  }

  lemma PassingLoads(d: Directory, doc: Document, fate: Fate)
    requires !d.state.Corrupt? && fate != Succeeds
    ensures Loadable(Passing(d, doc, fate)) <= {Load(d), Some(doc)}
    ensures Some(doc) in Loadable(Passing(d, doc, fate)) <== fate == SyncFails
    ensures fate != SyncFails ==> Loadable(Passing(d, doc, fate)) <= {Load(d)}
  {
    SaveIsSafe(d, doc, fate);
    var passing := Passing(d, doc, fate);
    if fate == SyncFails {
      assert Load(passing[|passing| - 1]) == Some(doc);
    }
  }

  /** What a power failure may bring back after a run of saves of which none was stored: the document that
    * was loadable before the run, or any whose save failed only at the directory fsync, and no other. */
  lemma {:induction false} WhatMayComeBack(d: Directory, saves: seq<Save>)
    requires !d.state.Corrupt? && NoneStored(saves)
    ensures Loadable(Window(d, saves)) == {Load(d)} + Unsynced(saves)
  {
    if saves == [] {
      assert Loadable([d]) == {Load(d)} by {
        assert Load([d][0]) in Loadable([d]);
      }
    } else {
      var last, init := saves[|saves| - 1], saves[..|saves| - 1];
      var passing := Passing(After(d, init), last.doc, last.fate);
      WhatMayComeBack(d, init);
      WindowEnds(d, init);
      AfterIsSound(d, init);
      assert Load(After(d, init)) in Loadable(Window(d, init));
      PassingLoads(After(d, init), last.doc, last.fate);
      LoadableAppends(Window(d, init), passing);
      UnsyncedStep(saves);
    }
  }

  /** Each document is newer than what was loadable when its save began, as the generation counter makes
    * it, also across restarts of the process. */
  ghost predicate Rising(d: Directory, saves: seq<Save>) {
    forall k | 0 <= k < |saves| ::
      var before := Load(After(d, saves[..k]));
      before.Some? ==> before.value.generation < saves[k].doc.generation
  }

  predicate NotOlder(a: Option<Document>, b: Option<Document>) {
    a.Some? ==> b.Some? && a.value.generation <= b.value.generation
  }

  lemma {:induction false} LoadsRise(d: Directory, saves: seq<Save>, i: nat, k: nat)
    requires !d.state.Corrupt? && Rising(d, saves) && i <= k <= |saves|
    ensures NotOlder(Load(After(d, saves[..i])), Load(After(d, saves[..k])))
    decreases k
  {
    if i < k {
      LoadsRise(d, saves, i, k - 1);
      AfterIsSound(d, saves[..k - 1]);
      assert saves[..k][..k - 1] == saves[..k - 1] && saves[..k][k - 1] == saves[k - 1];
      SaveIsSafe(After(d, saves[..k - 1]), saves[k - 1].doc, saves[k - 1].fate);
    }
  }

  /** A document whose fsync failed is what loads right after its save. */
  lemma UnsyncedLoads(d: Directory, saves: seq<Save>, k: nat)
    requires !d.state.Corrupt? && k < |saves| && saves[k].fate == SyncFails
    ensures Load(After(d, saves[..k + 1])) == Some(saves[k].doc)
  {
    AfterIsSound(d, saves[..k]);
    assert saves[..k + 1][..k] == saves[..k] && saves[..k + 1][k] == saves[k];
    SaveIsSafe(After(d, saves[..k]), saves[k].doc, saves[k].fate);
  }

  ghost predicate LastOrNewest(d: Directory, saves: seq<Save>)
    requires saves != []
  {
    forall k | 0 <= k < |Window(d, saves)| :: Load(Window(d, saves)[k]) in {Load(d), Some(saves[|saves| - 1].doc)}
  }

  predicate EarlierSyncsFine(saves: seq<Save>) {
    forall k | 0 <= k < |saves| - 1 :: saves[k].fate != SyncFails
  }

  /** Crash safety of a run. From a directory whose STATE is absent or verifies, after any saves since the
    * last stored one, stopped at any points, every directory the disk may keep restores the last stored
    * document or the one being written exactly when no earlier save of the run had failed at its
    * directory fsync. */
  lemma LastOrNewestExactly(d: Directory, saves: seq<Save>)
    requires !d.state.Corrupt? && saves != [] && NoneStored(saves) && Rising(d, saves)
    ensures LastOrNewest(d, saves) <==> EarlierSyncsFine(saves)
  {
    WhatMayComeBack(d, saves);
    var window, n := Window(d, saves), |saves| - 1;
    if EarlierSyncsFine(saves) {
      forall k | 0 <= k < |window| ensures Load(window[k]) in {Load(d), Some(saves[n].doc)} {
        assert Load(window[k]) in Loadable(window);
      }
    } else {
      var j :| 0 <= j < n && saves[j].fate == SyncFails;
      ThirdDocument(d, saves, j);
    }
  }

  lemma ThirdDiffers(d: Directory, saves: seq<Save>, j: nat)
    requires !d.state.Corrupt? && Rising(d, saves) && j < |saves| - 1 && saves[j].fate == SyncFails
    ensures Some(saves[j].doc) != Load(d) && saves[j].doc != saves[|saves| - 1].doc
  {
    UnsyncedLoads(d, saves, j);
    LoadsRise(d, saves, 0, j);
    LoadsRise(d, saves, j + 1, |saves| - 1);
    assert saves[..0] == [];
  }

  /** A document whose fsync failed, and that was not the last, is a third one that may come back. */
  lemma ThirdDocument(d: Directory, saves: seq<Save>, j: nat)
    requires !d.state.Corrupt? && NoneStored(saves) && Rising(d, saves)
    requires j < |saves| - 1 && saves[j].fate == SyncFails
    ensures !LastOrNewest(d, saves)
  {
    ThirdDiffers(d, saves, j);
    WhatMayComeBack(d, saves);
    assert Some(saves[j].doc) in Loadable(Window(d, saves));
    ComesBack(Window(d, saves), Some(saves[j].doc), Load(d), Some(saves[|saves| - 1].doc));
  }

  lemma ComesBack(window: seq<Directory>, doc: Option<Document>, first: Option<Document>, last: Option<Document>)
    requires doc in Loadable(window) && doc != first && doc != last
    ensures exists k :: 0 <= k < |window| && Load(window[k]) !in {first, last}
  {
    var k :| 0 <= k < |window| && doc == Load(window[k]);
  }

  /** Whatever comes back is not older than what was loadable before the run. */
  lemma NothingOlder(d: Directory, saves: seq<Save>, k: nat)
    requires !d.state.Corrupt? && NoneStored(saves) && Rising(d, saves) && k < |Window(d, saves)|
    ensures NotOlder(Load(d), Load(Window(d, saves)[k]))
  {
    WhatMayComeBack(d, saves);
    assert Load(Window(d, saves)[k]) in Loadable(Window(d, saves));
    if Load(Window(d, saves)[k]) != Load(d) {
      var j :| 0 <= j < |saves| && saves[j].fate == SyncFails && Load(Window(d, saves)[k]) == Some(saves[j].doc);
      UnsyncedLoads(d, saves, j);
      LoadsRise(d, saves, 0, j + 1);
      assert saves[..0] == [];
    }
  }

  // ------------------------------------------------------------ the state manager

  class PiStateManager {
    var dir: Directory
    var generation: nat
    ghost var window: seq<Directory>
    /** What the disk is known to hold, and the saves since. */
    ghost var base: Directory
    ghost var saves: seq<Save>

    /** The last document a save reported as stored, or that a load restored after a power failure. */
    ghost function Committed(): Option<Document>
      reads `base
    {
      Load(base)
    }

    ghost predicate Valid()
      reads this
    {
      && !base.state.Corrupt? && NoneStored(saves) && Rising(base, saves)
      && window == Window(base, saves) && dir == After(base, saves)
      && (Load(dir).Some? ==> Load(dir).value.generation <= generation)
    }

    /** An empty directory, or one whose STATE verifies. */
    constructor (found: Directory)
      requires !found.state.Corrupt?
      ensures Valid() && dir == base == found && saves == []
      ensures generation == if Load(found).Some? then Load(found).value.generation else 0
    {
      dir, base, saves, window := found, found, [], [found];
      generation := if Load(found).Some? then Load(found).value.generation else 0;
    }

    method Become(d: Directory)
      modifies `dir, `window
      ensures dir == d && window == old(window) + [d]
    {
      dir, window := d, window + [d];
    }

    /** The file operations of a save, up to the point where it stops. */
    method Write(doc: Document, fate: Fate)
      requires fate != Refused
      modifies `dir, `window
      ensures dir == Reached(old(dir), doc, fate)
      ensures window == old(window) + Passing(old(dir), doc, fate)
    {
      Become(dir.(temp := Corrupt));
      if fate == WriteFails {
        return;
      }
      Become(dir.(temp := Good(doc)));
      if fate == RenameToBackupFails {
        return;
      }
      if !dir.state.Missing? {
        Become(dir.(backup := dir.state, state := Missing));
      }
      if fate == RenameFails {
        return;
      }
      Become(dir.(state := dir.temp, temp := Missing));
    }

    /** The save is on the disk: nothing older can come back. */
    ghost method Stored()
      requires !dir.state.Corrupt? && (Load(dir).Some? ==> Load(dir).value.generation <= generation)
      modifies `base, `saves, `window
      ensures Valid() && base == dir && saves == []
    {
      base, saves, window := dir, [], [dir];
    }

    /** The save failed: it joins the run. */
    ghost method Joined(save: Save)
      requires !base.state.Corrupt? && NoneStored(saves) && Rising(base, saves) && save.fate != Succeeds
      requires Load(After(base, saves)).Some? ==> Load(After(base, saves)).value.generation < save.doc.generation
      requires save.doc.generation == generation
      requires dir == Reached(After(base, saves), save.doc, save.fate)
      requires window == Window(base, saves) + Passing(After(base, saves), save.doc, save.fate)
      modifies `saves
      ensures Valid() && saves == old(saves) + [save]
    {
      AfterIsSound(base, saves);
      SaveIsSafe(After(base, saves), save.doc, save.fate);
      Joins(base, saves, save);
      saves := saves + [save];
    }

    /** _flush_to_disk. A stored document is the only one that can come back; a failed save joins the run,
      * and may leave the new document in place, or BACKUP only. */
    method FlushToDisk(body: nat, fate: Fate) returns (ok: bool)
      requires Valid()
      modifies this
      ensures Valid() && (ok <==> fate == Succeeds)
      ensures generation == old(generation) + (if fate == Refused then 0 else 1)
      ensures dir == Reached(old(dir), Document(generation, body), fate)
      ensures ok ==> base == dir && saves == [] && Committed() == Some(Document(generation, body))
      ensures !ok ==> base == old(base)
      ensures !ok ==> saves == if fate == Refused then old(saves) else old(saves) + [Save(Document(generation, body), fate)]
      ensures !ok ==> window == old(window) + Passing(old(dir), Document(generation, body), fate)
    {
      if fate == Refused {
        return false;
      }
      generation := generation + 1;
      var doc := Document(generation, body);
      AfterIsSound(base, saves);
      SaveIsSafe(dir, doc, fate);
      Write(doc, fate);
      ok := fate == Succeeds;
      if ok {
        Stored();
      } else {
        Joined(Save(doc, fate));
      }
    }

    lemma MayComeBack(kept: nat)
      requires Valid() && kept < |window|
      ensures !window[kept].state.Corrupt?
      ensures Load(window[kept]) in {Committed()} + Unsynced(saves)
      ensures NotOlder(Committed(), Load(window[kept]))
      ensures saves != [] && EarlierSyncsFine(saves) ==> Load(window[kept]) in {Committed(), Some(saves[|saves| - 1].doc)}
    {
      CrashSafety();
      NothingOlder(base, saves, kept);
      assert Load(window[kept]) in Loadable(window);
      WindowIsSound(base, saves, kept);
    }

    /** The power fails, also in the middle of a save, which is a save that fails there: the disk keeps one
      * directory of the window, and the next process loads from it. What comes back is the last stored
      * document or one whose save failed only at the directory fsync, and is not older than the former. */
    method PowerFailure(ghost kept: nat, found: Directory) returns (loaded: Option<Document>)
      requires Valid() && kept < |window| && found == window[kept]
      modifies this
      ensures Valid() && dir == base == found && saves == [] && loaded == Committed()
      ensures generation == if loaded.Some? then loaded.value.generation else 0
      ensures loaded in {old(Committed())} + Unsynced(old(saves))
      ensures NotOlder(old(Committed()), loaded)
      ensures old(saves) != [] && EarlierSyncsFine(old(saves)) ==>
        loaded in {old(Committed()), Some(old(saves)[|old(saves)| - 1].doc)}
    {
      MayComeBack(kept);
      loaded := LoadState(found);
      dir, base, saves, window := found, found, [], [found];
      generation := if loaded.Some? then loaded.value.generation else 0;
    }

    /** At any time: what a power failure may bring back, and that it is the last stored document or the
      * one being written exactly when no earlier save since had failed at its directory fsync. */
    lemma CrashSafety()
      requires Valid()
      ensures Loadable(window) == {Committed()} + Unsynced(saves)
      ensures saves != [] ==>
        ((forall k | 0 <= k < |window| :: Load(window[k]) in {Committed(), Some(saves[|saves| - 1].doc)})
          <==> EarlierSyncsFine(saves))
    {
      WhatMayComeBack(base, saves);
      if saves != [] {
        LastOrNewestExactly(base, saves);
      }
    }

    lemma CurrentIsLast()
      requires Valid()
      ensures window != [] && window[|window| - 1] == dir
    {
      WindowEnds(base, saves);
    }

    lemma CommittedIsOld()
      requires Valid()
      ensures NotOlder(Committed(), Load(dir))
      ensures Committed().Some? ==> Committed().value.generation <= generation
    {
      assert saves[..0] == [] && saves[..|saves|] == saves;
      LoadsRise(base, saves, 0, |saves|);
    }

    /** The process restarts while the power stays on: it loads from the current directory, and what the
      * disk may hold is as before. */
    method Restart() returns (loaded: Option<Document>)
      requires Valid()
      modifies `generation
      ensures Valid() && loaded == Load(dir)
      ensures generation == if loaded.Some? then loaded.value.generation else 0
      ensures NotOlder(Committed(), loaded)
    {
      CommittedIsOld();
      loaded := LoadState(dir);
      generation := if loaded.Some? then loaded.value.generation else 0;
    }
  }

  lemma Joins(d: Directory, saves: seq<Save>, save: Save)
    requires Rising(d, saves)
    requires Load(After(d, saves)).Some? ==> Load(After(d, saves)).value.generation < save.doc.generation
    ensures Rising(d, saves + [save])
    ensures After(d, saves + [save]) == Reached(After(d, saves), save.doc, save.fate)
    ensures Window(d, saves + [save]) == Window(d, saves) + Passing(After(d, saves), save.doc, save.fate)
  {
    var longer := saves + [save];
    assert longer[..|saves|] == saves;
    forall k | 0 <= k < |longer|
      ensures var before := Load(After(d, longer[..k])); before.Some? ==> before.value.generation < longer[k].doc.generation
    {
      assert k < |saves| ==> longer[..k] == saves[..k] && longer[k] == saves[k];
    }
  }

  lemma {:induction false} WindowIsSound(d: Directory, saves: seq<Save>, k: nat)
    requires !d.state.Corrupt? && k < |Window(d, saves)|
    ensures !Window(d, saves)[k].state.Corrupt?
  {
    if saves != [] {
      var last, init := saves[|saves| - 1], saves[..|saves| - 1];
      if k < |Window(d, init)| {
        WindowIsSound(d, init, k);
      } else {
        AfterIsSound(d, init);
      }
    }
  }

  /** The directory after one save that fails at its fsync and one that fails between its renames. */
  lemma BetweenRenames(d: Directory, first: Document, second: Document)
    ensures var e := Reached(d, first, SyncFails);
      && e.state == Good(first)
      && Load(Reached(e, second, RenameFails)) == Some(first)
  {
  }

  method FailOnce(m: PiStateManager, body: nat, fate: Fate)
    requires m.Valid() && fate != Succeeds && fate != Refused
    modifies m
    ensures m.Valid() && m.base == old(m.base) && m.generation == old(m.generation) + 1
    ensures m.dir == Reached(old(m.dir), Document(old(m.generation) + 1, body), fate)
  {
    var ok := m.FlushToDisk(body, fate);
  }

  method FailTwice(m: PiStateManager, body: nat, next: nat)
    requires m.Valid()
    modifies m
    ensures m.Valid() && m.base == old(m.base) && m.generation == old(m.generation) + 2
    ensures Load(m.dir) == Some(Document(old(m.generation) + 1, body))
  {
    BetweenRenames(m.dir, Document(m.generation + 1, body), Document(m.generation + 2, next));
    FailOnce(m, body, SyncFails);
    FailOnce(m, next, RenameFails);
  }

  /** A failed save is not undone. Whatever was stored: when one save fails at its directory fsync and the
    * next one between its two renames, the power failure may restore neither the last stored document
    * nor the one being written, but the one between them. */
  method FailedSaveReappears(m: PiStateManager, body: nat, next: nat) returns (loaded: Option<Document>)
    requires m.Valid()
    modifies m
    ensures m.Valid() && loaded == Some(Document(old(m.generation) + 1, body))
    ensures loaded != old(m.Committed()) && loaded != Some(Document(old(m.generation) + 2, next))
  {
    m.CommittedIsOld();
    FailTwice(m, body, next);
    m.CurrentIsLast();
    loaded := m.PowerFailure(|m.window| - 1, m.dir);
  }
}
