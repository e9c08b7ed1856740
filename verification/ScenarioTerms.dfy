/** What the workshop commands look at, said of names, sizes, modes and bytes: which names and trees can be captured,
    when a reset makes an archive and what it puts there, which attempts resume accepts, and when a record is
    active. */
module ScenarioTerms {
  import opened Options
  import opened Workspaces
  import opened Scenarios
  import opened ScenarioSafety
  import opened ScenarioWork
  import Workshops

  // ----- Names and sizes -------------------------------------------------------------------------------

  /** A name is safe when it is not empty, nor the directory itself or the one above, and is made of the letters from a
      to z, small or capital, of digits, and of the full stop, the underscore and the hyphen. */
  lemma SafeNameIs(name: string)
    ensures SafeName(name)
            <==> |name| > 0 && name != "." && name != ".."
                 && forall i | 0 <= i < |name| ::
                      var c := name[i] as int;
                      97 <= c <= 122 || 65 <= c <= 90 || 48 <= c <= 57 || c == 46 || c == 95 || c == 45
  {
    forall i | 0 <= i < |name|
      ensures var c := name[i] as int;
              SafeChar(name[i])
              <==> 97 <= c <= 122 || 65 <= c <= 90 || 48 <= c <= 57 || c == 46 || c == 95 || c == 45
    {
      CodeIs(name[i]);
    }
    hide SafeChar;
  }

  lemma CodeIs(x: char)
    ensures var c := x as int;
            SafeChar(x) <==> 97 <= c <= 122 || 65 <= c <= 90 || 48 <= c <= 57 || c == 46 || c == 95 || c == 45
  {
  }

  /** The name of an exercise file is safe. */
  lemma ExerciseNameIsSafe()
    ensures SafePath(["src", "order_book.py"])
  {
    SafeNameIs("src");
    SafeNameIs("order_book.py");
    var p := ["src", "order_book.py"];
    assert forall i | 0 <= i < |p| :: p[i] == "src" || p[i] == "order_book.py";
  }

  /** The sizes of the files of a tree add up, in whatever order they are taken. */
  lemma SizesAdd(t: Tree, paths: set<Path>, p: Path)
    requires p in paths && p in t
    ensures TotalBytes(t, paths)
            == (if t[p].File? then |t[p].data| else 0) + TotalBytes(t, paths - {p})
    ensures TotalBytes(t, {}) == 0
  {
    Workshops.TotalWithout(t, paths, p);
  }

  /** No file above 2 MiB, and no more than 20 MiB in all. */
  predicate WithinSizes(t: Tree, paths: set<Path>, total: nat) {
    && (forall p | p in paths && p in t && t[p].File? :: |t[p].data| <= 2_097_152)
    && total <= 20_971_520
  }

  lemma FitsIs(t: Tree, paths: set<Path>)
    ensures FitsArchive(t, paths) <==> WithinSizes(t, paths, TotalBytes(t, paths))
  {
    hide TotalBytes;
    if WithinSizes(t, paths, TotalBytes(t, paths)) {
      forall p | p in paths
        ensures BytesAt(t, p) <= MAX_FILE_BYTES
      {
      }
    }
    if FitsArchive(t, paths) {
      forall p | p in paths && p in t && t[p].File?
        ensures |t[p].data| <= 2_097_152
      {
        assert BytesAt(t, p) <= MAX_FILE_BYTES;
      }
    }
  }

  /** A tree can be captured when it is a directory of at most 200 entries, each a plain file or a directory with a
      safe path and no special mode bits, and its files are small enough. */
  lemma CapturableIs(t: Tree)
    ensures Capturable(t)
            <==> && IsTree(t) && t[[]].Dir? && |t.Keys| <= 201
                 && (forall p | p in t :: SafePath(p) && (t[p].Dir? || t[p].File?) && t[p].mode < 0x200)
                 && WithinSizes(t, t.Keys, TotalBytes(t, t.Keys))
  {
    FitsIs(t, t.Keys);
    hide FitsArchive, WithinSizes, SafePath, IsTree;
    if Capturable(t) {
      forall p | p in t
        ensures SafePath(p) && (t[p].Dir? || t[p].File?) && t[p].mode < 0x200
      {
        assert Storable(p, t[p]);
      }
    }
  }

  /** A directory can be set aside when it has at most 200 entries, none of an odd kind, and small enough files. */
  lemma HashableIs(t: Tree)
    ensures Hashable(t)
            <==> && |t.Keys| <= 201 && (forall p | p in t :: !t[p].Odd?)
                 && WithinSizes(t, t.Keys, TotalBytes(t, t.Keys))
  {
    FitsIs(t, t.Keys);
    hide FitsArchive, WithinSizes;
  }

  // ----- Archives --------------------------------------------------------------------------------------

  /** The target is in its place as it was staged: a file with its bytes and, but for special bits, its mode. */
  predicate InPlace(t: Tree, target: Target) {
    && target.path in t && t[target.path].File?
    && target.staged == Some(File(t[target.path].mode % 512, t[target.path].data))
  }

  lemma InPlaceIs(t: Tree, target: Target)
    ensures StatusOf(t, target) == Unchanged <==> InPlace(t, target)
  {
  }

  /** An entry that copying files would lose: a link, one of an odd kind, or a directory with no target below it. */
  predicate Uncopyable(t: Tree, targets: seq<Target>, p: Path) {
    && p in t
    && (|| t[p].Link? || t[p].Odd?
        || (t[p].Dir? && p != [] && forall i | 0 <= i < |targets| :: !(p < targets[i].path)))
  }

  /** What copying the changed files would not keep: the work directory is none, an entry would be lost, the
      changed files are more than 200, or they are too large. */
  predicate NeedsMove(t: Tree, targets: seq<Target>, changed: set<Path>, total: nat) {
    || [] !in t || !t[[]].Dir?
    || (exists p | p in t :: Uncopyable(t, targets, p))
    || |changed| > 200 || !WithinSizes(t, changed, total)
  }

  lemma NeedsMoveIs(t: Tree, targets: seq<Target>)
    ensures var changed := ChangedFiles(t, targets);
            MovesWhole(t, targets) <==> NeedsMove(t, targets, changed, TotalBytes(t, changed))
  {
    FitsIs(t, ChangedFiles(t, targets));
    forall p | p in t
      ensures NeedsWholeTree(targets, p, t[p]) <==> Uncopyable(t, targets, p)
    {
    }
    hide FitsArchive, WithinSizes, ChangedFiles, TotalBytes, NeedsWholeTree, Uncopyable;
  }

  lemma ChangedIs(t: Tree, targets: seq<Target>, p: Path)
    ensures p in ChangedFiles(t, targets) <==> p in t && t[p].File? && !LooksStaged(t[p], targets, p)
  {
    if p in t && t[p].File? {
      UnchangedLooksStaged(t, targets, p);
    }
    hide IsUnchanged, LooksStaged;
  }

  /** A reset makes an archive unless nothing was ever moved, or everything is in its place: every target as it was
      staged, no file that was not, and nothing that copying could not keep. */
  lemma ArchiveWhen(fs: FS, r: Record, c: Choices)
    requires fs.state == Some(r) && Proper(fs, r, c)
    ensures c.id in Exec(fs, ResetOps(fs, r, c)).archives
            <==> !(!r.active && r.existed && !r.moved && fs.backup.None?)
                 && (|| (fs.work.Some? && MovesWhole(fs.work.value, r.targets))
                     || (exists p | p in Entries(fs.work) ::
                           Entries(fs.work)[p].File? && !LooksStaged(Entries(fs.work)[p], r.targets, p))
                     || (exists i | 0 <= i < |r.targets| :: !InPlace(Entries(fs.work), r.targets[i])))
  {
    var t := Entries(fs.work);
    SomethingArchived(fs, r, c);
    hide Proper, ResetOps, MovesWhole, LooksStaged, InPlace, ChangedFiles;
    forall p
      ensures p in c.copies <==> p in t && t[p].File? && !LooksStaged(t[p], r.targets, p)
    {
      ChangedIs(t, r.targets, p);
    }
    if c.copies != [] {
      assert c.copies[0] in c.copies;
    }
    AllInPlace(t, r.targets);
    hide AllUnchanged;
  }

  lemma AllInPlace(t: Tree, targets: seq<Target>)
    ensures AllUnchanged(t, targets) <==> forall i | 0 <= i < |targets| :: InPlace(t, targets[i])
  {
    forall i | 0 <= i < |targets|
      ensures StatusOf(t, targets[i]) == Unchanged <==> InPlace(t, targets[i])
    {
      InPlaceIs(t, targets[i]);
    }
    hide StatusOf, InPlace;
  }

  lemma SomethingArchived(fs: FS, r: Record, c: Choices)
    requires fs.state == Some(r) && Proper(fs, r, c)
    ensures c.id in Exec(fs, ResetOps(fs, r, c)).archives <==> Archives(fs, r, c)
    ensures forall p :: p in c.copies <==> p in ChangedFiles(Entries(fs.work), r.targets)
  {
    hide MovesWhole, ArchiveOps, ResetOps, AllUnchanged, Resets, Restorable, Untouched, ChangedFiles;
    ResetEnds(fs, r, c, |ResetOps(fs, r, c)| + |ArchiveOps(fs, r, c.id, c.copies)|);
    if Archives(fs, r, c) {
      ArchiveHolds(fs, r, c);
    } else {
      NoArchive(fs, r, c);
    }
  }

  /** A finished archive holds the whole tree if copying could not keep it, and otherwise the files that are not as they
      were staged, and no others. */
  lemma ArchivedFiles(fs: FS, r: Record, c: Choices, p: Path)
    requires fs.state == Some(r) && fs.work.Some? && Proper(fs, r, c) && Archives(fs, r, c)
    ensures var t, fs' := fs.work.value, Exec(fs, ResetOps(fs, r, c));
            && c.id in fs'.archives
            && (p in fs'.archives[c.id].tree
                <==> p in t && (MovesWhole(t, r.targets) || (t[p].File? && !LooksStaged(t[p], r.targets, p))))
            && (p in fs'.archives[c.id].tree ==> fs'.archives[c.id].tree[p] == t[p])
  {
    hide MovesWhole, ArchiveOps, ResetOps, AllUnchanged, Resets, Restorable, Untouched, ChangedFiles, LooksStaged;
    ChangedIs(fs.work.value, r.targets, p);
    ArchiveHolds(fs, r, c);
    ResetEnds(fs, r, c, |ResetOps(fs, r, c)| + |ArchiveOps(fs, r, c.id, c.copies)|);
  }

  // ----- What resume accepts ---------------------------------------------------------------------------

  /** The bytes of a file are in the archive, as a file; or the archive has no such entry and the pristine payload of
      that path has them. */
  predicate Offered(a: Archive, def: seq<Item>, p: Path, data: Bytes) {
    || (p in a.tree && a.tree[p].File? && a.tree[p].data == data)
    || (p !in a.tree && exists i | 0 <= i < |def| :: def[i].target == p && def[i].data == data)
  }

  /** An attempt is accepted when no scenario is recorded and the archive describes it as complete, within the size that
      is read, for this definition with these payloads, as a tree that can be captured with every directory open to
      its owner, and the bytes of all its files are on offer. */
  lemma MayResumeIs(fs: FS, def: seq<Item>, id: nat)
    ensures MayResume(fs, def, id)
            <==> && fs.state.None? && id in fs.archives && fs.archives[id].meta.Some?
                 && var m := fs.archives[id].meta.value;
                    && !m.blocked && MetaBytes(fs.scenario, m) <= 262_144 && Capturable(m.inventory)
                    && (forall p | p in m.inventory && m.inventory[p].Dir? :: 0x1C0 <= m.inventory[p].mode % 0x200)
                    && |m.terms| == |def| == |m.baseline|
                    && (forall i | 0 <= i < |def| ::
                          m.terms[i] == (def[i].target, def[i].mode)
                          && m.baseline[i] == Target(def[i].target, Some(File(def[i].mode, def[i].data))))
                    && (forall p | p in m.inventory && m.inventory[p].File? ::
                          Offered(fs.archives[id], def, p, m.inventory[p].data))
  {
    if id in fs.archives && fs.archives[id].meta.Some? {
      var m := fs.archives[id].meta.value;
      OpenIs(m.inventory);
      SameDefinition(m, def);
      hide Capturable, OpenToOwner, MetaBytes, Available, Offered;
      forall p, data
        ensures Available(fs.archives[id], def, p, data) <==> Offered(fs.archives[id], def, p, data)
      {
        AvailableIs(fs.archives[id], def, p, data);
      }
    }
  }

  lemma AvailableIs(a: Archive, def: seq<Item>, p: Path, data: Bytes)
    ensures Available(a, def, p, data) <==> Offered(a, def, p, data)
  {
  }

  lemma OpenIs(t: Tree)
    ensures OpenToOwner(t) <==> forall p | p in t && t[p].Dir? :: 0x1C0 <= t[p].mode % 0x200
  {
    forall p | p in t && t[p].Dir?
      ensures OwnerAccess(t[p].mode) <==> 0x1C0 <= t[p].mode % 0x200
    {
      OwnerBits(t[p].mode);
    }
    hide OwnerAccess;
  }

  lemma OwnerBits(mode: nat)
    ensures OwnerAccess(mode) <==> 0x1C0 <= mode % 0x200
  {
    var q, r := mode / 0x200, mode % 0x200;
    assert mode == 0x200 * q + r;
    assert mode / 64 == 8 * q + r / 64;
  }

  lemma SameDefinition(m: Meta, def: seq<Item>)
    ensures m.terms == Terms(def) && m.baseline == Staged(def)
            <==> |m.terms| == |def| == |m.baseline|
                 && (forall i | 0 <= i < |def| ::
                       m.terms[i] == (def[i].target, def[i].mode)
                       && m.baseline[i] == Target(def[i].target, Some(File(def[i].mode, def[i].data))))
  {
    var terms, staged := Terms(def), Staged(def);
    hide Terms, Staged;
    if |m.terms| == |def| == |m.baseline|
       && forall i | 0 <= i < |def| ::
            m.terms[i] == (def[i].target, def[i].mode)
            && m.baseline[i] == Target(def[i].target, Some(File(def[i].mode, def[i].data))) {
      assert m.terms == terms by { TermsAre(def); }
      assert m.baseline == staged;
    } else {
      TermsAre(def);
    }
  }

  lemma TermsAre(def: seq<Item>)
    ensures |Terms(def)| == |def| && forall i | 0 <= i < |def| :: Terms(def)[i] == (def[i].target, def[i].mode)
  {
  }

  // ----- When a record is active -----------------------------------------------------------------------

  predicate Inactive(state: Option<Record>) {
    state.Some? ==> !state.value.active
  }

  predicate SavesInactive(ops: seq<Op>) {
    forall i | 0 <= i < |ops| && ops[i].SaveState? :: !ops[i].record.active
  }

  lemma {:induction false} ExecInactive(fs: FS, ops: seq<Op>)
    requires Inactive(fs.state) && SavesInactive(ops)
    ensures Inactive(Exec(fs, ops).state)
    decreases |ops|
  {
    if ops != [] {
      ExecInactive(Do(fs, ops[0]), ops[1..]);
    }
  }

  lemma WorkOnlySavesNothing(ops: seq<Op>)
    requires AllWorkOnly(ops)
    ensures SavesInactive(ops)
  {
  }

  /** Of the steps of a start only the last may save an active record. */
  lemma StartSaves(fs: FS, def: seq<Item>, active: bool, name: string)
    requires ValidDef(def)
    ensures var ops := StartOps(fs, def, active, name);
            && SavesInactive(if ops == [] then ops else ops[..|ops| - 1]) && (!active ==> SavesInactive(ops))
  {
    var ops := StartOps(fs, def, active, name);
    if Starts(fs) {
      var stage := StageOps(Exec(fs, PreserveOps(fs, def)), def, name);
      StageWorkOnly(Exec(fs, PreserveOps(fs, def)), def, name);
      WorkOnlySavesNothing(stage);
      PreserveSaves(fs, def);
      hide PreserveOps, StageOps, StartOps, Starts, MayStart;
      assert ops == PreserveOps(fs, def) + stage + [SaveState(LastRecord(fs, def, active))];
      assert ops[..|ops| - 1] == PreserveOps(fs, def) + stage;
    } else {
      PreserveSaves(fs, def);
    }
  }

  lemma PreserveSaves(fs: FS, def: seq<Item>)
    ensures SavesInactive(PreserveOps(fs, def))
  {
  }

  /** A start or a resume that is cut before its last step leaves no active record. */
  lemma ActiveAtTheEnd(fs: FS, def: seq<Item>, active: bool, name: string, k: nat)
    requires fs.state.None? && ValidDef(def) && k < |StartOps(fs, def, active, name)|
    ensures Inactive(Crashed(fs, StartOps(fs, def, active, name), k).state)
  {
    var ops := StartOps(fs, def, active, name);
    StartSaves(fs, def, active, name);
    assert forall i | 0 <= i < k :: ops[i] == ops[..|ops| - 1][i];
    ExecInactive(fs, ops[..k]);
  }

  lemma JoinedSaves(a: seq<Op>, b: seq<Op>, last: Op)
    requires SavesInactive(a) && SavesInactive(b)
    ensures var ops := a + (b + [last]); ops[..|ops| - 1] == a + b && SavesInactive(a + b)
  {
  }

  lemma ResumeSaves(fs: FS, def: seq<Item>, id: nat, name: string, removal: seq<Path>, build: seq<Path>)
    requires ValidDef(def) && MayResume(fs, def, id) && ProperResume(fs, def, id, name, removal, build)
    ensures var ops := ResumeOps(fs, def, id, name, removal, build);
            SavesInactive(if ops == [] then ops else ops[..|ops| - 1])
  {
    hide RebuildOps, StartOps, ResumeOps, ProperResume, SavesInactive, Loadable, MetaBytes, Available;
    var start := StartOps(fs, def, false, name);
    StartSaves(fs, def, false, name);
    if Starts(fs) {
      ResumeIs(fs, def, id, name, removal, build);
      RebuildSaves(fs, def, id, name, removal, build);
      JoinedSaves(start, RebuildOps(Exec(fs, start), fs.archives[id].meta.value.inventory, name, removal, build),
          SaveState(LastRecord(fs, def, true)));
    } else {
      GivesUp(fs, def, id, name, removal, build);
      FewerSaves(start);
    }
  }

  lemma FewerSaves(ops: seq<Op>)
    requires SavesInactive(ops)
    ensures SavesInactive(if ops == [] then ops else ops[..|ops| - 1])
  {
  }

  lemma RebuildSaves(fs: FS, def: seq<Item>, id: nat, name: string, removal: seq<Path>, build: seq<Path>)
    requires ValidDef(def) && MayResume(fs, def, id)
    requires forall i | 0 <= i < |build| :: build[i] in fs.archives[id].meta.value.inventory
    ensures SavesInactive(RebuildOps(Exec(fs, StartOps(fs, def, false, name)), fs.archives[id].meta.value.inventory,
                name, removal, build))
  {
    hide RebuildOps, StartOps;
    var fs1 := Exec(fs, StartOps(fs, def, false, name));
    RebuildWorkOnly(fs1, fs.archives[id].meta.value.inventory, name, removal, build);
    WorkOnlySavesNothing(RebuildOps(fs1, fs.archives[id].meta.value.inventory, name, removal, build));
  }

  lemma ResumedAtTheEnd(fs: FS, def: seq<Item>, id: nat, name: string, removal: seq<Path>, build: seq<Path>, k: nat)
    requires ValidDef(def) && MayResume(fs, def, id) && ProperResume(fs, def, id, name, removal, build)
    requires k < |ResumeOps(fs, def, id, name, removal, build)|
    ensures Inactive(Crashed(fs, ResumeOps(fs, def, id, name, removal, build), k).state)
  {
    var ops := ResumeOps(fs, def, id, name, removal, build);
    ResumeSaves(fs, def, id, name, removal, build);
    assert forall i | 0 <= i < k :: ops[i] == ops[..|ops| - 1][i];
    hide ResumeOps, ProperResume;
    ExecInactive(fs, ops[..k]);
  }

  // ----- A backup that is not the one set aside ----------------------------------------------------------

  /** A reset does not put back a directory that differs from the one whose hash was recorded, however far it gets: the
      backup and the record stay as they are. */
  lemma StrangeBackupStays(fs: FS, r: Record, c: Choices, k: nat)
    requires fs.state == Some(r) && Proper(fs, r, c) && r.existed && r.hash.Some?
    requires fs.backup.Some? && [] in fs.backup.value && fs.backup.value[[]].Dir? && fs.backup != r.hash
    ensures var fs' := Crashed(fs, ResetOps(fs, r, c), k); fs'.backup == fs.backup && fs'.state == fs.state
  {
    ArchiveCut(fs, r, c.id, c.copies, k);
    ArchiveCut(fs, r, c.id, c.copies, |ArchiveOps(fs, r, c.id, c.copies)|);
    assert !Resets(fs, r, c);
    hide ArchiveOps, Untouched;
  }
}
