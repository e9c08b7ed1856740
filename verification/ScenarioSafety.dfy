/** The lifecycle commands are crash-safe: over every run of starts, edits, resumes, resets and crashes the
    pre-start work directory survives, and a reset brings it back. */
module ScenarioSafety {
  import opened Options
  import opened Workspaces
  import opened Scenarios

  // ----- Where the pre-start directory is ------------------------------------------------------------

  ghost predicate InArchive(fs: FS, t: Tree) {
    exists id | id in fs.archives :: fs.archives[id].tree == t
  }

  /** The record tells the truth about the pre-start directory `pre`, and it is intact: in the backup, or in
      its place before it was moved, or, once a reset has begun, back in its place or moved to an archive. */
  ghost predicate Held(fs: FS, r: Record, pre: Option<Tree>, begun: bool) {
    && (r.existed <==> pre.Some?)
    && (pre.Some? ==> [] in pre.value && pre.value[[]].Dir?)
    && (r.moved ==> r.existed && r.hash == pre) && (!r.moved ==> r.hash.None?)
    && (r.active && r.existed ==> r.moved)
    && (!r.existed ==> fs.backup.None?)
    && (r.existed ==>
          || fs.backup == pre
          || (fs.backup.None? && !r.moved && fs.work == pre)
          || (fs.backup.None? && r.moved && begun && (fs.work == pre || InArchive(fs, pre.value))))
  }

  /** Either no scenario is recorded and nothing is left behind, or the record holds. */
  ghost predicate Sound(fs: FS, pre: Option<Tree>, begun: bool) {
    && fs.work != Some(map[])
    && (fs.state.None? ==> fs.backup.None?)
    && (fs.state.Some? ==> Held(fs, fs.state.value, pre, begun))
  }

  lemma {:induction false} ExecWorkProper(fs: FS, ops: seq<Op>)
    requires fs.work != Some(map[]) && AllWorkOnly(ops)
    ensures Exec(fs, ops).work != Some(map[])
    decreases |ops|
  {
    if ops != [] {
      ExecWorkProper(Do(fs, ops[0]), ops[1..]);
    }
  }

  // ----- Start and resume ------------------------------------------------------------------------------

  lemma {:induction false} MakeDirsWorkOnly(t: Tree, p: Path)
    ensures AllWorkOnly(MakeDirs(t, p))
    decreases |p|
  {
    if p !in t && p != [] {
      MakeDirsWorkOnly(t, Parent(p));
    }
  }

  lemma {:induction false} StageWorkOnly(fs: FS, def: seq<Item>, name: string)
    requires forall i | 0 <= i < |def| :: def[i].target != []
    ensures AllWorkOnly(StageOps(fs, def, name))
    decreases |def|
  {
    if def != [] {
      MakeDirsWorkOnly(Entries(fs.work), Parent(def[0].target));
      StageWorkOnly(Exec(fs, WriteOps(Entries(fs.work), def[0].target, File(def[0].mode, def[0].data), name)),
          def[1..], name);
    }
  }

  /** A stretch of operations on the work directory alone may be cut anywhere. */
  lemma WorkOnlyCut(fs: FS, ops: seq<Op>, pre: Option<Tree>, begun: bool, k: nat)
    requires AllWorkOnly(ops) && fs.state.Some? && Sound(fs, pre, begun)
    requires fs.backup == pre
    ensures var fs' := Crashed(fs, ops, k); Sound(fs', pre, begun) && fs' == fs.(work := fs'.work)
  {
    var cut := if k < |ops| then ops[..k] else ops;
    ExecWorkOnly(fs, cut);
    ExecWorkProper(fs, cut);
  }

  /** The steps up to staging, one by one. */
  lemma PreserveSteps(fs: FS, def: seq<Item>, k: nat)
    requires MayStart(fs) && fs.work != Some(map[])
    ensures Sound(Crashed(fs, PreserveOps(fs, def), k), fs.work, false)
    ensures var fs' := Crashed(fs, PreserveOps(fs, def), k); fs'.state.None? ==> fs' == fs
    ensures var fs' := Exec(fs, PreserveOps(fs, def));
            fs' == if Starts(fs) then fs.(work := None, backup := fs.work, state := Some(MovedRecord(fs, def))) else fs
  {
    hide Hashable;
    var ops := PreserveOps(fs, def);
    var fs1 := Do(fs, ops[0]);
    OneByOne(fs, ops, k);
    if fs.work.Some? {
      var fs2 := Do(fs1, ops[1]);
      OneByOne(fs1, ops[1..], k - 1);
      OneByOne(fs2, ops[1..][1..], k - 2);
      if !Starts(fs) {
        OneByOne(Do(fs2, ops[2]), ops[1..][1..][1..], k - 3);
      }
    }
  }

  /** A crash comes before the first step or after it. */
  lemma OneByOne(fs: FS, ops: seq<Op>, k: int)
    requires ops != []
    ensures k == 0 ==> Crashed(fs, ops, 0) == fs
    ensures k > 0 ==> Crashed(fs, ops, k) == Crashed(Do(fs, ops[0]), ops[1..], k - 1)
    ensures Exec(fs, ops) == Exec(Do(fs, ops[0]), ops[1..])
  {
    if 0 < k < |ops| {
      assert ops[..k][1..] == ops[1..][..k - 1];
    }
  }

  /** After a crash at any step of a start the pre-start directory is intact and the record knows where. */
  lemma StartCrash(fs: FS, def: seq<Item>, active: bool, name: string, k: nat)
    requires MayStart(fs) && fs.work != Some(map[]) && ValidDef(def)
    ensures var fs' := Crashed(fs, StartOps(fs, def, active, name), k);
            Sound(fs', fs.work, false) && fs'.archives == fs.archives && (fs'.state.None? ==> fs' == fs)
    ensures var fs' := Exec(fs, StartOps(fs, def, active, name));
            if Starts(fs) then fs'.state == Some(LastRecord(fs, def, active)) && fs'.backup == fs.work else fs' == fs
  {
    hide Hashable;
    var first := PreserveOps(fs, def);
    PreserveSteps(fs, def, k);
    PreserveArchives(fs, def, k);
    if Starts(fs) {
      var fs1 := Exec(fs, first);
      var stage, last := StageOps(fs1, def, name), [SaveState(LastRecord(fs, def, active))];
      StageWorkOnly(fs1, def, name);
      CrashedConcat(fs, first, stage + last, k);
      assert first + stage + last == first + (stage + last);
      hide PreserveOps, StageOps;
      StageAndSave(fs, fs1, stage, LastRecord(fs, def, active), k - |first|);
      ExecConcat(fs, first, stage + last);
    }
  }

  lemma PreserveArchives(fs: FS, def: seq<Item>, k: nat)
    requires MayStart(fs)
    ensures Crashed(fs, PreserveOps(fs, def), k).archives == fs.archives
  {
    var ops := PreserveOps(fs, def);
    SameArchives(fs, if k < |ops| then ops[..k] else ops);
  }

  lemma {:induction false} SameArchives(fs: FS, ops: seq<Op>)
    requires forall i | 0 <= i < |ops| ::
               !ops[i].NewArchive? && !ops[i].MoveWorkToArchive? && !ops[i].CopyToArchive? && !ops[i].WriteMeta?
    ensures Exec(fs, ops).archives == fs.archives
    decreases |ops|
  {
    if ops != [] {
      SameArchives(Do(fs, ops[0]), ops[1..]);
    }
  }

  /** Staging, or rebuilding, and the record that ends it. */
  lemma StageAndSave(fs: FS, fs1: FS, stage: seq<Op>, last: Record, k: int)
    requires AllWorkOnly(stage) && fs1.state.Some? && Sound(fs1, fs.work, false) && fs1.backup == fs.work
    requires last == fs1.state.value.(active := last.active, targets := last.targets)
    requires last.existed ==> last.moved
    ensures k >= 0 ==> var fs' := Crashed(fs1, stage + [SaveState(last)], k);
                       Sound(fs', fs.work, false) && fs'.archives == fs1.archives && fs'.state.Some?
    ensures var fs' := Exec(fs1, stage + [SaveState(last)]);
            fs'.state == Some(last) && fs'.backup == fs.work && fs'.archives == fs1.archives
                && fs'.work == Exec(fs1, stage).work
  {
    if k >= 0 {
      CrashedConcat(fs1, stage, [SaveState(last)], k);
      WorkOnlyCut(fs1, stage, fs.work, false, k);
    }
    WorkOnlyCut(fs1, stage, fs.work, false, |stage|);
    ExecConcat(fs1, stage, [SaveState(last)]);
    ExecOne(Exec(fs1, stage), SaveState(last));
  }

  lemma {:induction false} BuildWorkOnly(fs: FS, inventory: Tree, order: seq<Path>, name: string)
    requires forall i | 0 <= i < |order| :: order[i] in inventory
    ensures AllWorkOnly(BuildOps(fs, inventory, order, name))
    decreases |order|
  {
    if order != [] {
      var p, t := order[0], Entries(fs.work);
      MakeDirsWorkOnly(t, p);
      if p != [] {
        MakeDirsWorkOnly(t, Parent(p));
      }
      BuildWorkOnly(Exec(fs, BuildOne(t, p, inventory[p], name)), inventory, order[1..], name);
    }
  }

  lemma {:induction false} ChmodWorkOnly(inventory: Tree, order: seq<Path>)
    requires forall i | 0 <= i < |order| :: order[i] in inventory
    ensures AllWorkOnly(ChmodOps(inventory, order))
    decreases |order|
  {
    if order != [] {
      ChmodWorkOnly(inventory, order[..|order| - 1]);
    }
  }

  /** What a resume does between the start it makes and the record that ends it. */
  ghost function RebuildOps(fs: FS, inventory: Tree, name: string, removal: seq<Path>, build: seq<Path>): seq<Op>
    requires forall i | 0 <= i < |build| :: build[i] in inventory
  {
    Removal(removal) + BuildOps(Exec(fs, Removal(removal)), inventory, build, name) + ChmodOps(inventory, build)
  }

  lemma ResumeIs(fs: FS, def: seq<Item>, id: nat, name: string, removal: seq<Path>, build: seq<Path>)
    requires ValidDef(def) && MayResume(fs, def, id) && ProperResume(fs, def, id, name, removal, build) && Starts(fs)
    ensures forall i | 0 <= i < |build| :: build[i] in fs.archives[id].meta.value.inventory
    ensures var start := StartOps(fs, def, false, name);
            ResumeOps(fs, def, id, name, removal, build) ==
            start + (RebuildOps(Exec(fs, start), fs.archives[id].meta.value.inventory, name, removal,
                build) + [SaveState(LastRecord(fs, def, true))])
  {
    hide Loadable, Available, Starts, StartOps, BuildOps, ChmodOps, RemovalOrder, ValidDef;
    assert forall i | 0 <= i < |build| :: build[i] in build;
    var start := StartOps(fs, def, false, name);
    ExecConcat(fs, start, Removal(removal));
    var inventory := fs.archives[id].meta.value.inventory;
    Associates(start, Removal(removal), BuildOps(Exec(fs, start + Removal(removal)), inventory, build, name),
               ChmodOps(inventory, build), [SaveState(LastRecord(fs, def, true))]);
  }

  lemma Associates(a: seq<Op>, b: seq<Op>, c: seq<Op>, d: seq<Op>, e: seq<Op>)
    ensures a + b + c + d + e == a + (b + c + d + e)
  {
  }

  lemma RebuildWorkOnly(fs: FS, inventory: Tree, name: string, removal: seq<Path>, build: seq<Path>)
    requires forall i | 0 <= i < |build| :: build[i] in inventory
    ensures AllWorkOnly(RebuildOps(fs, inventory, name, removal, build))
  {
    BuildWorkOnly(Exec(fs, Removal(removal)), inventory, build, name);
    ChmodWorkOnly(inventory, build);
  }

  /** After a crash at any step of a resume the pre-start directory is intact and the record knows where. */
  lemma ResumeCrash(fs: FS, def: seq<Item>, id: nat, name: string, removal: seq<Path>, build: seq<Path>, k: nat)
    requires MayStart(fs) && fs.work != Some(map[]) && ValidDef(def)
    requires MayResume(fs, def, id) && ProperResume(fs, def, id, name, removal, build)
    ensures var fs' := Crashed(fs, ResumeOps(fs, def, id, name, removal, build), k);
            Sound(fs', fs.work, false) && fs'.archives == fs.archives && (fs'.state.None? ==> fs' == fs)
  {
    hide Loadable, Available, ProperResume, StartOps, RebuildOps, Starts;
    var start := StartOps(fs, def, false, name);
    StartCrash(fs, def, false, name, k);
    if Starts(fs) {
      ResumeIs(fs, def, id, name, removal, build);
      var fs1 := Exec(fs, start);
      var inventory := fs.archives[id].meta.value.inventory;
      var rebuild, last := RebuildOps(fs1, inventory, name, removal, build), LastRecord(fs, def, true);
      RebuildWorkOnly(fs1, inventory, name, removal, build);
      CrashedConcat(fs, start, rebuild + [SaveState(last)], k);
      StartCrash(fs, def, false, name, |start|);
      StageAndSave(fs, fs1, rebuild, last, k - |start|);
    } else {
      GivesUp(fs, def, id, name, removal, build);
    }
  }

  lemma GivesUp(fs: FS, def: seq<Item>, id: nat, name: string, removal: seq<Path>, build: seq<Path>)
    requires ValidDef(def) && MayResume(fs, def, id) && ProperResume(fs, def, id, name, removal, build) && !Starts(fs)
    ensures ResumeOps(fs, def, id, name, removal, build) == StartOps(fs, def, false, name)
  {
  }

  // ----- Reset --------------------------------------------------------------------------------------------

  /** Operations that write one archive only. */
  predicate ArchiveOnly(op: Op, id: nat) {
    match op
    case NewArchive(i) => i == id
    case CopyToArchive(i, _, _) => i == id
    case WriteMeta(i, _) => i == id
    case _ => false
  }

  predicate AllArchiveOnly(ops: seq<Op>, id: nat) {
    forall i | 0 <= i < |ops| :: ArchiveOnly(ops[i], id)
  }

  lemma {:induction false} ExecArchiveOnly(fs: FS, ops: seq<Op>, id: nat)
    requires AllArchiveOnly(ops, id)
    ensures Exec(fs, ops) == fs.(archives := Exec(fs, ops).archives)
    ensures forall i | i in fs.archives && i != id ::
              i in Exec(fs, ops).archives && Exec(fs, ops).archives[i] == fs.archives[i]
    decreases |ops|
  {
    if ops != [] {
      ExecArchiveOnly(Do(fs, ops[0]), ops[1..], id);
    }
  }

  /** Archiving, cut anywhere: the state, the backup and the older archives stay, and the work directory stays
      or is the archive. */
  lemma ArchiveCut(fs: FS, r: Record, id: nat, copies: seq<Path>, k: nat)
    requires id !in fs.archives && Enumerates(copies, ChangedFiles(Entries(fs.work), r.targets))
    ensures var fs' := Crashed(fs, ArchiveOps(fs, r, id, copies), k);
            && fs'.state == fs.state && fs'.backup == fs.backup
            && (forall i | i in fs.archives :: i in fs'.archives && fs'.archives[i] == fs.archives[i])
            && (fs'.work == fs.work
               || (fs'.work.None? && fs.work.Some? && id in fs'.archives && fs'.archives[id].tree == fs.work.value))
            && (Untouched(fs, r) ==> fs' == fs)
  {
    hide MovesWhole, AllUnchanged, MetaOf, ChangedFiles;
    var ops := ArchiveOps(fs, r, id, copies);
    if !Untouched(fs, r) && fs.work.Some? && MovesWhole(Entries(fs.work), r.targets) {
      OneByOne(fs, ops, k);
      OneByOne(Do(fs, ops[0]), ops[1..], k - 1);
      OneByOne(Do(Do(fs, ops[0]), ops[1]), ops[1..][1..], k - 2);
    } else {
      assert forall i | 0 <= i < |copies| :: copies[i] in copies;
      var cut := if k < |ops| then ops[..k] else ops;
      ExecArchiveOnly(fs, cut, id);
    }
  }

  /** The record, the backup and what became of the archives is all that matters. */
  lemma HeldAfterArchive(fs: FS, fs': FS, r: Record, pre: Option<Tree>, begun: bool, id: nat)
    requires Held(fs, r, pre, begun) && fs'.backup == fs.backup
    requires forall i | i in fs.archives :: i in fs'.archives && fs'.archives[i] == fs.archives[i]
    requires fs'.work == fs.work || (fs.work.Some? && id in fs'.archives && fs'.archives[id].tree == fs.work.value)
    requires Untouched(fs, r) ==> fs' == fs
    ensures Held(fs', r, pre, true)
  {
    if r.existed && fs.backup.None? && r.moved && InArchive(fs, pre.value) {
      var i :| i in fs.archives && fs.archives[i].tree == pre.value;
      assert fs'.archives[i].tree == pre.value;
    }
  }

  /** A reset goes on to restore exactly when the backup is there, or nothing had been moved. */
  lemma RestorableIff(fs: FS, r: Record, pre: Option<Tree>, begun: bool)
    requires Held(fs, r, pre, begun) && (pre.Some? ==> fs.backup != Some(map[]))
    ensures Restorable(fs, r) <==> !(r.existed && r.moved && fs.backup.None?)
  {
  }

  /** Restoring, cut anywhere. */
  lemma RestoreCut(fs: FS, r: Record, pre: Option<Tree>, order: seq<Path>, k: nat)
    requires fs.state == Some(r) && Sound(fs, pre, true) && Restorable(fs, r) && RemovalOrder(order, Entries(fs.work))
    ensures var fs' := Crashed(fs, RestoreOps(fs, r, order) + [ClearState], k);
            && Sound(fs', pre, true) && fs'.archives == fs.archives
            && (fs'.state.Some? ==> fs'.state == fs.state) && (fs'.state.None? ==> fs'.work == pre)
    ensures Exec(fs, RestoreOps(fs, r, order) + [ClearState]) == fs.(work := pre, backup := None, state := None)
  {
    var removal := Removal(order);
    var ops := RestoreOps(fs, r, order);
    var gone := fs.(work := None);
    RemovalEmpties(fs, order);
    hide RemovalOrder;
    if r.existed && fs.backup.None? {
      assert ops == [];
      assert [] + [ClearState] == [ClearState];
      OneByOne(fs, [ClearState], k);
      ExecOne(fs, ClearState);
    } else if r.existed {
      assert ops == removal + [MoveBackupToWork];
      MoveBackCut(fs, r, pre, order, k);
    } else {
      CrashedConcat(fs, removal, [ClearState], k);
      ExecConcat(fs, removal, [ClearState]);
      WorkOnlyCut(fs, removal, pre, true, k);
      OneByOne(gone, [ClearState], k - |removal|);
    }
  }

  lemma BackSound(fs: FS, r: Record, pre: Option<Tree>)
    requires fs.state == Some(r) && Sound(fs, pre, true) && r.existed && fs.backup.Some?
    ensures fs.backup == pre && fs.work != Some(map[])
    ensures Sound(fs.(work := None), pre, true) && Sound(fs.(work := fs.backup, backup := None), pre, true)
    ensures Sound(fs.(work := fs.backup, backup := None, state := None), pre, true)
  {
  }

  lemma MoveBackCut(fs: FS, r: Record, pre: Option<Tree>, order: seq<Path>, k: nat)
    requires fs.state == Some(r) && Sound(fs, pre, true) && r.existed && fs.backup.Some?
             && RemovalOrder(order, Entries(fs.work))
    ensures var fs' := Crashed(fs, Removal(order) + [MoveBackupToWork] + [ClearState], k);
            && Sound(fs', pre, true) && fs'.archives == fs.archives
            && (fs'.state.Some? ==> fs'.state == fs.state) && (fs'.state.None? ==> fs'.work == pre)
    ensures Exec(fs, Removal(order) + [MoveBackupToWork] + [ClearState])
            == fs.(work := pre, backup := None, state := None)
  {
    hide RemovalOrder, Held, Exec, Crashed;
    var removal := Removal(order);
    var gone := fs.(work := None);
    BackSound(fs, r, pre);
    RemovalEmpties(fs, order);
    hide Sound;
    assert removal + [MoveBackupToWork] + [ClearState] == removal + [MoveBackupToWork, ClearState];
    CrashedConcat(fs, removal, [MoveBackupToWork, ClearState], k);
    ExecConcat(fs, removal, [MoveBackupToWork, ClearState]);
    WorkOnlyCut(fs, removal, pre, true, k);
    BackAndClear(gone, k - |removal|);
  }

  lemma BackAndClear(fs: FS, k: int)
    ensures var ops := [MoveBackupToWork, ClearState];
            var back := fs.(work := fs.backup, backup := None);
            && Exec(fs, ops) == back.(state := None)
            && (k >= 0 ==> Crashed(fs, ops, k) == if k == 0 then fs else if k == 1 then back else back.(state := None))
  {
    var ops := [MoveBackupToWork, ClearState];
    OneByOne(fs, ops, k);
    OneByOne(Do(fs, ops[0]), ops[1..], k - 1);
  }

  /** A reset, cut anywhere: the pre-start directory is intact, and the state is cleared only once it is back
      in its place. */
  lemma ResetCrash(fs: FS, r: Record, pre: Option<Tree>, begun: bool, c: Choices, k: nat)
    requires fs.state == Some(r) && Sound(fs, pre, begun) && Proper(fs, r, c)
    ensures var fs' := Crashed(fs, ResetOps(fs, r, c), k);
            && Sound(fs', pre, true) && (fs'.state.None? ==> fs'.work == pre && fs'.backup.None?)
            && (fs'.state.Some? ==> fs'.state == fs.state)
    ensures Resets(fs, r, c) <==> !(r.existed && r.moved && fs.backup.None?)
    ensures Resets(fs, r, c) ==> var fs' := Exec(fs, ResetOps(fs, r, c));
                                 fs'.state.None? && fs'.backup.None? && fs'.work == pre
  {
    hide ArchiveOps, RestoreOps, Untouched, RemovalOrder, Enumerates, Held;
    var archive := ArchiveOps(fs, r, c.id, c.copies);
    var fs1 := Exec(fs, archive);
    ArchiveCut(fs, r, c.id, c.copies, k);
    ArchiveCut(fs, r, c.id, c.copies, |archive|);
    HeldAfterArchive(fs, Crashed(fs, archive, k), r, pre, begun, c.id);
    HeldAfterArchive(fs, fs1, r, pre, begun, c.id);
    HeldBackup(fs, r, pre, begun);
    RestorableIff(fs1, r, pre, true);
    if Resets(fs, r, c) {
      var rest := RestoreOps(fs1, r, c.order) + [ClearState];
      assert archive + RestoreOps(fs1, r, c.order) + [ClearState] == archive + rest;
      CrashedConcat(fs, archive, rest, k);
      ExecConcat(fs, archive, rest);
      RestoreCut(fs1, r, pre, c.order, if k < |archive| then 0 else k - |archive|);
    }
  }

  lemma HeldBackup(fs: FS, r: Record, pre: Option<Tree>, begun: bool)
    requires Held(fs, r, pre, begun)
    ensures fs.backup != Some(map[])
  {
  }

  // ----- Over every run -------------------------------------------------------------------------------

  /** The file system, whether a reset has begun since the last start, the work directory as it was when that start
      began, and the definition that was started. */
  datatype Sys = Sys(fs: FS, begun: bool, pre: Option<Tree>, def: seq<Item>)

  /** A command that crashes at step `k` (or does not, when `k` is past its end), or an edit of the work
      directory by the participant. */
  datatype Event =
    | Starting(def: seq<Item>, name: string, k: nat)
    | Resuming(def: seq<Item>, id: nat, name: string, removal: seq<Path>, build: seq<Path>, k: nat)
    | Resetting(choices: Choices, k: nat)
    | Editing(work: Option<Tree>)

  /** One command runs at a time. The participant edits while no scenario is recorded, or while one is active
      and no reset of it has begun. */
  ghost predicate Possible(s: Sys, e: Event) {
    match e
    case Starting(def, _, _) => ValidDef(def)
    case Resuming(def, id, name, removal, build, _) =>
      && ValidDef(def)
      && (MayStart(s.fs) && MayResume(s.fs, def, id) ==> ProperResume(s.fs, def, id, name, removal, build))
    case Resetting(c, _) => s.fs.state.Some? ==> Proper(s.fs, s.fs.state.value, c)
    case Editing(work) =>
      && (work.Some? ==> IsTree(work.value))
      && (s.fs.state.None? || (s.fs.state.value.active && !s.begun))
  }

  /** What an event leads to; a command that is refused changes nothing. */
  ghost function After(s: Sys, e: Event): Sys
    requires Possible(s, e)
  {
    match e
    case Starting(def, name, k) =>
      if MayStart(s.fs) then Sys(Crashed(s.fs, StartOps(s.fs, def, true, name), k), false, s.fs.work, def) else s
    case Resuming(def, id, name, removal, build, k) =>
      if MayStart(s.fs) && MayResume(s.fs, def, id)
      then Sys(Crashed(s.fs, ResumeOps(s.fs, def, id, name, removal, build), k), false, s.fs.work, def) else s
    case Resetting(c, k) =>
      if s.fs.state.Some? then Sys(Crashed(s.fs, ResetOps(s.fs, s.fs.state.value, c), k), true, s.pre, s.def) else s
    case Editing(work) => s.(fs := s.fs.(work := work))
  }

  ghost predicate AllPossible(s: Sys, events: seq<Event>)
    decreases |events|
  {
    events == [] || (Possible(s, events[0]) && AllPossible(After(s, events[0]), events[1..]))
  }

  ghost function Run(s: Sys, events: seq<Event>): Sys
    requires AllPossible(s, events)
    decreases |events|
  {
    if events == [] then s else Run(After(s, events[0]), events[1..])
  }

  ghost predicate Safe(s: Sys) {
    Sound(s.fs, s.pre, s.begun)
  }

  /** A workspace before anything was started: whatever is in the work directory and in the archives. */
  ghost predicate Fresh(s: Sys) {
    s.fs.state.None? && s.fs.backup.None? && s.fs.work != Some(map[])
  }

  lemma EditKeeps(s: Sys, work: Option<Tree>)
    requires Safe(s) && Possible(s, Editing(work))
    ensures Safe(After(s, Editing(work)))
  {
  }

  lemma EventKeeps(s: Sys, e: Event)
    requires Safe(s) && Possible(s, e)
    ensures Safe(After(s, e))
  {
    hide MayResume, ProperResume, StartOps, ResumeOps, ResetOps, Proper, ValidDef, Held;
    match e
    case Starting(def, name, k) =>
      if MayStart(s.fs) {
        StartCrash(s.fs, def, true, name, k);
      }
    case Resuming(def, id, name, removal, build, k) =>
      if MayStart(s.fs) && MayResume(s.fs, def, id) {
        ResumeCrash(s.fs, def, id, name, removal, build, k);
      }
    case Resetting(c, k) =>
      if s.fs.state.Some? {
        ResetCrash(s.fs, s.fs.state.value, s.pre, s.begun, c, k);
      }
    case Editing(work) => EditKeeps(s, work);
  }

  lemma {:induction false} RunKeeps(s: Sys, events: seq<Event>)
    requires Safe(s) && AllPossible(s, events)
    ensures Safe(Run(s, events))
    decreases |events|
  {
    hide Safe, Possible, After;
    if events != [] {
      EventKeeps(s, events[0]);
      RunKeeps(After(s, events[0]), events[1..]);
    }
  }

  /** Over every run of starts, edits, resumes, resets and crashes, while a scenario is recorded the directory
      that was there before its start is intact: in the work directory, in the backup or in an archive. */
  lemma NeverDestroyed(s: Sys, events: seq<Event>)
    requires Fresh(s) && AllPossible(s, events)
    ensures var s' := Run(s, events);
            s'.fs.state.Some? && s'.pre.Some? ==>
              s'.fs.work == s'.pre || s'.fs.backup == s'.pre || InArchive(s'.fs, s'.pre.value)
  {
    RunKeeps(s, events);
  }

  /** The record goes only when the work directory is back as it was, and then nothing else is left. */
  lemma ClearedWhenBack(s: Sys, events: seq<Event>, e: Event)
    requires Fresh(s) && AllPossible(s, events) && Possible(Run(s, events), e)
    ensures var s1 := Run(s, events);
            var s2 := After(s1, e);
            s1.fs.state.Some? && s2.fs.state.None? ==> s2.fs.work == s1.pre && s2.fs.backup.None?
  {
    RunKeeps(s, events);
    hide MayResume, ProperResume, StartOps, ResumeOps, ResetOps, Proper, ValidDef, Held, Run;
    var s1 := Run(s, events);
    if e.Resetting? && s1.fs.state.Some? {
      ResetCrash(s1.fs, s1.fs.state.value, s1.pre, s1.begun, e.choices, e.k);
    }
  }

  /** In every reachable state a reset that runs to its end restores exactly what was there before the start,
      if and only if it is not the case that the directory had been moved and its backup is gone. */
  lemma ResetRestores(s: Sys, events: seq<Event>, c: Choices)
    requires Fresh(s) && AllPossible(s, events) && Run(s, events).fs.state.Some?
    requires Proper(Run(s, events).fs, Run(s, events).fs.state.value, c)
    ensures var s' := Run(s, events);
            var r := s'.fs.state.value;
            var fs := Exec(s'.fs, ResetOps(s'.fs, r, c));
            if r.existed && r.moved && s'.fs.backup.None? then fs.state.Some?
            else fs.state.None? && fs.backup.None? && fs.work == s'.pre
    ensures !Run(s, events).begun ==>
              var s' := Run(s, events);
              !(s'.fs.state.value.existed && s'.fs.state.value.moved && s'.fs.backup.None?)
  {
    RunKeeps(s, events);
    var s' := Run(s, events);
    hide Run, ResetOps, Proper;
    if !s'.begun {
      NoResetYet(s');
    }
    hide Held;
    var r := s'.fs.state.value;
    var ops := ResetOps(s'.fs, r, c);
    ResetCrash(s'.fs, r, s'.pre, s'.begun, c, |ops|);
    if !Resets(s'.fs, r, c) {
      RefusedKeepsState(s'.fs, r, c);
    }
  }

  lemma NoResetYet(s: Sys)
    requires Safe(s) && s.fs.state.Some? && !s.begun
    ensures !(s.fs.state.value.existed && s.fs.state.value.moved && s.fs.backup.None?)
  {
  }

  lemma RefusedKeepsState(fs: FS, r: Record, c: Choices)
    requires Proper(fs, r, c) && !Resets(fs, r, c)
    ensures Exec(fs, ResetOps(fs, r, c)).state == fs.state
  {
    hide ArchiveOps, Restorable, RemovalOrder, Enumerates;
    ArchiveCut(fs, r, c.id, c.copies, |ArchiveOps(fs, r, c.id, c.copies)|);
  }

  /** Start and resume are crash-safe: crashed at any step, they leave the work directory as it was, or a
      record from which a reset brings it back as it was. */
  lemma CommandsAreCrashSafe(s: Sys, events: seq<Event>, e: Event, c: Choices)
    requires Fresh(s) && AllPossible(s, events) && Possible(Run(s, events), e)
    requires (e.Starting? || e.Resuming?) && Run(s, events).fs.state.None?
    requires var s2 := After(Run(s, events), e); s2.fs.state.Some? ==> Proper(s2.fs, s2.fs.state.value, c)
    ensures var s1 := Run(s, events);
            var s2 := After(s1, e);
            if s2.fs.state.None? then s2.fs == s1.fs
            else
              var fs := Exec(s2.fs, ResetOps(s2.fs, s2.fs.state.value, c));
              fs.state.None? && fs.backup.None? && fs.work == s1.fs.work
  {
    RunKeeps(s, events);
    var s1 := Run(s, events);
    EventKeeps(s1, e);
    var s2 := After(s1, e);
    hide MayResume, ProperResume, StartOps, ResumeOps, ResetOps, Proper, ValidDef, Run, Held;
    if e.Starting? && MayStart(s1.fs) {
      StartCrash(s1.fs, e.def, true, e.name, e.k);
    }
    if e.Resuming? && MayStart(s1.fs) && MayResume(s1.fs, e.def, e.id) {
      ResumeCrash(s1.fs, e.def, e.id, e.name, e.removal, e.build, e.k);
    }
    if s2.fs.state.Some? {
      NoResetYet(s2);
      ResetCrash(s2.fs, s2.fs.state.value, s2.pre, false, c, 0);
    }
  }

  /** The last step of a reset. */
  ghost function LastStep(fs: FS, r: Record, c: Choices): nat
    requires Proper(fs, r, c)
  {
    if ResetOps(fs, r, c) == [] then 0 else |ResetOps(fs, r, c)| - 1
  }

  /** A reset that crashes between putting the directory back and clearing the state. */
  lemma ResetNearlyDone(fs: FS, r: Record, pre: Option<Tree>, begun: bool, c: Choices)
    requires fs.state == Some(r) && Sound(fs, pre, begun) && Proper(fs, r, c) && r.existed && r.moved && fs.backup.Some?
    ensures var fs' := Crashed(fs, ResetOps(fs, r, c), LastStep(fs, r, c));
            fs'.work == pre && fs'.backup.None? && fs'.state == fs.state
  {
    hide ArchiveOps, Untouched, RemovalOrder, Enumerates, Held;
    var archive := ArchiveOps(fs, r, c.id, c.copies);
    var fs1 := Exec(fs, archive);
    ArchiveCut(fs, r, c.id, c.copies, |archive|);
    ResetCrash(fs, r, pre, begun, c, 0);
    HeldBack(fs, r, pre, begun);
    var back := Removal(c.order) + [MoveBackupToWork];
    assert RestoreOps(fs1, r, c.order) == back;
    assert ResetOps(fs, r, c) == archive + back + [ClearState];
    var ops := archive + back;
    assert (ops + [ClearState])[..|ops|] == ops;
    hide ResetOps, Resets, Restorable, RestoreOps, Proper;
    ExecConcat(fs, archive, back);
    ExecConcat(fs1, Removal(c.order), [MoveBackupToWork]);
    EntriesGone(fs1, fs, archive, c.order);
    ExecOne(fs1.(work := None), MoveBackupToWork);
  }

  lemma HeldBack(fs: FS, r: Record, pre: Option<Tree>, begun: bool)
    requires Held(fs, r, pre, begun) && r.existed && fs.backup.Some?
    ensures fs.backup == pre && [] in fs.backup.value && fs.backup.value[[]].Dir?
  {
  }

  lemma EntriesGone(fs1: FS, fs: FS, archive: seq<Op>, order: seq<Path>)
    requires fs1 == Exec(fs, archive) && fs1.work != Some(map[]) && RemovalOrder(order, Entries(fs1.work))
    ensures Exec(fs1, Removal(order)) == fs1.(work := None)
  {
    RemovalEmpties(fs1, order);
  }

  /** What a refused reset leaves of the work directory. */
  lemma RefusedLeaves(fs: FS, r: Record, t: Tree, c: Choices)
    requires fs.work == Some(t) && !Untouched(fs, r) && Proper(fs, r, c) && !Resets(fs, r, c)
    ensures var fs' := Exec(fs, ResetOps(fs, r, c));
            && fs'.state == fs.state
            && if MovesWhole(t, r.targets) then
               fs'.work.None? && c.id in fs'.archives && fs'.archives[c.id].tree == t else fs'.work == fs.work
  {
    hide MovesWhole, AllUnchanged, ChangedFiles, Restorable, RemovalOrder, Untouched;
    var ops := ArchiveOps(fs, r, c.id, c.copies);
    ArchiveCut(fs, r, c.id, c.copies, |ops|);
    if !MovesWhole(t, r.targets) {
      assert forall i | 0 <= i < |c.copies| :: c.copies[i] in c.copies;
      ExecArchiveOnly(fs, ops, c.id);
    } else {
      OneByOne(fs, ops, 0);
      OneByOne(Do(fs, ops[0]), ops[1..], 0);
      OneByOne(Do(Do(fs, ops[0]), ops[1]), ops[1..][1..], 0);
    }
  }

  /** The one way to a reset that refuses. In every run, a reset of a scenario whose pre-start directory was moved to
      the backup may crash after it has moved the directory back and before it clears the state; every later reset
      then refuses, and if the directory holds something that copying files would lose, moves it into an archive,
      where it is intact. */
  lemma StuckReset(s: Sys, events: seq<Event>, c: Choices, d: Choices)
    requires Fresh(s) && AllPossible(s, events) && Run(s, events).fs.state.Some?
    requires var fs := Run(s, events).fs; var r := fs.state.value;
             r.existed && r.moved && fs.backup.Some? && Proper(fs, r, c)
    ensures var s1 := Run(s, events);
            var r := s1.fs.state.value;
            var crash := Resetting(c, LastStep(s1.fs, r, c));
            Possible(s1, crash)
            && var s2 := After(s1, crash);
               && s1.pre.Some? && s2.fs.work == s1.pre && s2.fs.backup.None? && s2.fs.state == Some(r)
               && (Proper(s2.fs, r, d) ==>
                     var fs := Exec(s2.fs, ResetOps(s2.fs, r, d));
                     && fs.state == Some(r)
                     && if MovesWhole(s1.pre.value, r.targets) then
                        fs.work.None? && d.id in fs.archives && fs.archives[d.id].tree == s1.pre.value
                        else fs.work == s1.pre)
  {
    RunKeeps(s, events);
    var s1 := Run(s, events);
    var r := s1.fs.state.value;
    hide Run, Proper, ResetOps, MovesWhole, Held;
    ResetNearlyDone(s1.fs, r, s1.pre, s1.begun, c);
    HeldBack(s1.fs, r, s1.pre, s1.begun);
    var s2 := After(s1, Resetting(c, LastStep(s1.fs, r, c)));
    EventKeeps(s1, Resetting(c, LastStep(s1.fs, r, c)));
    if Proper(s2.fs, r, d) {
      ResetCrash(s2.fs, r, s2.pre, true, d, 0);
      RefusedLeaves(s2.fs, r, s1.pre.value, d);
    }
  }

  /** It takes no more than a start of any definition over any directory that can be hashed. */
  lemma StuckAfterStart(id: string, t: Tree, def: seq<Item>, name: string, c: Choices)
    requires IsDirectory(t) && Hashable(t) && ValidDef(def)
    requires var fs := FS(id, Some(t), None, map[], None);
             Proper(Exec(fs, StartOps(fs, def, true, name)), LastRecord(fs, def, true), c)
    ensures var fs := FS(id, Some(t), None, map[], None);
            var s := Sys(fs, false, None, []);
            var r := LastRecord(fs, def, true);
            var started := Exec(fs, StartOps(fs, def, true, name));
            var events := [Starting(def, name, |StartOps(fs, def, true, name)|), Resetting(c, LastStep(started, r, c))];
            && Fresh(s) && AllPossible(s, events)
            && var stuck := Run(s, events).fs; stuck.work == Some(t) && stuck.backup.None? && stuck.state == Some(r)
  {
    var fs := FS(id, Some(t), None, map[], None);
    var s := Sys(fs, false, None, []);
    var r := LastRecord(fs, def, true);
    var e1 := Starting(def, name, |StartOps(fs, def, true, name)|);
    hide Hashable, ValidDef, StartOps, ResetOps, Proper, Held;
    StartCrash(fs, def, true, name, |StartOps(fs, def, true, name)|);
    var s1 := After(s, e1);
    assert s1.fs == Exec(fs, StartOps(fs, def, true, name)) && Starts(fs);
    ResetNearlyDone(s1.fs, r, Some(t), false, c);
    var e2 := Resetting(c, LastStep(s1.fs, r, c));
    TwoEvents(s, e1, s1, e2, After(s1, e2));
  }

  lemma TwoEvents(s: Sys, e1: Event, s1: Sys, e2: Event, s2: Sys)
    requires Possible(s, e1) && After(s, e1) == s1 && Possible(s1, e2) && After(s1, e2) == s2
    ensures AllPossible(s, [e1, e2]) && Run(s, [e1, e2]) == s2
  {
    hide Possible, After;
    assert [e1, e2][1..] == [e2] && [e2][1..] == [];
    assert AllPossible(s1, [e2]) && Run(s1, [e2]) == s2;
  }
}
