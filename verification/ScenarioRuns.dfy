/** What holds over every run of the lifecycle commands beside safety: the record names the definition it was started
    from, the work directory is a tree, archives stay, and an attempt that was reset can be taken up again. */
module ScenarioRuns {
  import opened Options
  import opened Workspaces
  import opened Scenarios
  import opened ScenarioSafety
  import opened ScenarioWork
  import Workshops

  // ----- The record ---------------------------------------------------------------------------------------

  /** A record of an attempt at `def`; its payloads are recorded before it is active. */
  predicate RecordOf(r: Record, def: seq<Item>) {
    && r.terms == Terms(def)
    && (r.targets == Staged(def) || (r.targets == Planned(def) && !r.active))
  }

  predicate AllRecordsOf(ops: seq<Op>, def: seq<Item>) {
    forall i | 0 <= i < |ops| && ops[i].SaveState? :: RecordOf(ops[i].record, def)
  }

  lemma {:induction false} ExecRecords(fs: FS, ops: seq<Op>, def: seq<Item>)
    requires AllRecordsOf(ops, def) && (fs.state.Some? ==> RecordOf(fs.state.value, def))
    ensures Exec(fs, ops).state.Some? ==> RecordOf(Exec(fs, ops).state.value, def)
    decreases |ops|
  {
    hide RecordOf;
    if ops != [] {
      ExecRecords(Do(fs, ops[0]), ops[1..], def);
    }
  }

  lemma CutRecords(fs: FS, ops: seq<Op>, def: seq<Item>, k: nat)
    requires AllRecordsOf(ops, def) && fs.state.None?
    ensures Crashed(fs, ops, k).state.Some? ==> RecordOf(Crashed(fs, ops, k).state.value, def)
  {
    hide RecordOf;
    ExecRecords(fs, if k < |ops| then ops[..k] else ops, def);
  }

  lemma StartRecords(fs: FS, def: seq<Item>, active: bool, name: string)
    requires ValidDef(def)
    ensures AllRecordsOf(StartOps(fs, def, active, name), def)
  {
    hide Hashable, StageOps;
    if Starts(fs) {
      StageWorkOnly(Exec(fs, PreserveOps(fs, def)), def, name);
    }
  }

  lemma ResumeRecords(fs: FS, def: seq<Item>, id: nat, name: string, removal: seq<Path>, build: seq<Path>)
    requires ValidDef(def) && MayResume(fs, def, id) && ProperResume(fs, def, id, name, removal, build)
    ensures AllRecordsOf(ResumeOps(fs, def, id, name, removal, build), def)
  {
    hide Loadable, Available, ProperResume, StartOps, ResumeOps, RebuildOps, Starts;
    StartRecords(fs, def, false, name);
    if Starts(fs) {
      ResumeIs(fs, def, id, name, removal, build);
      RebuildWorkOnly(Exec(fs, StartOps(fs, def, false, name)), fs.archives[id].meta.value.inventory, name, removal,
          build);
    } else {
      GivesUp(fs, def, id, name, removal, build);
    }
  }

  /** The record is of the definition that was started. */
  ghost predicate Recorded(s: Sys) {
    s.fs.state.Some? ==> ValidDef(s.def) && RecordOf(s.fs.state.value, s.def)
  }

  lemma EventRecorded(s: Sys, e: Event)
    requires Safe(s) && Recorded(s) && Possible(s, e)
    ensures Recorded(After(s, e))
  {
    hide MayResume, ProperResume, StartOps, ResumeOps, ResetOps, Proper, ValidDef, Held, RecordOf, Crashed;
    match e
    case Starting(def, name, k) =>
      if MayStart(s.fs) {
        StartRecords(s.fs, def, true, name);
        CutRecords(s.fs, StartOps(s.fs, def, true, name), def, k);
      }
    case Resuming(def, id, name, removal, build, k) =>
      if MayStart(s.fs) && MayResume(s.fs, def, id) {
        ResumeRecords(s.fs, def, id, name, removal, build);
        CutRecords(s.fs, ResumeOps(s.fs, def, id, name, removal, build), def, k);
      }
    case Resetting(c, k) =>
      if s.fs.state.Some? {
        ResetCrash(s.fs, s.fs.state.value, s.pre, s.begun, c, k);
      }
    case Editing(work) =>
  }

  lemma {:induction false} RunRecorded(s: Sys, events: seq<Event>)
    requires Safe(s) && Recorded(s) && AllPossible(s, events)
    ensures Recorded(Run(s, events))
    decreases |events|
  {
    hide Safe, Recorded, Possible, After;
    if events != [] {
      EventKeeps(s, events[0]);
      EventRecorded(s, events[0]);
      RunRecorded(After(s, events[0]), events[1..]);
    }
  }

  /** In every run the record names the definition that was started, and an active one its payloads, which have no
      special mode bits. */
  lemma RecordNamesDefinition(s: Sys, events: seq<Event>)
    requires Fresh(s) && AllPossible(s, events) && Run(s, events).fs.state.Some?
    ensures var s' := Run(s, events);
            var r := s'.fs.state.value;
            && ValidDef(s'.def) && r.terms == Terms(s'.def)
            && (r.active ==> r.targets == Staged(s'.def))
            && PlainTargets(r.targets)
  {
    RunRecorded(s, events);
  }

  // ----- Archives -------------------------------------------------------------------------------------------

  ghost predicate ArchivesStay(fs: FS, fs': FS) {
    forall id | id in fs.archives :: id in fs'.archives && fs'.archives[id] == fs.archives[id]
  }

  lemma ResetArchives(fs: FS, r: Record, c: Choices, k: nat)
    requires fs.state == Some(r) && Proper(fs, r, c)
    ensures ArchivesStay(fs, Crashed(fs, ResetOps(fs, r, c), k))
  {
    var archive := ArchiveOps(fs, r, c.id, c.copies);
    hide ArchiveOps, ResetOps, Proper, Crashed, Untouched;
    if k < |archive| {
      ResetStarts(fs, r, c, k);
      ArchiveCut(fs, r, c.id, c.copies, k);
    } else {
      ResetEnds(fs, r, c, k);
      ArchiveCut(fs, r, c.id, c.copies, |archive|);
      WholeCut(fs, archive);
    }
  }

  lemma WholeCut(fs: FS, ops: seq<Op>)
    ensures Crashed(fs, ops, |ops|) == Exec(fs, ops)
  {
  }

  lemma EventArchives(s: Sys, e: Event)
    requires Safe(s) && Possible(s, e)
    ensures ArchivesStay(s.fs, After(s, e).fs)
  {
    hide MayResume, ProperResume, StartOps, ResumeOps, ResetOps, Proper, ValidDef, Held;
    match e
    case Starting(def, name, k) =>
      if MayStart(s.fs) {
        StartCrash(s.fs, def, true, name, k);
      }
    case Resuming(def, id, name, removal, build, k) =>
      if MayStart(s.fs) && MayResume(s.fs, def, id) {
        ResumeCrash(s.fs, def, id, name, removal, build, k);
      }
    case Resetting(c, k) =>
      if s.fs.state.Some? {
        ResetArchives(s.fs, s.fs.state.value, c, k);
      }
    case Editing(work) =>
  }

  /** No run changes or removes an archive. */
  lemma {:induction false} RunArchives(s: Sys, events: seq<Event>)
    requires Safe(s) && AllPossible(s, events)
    ensures ArchivesStay(s.fs, Run(s, events).fs) && Safe(Run(s, events))
    decreases |events|
  {
    hide Safe, Possible, After;
    if events != [] {
      EventKeeps(s, events[0]);
      EventArchives(s, events[0]);
      RunArchives(After(s, events[0]), events[1..]);
    }
  }

  lemma CutScenario(fs: FS, ops: seq<Op>, k: nat)
    ensures Crashed(fs, ops, k).scenario == fs.scenario
  {
    ExecScenario(fs, if k < |ops| then ops[..k] else ops);
  }

  lemma {:induction false} RunScenario(s: Sys, events: seq<Event>)
    requires AllPossible(s, events)
    ensures Run(s, events).fs.scenario == s.fs.scenario
    decreases |events|
  {
    hide Possible, After;
    if events != [] {
      EventScenario(s, events[0]);
      RunScenario(After(s, events[0]), events[1..]);
    }
  }

  lemma EventScenario(s: Sys, e: Event)
    requires Possible(s, e)
    ensures After(s, e).fs.scenario == s.fs.scenario
  {
    hide MayResume, ProperResume, StartOps, ResumeOps, ResetOps, Proper, ValidDef, Crashed;
    match e
    case Starting(def, name, k) => CutScenario(s.fs, StartOps(s.fs, def, true, name), k);
    case Resuming(def, id, name, removal, build, k) =>
      if MayStart(s.fs) && MayResume(s.fs, def, id) {
        CutScenario(s.fs, ResumeOps(s.fs, def, id, name, removal, build), k);
      }
    case Resetting(c, k) =>
      if s.fs.state.Some? {
        CutScenario(s.fs, ResetOps(s.fs, s.fs.state.value, c), k);
      }
    case Editing(work) =>
  }

  // ----- What a command is free to choose ----------------------------------------------------------------

  lemma {:induction false} UnusedId(ids: set<nat>) returns (id: nat)
    ensures forall i | i in ids :: i < id
    decreases |ids|
  {
    if ids == {} {
      id := 0;
    } else {
      var i :| i in ids;
      id := UnusedId(ids - {i});
      assert forall j | j in ids && j != i :: j in ids - {i};
      if id <= i {
        id := i + 1;
      }
    }
  }

  /** A reset always has what it needs to choose from. */
  lemma ProperChoices(fs: FS, r: Record) returns (c: Choices)
    ensures Proper(fs, r, c)
  {
    hide ArchiveOps, ChangedFiles, Enumerates, RemovalOrder;
    var id := UnusedId(fs.archives.Keys);
    var copies := Workshops.Enumeration(ChangedFiles(Entries(fs.work), r.targets));
    var t := Entries(Exec(fs, ArchiveOps(fs, r, id, copies)).work);
    var order := Workshops.SomeOrder(t.Keys);
    c := Choices(id, copies, order);
  }

  lemma {:induction false} SomeBuildOrder(t: Tree, left: set<Path>, order: seq<Path>) returns (build: seq<Path>)
    requires Workshops.OrderedSoFar(order, t.Keys, left)
    ensures BuildOrder(build, t)
    decreases |left|
  {
    if left == {} {
      build := order;
    } else {
      var p := Workshops.ShallowestIsTop(left);
      Workshops.OrderedNext(order, t.Keys, left, p);
      build := SomeBuildOrder(t, left - {p}, order + [p]);
    }
  }

  /** And so has a resume. */
  lemma ProperRebuild(fs: FS, def: seq<Item>, id: nat, name: string) returns (removal: seq<Path>, build: seq<Path>)
    requires ValidDef(def) && MayResume(fs, def, id)
    ensures ProperResume(fs, def, id, name, removal, build)
  {
    hide StartOps, RemovalOrder, BuildOrder, Loadable, Available;
    var t := Entries(Exec(fs, StartOps(fs, def, false, name)).work);
    removal := Workshops.SomeOrder(t.Keys);
    var inventory := fs.archives[id].meta.value.inventory;
    build := SomeBuildOrder(inventory, inventory.Keys, []);
  }

  // ----- Reset and resume in a run -----------------------------------------------------------------------

  /** An active attempt whose work directory can be taken up again. */
  ghost predicate Attempt(s: Sys) {
    s.fs.state.Some? && Resumable(s.fs, s.fs.state.value, s.def)
  }

  /** The reset of an attempt, run to its end. */
  ghost function ResetAttempt(s: Sys, c: Choices): Event
    requires s.fs.state.Some? && Proper(s.fs, s.fs.state.value, c)
  {
    Resetting(c, |ResetOps(s.fs, s.fs.state.value, c)|)
  }

  /** The run `before`, a completed reset with an archive, and whatever the run `after` brings. */
  ghost predicate ResetBetween(s: Sys, before: seq<Event>, c: Choices, after: seq<Event>) {
    && Fresh(s) && AllPossible(s, before)
    && var s1 := Run(s, before);
       && s1.fs.state.Some? && Proper(s1.fs, s1.fs.state.value, c) && Archives(s1.fs, s1.fs.state.value, c)
       && AllPossible(After(s1, ResetAttempt(s1, c)), after)
  }

  ghost function Later(s: Sys, before: seq<Event>, c: Choices, after: seq<Event>): Sys
    requires ResetBetween(s, before, c, after)
  {
    var s1 := Run(s, before);
    Run(After(s1, ResetAttempt(s1, c)), after)
  }

  /** What holds of the archive at that later time. */
  lemma ArchiveLater(s: Sys, before: seq<Event>, c: Choices, after: seq<Event>)
    requires ResetBetween(s, before, c, after)
    ensures var s1 := Run(s, before); var s2 := Later(s, before, c, after); var r := s1.fs.state.value;
            && Safe(s1) && Safe(s2) && s2.fs.scenario == s1.fs.scenario
            && c.id in Exec(s1.fs, ResetOps(s1.fs, r, c)).archives && c.id in s2.fs.archives
            && s2.fs.archives[c.id] == Exec(s1.fs, ResetOps(s1.fs, r, c)).archives[c.id]
  {
    var s1 := Run(s, before);
    SafeRun(s, before);
    hide Run, AllPossible, ResetOps, Proper, Archives, After, Possible, Safe, ResetAttempt;
    AttemptReset(s1, c);
    var mid := After(s1, ResetAttempt(s1, c));
    RunArchives(mid, after);
    EventScenario(s1, ResetAttempt(s1, c));
    RunScenario(mid, after);
  }

  /** In every run, a later resume of what a reset archived, with any definition and at a time when nothing is
      recorded, is accepted if and only if the attempt could be resumed; with its own definition that is a matter of
      the work directory alone. */
  lemma AcceptedOverRuns(s: Sys, before: seq<Event>, c: Choices, after: seq<Event>, def: seq<Item>)
    requires ResetBetween(s, before, c, after) && Later(s, before, c, after).fs.state.None?
    ensures var s1 := Run(s, before);
            MayResume(Later(s, before, c, after).fs, def, c.id) <==> Resumable(s1.fs, s1.fs.state.value, def)
    ensures var s1 := Run(s, before); var r := s1.fs.state.value;
            Resumable(s1.fs, r, s1.def) <==>
              && r.active && s1.fs.work.Some? && Capturable(s1.fs.work.value)
              && MetaFits(s1.fs.scenario, MetaOf(s1.fs, r)) && OpenToOwner(s1.fs.work.value)
  {
    ArchiveLater(s, before, c, after);
    RecordNamesDefinition(s, before);
    var s1 := Run(s, before);
    hide Run, ResetOps, Proper, Archives, MayResume, Safe, ValidDef, Capturable, MetaFits, MetaOf;
    AcceptedExactly(s1.fs, s1.fs.state.value, def, c, Later(s, before, c, after).fs);
  }

  /** The resume of the archive `id`, run to its end. */
  ghost function ResumeAttempt(
    s: Sys, def: seq<Item>, id: nat, name: string, removal: seq<Path>, build: seq<Path>): Event
  {
    Resuming(def, id, name, removal, build, |ResumeSteps(s.fs, def, id, name, removal, build)|)
  }

  /** In every run: an attempt that is reset with an archive can be taken up again at any later time, with the same
      definition, when nothing is recorded and the work directory of that time can be put aside; whatever happened in
      between, the resume is accepted and gives back the paths, kinds, modes and bytes of the attempt. */
  lemma RoundTripOverRuns(s: Sys, before: seq<Event>, c: Choices, after: seq<Event>,
                          name: string, removal: seq<Path>, build: seq<Path>)
    requires ResetBetween(s, before, c, after) && Attempt(Run(s, before))
             && FreshName(name, Run(s, before).fs.work.value)
    requires var s1 := Run(s, before); var s2 := Later(s, before, c, after);
             Starts(s2.fs) && Possible(s2, ResumeAttempt(s2, s1.def, c.id, name, removal, build))
    ensures var s1 := Run(s, before); var s2 := Later(s, before, c, after);
            var s3 := After(s2, ResumeAttempt(s2, s1.def, c.id, name, removal, build));
            && MayResume(s2.fs, s1.def, c.id)
            && s3.fs.work == s1.fs.work && s3.fs.state.Some? && s3.fs.state.value.active && s3.def == s1.def
  {
    var s1 := Run(s, before);
    ArchiveLater(s, before, c, after);
    RecordNamesDefinition(s, before);
    hide Run, AllPossible, ResetOps, Proper, Archives, After, Possible, Safe, ResumeAttempt, Starts, FreshName,
         Resumable, ValidDef;
    TakenUp(s1, s1.fs.state.value, c, Later(s, before, c, after), name, removal, build);
  }

  lemma SafeRun(s: Sys, events: seq<Event>)
    requires Fresh(s) && AllPossible(s, events)
    ensures Safe(Run(s, events))
  {
    ScenarioSafety.RunKeeps(s, events);
  }

  /** The reset of an attempt leaves its archive. */
  lemma AttemptReset(s: Sys, c: Choices)
    requires Safe(s) && s.fs.state.Some? && Proper(s.fs, s.fs.state.value, c) && Archives(s.fs, s.fs.state.value, c)
    ensures Possible(s, ResetAttempt(s, c)) && Safe(After(s, ResetAttempt(s, c)))
    ensures After(s, ResetAttempt(s, c)).fs == Exec(s.fs, ResetOps(s.fs, s.fs.state.value, c))
    ensures c.id in Exec(s.fs, ResetOps(s.fs, s.fs.state.value, c)).archives
  {
    hide ResetOps, Proper, Archives, Safe;
    EventKeeps(s, ResetAttempt(s, c));
    MetaSaved(s.fs, s.fs.state.value, c);
  }

  /** The steps of a resume, none when it is refused. */
  ghost function ResumeSteps(fs: FS, def: seq<Item>, id: nat, name: string, removal: seq<Path>,
                             build: seq<Path>): seq<Op>
  {
    if ValidDef(def) && MayResume(fs, def, id) && ProperResume(fs, def, id, name, removal, build)
    then ResumeOps(fs, def, id, name, removal, build) else []
  }

  lemma TakenUp(s1: Sys, r: Record, c: Choices, s2: Sys, name: string, removal: seq<Path>, build: seq<Path>)
    requires s1.fs.state == Some(r) && Resumable(s1.fs, r, s1.def) && ValidDef(s1.def)
    requires Proper(s1.fs, r, c) && Archives(s1.fs, r, c) && s1.fs.work.Some? && FreshName(name, s1.fs.work.value)
    requires Safe(s2) && Starts(s2.fs) && s2.fs.scenario == s1.fs.scenario
    requires c.id in Exec(s1.fs, ResetOps(s1.fs, r, c)).archives && c.id in s2.fs.archives
    requires s2.fs.archives[c.id] == Exec(s1.fs, ResetOps(s1.fs, r, c)).archives[c.id]
    requires Possible(s2, ResumeAttempt(s2, s1.def, c.id, name, removal, build))
    ensures var s3 := After(s2, ResumeAttempt(s2, s1.def, c.id, name, removal, build));
            && MayResume(s2.fs, s1.def, c.id)
            && s3.fs.work == s1.fs.work && s3.fs.state.Some? && s3.fs.state.value.active && s3.def == s1.def
  {
    hide ResetOps, ResumeOps, Proper, ProperResume, MayResume, Archives, Held, ValidDef, FreshName, Resumable;
    assert MayStart(s2.fs);
    ResetThenResume(s1.fs, r, s1.def, c, s2.fs, name, removal, build);
  }

  // ----- Resets, crashed and repeated ----------------------------------------------------------------------

  predicate AllResets(events: seq<Event>) {
    forall i | 0 <= i < |events| :: events[i].Resetting?
  }

  /** The file is still in its place, or in some archive. */
  ghost predicate Found(fs: FS, p: Path, n: Node) {
    || (p in Entries(fs.work) && Entries(fs.work)[p] == n)
    || exists id :: id in fs.archives && Archived(fs, id, p, n)
  }

  lemma ArchivedStays(fs: FS, fs': FS, id: nat, p: Path, n: Node)
    requires ArchivesStay(fs, fs') && Archived(fs, id, p, n)
    ensures Found(fs', p, n)
  {
    assert id in fs'.archives && Archived(fs', id, p, n);
  }

  lemma {:induction false} FoundAfterResets(s: Sys, r: Record, resets: seq<Event>, t: Tree, p: Path)
    requires Safe(s) && AllPossible(s, resets) && AllResets(resets) && (s.fs.state.Some? ==> s.fs.state == Some(r))
    requires s.fs.work == Some(t) && p in t && t[p].File? && !DropsBits(t, r.targets, p)
             && !AsStaged(t[p], r.targets, p)
    ensures Found(Run(s, resets).fs, p, t[p])
    decreases |resets|
  {
    hide DropsBits, AsStaged, Safe, Proper, ResetOps, Archived, Possible;
    if resets != [] {
      var s' := After(s, resets[0]);
      EventKeeps(s, resets[0]);
      OneReset(s, r, resets[0], t, p);
      if s'.fs.work == Some(t) {
        FoundAfterResets(s', r, resets[1..], t, p);
      } else {
        RunArchives(s', resets[1..]);
        ArchivedStays(s'.fs, Run(s, resets).fs, resets[0].choices.id, p, t[p]);
      }
    }
  }

  lemma OneReset(s: Sys, r: Record, e: Event, t: Tree, p: Path)
    requires Safe(s) && Possible(s, e) && e.Resetting? && (s.fs.state.Some? ==> s.fs.state == Some(r))
    requires s.fs.work == Some(t) && p in t && t[p].File? && !DropsBits(t, r.targets, p)
             && !AsStaged(t[p], r.targets, p)
    ensures var fs := After(s, e).fs;
            && (fs.work == Some(t) || Archived(fs, e.choices.id, p, t[p]))
            && (fs.state.Some? ==> fs.state == Some(r))
  {
    hide DropsBits, AsStaged, Proper, ResetOps, Archived, Held, Crashed;
    if s.fs.state.Some? {
      ResetCrash(s.fs, r, s.pre, s.begun, e.choices, e.k);
      ArchivedOrThere(s.fs, r, e.choices, e.k, p);
    }
  }

  /** In every run, however often an attempt is reset and however the resets crash: each regular file that was in the
      work directory before the first of them is as it was staged, still in its place, or in an archive, with its
      bytes and its mode; unless its special mode bits are all that changed,
          beside nothing that moves the whole tree. */
  lemma ResetsLoseNothing(s: Sys, before: seq<Event>, resets: seq<Event>, p: Path)
    requires Fresh(s) && AllPossible(s, before) && AllPossible(Run(s, before), resets) && AllResets(resets)
    requires var s1 := Run(s, before);
             && s1.fs.state.Some? && s1.fs.work.Some? && p in s1.fs.work.value && s1.fs.work.value[p].File?
             && !DropsBits(s1.fs.work.value, s1.fs.state.value.targets, p)
    ensures var s1 := Run(s, before); var n := s1.fs.work.value[p];
            AsStaged(n, s1.fs.state.value.targets, p) || Found(Run(s1, resets).fs, p, n)
  {
    SafeRun(s, before);
    var s1 := Run(s, before);
    hide Run, DropsBits, AsStaged, Safe, Found;
    if !AsStaged(s1.fs.work.value[p], s1.fs.state.value.targets, p) {
      FoundAfterResets(s1, s1.fs.state.value, resets, s1.fs.work.value, p);
    }
  }
}
