/** A reset loses nothing of the participant's work, and a resume rebuilds what a reset archived. */
module ScenarioWork {
  import opened Options
  import opened Workspaces
  import opened Scenarios
  import opened ScenarioSafety
  import ScenarioStage

  // ----- What is archived -----------------------------------------------------------------------------

  /** The file is byte for byte and mode for mode what was staged at its path. */
  predicate AsStaged(n: Node, targets: seq<Target>, p: Path) {
    exists i | 0 <= i < |targets| :: targets[i].path == p && targets[i].staged == Some(n)
  }

  /** The file has the staged bytes and, but for the special mode bits, the staged mode; the command looks at no more.
      */
  predicate LooksStaged(n: Node, targets: seq<Target>, p: Path) {
    n.File? && exists i | 0 <= i < |targets| ::
          targets[i].path == p && targets[i].staged == Some(File(n.mode % 512, n.data))
  }

  lemma UnchangedLooksStaged(t: Tree, targets: seq<Target>, p: Path)
    requires p in t && t[p].File?
    ensures IsUnchanged(t, targets, p) <==> LooksStaged(t[p], targets, p)
  {
    if i :| 0 <= i < |targets| && targets[i].path == p && StatusOf(t, targets[i]) == Unchanged {
      assert targets[i].staged == Some(File(t[p].mode % 512, t[p].data));
    }
    if LooksStaged(t[p], targets, p) {
      var i :| 0 <= i < |targets| && targets[i].path == p
          && targets[i].staged == Some(File(t[p].mode % 512, t[p].data));
      assert StatusOf(t, targets[i]) == Unchanged;
    }
  }

  lemma PlainIsAsStaged(n: Node, targets: seq<Target>, p: Path)
    requires n.File?
    ensures LooksStaged(n, targets, p) && n.mode < 512 ==> AsStaged(n, targets, p)
  {
  }

  /** Payloads are staged without special mode bits. */
  predicate PlainTargets(targets: seq<Target>) {
    forall i | 0 <= i < |targets| ::
          targets[i].staged.Some? && targets[i].staged.value.File? ==> PlainMode(targets[i].staged.value.mode)
  }

  /** A file that looks staged is as it was staged exactly when it has no special mode bits either. */
  lemma SpecialBits(n: Node, targets: seq<Target>, p: Path)
    requires PlainTargets(targets) && LooksStaged(n, targets, p)
    ensures AsStaged(n, targets, p) <==> n.mode < 512
  {
    if AsStaged(n, targets, p) {
      var i :| 0 <= i < |targets| && targets[i].path == p && targets[i].staged == Some(n);
      assert PlainMode(n.mode);
    }
  }

  /** Whether a reset drops the file unseen: its special mode bits are all that changed, and only changed files are
      copied. */
  ghost predicate DropsBits(t: Tree, targets: seq<Target>, p: Path)
    requires p in t && t[p].File?
  {
    LooksStaged(t[p], targets, p) && t[p].mode >= 512 && !MovesWhole(t, targets)
  }

  function Picked(t: Tree, paths: seq<Path>): Tree {
    map p | p in t && p in paths :: t[p]
  }

  lemma {:induction false} CopiesExec(fs: FS, id: nat, t: Tree, paths: seq<Path>, done: Tree)
    requires id in fs.archives && fs.archives[id].tree == done
    requires forall i | 0 <= i < |paths| :: paths[i] in t
    ensures var fs' := Exec(fs, Copies(id, t, paths));
            && fs'.work == fs.work && fs'.state == fs.state && fs'.backup == fs.backup
            && id in fs'.archives && fs'.archives[id] == Archive(done + Picked(t, paths), fs.archives[id].meta)
    decreases |paths|
  {
    if paths == [] {
      assert done + Picked(t, paths) == done;
    } else {
      var p := paths[0];
      hide Picked;
      assert Copies(id, t, paths)[1..] == Copies(id, t, paths[1..]);
      CopiesExec(Do(fs, CopyToArchive(id, p, t[p])), id, t, paths[1..], done[p := t[p]]);
      PickedNext(t, paths, done);
    }
  }

  lemma PickedNext(t: Tree, paths: seq<Path>, done: Tree)
    requires paths != [] && paths[0] in t
    ensures done[paths[0] := t[paths[0]]] + Picked(t, paths[1..]) == done + Picked(t, paths)
  {
    assert paths == [paths[0]] + paths[1..];
  }

  /** A selective archive: made, filled, and closed with its inventory. */
  lemma CopiedExec(fs: FS, id: nat, t: Tree, paths: seq<Path>, meta: Meta)
    requires forall i | 0 <= i < |paths| :: paths[i] in t
    ensures var fs' := Exec(fs, [NewArchive(id)] + Copies(id, t, paths) + [WriteMeta(id, meta)]);
            id in fs'.archives && fs'.archives[id] == Archive(Picked(t, paths), Some(meta))
  {
    hide Picked;
    ExecConcat(fs, [NewArchive(id)] + Copies(id, t, paths), [WriteMeta(id, meta)]);
    ExecConcat(fs, [NewArchive(id)], Copies(id, t, paths));
    ExecOne(fs, NewArchive(id));
    CopiesExec(Do(fs, NewArchive(id)), id, t, paths, map[]);
    assert map[] + Picked(t, paths) == Picked(t, paths);
    ExecOne(Exec(fs, [NewArchive(id)] + Copies(id, t, paths)), WriteMeta(id, meta));
  }

  /** Whether the reset makes an archive at all. */
  ghost predicate Archives(fs: FS, r: Record, c: Choices) {
    && !Untouched(fs, r)
    && ((fs.work.Some? && MovesWhole(Entries(fs.work), r.targets)) || c.copies != []
       || !AllUnchanged(Entries(fs.work), r.targets))
  }

  /** What a finished archive holds: the whole tree, or exactly the changed files, and the inventory. */
  lemma ArchiveHolds(fs: FS, r: Record, c: Choices)
    requires c.id !in fs.archives && Enumerates(c.copies, ChangedFiles(Entries(fs.work), r.targets))
    requires Archives(fs, r, c)
    ensures var fs' := Exec(fs, ArchiveOps(fs, r, c.id, c.copies));
            && c.id in fs'.archives && fs'.archives[c.id].meta == Some(MetaOf(fs, r))
            && fs'.archives[c.id].tree == if fs.work.Some? && MovesWhole(Entries(fs.work), r.targets) then
               Entries(fs.work)
                                          else Picked(Entries(fs.work), c.copies)
  {
    hide MovesWhole, AllUnchanged, MetaOf, IsUnchanged, Untouched;
    var t := Entries(fs.work);
    var ops := ArchiveOps(fs, r, c.id, c.copies);
    if fs.work.Some? && MovesWhole(t, r.targets) {
      OneByOne(fs, ops, 0);
      OneByOne(Do(fs, ops[0]), ops[1..], 0);
      OneByOne(Do(Do(fs, ops[0]), ops[1]), ops[1..][1..], 0);
    } else {
      assert forall i | 0 <= i < |c.copies| :: c.copies[i] in c.copies;
      CopiedExec(fs, c.id, t, c.copies, MetaOf(fs, r));
    }
  }

  /** Where a file of the work directory is to be found. */
  ghost predicate Kept(fs: FS, id: nat, p: Path, n: Node) {
    || (p in Entries(fs.work) && Entries(fs.work)[p] == n)
    || Archived(fs, id, p, n)
  }

  ghost predicate Archived(fs: FS, id: nat, p: Path, n: Node) {
    id in fs.archives && p in fs.archives[id].tree && fs.archives[id].tree[p] == n
  }

  lemma {:induction false} RestoreKeepsArchives(fs: FS, r: Record, order: seq<Path>, k: nat)
    requires Restorable(fs, r)
    ensures Crashed(fs, RestoreOps(fs, r, order) + [ClearState], k).archives == fs.archives
  {
    hide Restorable;
    var ops := RestoreOps(fs, r, order) + [ClearState];
    SameArchives(fs, if k < |ops| then ops[..k] else ops);
  }

  /** A reset, crashed at any step, loses no regular file of the work directory: each is as it was staged, still
      in its place, or in the archive, with its bytes and its mode; unless special mode bits are all that changed. */
  lemma ResetLosesNothing(fs: FS, r: Record, c: Choices, k: nat, p: Path)
    requires fs.state == Some(r) && fs.work.Some? && Proper(fs, r, c)
    requires p in fs.work.value && fs.work.value[p].File? && !DropsBits(fs.work.value, r.targets, p)
    ensures AsStaged(fs.work.value[p], r.targets, p)
            || Kept(Crashed(fs, ResetOps(fs, r, c), k), c.id, p, fs.work.value[p])
  {
    if !AsStaged(fs.work.value[p], r.targets, p) {
      ArchivedOrThere(fs, r, c, k, p);
    }
  }

  /** A file that a reset has not archived yet is where it was, with everything else in the work directory. */
  lemma ArchivedOrThere(fs: FS, r: Record, c: Choices, k: nat, p: Path)
    requires fs.state == Some(r) && fs.work.Some? && Proper(fs, r, c)
    requires p in fs.work.value && fs.work.value[p].File? && !DropsBits(fs.work.value, r.targets, p)
    requires !AsStaged(fs.work.value[p], r.targets, p)
    ensures var fs' := Crashed(fs, ResetOps(fs, r, c), k);
            Archived(fs', c.id, p, fs.work.value[p]) || fs'.work == fs.work
  {
    var t := fs.work.value;
    var archive := ArchiveOps(fs, r, c.id, c.copies);
    UnchangedLooksStaged(t, r.targets, p);
    PlainIsAsStaged(t[p], r.targets, p);
    assert !LooksStaged(t[p], r.targets, p) ==> p in c.copies;
    hide IsUnchanged, AsStaged, LooksStaged, ChangedFiles, MovesWhole, Untouched, Proper, ArchiveOps, ResetOps,
         AllUnchanged;
    if Untouched(fs, r) {
      UntouchedStays(fs, r, c, k);
    } else if k < |archive| {
      ResetStarts(fs, r, c, k);
      ArchiveCut(fs, r, c.id, c.copies, k);
    } else {
      ArchiveHolds(fs, r, c);
      ResetEnds(fs, r, c, k);
    }
  }

  /** Once a reset has done its archiving, a file is as it was staged or in the archive if and only if it is not one
      whose special mode bits alone changed, beside nothing that moves the whole tree. */
  lemma ResetKeepsExactly(fs: FS, r: Record, c: Choices, k: nat, p: Path)
    requires fs.state == Some(r) && fs.work.Some? && Proper(fs, r, c) && !Untouched(fs, r) && PlainTargets(r.targets)
    requires p in fs.work.value && fs.work.value[p].File?
    requires k >= |ArchiveOps(fs, r, c.id, c.copies)|
    ensures AsStaged(fs.work.value[p], r.targets, p)
            || Archived(Crashed(fs, ResetOps(fs, r, c), k), c.id, p, fs.work.value[p])
       <==> !DropsBits(fs.work.value, r.targets, p)
  {
    var t := fs.work.value;
    var fs' := Crashed(fs, ResetOps(fs, r, c), k);
    UnchangedLooksStaged(t, r.targets, p);
    assert p in c.copies <==> !LooksStaged(t[p], r.targets, p);
    if LooksStaged(t[p], r.targets, p) {
      SpecialBits(t[p], r.targets, p);
    }
    hide IsUnchanged, AsStaged, LooksStaged, ChangedFiles, MovesWhole, Untouched, Proper, ArchiveOps, ResetOps,
         AllUnchanged, PlainTargets;
    ResetEnds(fs, r, c, k);
    if Archives(fs, r, c) {
      ArchiveHolds(fs, r, c);
    } else {
      NoArchive(fs, r, c);
    }
  }

  lemma NoArchive(fs: FS, r: Record, c: Choices)
    requires c.id !in fs.archives && Enumerates(c.copies, ChangedFiles(Entries(fs.work), r.targets))
    requires !Archives(fs, r, c)
    ensures ArchiveOps(fs, r, c.id, c.copies) == [] && c.id !in Exec(fs, ArchiveOps(fs, r, c.id, c.copies)).archives
  {
  }

  /** The smallest such case: a payload staged with mode 0644 that was given the set-user-id bit. */
  lemma SetUserIdLost(fs: FS, r: Record, c: Choices)
    requires fs.work == Some(map[[] := Dir(DIR_MODE), ["f"] := File(0x9A4, "x")]) && fs.state == Some(r) && r.active
    requires r.targets == [Target(["f"], Some(File(0x1A4, "x")))] && Proper(fs, r, c)
    ensures StatusOf(fs.work.value, r.targets[0]) == Unchanged && !AsStaged(fs.work.value[["f"]], r.targets, ["f"])
    ensures Exec(fs, ResetOps(fs, r, c)).archives == fs.archives
  {
    assert c.copies != [] ==> c.copies[0] in c.copies;
    BitsUnseen(fs.work.value, r.targets);
    assert ArchiveOps(fs, r, c.id, c.copies) == [];
    hide Proper, ResetOps, ArchiveOps;
    ResetEnds(fs, r, c, |ResetOps(fs, r, c)|);
  }

  lemma BitsUnseen(t: Tree, targets: seq<Target>)
    requires t == map[[] := Dir(DIR_MODE), ["f"] := File(0x9A4, "x")]
             && targets == [Target(["f"], Some(File(0x1A4, "x")))]
    ensures StatusOf(t, targets[0]) == Unchanged && AllUnchanged(t, targets) && ChangedFiles(t, targets) == {}
            && !MovesWhole(t, targets)
  {
    assert t[["f"]].mode % 512 == 0x1A4;
    assert targets[0].path == ["f"] && StatusOf(t, targets[0]) == Unchanged;
    assert IsUnchanged(t, targets, ["f"]);
  }

  /** A reset begins with archiving ... */
  lemma ResetStarts(fs: FS, r: Record, c: Choices, k: nat)
    requires fs.state == Some(r) && Proper(fs, r, c) && k < |ArchiveOps(fs, r, c.id, c.copies)|
    ensures Crashed(fs, ResetOps(fs, r, c), k) == Crashed(fs, ArchiveOps(fs, r, c.id, c.copies), k)
  {
    hide ArchiveOps, RestoreOps, Restorable, RemovalOrder, Enumerates;
    var archive := ArchiveOps(fs, r, c.id, c.copies);
    if Resets(fs, r, c) {
      var rest := RestoreOps(Exec(fs, archive), r, c.order) + [ClearState];
      assert archive + RestoreOps(Exec(fs, archive), r, c.order) + [ClearState] == archive + rest;
      CrashedConcat(fs, archive, rest, k);
    }
  }

  /** ... and nothing after it touches an archive. */
  lemma ResetEnds(fs: FS, r: Record, c: Choices, k: nat)
    requires fs.state == Some(r) && Proper(fs, r, c) && k >= |ArchiveOps(fs, r, c.id, c.copies)|
    ensures Crashed(fs, ResetOps(fs, r, c), k).archives == Exec(fs, ArchiveOps(fs, r, c.id, c.copies)).archives
  {
    hide ArchiveOps, RestoreOps, Restorable, RemovalOrder, Enumerates;
    var archive := ArchiveOps(fs, r, c.id, c.copies);
    var fs1 := Exec(fs, archive);
    if Resets(fs, r, c) {
      var rest := RestoreOps(fs1, r, c.order) + [ClearState];
      assert archive + RestoreOps(fs1, r, c.order) + [ClearState] == archive + rest;
      CrashedConcat(fs, archive, rest, k);
      RestoreKeepsArchives(fs1, r, c.order, k - |archive|);
    }
  }

  /** A reset before anything was moved leaves the work directory alone. */
  lemma UntouchedStays(fs: FS, r: Record, c: Choices, k: nat)
    requires fs.state == Some(r) && Proper(fs, r, c) && Untouched(fs, r)
    ensures Crashed(fs, ResetOps(fs, r, c), k).work == fs.work
  {
    assert ArchiveOps(fs, r, c.id, c.copies) == [];
    if Resets(fs, r, c) {
      assert ResetOps(fs, r, c) == [] + [] + [ClearState] == [ClearState];
      OneByOne(fs, [ClearState], k);
    }
  }

  /** An entry that copying files cannot keep (a link, an odd entry, a directory of the participant's own, or a work
      directory that is not one) forces the whole tree into the archive, where it stays. */
  lemma OddWorkMovesWhole(fs: FS, r: Record, c: Choices, k: nat, p: Path)
    requires fs.state == Some(r) && fs.work.Some? && Proper(fs, r, c) && !Untouched(fs, r)
    requires p in fs.work.value
    requires NeedsWholeTree(r.targets, p, fs.work.value[p]) || (p == [] && !fs.work.value[p].Dir?)
    requires k >= |ArchiveOps(fs, r, c.id, c.copies)|
    ensures var fs' := Crashed(fs, ResetOps(fs, r, c), k);
            c.id in fs'.archives && fs'.archives[c.id].tree == fs.work.value
  {
    assert MovesWhole(fs.work.value, r.targets);
    hide NeedsWholeTree, MovesWhole, Untouched, ArchiveOps, AllUnchanged, ResetOps;
    ArchiveHolds(fs, r, c);
    ResetEnds(fs, r, c, k);
  }

  // ----- Reset, then resume ----------------------------------------------------------------------------

  /** No entry is named like the temporary files. */
  predicate FreshName(name: string, t: Tree) {
    forall p | p in t && p != [] :: p[|p| - 1] != name
  }

  /** A tree in the making: the entries in `order`, directories still with the mode they are made with. */
  function Made(inventory: Tree, order: seq<Path>): Tree {
    map p | p in inventory && p in order :: if inventory[p].Dir? then Dir(DIR_MODE) else inventory[p]
  }

  lemma MakesOne(fs: FS, p: Path)
    requires p !in Entries(fs.work) && (p != [] ==> Parent(p) in Entries(fs.work))
    ensures Exec(fs, MakeDirs(Entries(fs.work), p)) == fs.(work := Some(Entries(fs.work)[p := Dir(DIR_MODE)]))
  {
    assert MakeDirs(Entries(fs.work), p) == [MakeDir(p)];
    assert p in Entries(fs.work)[p := Dir(DIR_MODE)];
    ExecOne(fs, MakeDir(p));
  }

  /** An atomic write beside existing entries leaves the file and no temporary. */
  lemma WritesOne(fs: FS, p: Path, n: Node, name: string)
    requires p != [] && Parent(p) in Entries(fs.work) && Parent(p) + [name] !in Entries(fs.work) && p[|p| - 1] != name
    ensures Exec(fs, WriteOps(Entries(fs.work), p, n, name)) == fs.(work := Some(Entries(fs.work)[p := n]))
  {
    var t, tmp := Entries(fs.work), Parent(p) + [name];
    assert tmp[|tmp| - 1] == name;
    assert MakeDirs(t, Parent(p)) == [];
    assert WriteOps(t, p, n, name) == [CreateTemp(tmp, n), Replace(tmp, p)];
    hide Do, Exec, MakeDirs, WriteOps;
    ScenarioStage.ReplaceExec(fs, tmp, p, n);
  }

  lemma MadeNext(inventory: Tree, order: seq<Path>, i: nat)
    requires i < |order| && order[i] in inventory && order[i] !in order[..i]
    ensures Made(inventory, order[..i + 1])
         == Made(inventory, order[..i])[order[i] := if inventory[order[i]].Dir? then Dir(DIR_MODE)
             else inventory[order[i]]]
    ensures order[i] !in Made(inventory, order[..i])
  {
    assert order[..i + 1] == order[..i] + [order[i]];
  }

  /** In a build order the directory of an entry comes before it. */
  lemma ParentMade(inventory: Tree, order: seq<Path>, i: nat)
    requires IsTree(inventory) && BuildOrder(order, inventory) && i < |order|
    ensures order[i] in inventory && order[i] !in order[..i]
    ensures order[i] != [] ==> Parent(order[i]) in order[..i] && Parent(order[i]) in inventory
  {
    var p := order[i];
    assert p in order;
    if p != [] {
      var j :| 0 <= j < |order| && order[j] == Parent(p);
      assert Parent(p) < p;
      assert j < i;
      assert order[..i][j] == Parent(p);
    }
  }

  lemma {:induction false} BuildExec(fs: FS, inventory: Tree, order: seq<Path>, i: nat, name: string)
    requires IsDirectory(inventory) && BuildOrder(order, inventory) && FreshName(name, inventory) && i <= |order|
    requires forall p | p in inventory :: inventory[p].Dir? || inventory[p].File?
    requires Entries(fs.work) == Made(inventory, order[..i])
    requires forall j | 0 <= j < |order| :: order[j] in inventory
    ensures Entries(Exec(fs, BuildOps(fs, inventory, order[i..], name)).work) == Made(inventory, order)
    decreases |order| - i
  {
    hide BuildOrder, IsDirectory, Made, WriteOps;
    if i == |order| {
      assert order[..i] == order;
    } else {
      var p, t := order[i], Entries(fs.work);
      var ops := BuildOne(t, p, inventory[p], name);
      var fs1 := Exec(fs, ops);
      assert order[i..][1..] == order[i + 1..];
      BuildStep(fs, inventory, order, i, name);
      BuildExec(fs1, inventory, order, i + 1, name);
      ExecConcat(fs, ops, BuildOps(fs1, inventory, order[i + 1..], name));
    }
  }

  lemma BuildStep(fs: FS, inventory: Tree, order: seq<Path>, i: nat, name: string)
    requires IsDirectory(inventory) && BuildOrder(order, inventory) && FreshName(name, inventory) && i < |order|
    requires forall p | p in inventory :: inventory[p].Dir? || inventory[p].File?
    requires Entries(fs.work) == Made(inventory, order[..i])
    ensures order[i] in inventory
    ensures Entries(Exec(fs, BuildOne(Entries(fs.work), order[i], inventory[order[i]], name)).work)
            == Made(inventory, order[..i + 1])
  {
    ParentMade(inventory, order, i);
    MadeNext(inventory, order, i);
    hide BuildOrder;
    var p := order[i];
    if inventory[p].Dir? {
      MakesOne(fs, p);
    } else {
      assert p != [];
      var tmp := Parent(p) + [name];
      assert tmp[|tmp| - 1] == name;
      WritesOne(fs, p, inventory[p], name);
    }
  }

  /** Setting the directory modes finishes the tree. */
  lemma {:induction false} ChmodExec(fs: FS, inventory: Tree, order: seq<Path>)
    requires forall i | 0 <= i < |order| :: order[i] in inventory
    requires fs.work.Some? && [] in fs.work.value && fs.work.value.Keys == inventory.Keys
    requires forall p | p in inventory ::
               fs.work.value[p] == inventory[p] || (inventory[p].Dir? && fs.work.value[p].Dir? && p in order)
    ensures Exec(fs, ChmodOps(inventory, order)).work == Some(inventory)
    decreases |order|
  {
    if order == [] {
      assert fs.work.value == inventory;
    } else {
      var p, init := order[|order| - 1], order[..|order| - 1];
      assert order == init + [p];
      if inventory[p].Dir? {
        var fs1 := Do(fs, SetMode(p, inventory[p].mode));
        assert p in fs.work.value[p := inventory[p]];
        assert fs1.work == Some(fs.work.value[p := inventory[p]]);
        ChmodExec(fs1, inventory, init);
        ExecConcat(fs, [SetMode(p, inventory[p].mode)], ChmodOps(inventory, init));
        ExecOne(fs, SetMode(p, inventory[p].mode));
      } else {
        ChmodExec(fs, inventory, init);
        assert [] + ChmodOps(inventory, init) == ChmodOps(inventory, init);
      }
    }
  }

  /** Rebuilding gives the inventory, whatever was staged before. */
  lemma RebuildExec(fs: FS, inventory: Tree, name: string, removal: seq<Path>, build: seq<Path>)
    requires fs.work != Some(map[]) && RemovalOrder(removal, Entries(fs.work))
    requires IsDirectory(inventory) && BuildOrder(build, inventory) && FreshName(name, inventory)
    requires forall p | p in inventory :: inventory[p].Dir? || inventory[p].File?
    ensures forall i | 0 <= i < |build| :: build[i] in inventory
    ensures Exec(fs, RebuildOps(fs, inventory, name, removal, build)).work == Some(inventory)
  {
    assert forall i | 0 <= i < |build| :: build[i] in build;
    var gone := fs.(work := None);
    RemovalEmpties(fs, removal);
    MadeNothing(inventory, build);
    hide RemovalOrder, IsDirectory, Made, BuildOps, ChmodOps, Exec, FreshName;
    BuildExec(gone, inventory, build, 0, name);
    assert build[0..] == build;
    var made := Exec(gone, BuildOps(gone, inventory, build, name));
    BuiltWork(inventory, build);
    ChmodExec(made, inventory, build);
    ExecConcat(fs, Removal(removal) + BuildOps(gone, inventory, build, name), ChmodOps(inventory, build));
    ExecConcat(fs, Removal(removal), BuildOps(gone, inventory, build, name));
  }

  lemma MadeNothing(inventory: Tree, build: seq<Path>)
    ensures Made(inventory, build[..0]) == map[]
  {
  }

  lemma BuiltWork(inventory: Tree, build: seq<Path>)
    requires IsDirectory(inventory) && BuildOrder(build, inventory)
    ensures var t := Made(inventory, build);
            && t.Keys == inventory.Keys && [] in t && t != map[]
            && forall p | p in inventory :: t[p] == inventory[p] || (inventory[p].Dir? && t[p].Dir? && p in build)
  {
  }

  /** A finished attempt that can be resumed: active, captured, small enough to describe, and with directories its
      owner may use. */
  ghost predicate Resumable(fs: FS, r: Record, def: seq<Item>) {
    && fs.state == Some(r) && r.active && r.terms == Terms(def) && r.targets == Staged(def)
    && fs.work.Some? && Capturable(fs.work.value) && MetaFits(fs.scenario, MetaOf(fs, r)) && OpenToOwner(fs.work.value)
  }

  /** The archive of a resumable attempt offers every file of it: its own copy, or the payload it still equals. */
  lemma ArchiveOffers(fs: FS, r: Record, c: Choices, def: seq<Item>, p: Path)
    requires Resumable(fs, r, def) && Enumerates(c.copies, ChangedFiles(fs.work.value, r.targets))
    requires p in fs.work.value && fs.work.value[p].File?
    ensures Available(Archive(if MovesWhole(fs.work.value, r.targets) then fs.work.value
            else Picked(fs.work.value, c.copies), Some(MetaOf(fs, r))),
                      def, p, fs.work.value[p].data)
  {
    hide MovesWhole, MetaOf, MetaFits, Capturable;
    var t := fs.work.value;
    if !MovesWhole(t, r.targets) && p !in c.copies {
      assert IsUnchanged(t, r.targets, p);
      UnchangedLooksStaged(t, r.targets, p);
      var i :| 0 <= i < |r.targets| && r.targets[i].path == p && r.targets[i].staged.Some?
          && r.targets[i].staged.value.File?
               && r.targets[i].staged.value.data == t[p].data;
      assert def[i].target == p && def[i].data == t[p].data;
    }
  }

  /** What the archive of a resumable attempt is. */
  ghost predicate Saved(fs: FS, r: Record, c: Choices, a: Archive)
    requires fs.work.Some?
  {
    a == Archive(if MovesWhole(fs.work.value, r.targets) then fs.work.value
        else Picked(fs.work.value, c.copies), Some(MetaOf(fs, r)))
  }

  /** A reset then a resume is a round trip: in any later state of the workspace with no scenario recorded, with
      the same definition and payloads and the archive as the reset left it, resume is accepted, and it rebuilds
      the work directory as it was before the reset: the same paths, kinds, modes and bytes. */
  lemma ResetThenResume(fs: FS, r: Record, def: seq<Item>, c: Choices, later: FS, name: string, removal: seq<Path>,
                        build: seq<Path>)
    requires ValidDef(def) && Resumable(fs, r, def) && Proper(fs, r, c) && Archives(fs, r, c)
    requires Starts(later) && later.work != Some(map[]) && later.scenario == fs.scenario
    requires c.id in later.archives && c.id in Exec(fs, ResetOps(fs, r, c)).archives
    requires later.archives[c.id] == Exec(fs, ResetOps(fs, r, c)).archives[c.id]
    requires FreshName(name, fs.work.value)
    requires MayResume(later, def, c.id) ==> ProperResume(later, def, c.id, name, removal, build)
    ensures MayResume(later, def, c.id)
    ensures var fs' := Exec(later, ResumeOps(later, def, c.id, name, removal, build));
            fs'.work == fs.work && fs'.state.Some? && fs'.state.value.active
  {
    var t := fs.work.value;
    SavedIs(fs, r, c);
    hide ResetOps, Proper, Archives;
    assert Saved(fs, r, c, later.archives[c.id]);
    Accepted(fs, r, def, c, later);
    ResumeRebuilds(later, def, c.id, name, removal, build, t);
  }

  lemma SavedIs(fs: FS, r: Record, c: Choices)
    requires fs.work.Some? && fs.state == Some(r) && Proper(fs, r, c) && Archives(fs, r, c)
    ensures var fs' := Exec(fs, ResetOps(fs, r, c)); c.id in fs'.archives && Saved(fs, r, c, fs'.archives[c.id])
  {
    hide ResetOps, MovesWhole, Untouched, AllUnchanged, ChangedFiles, ArchiveOps, MetaOf;
    ArchiveHolds(fs, r, c);
    ResetEnds(fs, r, c, |ResetOps(fs, r, c)| + |ArchiveOps(fs, r, c.id, c.copies)|);
  }

  lemma Accepted(fs: FS, r: Record, def: seq<Item>, c: Choices, later: FS)
    requires Resumable(fs, r, def) && Enumerates(c.copies, ChangedFiles(fs.work.value, r.targets))
    requires later.state.None? && later.scenario == fs.scenario
    requires c.id in later.archives && Saved(fs, r, c, later.archives[c.id])
    ensures MayResume(later, def, c.id) && later.archives[c.id].meta.value.inventory == fs.work.value
  {
    hide MovesWhole, Capturable, MetaFits, Enumerates, ChangedFiles;
    forall p | p in fs.work.value && fs.work.value[p].File?
      ensures Available(later.archives[c.id], def, p, fs.work.value[p].data)
    {
      ArchiveOffers(fs, r, c, def, p);
    }
    hide Available;
  }

  /** A resume of what a reset archived is accepted if and only if the attempt can be resumed: it was active, of this
      definition and these payloads, with a work directory that can be captured (safe names among the rest) and
      described within bounds, and directories open to their owner. */
  lemma AcceptedExactly(fs: FS, r: Record, def: seq<Item>, c: Choices, later: FS)
    requires fs.state == Some(r) && Proper(fs, r, c) && Archives(fs, r, c)
    requires later.state.None? && later.scenario == fs.scenario
    requires c.id in later.archives && c.id in Exec(fs, ResetOps(fs, r, c)).archives
    requires later.archives[c.id] == Exec(fs, ResetOps(fs, r, c)).archives[c.id]
    ensures MayResume(later, def, c.id) <==> Resumable(fs, r, def)
  {
    MetaSaved(fs, r, c);
    if Resumable(fs, r, def) {
      SavedIs(fs, r, c);
      hide ResetOps, Proper, Archives, MayResume, Resumable;
      AcceptedLater(fs, r, def, c, later);
    } else {
      hide ResetOps, Proper, Archives, Available, Capturable, MetaFits, OwnerAccess;
    }
  }

  lemma AcceptedLater(fs: FS, r: Record, def: seq<Item>, c: Choices, later: FS)
    requires Resumable(fs, r, def) && Proper(fs, r, c)
    requires later.state.None? && later.scenario == fs.scenario
    requires c.id in later.archives && Saved(fs, r, c, later.archives[c.id])
    ensures MayResume(later, def, c.id)
  {
    Accepted(fs, r, def, c, later);
  }

  lemma MetaSaved(fs: FS, r: Record, c: Choices)
    requires fs.state == Some(r) && Proper(fs, r, c) && Archives(fs, r, c)
    ensures var fs' := Exec(fs, ResetOps(fs, r, c));
            c.id in fs'.archives && fs'.archives[c.id].meta == Some(MetaOf(fs, r))
  {
    hide ResetOps, MovesWhole, Untouched, AllUnchanged, ChangedFiles, ArchiveOps, MetaOf;
    ArchiveHolds(fs, r, c);
    ResetEnds(fs, r, c, |ResetOps(fs, r, c)| + |ArchiveOps(fs, r, c.id, c.copies)|);
  }

  /** One entry with an unsafe name, and the archive is for manual recovery only. */
  lemma UnsafeNameBlocks(fs: FS, r: Record, def: seq<Item>, c: Choices, later: FS, p: Path)
    requires fs.state == Some(r) && Proper(fs, r, c) && Archives(fs, r, c)
    requires later.state.None? && later.scenario == fs.scenario
    requires c.id in later.archives && c.id in Exec(fs, ResetOps(fs, r, c)).archives
    requires later.archives[c.id] == Exec(fs, ResetOps(fs, r, c)).archives[c.id]
    requires fs.work.Some? && p in fs.work.value && !SafePath(p)
    ensures later.archives[c.id].meta.Some? && later.archives[c.id].meta.value.blocked && !MayResume(later, def, c.id)
  {
    assert !Storable(p, fs.work.value[p]);
    assert !Capturable(fs.work.value);
    hide ResetOps, Proper, Archives, Capturable, MayResume;
    MetaSaved(fs, r, c);
    AcceptedExactly(fs, r, def, c, later);
  }

  /** A blank in a name is enough. */
  lemma NotesAreUnsafe()
    ensures !SafePath(["my notes.txt"]) && !Capturable(map[[] := Dir(DIR_MODE), ["my notes.txt"] := File(0x1A4, "x")])
  {
    var t: Tree := map[[] := Dir(DIR_MODE), ["my notes.txt"] := File(0x1A4, "x")];
    assert "my notes.txt"[2] == ' ' && !SafeChar(' ');
    assert !SafeName("my notes.txt");
    assert ["my notes.txt"][0] == "my notes.txt";
    assert ["my notes.txt"] in t && !Storable(["my notes.txt"], t[["my notes.txt"]]);
  }

  lemma ResumeRebuilds(fs: FS, def: seq<Item>, id: nat, name: string, removal: seq<Path>, build: seq<Path>, t: Tree)
    requires ValidDef(def) && MayResume(fs, def, id) && ProperResume(fs, def, id, name, removal, build)
    requires Starts(fs) && fs.work != Some(map[]) && FreshName(name, t) && fs.archives[id].meta.value.inventory == t
    ensures var fs' := Exec(fs, ResumeOps(fs, def, id, name, removal, build));
            fs'.work == Some(t) && fs'.state == Some(LastRecord(fs, def, true))
  {
    var start := StartOps(fs, def, false, name);
    var fs1 := Exec(fs, start);
    ResumeIs(fs, def, id, name, removal, build);
    StartCrash(fs, def, false, name, |start|);
    assert Capturable(t);
    hide MayResume, StartOps, Starts, FreshName, ResumeOps, Sound, ValidDef;
    RebuildExec(fs1, t, name, removal, build);
    var rebuild, last := RebuildOps(fs1, t, name, removal, build), [SaveState(LastRecord(fs, def, true))];
    ExecConcat(fs, start, rebuild + last);
    ExecConcat(fs1, rebuild, last);
    ExecOne(Exec(fs1, rebuild), last[0]);
  }
}
