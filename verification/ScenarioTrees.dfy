/** The work directory is a tree in every state of every run, also when a command crashes between two operations. */
module ScenarioTrees {
  import opened Options
  import opened Workspaces
  import opened Scenarios
  import opened ScenarioSafety
  import opened ScenarioWork
  import opened ScenarioStage

  // ----- Operations that keep the tree ------------------------------------------------------------------------

  predicate TreeWork(fs: FS) {
    fs.work.Some? ==> IsTree(fs.work.value)
  }

  /** The work directory is a tree before and after every one of the operations. */
  ghost predicate KeepsTree(fs: FS, ops: seq<Op>)
    decreases |ops|
  {
    TreeWork(fs) && (ops == [] || KeepsTree(Do(fs, ops[0]), ops[1..]))
  }

  lemma {:induction false} KeptCut(fs: FS, ops: seq<Op>, k: nat)
    requires KeepsTree(fs, ops)
    ensures TreeWork(Crashed(fs, ops, k)) && TreeWork(Exec(fs, ops))
    decreases |ops|
  {
    hide TreeWork;
    if ops != [] {
      KeptCut(Do(fs, ops[0]), ops[1..], if k == 0 then 0 else k - 1);
      OneByOne(fs, ops, k);
    }
  }

  lemma {:induction false} KeptConcat(fs: FS, a: seq<Op>, b: seq<Op>)
    requires KeepsTree(fs, a) && KeepsTree(Exec(fs, a), b)
    ensures KeepsTree(fs, a + b)
    decreases |a|
  {
    hide TreeWork;
    if a == [] {
      assert a + b == b;
    } else {
      KeptConcat(Do(fs, a[0]), a[1..], b);
      assert (a + b)[1..] == a[1..] + b;
    }
  }

  /** Operations that leave the work directory alone. */
  predicate Quiet(op: Op) {
    op.SaveState? || op.ClearState? || op.NewArchive? || op.CopyToArchive? || op.WriteMeta?
  }

  lemma KeptQuiet(fs: FS, op: Op)
    requires TreeWork(fs) && Quiet(op)
    ensures KeepsTree(fs, [op])
  {
    assert KeepsTree(Do(fs, op), []);
  }

  lemma KeptOne(fs: FS, op: Op)
    requires TreeWork(fs) && TreeWork(Do(fs, op))
    ensures KeepsTree(fs, [op])
  {
    assert KeepsTree(Do(fs, op), []);
  }

  /** What stands above a path is a directory. */
  predicate NoFileAbove(t: Tree, p: Path) {
    forall q | q in t && q < p :: t[q].Dir?
  }

  lemma TreeClosed(fs: FS)
    requires TreeWork(fs)
    ensures Closed(Entries(fs.work))
  {
  }

  /** One more entry in a directory. */
  lemma GrownTree(t: Tree, p: Path, n: Node)
    requires IsTree(t) && p != [] && p !in t && Parent(p) in t && t[Parent(p)].Dir?
    ensures IsTree(t[p := n])
  {
  }

  lemma {:induction false} MakeDirsKeeps(fs: FS, p: Path)
    requires TreeWork(fs) && NoFileAbove(Entries(fs.work), p)
    ensures KeepsTree(fs, MakeDirs(Entries(fs.work), p))
    decreases |p|
  {
    var t := Entries(fs.work);
    TreeClosed(fs);
    if p in t {
    } else if p == [] {
      assert fs.work.None?;
      assert Do(fs, MakeDir(p)).work == Some(map[[] := Dir(DIR_MODE)]);
      KeptOne(fs, MakeDir(p));
      assert [] + [MakeDir(p)] == [MakeDir(p)];
    } else {
      var above := MakeDirs(t, Parent(p));
      assert NoFileAbove(t, Parent(p));
      MakeDirsKeeps(fs, Parent(p));
      MakeDirsExec(fs, Parent(p));
      KeptCut(fs, above, 0);
      MakeLast(fs, Exec(fs, above), p);
      KeptConcat(fs, above, [MakeDir(p)]);
    }
  }

  lemma MakeLast(fs: FS, fs1: FS, p: Path)
    requires p != [] && p !in Entries(fs.work) && NoFileAbove(Entries(fs.work), p) && TreeWork(fs1)
    requires var t, t' := Entries(fs.work), Entries(fs1.work);
             && (forall q :: q in t' <==> q in t || Leads(q, Parent(p)))
             && (forall q | q in t :: t'[q] == t[q])
             && (forall q | Leads(q, Parent(p)) && q !in t :: t'[q] == Dir(DIR_MODE))
    ensures KeepsTree(fs1, [MakeDir(p)])
  {
    var t' := Entries(fs1.work);
    assert Leads(Parent(p), Parent(p)) && Parent(p) < p;
    assert Parent(p) in t' && t'[Parent(p)].Dir? && p !in t';
    GrownTree(t', p, Dir(DIR_MODE));
    assert p in t'[p := Dir(DIR_MODE)];
    KeptOne(fs1, MakeDir(p));
  }

  /** The steps of a write once its directory is there. */
  lemma TempKeeps(fs: FS, p: Path, n: Node, name: string)
    requires fs.work.Some? && IsTree(fs.work.value) && p != [] && Parent(p) in fs.work.value
             && fs.work.value[Parent(p)].Dir?
    requires Parent(p) + [name] !in fs.work.value && p[|p| - 1] != name
             && (p in fs.work.value ==> !fs.work.value[p].Dir?)
    ensures KeepsTree(fs, [CreateTemp(Parent(p) + [name], n), Replace(Parent(p) + [name], p)])
  {
    var t, tmp := fs.work.value, Parent(p) + [name];
    assert tmp[|tmp| - 1] == name && Parent(tmp) == Parent(p);
    GrownTree(t, tmp, n);
    var fs1 := Do(fs, CreateTemp(tmp, n));
    assert tmp in t[tmp := n];
    assert fs1.work == Some(t[tmp := n]);
    var fs2 := Do(fs1, Replace(tmp, p));
    assert t[tmp := n][p := n] - {tmp} == t[p := n];
    assert p in t[p := n];
    assert fs2.work == Some(t[p := n]);
    Overwritten(t, p, n);
    KeptOne(fs1, Replace(tmp, p));
    assert [CreateTemp(tmp, n), Replace(tmp, p)][1..] == [Replace(tmp, p)];
  }

  lemma Overwritten(t: Tree, p: Path, n: Node)
    requires IsTree(t) && p != [] && Parent(p) in t && t[Parent(p)].Dir? && (p in t ==> !t[p].Dir?)
    ensures IsTree(t[p := n])
  {
    forall q | q in t[p := n] && q != []
      ensures Parent(q) in t[p := n] && t[p := n][Parent(q)].Dir?
    {
      if q != p {
        assert Parent(q) in t && t[Parent(q)].Dir?;
      }
    }
  }

  lemma WriteKeeps(fs: FS, p: Path, n: Node, name: string)
    requires TreeWork(fs) && p != [] && NoFileAbove(Entries(fs.work), p)
    requires var t := Entries(fs.work); Parent(p) + [name] !in t && p[|p| - 1] != name && (p in t ==> !t[p].Dir?)
    ensures KeepsTree(fs, WriteOps(Entries(fs.work), p, n, name))
  {
    var t, tmp := Entries(fs.work), Parent(p) + [name];
    var above := MakeDirs(t, Parent(p));
    var fs1 := Exec(fs, above);
    TreeClosed(fs);
    assert NoFileAbove(t, Parent(p));
    MakeDirsKeeps(fs, Parent(p));
    MakeDirsExec(fs, Parent(p));
    KeptCut(fs, above, 0);
    assert Leads(Parent(p), Parent(p)) && Parent(p) < p;
    assert Parent(p) in Entries(fs1.work) && Entries(fs1.work)[Parent(p)].Dir?;
    assert !Leads(tmp, Parent(p)) && !Leads(p, Parent(p));
    hide MakeDirs, KeepsTree, Leads, Closed;
    TempKeeps(fs1, p, n, name);
    KeptConcat(fs, above, [CreateTemp(tmp, n), Replace(tmp, p)]);
  }

  // ----- Start ------------------------------------------------------------------------------------------------

  /** Above the next target there are directories only, and it is not there yet. */
  lemma NextTarget(t: Tree, def: seq<Item>, i: nat)
    requires ValidDef(def) && i < |def| && StagedTree(t, def, i)
    ensures NoFileAbove(t, def[i].target) && def[i].target !in t
  {
    var p := def[i].target;
    forall q | q in t && q <= p
      ensures q < p && t[q].Dir?
    {
      assert Wanted(def, i, q);
      var j :| 0 <= j < i && Leads(q, def[j].target);
      TargetsApart(def, j, i);
      TargetsApart(def, i, j);
    }
  }

  lemma StageOneKeeps(fs: FS, def: seq<Item>, i: nat, name: string)
    requires ValidDef(def) && i < |def| && StagedTree(Entries(fs.work), def, i) && TreeWork(fs)
    requires forall j | 0 <= j < |def| :: Avoids(name, def[j].target)
    ensures def[i].target != []
    ensures KeepsTree(fs, WriteOps(Entries(fs.work), def[i].target, File(def[i].mode, def[i].data), name))
  {
    NextTarget(Entries(fs.work), def, i);
    StagedIs(Entries(fs.work), def, i, name);
    hide StagedTree, KeepsTree, TreeWork, NoFileAbove, Avoids;
    TempIsNew(Entries(fs.work), def[i].target, name);
    WriteKeeps(fs, def[i].target, File(def[i].mode, def[i].data), name);
  }

  lemma TargetsBelow(def: seq<Item>)
    requires ValidDef(def)
    ensures forall i | 0 <= i < |def| :: def[i].target != []
  {
  }

  lemma NothingToStage(fs: FS, name: string)
    requires TreeWork(fs)
    ensures KeepsTree(fs, StageOps(fs, [], name))
  {
  }

  lemma StageOpsNext(fs: FS, def: seq<Item>, i: nat, name: string)
    requires ValidDef(def) && i < |def|
    ensures var ops := WriteOps(Entries(fs.work), def[i].target, File(def[i].mode, def[i].data), name);
            StageOps(fs, def[i..], name) == ops + StageOps(Exec(fs, ops), def[i + 1..], name)
  {
    assert def[i..][1..] == def[i + 1..];
  }

  lemma {:induction false} StageKeeps(fs: FS, def: seq<Item>, i: nat, name: string)
    requires ValidDef(def) && i <= |def| && StagedTree(Entries(fs.work), def, i) && TreeWork(fs)
    requires forall j | 0 <= j < |def| :: Avoids(name, def[j].target)
    ensures KeepsTree(fs, StageOps(fs, def[i..], name))
    decreases |def| - i
  {
    hide StagedTree, WriteOps, KeepsTree, TreeWork, Avoids, StageOps, Exec, ValidDef;
    if i == |def| {
      assert def[i..] == [];
      NothingToStage(fs, name);
    } else {
      TargetsBelow(def);
      var ops := WriteOps(Entries(fs.work), def[i].target, File(def[i].mode, def[i].data), name);
      StageOne(fs, def, i, name);
      StageOneKeeps(fs, def, i, name);
      KeptCut(fs, ops, 0);
      StageKeeps(Exec(fs, ops), def, i + 1, name);
      StageOpsNext(fs, def, i, name);
      KeptConcat(fs, ops, StageOps(Exec(fs, ops), def[i + 1..], name));
    }
  }

  lemma TempIsNew(t: Tree, p: Path, name: string)
    requires p != [] && Avoids(name, p) && forall q | q in t :: Avoids(name, q)
    ensures Parent(p) + [name] !in t && p[|p| - 1] != name
  {
    var tmp := Parent(p) + [name];
    assert tmp[|tmp| - 1] == name && name in tmp;
    assert p[|p| - 1] in p;
  }

  lemma PreserveKeeps(fs: FS, def: seq<Item>)
    requires MayStart(fs) && TreeWork(fs)
    ensures KeepsTree(fs, PreserveOps(fs, def))
  {
    hide Hashable, IsTree;
    var fs1 := Do(fs, SaveState(FirstRecord(fs, def)));
    KeptQuiet(fs, SaveState(FirstRecord(fs, def)));
    if fs.work.Some? {
      var fs2 := Do(fs1, MoveWorkToBackup);
      KeptOne(fs1, MoveWorkToBackup);
      ExecOne(fs1, MoveWorkToBackup);
      ExecOne(fs, SaveState(FirstRecord(fs, def)));
      if Hashable(fs.work.value) {
        KeptQuiet(fs2, SaveState(MovedRecord(fs, def)));
        KeptConcat(fs1, [MoveWorkToBackup], [SaveState(MovedRecord(fs, def))]);
      } else {
        var fs3 := Do(fs2, MoveBackupToWork);
        KeptOne(fs2, MoveBackupToWork);
        ExecOne(fs2, MoveBackupToWork);
        KeptQuiet(fs3, ClearState);
        KeptConcat(fs2, [MoveBackupToWork], [ClearState]);
        assert [MoveBackupToWork] + [ClearState] == [MoveBackupToWork, ClearState];
        KeptConcat(fs1, [MoveWorkToBackup], [MoveBackupToWork, ClearState]);
      }
      KeptConcat(fs, [SaveState(FirstRecord(fs, def))], PreserveOps(fs, def)[1..]);
      assert PreserveOps(fs, def) == [SaveState(FirstRecord(fs, def))] + PreserveOps(fs, def)[1..];
    } else {
      assert PreserveOps(fs, def) == [SaveState(FirstRecord(fs, def))];
    }
  }

  lemma StartKeeps(fs: FS, def: seq<Item>, active: bool, name: string)
    requires MayStart(fs) && fs.work != Some(map[]) && TreeWork(fs) && ValidDef(def)
    requires forall i | 0 <= i < |def| :: Avoids(name, def[i].target)
    ensures KeepsTree(fs, StartOps(fs, def, active, name)) && TreeWork(Exec(fs, StartOps(fs, def, active, name)))
  {
    var first := PreserveOps(fs, def);
    var fs1 := Exec(fs, first);
    PreserveKeeps(fs, def);
    PreserveSteps(fs, def, 0);
    if Starts(fs) {
      hide PreserveOps, KeepsTree, Hashable, TreeWork, StageOps;
      var stage, last := StageOps(fs1, def, name), SaveState(LastRecord(fs, def, active));
      NothingStaged(def);
      KeptCut(fs, first, 0);
      assert def[0..] == def;
      StageKeeps(fs1, def, 0, name);
      KeptCut(fs1, stage, 0);
      KeptConcat(fs, first, stage);
      ExecConcat(fs, first, stage);
      KeptQuiet(Exec(fs1, stage), last);
      KeptConcat(fs, first + stage, [last]);
    }
    KeptCut(fs, StartOps(fs, def, active, name), 0);
  }

  // ----- Removal and rebuild ------------------------------------------------------------------------------------

  /** Nothing stands below the first entry of a removal. */
  lemma FirstIsLeaf(t: Tree, order: seq<Path>)
    requires order != [] && RemovalOrder(order, t)
    ensures order[0] in t && forall q | q in t :: !(order[0] < q)
  {
    assert order[0] in order;
    forall q | q in t
      ensures !(order[0] < q)
    {
      assert q in order;
      var i :| 0 <= i < |order| && order[i] == q;
      assert i == 0 || !(order[0] < order[i]);
    }
  }

  lemma RestRemoved(t: Tree, order: seq<Path>)
    requires order != [] && RemovalOrder(order, t)
    ensures RemovalOrder(order[1..], t - {order[0]})
  {
    var rest := order[1..];
    assert order == [order[0]] + rest;
    forall q
      ensures q in rest <==> q in t - {order[0]}
    {
      if q in rest {
        var i :| 0 <= i < |rest| && rest[i] == q;
        assert order[0] != order[i + 1];
      }
    }
    forall i, j | 0 <= i < j < |rest|
      ensures rest[i] != rest[j] && !(rest[i] < rest[j])
    {
      assert rest[i] == order[i + 1] && rest[j] == order[j + 1];
    }
  }

  lemma LeafRemoved(t: Tree, p: Path)
    requires IsTree(t) && p in t && forall q | q in t :: !(p < q)
    ensures t - {p} == map[] || IsTree(t - {p})
  {
    var t' := t - {p};
    forall q | q in t' && q != []
      ensures Parent(q) in t' && t'[Parent(q)].Dir?
    {
      assert Parent(q) < q;
    }
    assert forall q | q in t' :: q == [] || [] < q;
  }

  lemma RemoveFirst(fs: FS, order: seq<Path>)
    requires TreeWork(fs) && order != [] && RemovalOrder(order, Entries(fs.work))
    ensures var fs1 := Do(fs, RemoveEntry(order[0]));
            && TreeWork(fs1) && Entries(fs1.work) == Entries(fs.work) - {order[0]}
            && RemovalOrder(order[1..], Entries(fs1.work))
  {
    hide Do;
    var t := Entries(fs.work);
    FirstIsLeaf(t, order);
    RestRemoved(t, order);
    hide RemovalOrder, IsTree;
    LeafRemoved(t, order[0]);
    RemoveIs(fs, order[0]);
  }

  lemma RemoveIs(fs: FS, p: Path)
    ensures var t := Entries(fs.work) - {p};
            Do(fs, RemoveEntry(p)).work == if t == map[] then None else Some(t)
  {
  }

  lemma {:induction false} RemovalKeeps(fs: FS, order: seq<Path>)
    requires TreeWork(fs) && RemovalOrder(order, Entries(fs.work))
    ensures KeepsTree(fs, Removal(order))
    decreases |order|
  {
    hide RemovalOrder, TreeWork;
    if order == [] {
      assert Removal(order) == [];
    } else {
      RemoveFirst(fs, order);
      RemovalKeeps(Do(fs, RemoveEntry(order[0])), order[1..]);
      assert Removal(order)[1..] == Removal(order[1..]);
    }
  }

  lemma {:induction false} DirectoryAbove(t: Tree, p: Path, q: Path)
    requires IsTree(t) && p in t && q < p
    ensures q in t && t[q].Dir?
    decreases |p|
  {
    if q != Parent(p) {
      DirectoryAbove(t, Parent(p), q);
    }
  }

  /** What is built so far is a tree, with directories above the next entry. */
  lemma MadeIsTree(inventory: Tree, order: seq<Path>, i: nat)
    requires IsDirectory(inventory) && BuildOrder(order, inventory) && i <= |order|
    ensures i > 0 ==> IsTree(Made(inventory, order[..i]))
    ensures i < |order| ==>
              order[i] in inventory && order[i] !in Made(inventory, order[..i])
              && NoFileAbove(Made(inventory, order[..i]), order[i])
  {
    var t := Made(inventory, order[..i]);
    forall p | p in t && p != []
      ensures Parent(p) in t && t[Parent(p)].Dir?
    {
      var j :| 0 <= j < i && order[..i][j] == p;
      assert order[j] == p;
      ParentMade(inventory, order, j);
      var m :| 0 <= m < j && order[..j][m] == Parent(p);
      assert order[..i][m] == Parent(p);
    }
    if i > 0 {
      FirstIsRoot(inventory, order);
      assert order[..i][0] == [];
    }
    if i < |order| {
      ParentMade(inventory, order, i);
      forall q | q in t && q < order[i]
        ensures t[q].Dir?
      {
        DirectoryAbove(inventory, order[i], q);
      }
    }
  }

  lemma FirstIsRoot(inventory: Tree, order: seq<Path>)
    requires IsDirectory(inventory) && BuildOrder(order, inventory) && order != []
    ensures order[0] == []
  {
    ParentMade(inventory, order, 0);
  }

  lemma BuildOneKeeps(fs: FS, inventory: Tree, order: seq<Path>, i: nat, name: string)
    requires IsDirectory(inventory) && BuildOrder(order, inventory) && FreshName(name, inventory) && i < |order|
    requires Entries(fs.work) == Made(inventory, order[..i]) && TreeWork(fs)
    ensures order[i] in inventory
    ensures KeepsTree(fs, BuildOne(Entries(fs.work), order[i], inventory[order[i]], name))
  {
    var p := order[i];
    MadeIsTree(inventory, order, i);
    hide BuildOrder, IsDirectory, KeepsTree, TreeWork, NoFileAbove;
    if inventory[p].Dir? || p == [] {
      MakeDirsKeeps(fs, p);
    } else {
      NoneNamed(inventory, order[..i], p, name);
      hide Made, FreshName;
      WriteKeeps(fs, p, inventory[p], name);
    }
  }

  lemma NoneNamed(inventory: Tree, order: seq<Path>, p: Path, name: string)
    requires FreshName(name, inventory) && p in inventory && p != []
    ensures Parent(p) + [name] !in Made(inventory, order) && p[|p| - 1] != name
  {
    var tmp := Parent(p) + [name];
    assert tmp[|tmp| - 1] == name;
  }

  lemma {:induction false} BuildKeeps(fs: FS, inventory: Tree, order: seq<Path>, i: nat, name: string)
    requires IsDirectory(inventory) && BuildOrder(order, inventory) && FreshName(name, inventory) && i <= |order|
    requires forall p | p in inventory :: inventory[p].Dir? || inventory[p].File?
    requires Entries(fs.work) == Made(inventory, order[..i]) && TreeWork(fs)
    requires forall j | 0 <= j < |order| :: order[j] in inventory
    ensures KeepsTree(fs, BuildOps(fs, inventory, order[i..], name))
    decreases |order| - i
  {
    hide BuildOrder, IsDirectory, Made, BuildOne, TreeWork;
    if i < |order| {
      var p, t := order[i], Entries(fs.work);
      var ops := BuildOne(t, p, inventory[p], name);
      var fs1 := Exec(fs, ops);
      assert order[i..][1..] == order[i + 1..];
      BuildStep(fs, inventory, order, i, name);
      BuildOneKeeps(fs, inventory, order, i, name);
      KeptCut(fs, ops, 0);
      BuildKeeps(fs1, inventory, order, i + 1, name);
      KeptConcat(fs, ops, BuildOps(fs1, inventory, order[i + 1..], name));
    }
  }

  lemma {:induction false} ChmodKeeps(fs: FS, inventory: Tree, order: seq<Path>)
    requires TreeWork(fs) && forall i | 0 <= i < |order| :: order[i] in inventory
    ensures KeepsTree(fs, ChmodOps(inventory, order))
    decreases |order|
  {
    if order != [] {
      var p, init := order[|order| - 1], order[..|order| - 1];
      var fs1 := if inventory[p].Dir? then Do(fs, SetMode(p, inventory[p].mode)) else fs;
      if fs1 != fs {
        assert Entries(fs1.work) == Entries(fs.work)[p := Dir(inventory[p].mode)];
      }
      ChmodKeeps(fs1, inventory, init);
      if inventory[p].Dir? {
        KeptOne(fs, SetMode(p, inventory[p].mode));
        ExecOne(fs, SetMode(p, inventory[p].mode));
        KeptConcat(fs, [SetMode(p, inventory[p].mode)], ChmodOps(inventory, init));
      } else {
        assert [] + ChmodOps(inventory, init) == ChmodOps(inventory, init);
      }
    }
  }

  lemma RebuildKeeps(fs: FS, inventory: Tree, name: string, removal: seq<Path>, build: seq<Path>)
    requires TreeWork(fs) && fs.work != Some(map[]) && RemovalOrder(removal, Entries(fs.work))
    requires IsDirectory(inventory) && BuildOrder(build, inventory) && FreshName(name, inventory)
    requires forall p | p in inventory :: inventory[p].Dir? || inventory[p].File?
    requires forall i | 0 <= i < |build| :: build[i] in inventory
    ensures KeepsTree(fs, RebuildOps(fs, inventory, name, removal, build))
  {
    var gone := fs.(work := None);
    RemovalEmpties(fs, removal);
    RemovalKeeps(fs, removal);
    hide RemovalOrder, IsDirectory, KeepsTree;
    assert Made(inventory, build[..0]) == map[];
    assert build[0..] == build;
    BuildKeeps(gone, inventory, build, 0, name);
    var made := BuildOps(gone, inventory, build, name);
    KeptCut(gone, made, 0);
    ChmodKeeps(Exec(gone, made), inventory, build);
    KeptConcat(fs, Removal(removal), made);
    ExecConcat(fs, Removal(removal), made);
    KeptConcat(fs, Removal(removal) + made, ChmodOps(inventory, build));
  }

  lemma ResumeKeeps(fs: FS, def: seq<Item>, id: nat, name: string, removal: seq<Path>, build: seq<Path>)
    requires MayStart(fs) && fs.work != Some(map[]) && TreeWork(fs) && ValidDef(def)
    requires MayResume(fs, def, id) && ProperResume(fs, def, id, name, removal, build)
    requires forall i | 0 <= i < |def| :: Avoids(name, def[i].target)
    requires FreshName(name, fs.archives[id].meta.value.inventory)
    ensures KeepsTree(fs, ResumeOps(fs, def, id, name, removal, build))
  {
    var start := StartOps(fs, def, false, name);
    var inventory := fs.archives[id].meta.value.inventory;
    StartKeeps(fs, def, false, name);
    StartCrash(fs, def, false, name, |start|);
    assert Capturable(inventory);
    if Starts(fs) {
      ResumeIs(fs, def, id, name, removal, build);
      var fs1 := Exec(fs, start);
      assert RemovalOrder(removal, Entries(fs1.work)) && BuildOrder(build, inventory);
      hide Loadable, Available, MayResume, ProperResume, StartOps, ResumeOps, RebuildOps, Starts, KeepsTree,
           TreeWork, ValidDef, Held, BuildOrder, RemovalOrder;
      RebuildKeeps(fs1, inventory, name, removal, build);
      var rebuild, last := RebuildOps(fs1, inventory, name, removal, build), SaveState(LastRecord(fs, def, true));
      KeptCut(fs1, rebuild, 0);
      KeptQuiet(Exec(fs1, rebuild), last);
      KeptConcat(fs1, rebuild, [last]);
      KeptConcat(fs, start, rebuild + [last]);
    } else {
      hide Loadable, Available, StartOps;
      GivesUp(fs, def, id, name, removal, build);
    }
  }

  // ----- Reset ------------------------------------------------------------------------------------------------------

  lemma MoveBackKeeps(fs: FS, order: seq<Path>)
    requires TreeWork(fs) && RemovalOrder(order, Entries(fs.work)) && fs.work != Some(map[])
    requires fs.backup.Some? ==> IsTree(fs.backup.value)
    ensures KeepsTree(fs, Removal(order) + [MoveBackupToWork]) && KeepsTree(fs, Removal(order))
  {
    var gone := fs.(work := None);
    RemovalEmpties(fs, order);
    RemovalKeeps(fs, order);
    hide RemovalOrder, IsTree, KeepsTree;
    KeptOne(gone, MoveBackupToWork);
    KeptConcat(fs, Removal(order), [MoveBackupToWork]);
  }

  lemma RestoreKeeps(fs: FS, r: Record, order: seq<Path>)
    requires Restorable(fs, r) && RemovalOrder(order, Entries(fs.work)) && fs.work != Some(map[])
    requires TreeWork(fs) && (fs.backup.Some? ==> IsTree(fs.backup.value))
    ensures KeepsTree(fs, RestoreOps(fs, r, order) + [ClearState])
  {
    MoveBackKeeps(fs, order);
    var ops := RestoreOps(fs, r, order);
    assert KeepsTree(fs, ops);
    hide RestoreOps, Restorable, RemovalOrder, IsTree, KeepsTree, TreeWork;
    KeptCut(fs, ops, 0);
    KeptQuiet(Exec(fs, ops), ClearState);
    KeptConcat(fs, ops, [ClearState]);
  }

  lemma ResetKeepsTree(fs: FS, r: Record, c: Choices, k: nat)
    requires fs.state == Some(r) && Proper(fs, r, c) && fs.work != Some(map[])
    requires TreeWork(fs) && (fs.backup.Some? ==> IsTree(fs.backup.value))
    ensures TreeWork(Crashed(fs, ResetOps(fs, r, c), k))
  {
    hide ArchiveOps, RestoreOps, Restorable, RemovalOrder, Enumerates, Untouched, IsTree;
    var archive := ArchiveOps(fs, r, c.id, c.copies);
    var fs1 := Exec(fs, archive);
    ArchiveCut(fs, r, c.id, c.copies, k);
    ArchiveCut(fs, r, c.id, c.copies, |archive|);
    if Resets(fs, r, c) {
      var rest := RestoreOps(fs1, r, c.order) + [ClearState];
      assert archive + RestoreOps(fs1, r, c.order) + [ClearState] == archive + rest;
      RestoreKeeps(fs1, r, c.order);
      CrashedConcat(fs, archive, rest, k);
      if k >= |archive| {
        KeptCut(fs1, rest, k - |archive|);
      }
    }
  }

  // ----- Over every run -------------------------------------------------------------------------------------------

  /** The temporary file names of a command are like no name it writes. */
  predicate Named(s: Sys, e: Event) {
    match e
    case Starting(def, name, _) => forall i | 0 <= i < |def| :: Avoids(name, def[i].target)
    case Resuming(def, id, name, _, _, _) =>
      && (forall i | 0 <= i < |def| :: Avoids(name, def[i].target))
      && (id in s.fs.archives && s.fs.archives[id].meta.Some? ==>
           FreshName(name, s.fs.archives[id].meta.value.inventory))
    case _ => true
  }

  ghost predicate AllNamed(s: Sys, events: seq<Event>)
    requires AllPossible(s, events)
    decreases |events|
  {
    events == [] || (Named(s, events[0]) && AllNamed(After(s, events[0]), events[1..]))
  }

  ghost predicate Trees(s: Sys) {
    TreeWork(s.fs) && (s.pre.Some? ==> IsTree(s.pre.value))
  }

  lemma BackupIsPre(s: Sys)
    requires Safe(s) && s.fs.backup.Some?
    ensures s.fs.backup == s.pre
  {
  }

  lemma EventTrees(s: Sys, e: Event)
    requires Safe(s) && Trees(s) && Possible(s, e) && Named(s, e)
    ensures Trees(After(s, e))
  {
    hide ProperResume, StartOps, ResumeOps, ResetOps, Proper, ValidDef, Held, IsTree, KeepsTree, Crashed, Loadable,
         Available;
    match e
    case Starting(def, name, k) =>
      if MayStart(s.fs) {
        StartKeeps(s.fs, def, true, name);
        KeptCut(s.fs, StartOps(s.fs, def, true, name), k);
      }
    case Resuming(def, id, name, removal, build, k) =>
      if MayStart(s.fs) && MayResume(s.fs, def, id) {
        ResumeKeeps(s.fs, def, id, name, removal, build);
        KeptCut(s.fs, ResumeOps(s.fs, def, id, name, removal, build), k);
      }
    case Resetting(c, k) =>
      if s.fs.state.Some? {
        if s.fs.backup.Some? {
          BackupIsPre(s);
        }
        ResetKeepsTree(s.fs, s.fs.state.value, c, k);
      }
    case Editing(work) =>
  }

  lemma {:induction false} RunTrees(s: Sys, events: seq<Event>)
    requires Safe(s) && Trees(s) && AllPossible(s, events) && AllNamed(s, events)
    ensures Trees(Run(s, events))
    decreases |events|
  {
    hide Safe, Trees, Possible, Named, After;
    if events != [] {
      EventKeeps(s, events[0]);
      EventTrees(s, events[0]);
      RunTrees(After(s, events[0]), events[1..]);
    }
  }

  /** In every run that begins with a tree, or with nothing, the work directory is a tree, at every crash too. */
  lemma WorkIsTree(s: Sys, events: seq<Event>)
    requires Fresh(s) && Trees(s) && AllPossible(s, events) && AllNamed(s, events)
    ensures TreeWork(Run(s, events).fs)
  {
    RunTrees(s, events);
  }
}
