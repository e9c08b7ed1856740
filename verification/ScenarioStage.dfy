/** What a start stages: the targets and the directories they need, and nothing else. */
module ScenarioStage {
  import opened Options
  import opened Workspaces
  import opened Scenarios
  import opened ScenarioSafety

  /** `q` is `p` or a directory above it. */
  predicate Leads(q: Path, p: Path) {
    q <= p
  }

  /** Exactly the first `n` targets, as files, and the directories above them. */
  ghost predicate StagedTree(t: Tree, def: seq<Item>, n: nat)
    requires n <= |def|
  {
    && (forall q :: q in t <==> Wanted(def, n, q))
    && (forall i | 0 <= i < n :: t[def[i].target] == File(def[i].mode, def[i].data))
    && (forall q, i | 0 <= i < n && Leads(q, def[i].target) && q != def[i].target :: t[q] == Dir(DIR_MODE))
  }

  predicate Closed(t: Tree) {
    forall q | q in t && q != [] :: Parent(q) in t
  }

  lemma {:induction false} ClosedPrefix(t: Tree, q: Path, p: Path)
    requires Closed(t) && p in t && q <= p
    ensures q in t
    decreases |p|
  {
    if q != p {
      assert q <= Parent(p);
      ClosedPrefix(t, q, Parent(p));
    }
  }

  /** Making a directory makes what is missing above it and changes nothing else. */
  lemma {:induction false} MakeDirsExec(fs: FS, p: Path)
    requires Closed(Entries(fs.work))
    ensures var t, t' := Entries(fs.work), Entries(Exec(fs, MakeDirs(Entries(fs.work), p)).work);
            && (forall q :: q in t' <==> q in t || Leads(q, p))
            && (forall q | q in t :: t'[q] == t[q])
            && (forall q | Leads(q, p) && q !in t :: t'[q] == Dir(DIR_MODE))
    decreases |p|
  {
    var t := Entries(fs.work);
    if p in t {
      forall q | Leads(q, p)
        ensures q in t
      {
        ClosedPrefix(t, q, p);
      }
    } else if p == [] {
      ExecOne(fs, MakeDir(p));
      assert [] + [MakeDir(p)] == [MakeDir(p)] && p in t[p := Dir(DIR_MODE)];
    } else {
      MakeDirsExec(fs, Parent(p));
      var above := MakeDirs(t, Parent(p));
      var fs1 := Exec(fs, above);
      ExecConcat(fs, above, [MakeDir(p)]);
      ExecOne(fs1, MakeDir(p));
      assert p in Entries(fs1.work)[p := Dir(DIR_MODE)];
      assert forall q :: Leads(q, p) <==> Leads(q, Parent(p)) || q == p;
    }
  }

  /** No component of a path is named like the temporary files. */
  predicate Avoids(name: string, p: Path) {
    name !in p
  }

  lemma ReplaceExec(fs: FS, tmp: Path, p: Path, n: Node)
    requires tmp !in Entries(fs.work) && tmp != p
    ensures Exec(fs, [CreateTemp(tmp, n), Replace(tmp, p)]) == fs.(work := Some(Entries(fs.work)[p := n]))
  {
    var t := Entries(fs.work);
    var fs1 := Do(fs, CreateTemp(tmp, n));
    assert tmp in t[tmp := n] && p in t[p := n];
    assert t[tmp := n][p := n] - {tmp} == t[p := n];
    ExecOne(fs1, Replace(tmp, p));
    assert [CreateTemp(tmp, n), Replace(tmp, p)][1..] == [Replace(tmp, p)];
  }

  lemma WriteExec(fs: FS, p: Path, n: Node, name: string)
    requires Closed(Entries(fs.work)) && p != [] && Avoids(name, p) && forall q | q in Entries(fs.work) ::
               Avoids(name, q)
    ensures Written(Entries(fs.work), Entries(Exec(fs, WriteOps(Entries(fs.work), p, n, name)).work), p, n)
  {
    var t, tmp := Entries(fs.work), Parent(p) + [name];
    var above := MakeDirs(t, Parent(p));
    var fs1 := Exec(fs, above);
    MakeDirsExec(fs, Parent(p));
    assert forall q :: Leads(q, p) <==> Leads(q, Parent(p)) || q == p;
    assert tmp[|tmp| - 1] == name && name in tmp;
    assert tmp !in Entries(fs1.work);
    hide MakeDirs, Closed;
    ExecConcat(fs, above, [CreateTemp(tmp, n), Replace(tmp, p)]);
    ReplaceExec(fs1, tmp, p, n);
  }

  /** What a write of one more target does to the tree. */
  ghost predicate Written(t: Tree, t': Tree, p: Path, n: Node) {
    && (forall q :: q in t' <==> q in t || Leads(q, p))
    && p in t' && t'[p] == n
    && (forall q | q in t && q != p :: t'[q] == t[q])
    && (forall q | Leads(q, p) && q != p && q !in t :: t'[q] == Dir(DIR_MODE))
  }

  /** No other target is on the way to a target. */
  lemma TargetsApart(def: seq<Item>, i: nat, j: nat)
    requires ValidDef(def) && i < |def| && j < |def| && i != j
    ensures !Leads(def[i].target, def[j].target) && def[i].target != []
  {
  }

  /** `q` is one of the first `n` targets or above one. */
  ghost predicate Wanted(def: seq<Item>, n: nat, q: Path)
    requires n <= |def|
  {
    exists i :: 0 <= i < n && Leads(q, def[i].target)
  }

  lemma WantedNext(def: seq<Item>, i: nat, q: Path)
    requires i < |def|
    ensures Wanted(def, i + 1, q) <==> Wanted(def, i, q) || Leads(q, def[i].target)
  {
    hide Leads;
    if Leads(q, def[i].target) {
      assert 0 <= i < i + 1 && Leads(q, def[i].target);
    }
  }

  lemma StagedFile(t: Tree, t': Tree, def: seq<Item>, i: nat, j: nat)
    requires ValidDef(def) && j <= i < |def| && StagedTree(t, def, i)
    requires Written(t, t', def[i].target, File(def[i].mode, def[i].data))
    ensures def[j].target in t' && t'[def[j].target] == File(def[j].mode, def[j].data)
  {
    if j < i {
      TargetsApart(def, j, i);
      hide ValidDef;
      assert Leads(def[j].target, def[j].target);
      assert Wanted(def, i, def[j].target);
      hide Leads;
    }
  }

  lemma StagedDirectory(t: Tree, t': Tree, def: seq<Item>, i: nat, j: nat, q: Path)
    requires ValidDef(def) && j <= i < |def| && StagedTree(t, def, i)
    requires Written(t, t', def[i].target, File(def[i].mode, def[i].data))
    requires Leads(q, def[j].target) && q != def[j].target
    ensures q in t' && t'[q] == Dir(DIR_MODE)
  {
    if j < i {
      TargetsApart(def, i, j);
      hide ValidDef, Leads;
      assert Wanted(def, i, q);
    } else if q in t {
      assert Wanted(def, i, q);
      var m :| 0 <= m < i && Leads(q, def[m].target);
      TargetsApart(def, m, i);
      hide ValidDef, Leads;
    }
  }

  lemma StagedNext(t: Tree, t': Tree, def: seq<Item>, i: nat)
    requires ValidDef(def) && i < |def| && StagedTree(t, def, i)
    requires Written(t, t', def[i].target, File(def[i].mode, def[i].data))
    ensures StagedTree(t', def, i + 1)
  {
    hide ValidDef, Leads, Wanted;
    forall q
      ensures q in t' <==> Wanted(def, i + 1, q)
    {
      WantedNext(def, i, q);
    }
    forall j | 0 <= j < i + 1
      ensures def[j].target in t' && t'[def[j].target] == File(def[j].mode, def[j].data)
    {
      StagedFile(t, t', def, i, j);
    }
    forall q, j | 0 <= j < i + 1 && Leads(q, def[j].target) && q != def[j].target
      ensures q in t' && t'[q] == Dir(DIR_MODE)
    {
      StagedDirectory(t, t', def, i, j, q);
    }
  }

  lemma StagedIs(t: Tree, def: seq<Item>, n: nat, name: string)
    requires n <= |def| && StagedTree(t, def, n) && forall i | 0 <= i < n :: Avoids(name, def[i].target)
    ensures Closed(t) && forall q | q in t :: Avoids(name, q)
  {
    forall q | q in t && q != []
      ensures Parent(q) in t
    {
      var i :| 0 <= i < n && Leads(q, def[i].target);
      assert Leads(Parent(q), def[i].target);
    }
  }

  lemma StageOne(fs: FS, def: seq<Item>, i: nat, name: string)
    requires ValidDef(def) && i < |def| && StagedTree(Entries(fs.work), def, i)
    requires forall j | 0 <= j < |def| :: Avoids(name, def[j].target)
    ensures var item := def[i];
            StagedTree(Entries(Exec(fs,
                WriteOps(Entries(fs.work), item.target, File(item.mode, item.data), name)).work), def, i + 1)
  {
    var t, p, n := Entries(fs.work), def[i].target, File(def[i].mode, def[i].data);
    StagedIs(t, def, i, name);
    hide StagedTree, WriteOps;
    WriteExec(fs, p, n, name);
    StagedNext(t, Entries(Exec(fs, WriteOps(t, p, n, name)).work), def, i);
  }

  lemma {:induction false} StageExec(fs: FS, def: seq<Item>, i: nat, name: string)
    requires ValidDef(def) && i <= |def| && StagedTree(Entries(fs.work), def, i)
    requires forall j | 0 <= j < |def| :: Avoids(name, def[j].target)
    ensures StagedTree(Entries(Exec(fs, StageOps(fs, def[i..], name)).work), def, |def|)
    decreases |def| - i
  {
    if i < |def| {
      var ops := WriteOps(Entries(fs.work), def[i].target, File(def[i].mode, def[i].data), name);
      var fs1 := Exec(fs, ops);
      StageOne(fs, def, i, name);
      hide StagedTree, WriteOps;
      StageExec(fs1, def, i + 1, name);
      assert def[i..][1..] == def[i + 1..];
      ExecConcat(fs, ops, StageOps(fs1, def[i + 1..], name));
    }
  }

  lemma NothingStaged(def: seq<Item>)
    ensures StagedTree(map[], def, 0)
  {
  }

  /** A start that runs to its end leaves in the work directory exactly what it staged, whatever was there
      before, and every target counts as unchanged. */
  lemma StartStages(fs: FS, def: seq<Item>, active: bool, name: string)
    requires Starts(fs) && fs.work != Some(map[]) && ValidDef(def)
    requires forall i | 0 <= i < |def| :: Avoids(name, def[i].target)
    ensures var fs' := Exec(fs, StartOps(fs, def, active, name));
            && StagedTree(Entries(fs'.work), def, |def|)
            && fs'.state == Some(LastRecord(fs, def, active))
            && AllUnchanged(Entries(fs'.work), LastRecord(fs, def, active).targets)
  {
    var first := PreserveOps(fs, def);
    var fs1 := Exec(fs, first);
    PreserveSteps(fs, def, 0);
    NothingStaged(def);
    assert def[0..] == def;
    StageExec(fs1, def, 0, name);
    var stage, last := StageOps(fs1, def, name), SaveState(LastRecord(fs, def, active));
    hide PreserveOps, StageOps, StagedTree, Hashable;
    assert first + stage + [last] == first + (stage + [last]);
    ExecConcat(fs, first, stage + [last]);
    ExecConcat(fs1, stage, [last]);
    ExecOne(Exec(fs1, stage), last);
    StagedUnchanged(Entries(Exec(fs1, stage).work), def);
  }

  lemma StagedUnchanged(t: Tree, def: seq<Item>)
    requires StagedTree(t, def, |def|) && ValidDef(def)
    ensures AllUnchanged(t, Staged(def))
  {
    hide StagedTree, Staged;
    forall i | 0 <= i < |def|
      ensures StatusOf(t, Staged(def)[i]) == Unchanged
    {
      StagedAt(t, def, i);
    }
  }

  lemma StagedAt(t: Tree, def: seq<Item>, i: nat)
    requires StagedTree(t, def, |def|) && i < |def|
    ensures def[i].target in t && t[def[i].target] == File(def[i].mode, def[i].data)
  {
    assert Leads(def[i].target, def[i].target);
  }
}
