/** The lifecycle commands as they run (`scripts/workshop.py`): step by step on the file system, with loops over
    targets, entries and files. Every method's trace of atomic operations is the one the protocol allows. */
module Workshops {
  import opened Options
  import opened Workspaces
  import opened Scenarios
  import S = ScenarioSafety
  import W = ScenarioWork

  // ----- Sums over files ------------------------------------------------------------------------------

  /** Any file may be counted first. */
  lemma {:induction false} TotalWithout(t: Tree, paths: set<Path>, p: Path)
    requires p in paths
    ensures TotalBytes(t, paths) == BytesAt(t, p) + TotalBytes(t, paths - {p})
    decreases |paths|
  {
    var q :| q in paths && TotalBytes(t, paths) == BytesAt(t, q) + TotalBytes(t, paths - {q});
    if q != p {
      TotalWithout(t, paths - {q}, p);
      TotalWithout(t, paths - {p}, q);
      assert paths - {q} - {p} == paths - {p} - {q};
    }
  }

  /** Whether the files are small enough, each and together. */
  method Measure(t: Tree, paths: set<Path>) returns (fits: bool)
    ensures fits == FitsArchive(t, paths)
  {
    var left, total := paths, 0;
    fits := true;
    while left != {}
      invariant left <= paths && total + TotalBytes(t, left) == TotalBytes(t, paths)
      invariant fits == forall p | p in paths - left :: BytesAt(t, p) <= MAX_FILE_BYTES
    {
      var p :| p in left;
      TotalWithout(t, left, p);
      assert paths - (left - {p}) == paths - left + {p};
      if BytesAt(t, p) > MAX_FILE_BYTES {
        fits := false;
      }
      total := total + BytesAt(t, p);
      left := left - {p};
    }
    assert paths - {} == paths;
    fits := fits && total <= MAX_TOTAL_BYTES;
  }

  lemma {:induction false} InventoryWithout(scenario: string, t: Tree, paths: set<Path>, p: Path)
    requires p in paths
    ensures InventoryBytes(scenario, t, paths) == EntryBytes(scenario, t, p) + InventoryBytes(scenario, t, paths - {p})
    decreases |paths|
  {
    var q :| q in paths
             && InventoryBytes(scenario, t, paths)
                == EntryBytes(scenario, t, q) + InventoryBytes(scenario, t, paths - {q});
    if q != p {
      InventoryWithout(scenario, t, paths - {q}, p);
      InventoryWithout(scenario, t, paths - {p}, q);
      assert paths - {q} - {p} == paths - {p} - {q};
    }
  }

  /** How large `attempt.json` is. */
  method MeasureMeta(scenario: string, m: Meta) returns (fits: bool)
    ensures fits == MetaFits(scenario, m)
  {
    hide EntryBytes, BaselineBytes;
    var left, total := m.inventory.Keys, 379 + |scenario| + BaselineBytes(scenario, m.baseline);
    while left != {}
      invariant total + InventoryBytes(scenario, m.inventory, left) == MetaBytes(scenario, m)
    {
      var p :| p in left;
      InventoryWithout(scenario, m.inventory, left, p);
      total := total + EntryBytes(scenario, m.inventory, p);
      left := left - {p};
    }
    fits := total <= MAX_STATE_BYTES;
  }

  // ----- Walking the tree -----------------------------------------------------------------------------

  predicate IsChild(p: Path, q: Path) {
    q != [] && Parent(q) == p
  }

  function Children(t: Tree, p: Path): set<Path> {
    set q | q in t && IsChild(p, q)
  }

  /** Every entry is captured already, or is to be reached from a pending one. */
  ghost predicate Reached(t: Tree, captured: Tree, pending: set<Path>) {
    forall p | p in t :: p in captured || exists q :: q in pending && q <= p
  }

  lemma ReachedNext(t: Tree, captured: Tree, pending: set<Path>, p: Path)
    requires IsTree(t) && p in pending && p in t && Reached(t, captured, pending)
    ensures Reached(t, captured[p := t[p]], pending - {p} + (if t[p].Dir? then Children(t, p) else {}))
  {
    var pending' := pending - {p} + (if t[p].Dir? then Children(t, p) else {});
    forall q | q in t
      ensures q in captured[p := t[p]] || exists r :: r in pending' && r <= q
    {
      if q !in captured && q != p {
        var r :| r in pending && r <= q;
        if r == p {
          var child := q[..|p| + 1];
          PrefixIn(t, child, q);
          assert Parent(child) == p;
          assert child in pending' && child <= q;
        } else {
          assert r in pending';
        }
      }
    }
  }

  lemma {:induction false} PrefixIn(t: Tree, q: Path, p: Path)
    requires IsTree(t) && p in t && q <= p
    ensures q in t && (q != p ==> t[q].Dir?)
    decreases |p|
  {
    if q != p {
      assert q <= Parent(p);
      PrefixIn(t, q, Parent(p));
    }
  }

  predicate StandsIn(captured: Tree, p: Path) {
    p == [] || Parent(p) in captured
  }

  /** The walk so far: plain entries captured, the pending ones all different and still to do, nothing out of reach. */
  ghost predicate Walk(t: Tree, captured: Tree, pending: set<Path>) {
    && pending <= t.Keys && captured.Keys <= t.Keys && captured.Keys !! pending
    && (forall p | p in captured :: captured[p] == t[p] && Storable(p, t[p]))
    && (forall p | p in captured :: StandsIn(captured, p))
    && (forall p | p in pending :: StandsIn(captured, p))
    && Reached(t, captured, pending)
  }

  /** The captured part of a walk after one more entry. */
  lemma CapturedNext(t: Tree, captured: Tree, pending: set<Path>, p: Path)
    requires Walk(t, captured, pending) && p in pending && Storable(p, t[p])
    ensures var captured' := captured[p := t[p]];
            && captured'.Keys == captured.Keys + {p} && captured'.Keys <= t.Keys
            && (forall q | q in captured' :: captured'[q] == t[q] && Storable(q, t[q]))
            && (forall q | q in captured' :: StandsIn(captured', q))
            && (forall q | q in pending :: StandsIn(captured', q))
  {
    hide Reached, Storable, StandsIn;
    StillStands(captured, p, t[p]);
  }

  lemma WalkNext(t: Tree, captured: Tree, pending: set<Path>, p: Path)
    requires IsTree(t) && Walk(t, captured, pending) && p in pending && Storable(p, t[p])
    ensures Walk(t, captured[p := t[p]], pending - {p} + (if t[p].Dir? then Children(t, p) else {}))
    ensures |captured[p := t[p]]| + |pending - {p}| == |captured| + |pending|
  {
    hide IsTree, Reached, Storable, StandsIn, Children;
    ReachedNext(t, captured, pending, p);
    Counts(captured, p, t[p], pending);
    ChildrenNew(t, captured, p);
    CapturedNext(t, captured, pending, p);
    var pending' := pending - {p} + (if t[p].Dir? then Children(t, p) else {});
    forall q | q in pending'
      ensures q in t && q !in captured[p := t[p]] && StandsIn(captured[p := t[p]], q)
    {
      assert q in pending || q in Children(t, p);
    }
  }

  lemma StillStands(captured: Tree, p: Path, n: Node)
    ensures forall q | StandsIn(captured, q) :: StandsIn(captured[p := n], q)
  {
  }

  lemma ChildrenNew(t: Tree, captured: Tree, p: Path)
    requires p !in captured && p in t && forall q | q in captured :: StandsIn(captured, q)
    ensures forall q | q in Children(t, p) :: q in t && q !in captured && q != p && StandsIn(captured[p := t[p]], q)
  {
  }

  lemma Counts(captured: Tree, p: Path, n: Node, pending: set<Path>)
    requires p !in captured && p in pending
    ensures |captured[p := n]| + |pending - {p}| == |captured| + |pending|
  {
    assert captured[p := n].Keys == captured.Keys + {p};
    assert |captured| == |captured.Keys| && |captured[p := n]| == |captured.Keys + {p}|;
  }

  lemma WalkDone(t: Tree, captured: Tree)
    requires Walk(t, captured, {})
    ensures captured == t && forall p | p in t :: Storable(p, t[p])
  {
  }

  lemma WalkStart(t: Tree)
    requires IsTree(t)
    ensures Walk(t, map[], {[]})
  {
    assert forall p | p in t :: [] <= p;
  }

  lemma WalkSize(t: Tree, captured: Tree, pending: set<Path>)
    requires Walk(t, captured, pending)
    ensures |captured| + |pending| <= |t.Keys|
    ensures forall p | p in pending :: p in t && p !in captured
  {
    SizeOf(t, captured, pending);
  }

  /** An inventory by worklist: gives up on an unsafe name, on anything that is not a plain file or directory, on too
      many entries and on too many bytes. */
  method CaptureTree(t: Tree) returns (inventory: Tree, ok: bool)
    requires IsTree(t)
    ensures ok == Capturable(t)
    ensures ok ==> inventory == t
  {
    hide Walk, FitsArchive, Reached, Children;
    inventory, ok := map[], false;
    if !t[[]].Dir? {
      return;
    }
    var pending: set<Path> := {[]};
    WalkStart(t);
    while pending != {}
      invariant Walk(t, inventory, pending) && |inventory| + |pending| <= MAX_FILES + 1
      decreases |t.Keys| - |inventory|
    {
      var p :| p in pending;
      WalkSize(t, inventory, pending);
      if !Storable(p, t[p]) {
        return;
      }
      WalkNext(t, inventory, pending, p);
      inventory := inventory[p := t[p]];
      pending := pending - {p};
      if t[p].Dir? {
        pending := pending + Children(t, p);
        WalkSize(t, inventory, pending);
        if |inventory| + |pending| > MAX_FILES + 1 {
          return;
        }
      }
    }
    WalkDone(t, inventory);
    assert |t| == |t.Keys|;
    ok := Measure(t, t.Keys);
  }

  lemma SizeOf(t: Tree, inventory: Tree, pending: set<Path>)
    requires inventory.Keys <= t.Keys && pending <= t.Keys && inventory.Keys !! pending
    ensures |inventory| + |pending| <= |t.Keys|
  {
    assert |inventory| == |inventory.Keys|;
    assert |inventory.Keys + pending| == |inventory.Keys| + |pending|;
    Subset(inventory.Keys + pending, t.Keys);
  }

  lemma {:induction false} Subset(a: set<Path>, b: set<Path>)
    requires a <= b
    ensures |a| <= |b|
  {
    if a != {} {
      var p :| p in a;
      Subset(a - {p}, b - {p});
    }
  }

  // ----- Removing the work directory ------------------------------------------------------------------

  predicate IsLeaf(paths: set<Path>, p: Path) {
    p in paths && forall q | q in paths :: !(p < q)
  }

  /** Every nonempty tree has an entry with nothing below it: a deepest one. */
  lemma {:induction false} DeepestIsLeaf(paths: set<Path>) returns (p: Path)
    requires paths != {}
    ensures p in paths && forall q | q in paths :: |q| <= |p|
    ensures IsLeaf(paths, p)
    decreases |paths|
  {
    p :| p in paths;
    if paths - {p} != {} {
      var r := DeepestIsLeaf(paths - {p});
      if |r| > |p| {
        p := r;
      }
    }
  }

  /** An order so far: what it removes is gone from the whole, and nothing was removed before what stood below it. */
  ghost predicate RemovedSoFar(order: seq<Path>, whole: set<Path>, left: set<Path>) {
    && (forall p :: p in order <==> p in whole && p !in left)
    && left <= whole
    && (forall i, j | 0 <= i < j < |order| :: order[i] != order[j] && !(order[i] < order[j]))
    && (forall i, q | 0 <= i < |order| && q in left :: !(order[i] < q))
  }

  lemma NoRemoval()
    ensures Removal([]) == []
  {
  }

  lemma NextRemoval(order: seq<Path>, p: Path)
    ensures Removal(order + [p]) == Removal(order) + [RemoveEntry(p)]
  {
  }

  lemma RemovedNone(whole: set<Path>)
    ensures RemovedSoFar([], whole, whole)
  {
  }

  lemma RemovedAll(order: seq<Path>, t: Tree)
    requires RemovedSoFar(order, t.Keys, {})
    ensures RemovalOrder(order, t)
  {
  }

  lemma RemovedNext(order: seq<Path>, whole: set<Path>, left: set<Path>, p: Path)
    requires RemovedSoFar(order, whole, left) && IsLeaf(left, p)
    ensures RemovedSoFar(order + [p], whole, left - {p})
  {
    forall i, j | 0 <= i < j < |order + [p]|
      ensures (order + [p])[i] != (order + [p])[j] && !((order + [p])[i] < (order + [p])[j])
    {
      assert i < |order| && (order + [p])[i] == order[i] && order[i] in order;
    }
  }

  /** The workspace on disk, and the atomic operations performed on it. */
  class Workshop {
    var fs: FS
    ghost var trace: seq<Op>

    constructor (fs: FS)
      ensures this.fs == fs && trace == []
    {
      this.fs, trace := fs, [];
    }

    method Step(op: Op)
      modifies this
      ensures fs == Do(old(fs), op) && trace == old(trace) + [op]
    {
      fs, trace := Do(fs, op), trace + [op];
    }

    /** Makes a directory and whatever it needs above it. */
    method MakeDirectory(p: Path)
      modifies this
      ensures var ops := MakeDirs(Entries(old(fs).work), p); fs == Exec(old(fs), ops) && trace == old(trace) + ops
      decreases |p|
    {
      hide Do;
      if p in Entries(fs.work) {
        return;
      }
      if p != [] {
        ghost var above := MakeDirs(Entries(fs.work), Parent(p));
        MakeDirectory(Parent(p));
        ExecConcat(old(fs), above, [MakeDir(p)]);
      }
      ExecOne(fs, MakeDir(p));
      Step(MakeDir(p));
    }

    /** `atomic_write_bytes`. */
    method Write(p: Path, n: Node, name: string)
      requires p != []
      modifies this
      ensures var ops := WriteOps(Entries(old(fs).work), p, n, name);
              fs == Exec(old(fs), ops) && trace == old(trace) + ops
    {
      hide Do, MakeDirs;
      ghost var above := MakeDirs(Entries(fs.work), Parent(p));
      var tmp := Parent(p) + [name];
      MakeDirectory(Parent(p));
      ghost var fs1 := fs;
      Step(CreateTemp(tmp, n));
      Step(Replace(tmp, p));
      ExecConcat(old(fs), above, [CreateTemp(tmp, n), Replace(tmp, p)]);
      TwoSteps(fs1, CreateTemp(tmp, n), Replace(tmp, p));
    }

    /** `apply_payloads`. */
    method ApplyPayloads(def: seq<Item>, name: string)
      requires forall i | 0 <= i < |def| :: def[i].target != []
      modifies this
      ensures var ops := StageOps(old(fs), def, name); fs == Exec(old(fs), ops) && trace == old(trace) + ops
    {
      hide Do, WriteOps;
      ghost var all := StageOps(fs, def, name);
      ghost var done: seq<Op> := [];
      assert def[0..] == def;
      for i := 0 to |def|
        invariant trace == old(trace) + done && fs == Exec(old(fs), done) && done + StageOps(fs, def[i..], name) == all
      {
        ghost var before := fs;
        ghost var ops := WriteOps(Entries(fs.work), def[i].target, File(def[i].mode, def[i].data), name);
        Write(def[i].target, File(def[i].mode, def[i].data), name);
        assert def[i..][0] == def[i] && def[i..][1..] == def[i + 1..];
        ExecConcat(old(fs), done, ops);
        assert done + (ops + StageOps(fs, def[i + 1..], name)) == done + ops + StageOps(fs, def[i + 1..], name);
        done := done + ops;
      }
      assert done == all;
    }

    /** `_remove_work_entry`: entry by entry, each after everything below it. */
    method RemoveWork() returns (ghost order: seq<Path>)
      requires fs.work != Some(map[])
      modifies this
      ensures RemovalOrder(order, Entries(old(fs).work))
      ensures fs == Exec(old(fs), Removal(order)) == old(fs).(work := None) && trace == old(trace) + Removal(order)
    {
      hide Do, Exec, Removal, RemovedSoFar, RemovalOrder, IsLeaf;
      order := [];
      var left := Entries(fs.work).Keys;
      ghost var whole := left;
      RemovedNone(whole);
      ExecNone(fs);
      NoRemoval();
      while left != {}
        invariant RemovedSoFar(order, whole, left)
        invariant fs == Exec(old(fs), Removal(order)) && trace == old(trace) + Removal(order)
      {
        ghost var deepest := DeepestIsLeaf(left);
        var p :| p in left && IsLeaf(left, p);
        RemovedNext(order, whole, left, p);
        NextRemoval(order, p);
        ExecConcat(old(fs), Removal(order), [RemoveEntry(p)]);
        ExecOne(fs, RemoveEntry(p));
        Step(RemoveEntry(p));
        order := order + [p];
        left := left - {p};
      }
      RemovedAll(order, Entries(old(fs).work));
      RemovalEmpties(old(fs), order);
    }

    /** What is kept beside the files of an attempt. */
    method Metadata(r: Record) returns (m: Meta)
      requires fs.work.Some? ==> IsTree(fs.work.value)
      ensures m == MetaOf(fs, r)
    {
      hide Capturable, IsTree;
      if fs.work.None? {
        return Meta(r.terms, r.targets, map[], true);
      }
      var inventory, ok := CaptureTree(fs.work.value);
      if !ok {
        return Meta(r.terms, r.targets, map[], true);
      }
      return Meta(r.terms, r.targets, inventory, !r.active);
    }

    /** Moves the whole work directory into the archive. */
    method Relocate(r: Record, id: nat, m: Meta)
      modifies this
      ensures var ops := [NewArchive(id), MoveWorkToArchive(id), WriteMeta(id, m)];
              fs == Exec(old(fs), ops) && trace == old(trace) + ops
    {
      hide Do;
      ThreeSteps(fs, NewArchive(id), MoveWorkToArchive(id), WriteMeta(id, m));
      Step(NewArchive(id));
      Step(MoveWorkToArchive(id));
      Step(WriteMeta(id, m));
    }

    /** Copies the changed files, one by one, into a new archive. */
    method CopyFiles(t: Tree, files: set<Path>, id: nat, m: Meta) returns (ghost copies: seq<Path>)
      requires files <= t.Keys
      modifies this
      ensures Enumerates(copies, files) && forall i | 0 <= i < |copies| :: copies[i] in t
      ensures var ops := [NewArchive(id)] + Copies(id, t, copies) + [WriteMeta(id, m)];
              fs == Exec(old(fs), ops) && trace == old(trace) + ops
    {
      hide Do;
      copies := [];
      var left := files;
      ExecOne(fs, NewArchive(id));
      Step(NewArchive(id));
      ghost var fs1 := fs;
      assert Copies(id, t, []) == [];
      while left != {}
        invariant left <= files && Enumerates(copies, files - left) && forall i | 0 <= i < |copies| :: copies[i] in t
        invariant fs == Exec(fs1, Copies(id, t, copies))
                  && trace == old(trace) + ([NewArchive(id)] + Copies(id, t, copies))
      {
        var p :| p in left;
        assert Copies(id, t, copies + [p]) == Copies(id, t, copies) + [CopyToArchive(id, p, t[p])];
        ExecConcat(fs1, Copies(id, t, copies), [CopyToArchive(id, p, t[p])]);
        ExecOne(fs, CopyToArchive(id, p, t[p]));
        Step(CopyToArchive(id, p, t[p]));
        copies := copies + [p];
        left := left - {p};
      }
      ExecConcat(old(fs), [NewArchive(id)], Copies(id, t, copies));
      ExecConcat(old(fs), [NewArchive(id)] + Copies(id, t, copies), [WriteMeta(id, m)]);
      ExecOne(fs, WriteMeta(id, m));
      Step(WriteMeta(id, m));
      assert files - {} == files;
    }

    /** `archive_attempt`. */
    method ArchiveAttempt(r: Record, id: nat) returns (ghost copies: seq<Path>)
      requires id !in fs.archives && (fs.work.Some? ==> IsTree(fs.work.value))
      modifies this
      ensures Enumerates(copies, ChangedFiles(Entries(old(fs).work), r.targets))
      ensures var ops := ArchiveOps(old(fs), r, id, copies); fs == Exec(old(fs), ops) && trace == old(trace) + ops
    {
      hide ChangedFiles, FitsArchive, IsTree, MetaOf, NeedsWholeTree, StatusOf, Enumerates, Exec;
      ExecNone(fs);
      if Untouched(fs, r) {
        copies := Enumeration(ChangedFiles(Entries(fs.work), r.targets));
        return;
      }
      var m := Metadata(r);
      var t := Entries(fs.work);
      var files := CollectFiles(t, r.targets);
      var whole := false;
      if fs.work.Some? {
        var odd := HoldsOddEntry(t, r.targets);
        var fits := Measure(t, files);
        whole := odd || |files| > MAX_FILES || !fits;
      }
      assert whole == (fs.work.Some? && MovesWhole(t, r.targets));
      if whole {
        copies := Enumeration(files);
        Relocate(r, id, m);
        return;
      }
      var changed := exists i | 0 <= i < |r.targets| :: StatusOf(t, r.targets[i]) != Unchanged;
      if files == {} && !changed {
        copies := Enumeration(files);
        return;
      }
      FilesIn(t, r.targets);
      copies := CopyFiles(t, files, id, m);
      NoneEnumerated(copies, files);
    }

    /** `restore_work_directory`; refuses when the backup it needs is gone or was changed. */
    method RestoreWorkDirectory(r: Record) returns (ok: bool, ghost order: seq<Path>)
      requires fs.work != Some(map[])
      modifies this
      ensures ok == Restorable(old(fs), r) && RemovalOrder(order, Entries(old(fs).work))
      ensures var ops := if ok then RestoreOps(old(fs), r, order) else [];
              fs == Exec(old(fs), ops) && trace == old(trace) + ops
    {
      hide Do, RemovalOrder;
      ExecNone(fs);
      order := SomeOrder(Entries(fs.work).Keys);
      if !r.existed {
        order := RemoveWork();
        return true, order;
      }
      if fs.backup.Some? && [] in fs.backup.value && fs.backup.value[[]].Dir? {
        if r.hash.Some? && fs.backup != r.hash {
          return false, order;
        }
        order := RemoveWork();
        ExecConcat(old(fs), Removal(order), [MoveBackupToWork]);
        ExecOne(fs, MoveBackupToWork);
        Step(MoveBackupToWork);
        return true, order;
      }
      ok := !r.active && !r.moved && fs.work.Some? && [] in fs.work.value && fs.work.value[[]].Dir?;
    }

    /** `cmd_reset`: archive, restore, and only then clear the state. */
    method Reset(id: nat) returns (ok: bool, ghost c: Choices)
      requires fs.state.Some? && id !in fs.archives && (fs.work.Some? ==> IsTree(fs.work.value))
      modifies this
      ensures Proper(old(fs), old(fs).state.value, c) && c.id == id && ok == Resets(old(fs), old(fs).state.value, c)
      ensures var ops := ResetOps(old(fs), old(fs).state.value, c);
              fs == Exec(old(fs), ops) && trace == old(trace) + ops
    {
      hide Do, RemovalOrder, RestoreOps, ArchiveOps, Restorable, Enumerates, IsTree, ChangedFiles;
      var r := fs.state.value;
      TreeNotEmpty(fs.work);
      ghost var copies := ArchiveAttempt(r, id);
      ghost var archive, fs1 := ArchiveOps(old(fs), r, id, copies), fs;
      S.ArchiveCut(old(fs), r, id, copies, |archive|);
      ghost var order;
      ok, order := RestoreWorkDirectory(r);
      c := Choices(id, copies, order);
      if ok {
        ExecConcat(old(fs), archive, RestoreOps(fs1, r, order));
        ExecConcat(old(fs), archive + RestoreOps(fs1, r, order), [ClearState]);
        ExecOne(fs, ClearState);
        Step(ClearState);
      }
    }

    /** The first record, and the pre-start directory moved out of the way; a directory that cannot be hashed is
        put back and the start gives up. */
    method Preserve(def: seq<Item>) returns (ok: bool)
      requires MayStart(fs)
      modifies this
      ensures ok == Starts(old(fs))
      ensures var ops := PreserveOps(old(fs), def); fs == Exec(old(fs), ops) && trace == old(trace) + ops
    {
      hide Hashable;
      var before := fs;
      var first, moved := FirstRecord(fs, def), MovedRecord(fs, def);
      ExecOne(fs, SaveState(first));
      Step(SaveState(first));
      if before.work.None? {
        assert PreserveOps(before, def) == [SaveState(first)];
        return true;
      }
      Step(MoveWorkToBackup);
      ok := IsHashable(fs.backup.value);
      if ok {
        assert PreserveOps(before, def) == [SaveState(first), MoveWorkToBackup, SaveState(moved)];
        ThreeSteps(before, SaveState(first), MoveWorkToBackup, SaveState(moved));
        Step(SaveState(moved));
      } else {
        assert PreserveOps(before, def) == [SaveState(first), MoveWorkToBackup] + [MoveBackupToWork, ClearState];
        ExecConcat(before, [SaveState(first), MoveWorkToBackup], [MoveBackupToWork, ClearState]);
        TwoSteps(before, SaveState(first), MoveWorkToBackup);
        TwoSteps(fs, MoveBackupToWork, ClearState);
        Step(MoveBackupToWork);
        Step(ClearState);
      }
    }

    /** `cmd_start`. */
    method Start(def: seq<Item>, active: bool, name: string) returns (ok: bool)
      requires ValidDef(def)
      modifies this
      ensures ok == Starts(old(fs))
      ensures var ops := StartOps(old(fs), def, active, name); fs == Exec(old(fs), ops) && trace == old(trace) + ops
    {
      hide Do, Hashable, PreserveOps, StageOps;
      ExecNone(fs);
      if !MayStart(fs) {
        return false;
      }
      var last := LastRecord(fs, def, active);
      ghost var before := fs;
      ok := Preserve(def);
      if ok {
        ghost var first, fs1 := PreserveOps(before, def), fs;
        ApplyPayloads(def, name);
        ExecConcat(before, first, StageOps(fs1, def, name));
        ExecConcat(before, first + StageOps(fs1, def, name), [SaveState(last)]);
        ExecOne(fs, SaveState(last));
        Step(SaveState(last));
      }
    }

    /** `load_attempt` and the checks of `cmd_resume` against the definition and the payloads. */
    method CheckAttempt(def: seq<Item>, id: nat) returns (ok: bool)
      ensures ok == MayResume(fs, def, id)
    {
      hide FitsArchive, Available, IsTree, MetaFits;
      if fs.state.Some? || id !in fs.archives || fs.archives[id].meta.None? {
        return false;
      }
      var m := fs.archives[id].meta.value;
      var t := m.inventory;
      if m.blocked || !IsTree(t) {
        return false;
      }
      var small := MeasureMeta(fs.scenario, m);
      var inventory, plain := CaptureTree(t);
      ok := small && plain
        && (forall p | p in t && t[p].Dir? :: OwnerAccess(t[p].mode))
        && m.terms == Terms(def) && m.baseline == Staged(def)
        && (forall p | p in t && t[p].File? :: Available(fs.archives[id], def, p, t[p].data));
    }

    /** Writes the entries of an inventory, directories first. */
    method Rebuild(inventory: Tree, order: seq<Path>, name: string)
      requires forall i | 0 <= i < |order| :: order[i] in inventory
      modifies this
      ensures var ops := BuildOps(old(fs), inventory, order, name);
              fs == Exec(old(fs), ops) && trace == old(trace) + ops
    {
      hide Do, Exec, MakeDirs, WriteOps, BuildOps;
      ghost var all := BuildOps(fs, inventory, order, name);
      ghost var done: seq<Op> := [];
      ExecNone(fs);
      assert order[0..] == order;
      for i := 0 to |order|
        invariant trace == old(trace) + done && fs == Exec(old(fs), done)
                  && done + BuildOps(fs, inventory, order[i..], name) == all
      {
        ghost var ops := BuildOne(Entries(fs.work), order[i], inventory[order[i]], name);
        BuildNext(fs, inventory, order, i, name);
        if inventory[order[i]].Dir? || order[i] == [] {
          MakeDirectory(order[i]);
        } else {
          Write(order[i], inventory[order[i]], name);
        }
        ExecConcat(old(fs), done, ops);
        assert done + (ops + BuildOps(fs, inventory, order[i + 1..], name))
               == done + ops + BuildOps(fs, inventory, order[i + 1..], name);
        done := done + ops;
      }
      BuildNothing(fs, inventory, name);
      assert order[|order|..] == [] && done + [] == done;
    }

    /** Sets the directory modes, the innermost first. */
    method SetModes(inventory: Tree, order: seq<Path>)
      requires forall i | 0 <= i < |order| :: order[i] in inventory
      modifies this
      ensures var ops := ChmodOps(inventory, order); fs == Exec(old(fs), ops) && trace == old(trace) + ops
    {
      hide Do;
      ghost var all := ChmodOps(inventory, order);
      ghost var done: seq<Op> := [];
      var j := |order|;
      assert order[..|order|] == order;
      while j > 0
        invariant 0 <= j <= |order|
        invariant trace == old(trace) + done && fs == Exec(old(fs), done)
                  && done + ChmodOps(inventory, order[..j]) == all
      {
        j := j - 1;
        var p := order[j];
        assert order[..j + 1][..j] == order[..j];
        if inventory[p].Dir? {
          ExecConcat(old(fs), done, [SetMode(p, inventory[p].mode)]);
          ExecOne(fs, SetMode(p, inventory[p].mode));
          Step(SetMode(p, inventory[p].mode));
          done := done + [SetMode(p, inventory[p].mode)];
        }
      }
      assert done == all;
    }

    /** `cmd_resume`: an ordinary start, then the staged tree is replaced by the saved one. */
    method Resume(def: seq<Item>, id: nat, name: string)
                  returns (ok: bool, ghost removal: seq<Path>, ghost build: seq<Path>)
      requires ValidDef(def) && fs.work != Some(map[])
      requires MayResume(fs, def, id) ==> W.FreshName(name, fs.archives[id].meta.value.inventory)
      modifies this
      ensures ok == (MayResume(old(fs), def, id) && Starts(old(fs)))
      ensures MayResume(old(fs), def, id) ==> ProperResume(old(fs), def, id, name, removal, build)
      ensures var ops := ResumeOps(old(fs), def, id, name, removal, build);
              fs == Exec(old(fs), ops) && trace == old(trace) + ops
    {
      hide Do, Exec, Hashable, StartOps, BuildOps, ChmodOps, RemovalOrder, BuildOrder, ValidDef, Starts, W.FreshName,
           Loadable, Available, ResumeOps, Removal, LastRecord;
      removal, build := [], [];
      ExecNone(fs);
      ok := CheckAttempt(def, id);
      if !ok {
        ResumeRefused(fs, def, id, name, removal, build);
        return;
      }
      ghost var before := fs;
      var inventory := fs.archives[id].meta.value.inventory;
      var last := LastRecord(fs, def, true);
      ok := Start(def, false, name);
      ghost var start, fs1 := StartOps(before, def, false, name), fs;
      if !ok {
        removal := SomeOrder(Entries(fs.work).Keys);
        var order := ParentsFirst(inventory);
        build := order;
        S.GivesUp(before, def, id, name, removal, build);
        return;
      }
      Started(before, def, name);
      ghost var rest;
      removal, build, rest := ReplaceWork(inventory, name, before, def, id);
    }

    /** The staged tree is removed, the saved one is built in its place, and only then is the attempt active. */
    method ReplaceWork(inventory: Tree, name: string, ghost before: FS, ghost def: seq<Item>, ghost id: nat)
      returns (ghost removal: seq<Path>, ghost build: seq<Path>, ghost rest: seq<Op>)
      requires ValidDef(def) && MayResume(before, def, id) && inventory == before.archives[id].meta.value.inventory
      requires Starts(before) && before.work != Some(map[]) && W.FreshName(name, inventory)
      requires fs == Exec(before, StartOps(before, def, false, name)) && fs.state.Some? && fs.work != Some(map[])
      requires fs.state.value.(active := true) == LastRecord(before, def, true)
      modifies this
      ensures ProperResume(before, def, id, name, removal, build)
      ensures var ops := ResumeOps(before, def, id, name, removal, build);
              && fs == Exec(before, ops)
              && ops == StartOps(before, def, false, name) + rest && trace == old(trace) + rest
    {
      hide Do, Exec, StartOps, BuildOps, ChmodOps, RemovalOrder, BuildOrder, ValidDef, Starts, W.FreshName,
           MayResume, ResumeOps, Removal, LastRecord, Capturable;
      var record := fs.state.value;
      removal := RemoveWork();
      var order := ParentsFirst(inventory);
      build := order;
      assert ProperResume(before, def, id, name, removal, build);
      ResumeSteps(before, def, id, name, removal, build);
      ghost var first, ops, modes := Removal(removal), BuildOps(fs, inventory, order, name), ChmodOps(inventory, order);
      rest := first + ops + modes + [SaveState(record.(active := true))];
      S.Associates(old(trace), first, ops, modes, [SaveState(record.(active := true))]);
      S.Associates(StartOps(before, def, false, name), first, ops, modes, [SaveState(record.(active := true))]);
      Rebuild(inventory, order, name);
      SetModes(inventory, order);
      InventoryIs(before, def, id);
      var captured, same := CaptureTree(fs.work.value);
      assert same && captured == inventory;
      ExecOne(fs, SaveState(record.(active := true)));
      Step(SaveState(record.(active := true)));
    }
  }

  lemma Started(fs: FS, def: seq<Item>, name: string)
    requires Starts(fs) && fs.work != Some(map[]) && ValidDef(def)
    ensures var fs1 := Exec(fs, StartOps(fs, def, false, name));
            && fs1.work != Some(map[]) && fs1.state == Some(LastRecord(fs, def, false))
            && LastRecord(fs, def, false).(active := true) == LastRecord(fs, def, true)
  {
    S.StartCrash(fs, def, false, name, |StartOps(fs, def, false, name)|);
  }

  /** The stretches of a resume, one after the other, and what they lead to: the inventory, exactly. */
  lemma ResumeSteps(fs: FS, def: seq<Item>, id: nat, name: string, removal: seq<Path>, build: seq<Path>)
    requires ValidDef(def) && MayResume(fs, def, id) && ProperResume(fs, def, id, name, removal, build)
    requires Starts(fs) && fs.work != Some(map[]) && W.FreshName(name, fs.archives[id].meta.value.inventory)
    ensures forall i | 0 <= i < |build| :: build[i] in fs.archives[id].meta.value.inventory
    ensures var inventory := fs.archives[id].meta.value.inventory;
            var start := StartOps(fs, def, false, name);
            var fs2 := Exec(Exec(fs, start), Removal(removal));
            var ops := BuildOps(fs2, inventory, build, name);
            var fs3 := Exec(Exec(fs2, ops), ChmodOps(inventory, build));
            && ResumeOps(fs, def, id, name, removal, build)
               == start + Removal(removal) + ops + ChmodOps(inventory, build) + [SaveState(LastRecord(fs, def, true))]
            && Exec(fs, ResumeOps(fs, def, id, name, removal, build))
               == Exec(fs3, [SaveState(LastRecord(fs, def, true))])
            && fs3.work == Some(inventory) && Capturable(inventory)
  {
    var inventory := fs.archives[id].meta.value.inventory;
    var start := StartOps(fs, def, false, name);
    var fs1 := Exec(fs, start);
    S.ResumeIs(fs, def, id, name, removal, build);
    Started(fs, def, name);
    InventoryIs(fs, def, id);
    hide MayResume, Starts, StartOps, BuildOps, ChmodOps, RemovalOrder, BuildOrder, Capturable, W.FreshName, ValidDef;
    W.RebuildExec(fs1, inventory, name, removal, build);
    var fs2 := Exec(fs1, Removal(removal));
    var ops, modes, last := BuildOps(fs2, inventory, build, name), ChmodOps(inventory, build),
        [SaveState(LastRecord(fs, def, true))];
    S.Associates(start, Removal(removal), ops, modes, last);
    ExecConcat(fs, start, Removal(removal));
    ExecConcat(fs, start + Removal(removal), ops);
    ExecConcat(fs, start + Removal(removal) + ops, modes);
    ExecConcat(fs, start + Removal(removal) + ops + modes, last);
    ExecConcat(fs1, Removal(removal), ops);
    ExecConcat(fs1, Removal(removal) + ops, modes);
  }

  lemma ResumeRefused(fs: FS, def: seq<Item>, id: nat, name: string, removal: seq<Path>, build: seq<Path>)
    requires ValidDef(def) && !MayResume(fs, def, id)
    ensures ResumeOps(fs, def, id, name, removal, build) == []
  {
  }

  lemma InventoryIs(fs: FS, def: seq<Item>, id: nat)
    requires MayResume(fs, def, id)
    ensures var t := fs.archives[id].meta.value.inventory;
            Capturable(t) && IsDirectory(t) && forall p | p in t :: t[p].Dir? || t[p].File?
  {
  }

  lemma BuildNext(fs: FS, inventory: Tree, order: seq<Path>, i: nat, name: string)
    requires i < |order| && forall j | 0 <= j < |order| :: order[j] in inventory
    ensures var ops := BuildOne(Entries(fs.work), order[i], inventory[order[i]], name);
            BuildOps(fs, inventory, order[i..], name) == ops + BuildOps(Exec(fs, ops), inventory, order[i + 1..], name)
  {
    assert order[i..][0] == order[i] && order[i..][1..] == order[i + 1..];
  }

  lemma BuildNothing(fs: FS, inventory: Tree, name: string)
    ensures BuildOps(fs, inventory, [], name) == []
  {
  }

  predicate IsTop(paths: set<Path>, p: Path) {
    p in paths && forall q | q in paths :: !(q < p)
  }

  lemma {:induction false} ShallowestIsTop(paths: set<Path>) returns (p: Path)
    requires paths != {}
    ensures p in paths && forall q | q in paths :: |q| >= |p|
    ensures IsTop(paths, p)
    decreases |paths|
  {
    p :| p in paths;
    if paths - {p} != {} {
      var r := ShallowestIsTop(paths - {p});
      if |r| < |p| {
        p := r;
      }
    }
  }

  ghost predicate OrderedSoFar(order: seq<Path>, whole: set<Path>, left: set<Path>) {
    && (forall p :: p in order <==> p in whole && p !in left)
    && left <= whole
    && (forall i, j | 0 <= i < j < |order| :: order[i] != order[j] && !(order[j] < order[i]))
    && (forall i, q | 0 <= i < |order| && q in left :: !(q < order[i]))
  }

  lemma OrderedNext(order: seq<Path>, whole: set<Path>, left: set<Path>, p: Path)
    requires OrderedSoFar(order, whole, left) && IsTop(left, p)
    ensures OrderedSoFar(order + [p], whole, left - {p})
  {
    forall i, j | 0 <= i < j < |order + [p]|
      ensures (order + [p])[i] != (order + [p])[j] && !((order + [p])[j] < (order + [p])[i])
    {
      assert i < |order| && (order + [p])[i] == order[i] && order[i] in order;
    }
  }

  /** The entries of a tree, every directory before what stands in it. */
  method ParentsFirst(t: Tree) returns (order: seq<Path>)
    ensures BuildOrder(order, t)
  {
    order := [];
    var left := t.Keys;
    while left != {}
      invariant OrderedSoFar(order, t.Keys, left)
    {
      ghost var top := ShallowestIsTop(left);
      var p :| p in left && IsTop(left, p);
      OrderedNext(order, t.Keys, left, p);
      order, left := order + [p], left - {p};
    }
  }

  /** `work_tree_sha256` accepts the tree. */
  method IsHashable(t: Tree) returns (ok: bool)
    ensures ok == Hashable(t)
  {
    ok := Measure(t, t.Keys);
    assert |t.Keys| == |t|;
    ok := ok && |t| <= MAX_FILES + 1 && forall p | p in t :: !t[p].Odd?;
  }

  lemma TreeNotEmpty(work: Option<Tree>)
    requires work.Some? ==> IsTree(work.value)
    ensures work != Some(map[])
  {
  }

  lemma SomeOrder(paths: set<Path>) returns (order: seq<Path>)
    ensures RemovedSoFar(order, paths, {})
    ensures forall t: Tree | t.Keys == paths :: RemovalOrder(order, t)
    decreases |paths|
  {
    order := [];
    var left := paths;
    while left != {}
      invariant RemovedSoFar(order, paths, left)
    {
      var p := DeepestIsLeaf(left);
      RemovedNext(order, paths, left, p);
      order, left := order + [p], left - {p};
    }
    forall t: Tree | t.Keys == paths
      ensures RemovalOrder(order, t)
    {
      RemovedAll(order, t);
    }
  }

  lemma ExecNone(fs: FS)
    ensures Exec(fs, []) == fs
  {
  }

  lemma NoneEnumerated(paths: seq<Path>, s: set<Path>)
    requires Enumerates(paths, s)
    ensures s == {} <==> paths == []
  {
    if paths != [] {
      assert paths[0] in paths;
    }
  }

  lemma FilesIn(t: Tree, targets: seq<Target>)
    ensures ChangedFiles(t, targets) <= t.Keys
  {
  }

  lemma {:induction false} Enumeration(s: set<Path>) returns (paths: seq<Path>)
    ensures Enumerates(paths, s) && (s == {} <==> paths == [])
    decreases |s|
  {
    if s == {} {
      paths := [];
    } else {
      var p :| p in s;
      var rest := Enumeration(s - {p});
      paths := [p] + rest;
    }
  }

  /** `collect_attempt_files`. */
  method CollectFiles(t: Tree, targets: seq<Target>) returns (files: set<Path>)
    ensures files == ChangedFiles(t, targets)
  {
    hide IsUnchanged;
    files := {};
    var left := t.Keys;
    while left != {}
      invariant left <= t.Keys
      invariant files == set p | p in t && p !in left && t[p].File? && !IsUnchanged(t, targets, p)
    {
      var p :| p in left;
      left := left - {p};
      if t[p].File? && !IsUnchanged(t, targets, p) {
        files := files + {p};
      }
    }
  }

  /** `_whole_tree_archive_reason`. */
  method HoldsOddEntry(t: Tree, targets: seq<Target>) returns (odd: bool)
    ensures odd == (!([] in t && t[[]].Dir?) || exists p | p in t :: NeedsWholeTree(targets, p, t[p]))
  {
    hide NeedsWholeTree;
    odd := !([] in t && t[[]].Dir?);
    var left := t.Keys;
    while left != {} && !odd
      invariant left <= t.Keys
      invariant odd == (!([] in t && t[[]].Dir?) || exists p | p in t && p !in left :: NeedsWholeTree(targets, p, t[p]))
      decreases |left|
    {
      var p :| p in left;
      left := left - {p};
      odd := NeedsWholeTree(targets, p, t[p]);
    }
  }

  lemma ThreeSteps(fs: FS, a: Op, b: Op, c: Op)
    ensures Exec(fs, [a, b, c]) == Do(Do(Do(fs, a), b), c)
  {
    assert [a, b, c][1..] == [b, c];
    TwoSteps(Do(fs, a), b, c);
  }

  lemma TwoSteps(fs: FS, a: Op, b: Op)
    ensures Exec(fs, [a, b]) == Do(Do(fs, a), b)
  {
    assert [a, b][1..] == [b];
    ExecOne(Do(fs, a), b);
  }
}
