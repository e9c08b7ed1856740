/** The part of the file system that the scenario lifecycle of `scripts/workshop.py` touches, for one scenario:
    the work directory, its pre-start backup, the attempt archives and the durable state record. Each
    operation below is atomic; a crash may fall between any two of them. */
module Workspaces {
  import opened Options

  /** A path inside the work directory; the empty path is the work directory itself. */
  type Path = seq<string>
  type Bytes = string

  datatype Node = Dir(mode: nat) | File(mode: nat, data: Bytes) | Link(target: string) | Odd

  type Tree = map<Path, Node>

  function Parent(p: Path): Path
    requires p != []
  {
    p[..|p| - 1]
  }

  /** Every entry but the root stands in a directory. */
  predicate IsTree(t: Tree) {
    && [] in t
    && forall p | p in t && p != [] :: Parent(p) in t && t[Parent(p)].Dir?
  }

  predicate IsDirectory(t: Tree) {
    IsTree(t) && t[[]].Dir?
  }

  /** A file to stage: its target under the work directory, its mode and its payload. */
  datatype Item = Item(target: Path, mode: nat, data: Bytes)

  /** What the state records of a target; nothing is known of it before it is staged. */
  datatype Target = Target(path: Path, staged: Option<Node>)

  /** The durable state. Content hashes are ideal: a hash is the content itself. `terms` are the targets and
      modes that the manifest fixes. */
  datatype Record = Record(active: bool, existed: bool, moved: bool, hash: Option<Tree>, targets: seq<Target>,
      terms: seq<(Path, nat)>)

  /** What is kept of an attempt beside its files: the definition and the payloads it was staged from, an
      inventory of the whole work directory, and whether it cannot be resumed. */
  datatype Meta = Meta(terms: seq<(Path, nat)>, baseline: seq<Target>, inventory: Tree, blocked: bool)

  datatype Archive = Archive(tree: Tree, meta: Option<Meta>)

  datatype FS = FS(
    scenario: string, work: Option<Tree>, backup: Option<Tree>, archives: map<nat, Archive>, state: Option<Record>)

  function Entries(work: Option<Tree>): Tree {
    if work.Some? then work.value else map[]
  }

  /** An atomic operation. */
  datatype Op =
    | SaveState(record: Record) | ClearState
    | MoveWorkToBackup | MoveBackupToWork
    | MakeDir(path: Path) | CreateTemp(path: Path, node: Node) | Replace(from: Path, path: Path)
    | SetMode(path: Path, mode: nat) | RemoveEntry(path: Path)
    | NewArchive(id: nat) | MoveWorkToArchive(id: nat) | CopyToArchive(id: nat, path: Path,
        node: Node) | WriteMeta(id: nat, meta: Meta)

  /** The mode a directory is made with. */
  const DIR_MODE: nat := 0x1ED

  function WithWork(fs: FS, t: Tree): FS {
    fs.(work := if t == map[] then None else Some(t))
  }

  function WithArchive(fs: FS, id: nat, a: Archive): FS {
    fs.(archives := fs.archives[id := a])
  }

  function ArchiveAt(fs: FS, id: nat): Archive {
    if id in fs.archives then fs.archives[id] else Archive(map[], None)
  }

  function Do(fs: FS, op: Op): FS {
    var t := Entries(fs.work);
    match op
    case SaveState(r) => fs.(state := Some(r))
    case ClearState => fs.(state := None)
    case MoveWorkToBackup => fs.(backup := fs.work, work := None)
    case MoveBackupToWork => fs.(work := fs.backup, backup := None)
    case MakeDir(p) => WithWork(fs, t[p := Dir(DIR_MODE)])
    case CreateTemp(p, n) => WithWork(fs, t[p := n])
    case Replace(q, p) => if q in t then WithWork(fs, t[p := t[q]] - {q}) else fs
    case SetMode(p, m) => if p in t && t[p].Dir? then WithWork(fs, t[p := Dir(m)]) else fs
    case RemoveEntry(p) => WithWork(fs, t - {p})
    case NewArchive(id) => WithArchive(fs, id, Archive(map[], None))
    case MoveWorkToArchive(id) => WithArchive(fs, id, ArchiveAt(fs, id).(tree := t)).(work := None)
    case CopyToArchive(id, p, n) => WithArchive(fs, id, ArchiveAt(fs, id).(tree := ArchiveAt(fs, id).tree[p := n]))
    case WriteMeta(id, m) => WithArchive(fs, id, ArchiveAt(fs, id).(meta := Some(m)))
  }

  function Exec(fs: FS, ops: seq<Op>): FS
    decreases |ops|
  {
    if ops == [] then fs else Exec(Do(fs, ops[0]), ops[1..])
  }

  /** Nothing renames the scenario. */
  lemma {:induction false} ExecScenario(fs: FS, ops: seq<Op>)
    ensures Exec(fs, ops).scenario == fs.scenario
    decreases |ops|
  {
    if ops != [] {
      ExecScenario(Do(fs, ops[0]), ops[1..]);
    }
  }

  lemma {:induction false} ExecConcat(fs: FS, a: seq<Op>, b: seq<Op>)
    ensures Exec(fs, a + b) == Exec(Exec(fs, a), b)
    decreases |a|
  {
    if a == [] {
      assert a + b == b;
    } else {
      ExecConcat(Do(fs, a[0]), a[1..], b);
      assert (a + b)[1..] == a[1..] + b;
    }
  }

  lemma ExecOne(fs: FS, op: Op)
    ensures Exec(fs, [op]) == Do(fs, op)
  {
    assert Exec(Do(fs, op), [op][1..]) == Do(fs, op);
  }

  /** The state after a crash at step `k`; a `k` past the end is no crash. */
  function Crashed(fs: FS, ops: seq<Op>, k: nat): FS {
    if k < |ops| then Exec(fs, ops[..k]) else Exec(fs, ops)
  }

  lemma CrashedConcat(fs: FS, a: seq<Op>, b: seq<Op>, k: nat)
    ensures k < |a| ==> Crashed(fs, a + b, k) == Crashed(fs, a, k)
    ensures k >= |a| ==> Crashed(fs, a + b, k) == Crashed(Exec(fs, a), b, k - |a|)
  {
    if k < |a| {
      assert (a + b)[..k] == a[..k];
    } else {
      ExecConcat(fs, a, b);
      if k < |a| + |b| {
        assert (a + b)[..k] == a + b[..k - |a|];
        ExecConcat(fs, a, b[..k - |a|]);
      }
    }
  }

  /** Operations that touch neither the state nor the backup. */
  predicate Local(op: Op) {
    !op.SaveState? && !op.ClearState? && !op.MoveWorkToBackup? && !op.MoveBackupToWork?
  }

  /** Operations that touch nothing but the work directory. */
  predicate WorkOnly(op: Op) {
    op.MakeDir? || op.CreateTemp? || op.Replace? || op.SetMode? || op.RemoveEntry?
  }

  predicate AllLocal(ops: seq<Op>) {
    forall i | 0 <= i < |ops| :: Local(ops[i])
  }

  predicate AllWorkOnly(ops: seq<Op>) {
    forall i | 0 <= i < |ops| :: WorkOnly(ops[i])
  }

  lemma {:induction false} ExecLocal(fs: FS, ops: seq<Op>)
    requires AllLocal(ops)
    ensures Exec(fs, ops).state == fs.state && Exec(fs, ops).backup == fs.backup
    decreases |ops|
  {
    if ops != [] {
      ExecLocal(Do(fs, ops[0]), ops[1..]);
    }
  }

  lemma {:induction false} ExecWorkOnly(fs: FS, ops: seq<Op>)
    requires AllWorkOnly(ops)
    ensures Exec(fs, ops) == fs.(work := Exec(fs, ops).work)
    decreases |ops|
  {
    if ops != [] {
      ExecWorkOnly(Do(fs, ops[0]), ops[1..]);
    }
  }

  // ----- Removing the work directory -----------------------------------------------------------

  /** An order in which a tree may be removed: every entry once, and none before what stands below it. */
  ghost predicate RemovalOrder(order: seq<Path>, t: Tree) {
    && (forall p :: p in order <==> p in t)
    && (forall i, j | 0 <= i < j < |order| :: order[i] != order[j] && !(order[i] < order[j]))
  }

  function Removal(order: seq<Path>): (ops: seq<Op>)
    ensures |ops| == |order| && forall i | 0 <= i < |ops| :: ops[i] == RemoveEntry(order[i])
  {
    seq(|order|, i requires 0 <= i < |order| => RemoveEntry(order[i]))
  }

  lemma {:induction false} RemovalExec(fs: FS, order: seq<Path>)
    requires fs.work != Some(map[])
    ensures Exec(fs, Removal(order)) == WithWork(fs, Entries(fs.work) - (set p | p in order))
    decreases |order|
  {
    if order == [] {
      assert Entries(fs.work) - (set p | p in order) == Entries(fs.work);
    } else {
      var p := order[0];
      assert Removal(order)[1..] == Removal(order[1..]);
      RemovalExec(Do(fs, RemoveEntry(p)), order[1..]);
      FirstAndRest(Entries(fs.work), order);
    }
  }

  lemma FirstAndRest(t: Tree, order: seq<Path>)
    requires order != []
    ensures t - {order[0]} - (set p | p in order[1..]) == t - (set p | p in order)
  {
    assert order == [order[0]] + order[1..];
  }

  /** Once every entry is removed the directory is gone. */
  lemma RemovalEmpties(fs: FS, order: seq<Path>)
    requires fs.work != Some(map[]) && RemovalOrder(order, Entries(fs.work))
    ensures Exec(fs, Removal(order)) == fs.(work := None)
  {
    RemovalExec(fs, order);
    assert Entries(fs.work) - (set p | p in order) == map[];
  }
}
