/** The commands `start`, `reset` and `resume` of `scripts/workshop.py` as sequences of atomic operations. */
module Scenarios {
  import opened Options
  import opened Workspaces

  const MAX_FILES: nat := 200
  const MAX_FILE_BYTES: nat := 2 * 1024 * 1024
  const MAX_TOTAL_BYTES: nat := 20 * 1024 * 1024

  // ----- Measuring trees -------------------------------------------------------------------------

  function BytesAt(t: Tree, p: Path): nat {
    if p in t && t[p].File? then |t[p].data| else 0
  }

  ghost function TotalBytes(t: Tree, paths: set<Path>): nat {
    if paths == {} then 0
    else
      var p :| p in paths;
      BytesAt(t, p) + TotalBytes(t, paths - {p})
  }

  ghost predicate FitsArchive(t: Tree, paths: set<Path>) {
    && (forall p | p in paths :: BytesAt(t, p) <= MAX_FILE_BYTES)
    && TotalBytes(t, paths) <= MAX_TOTAL_BYTES
  }

  /** `work_tree_sha256` accepts the tree. */
  ghost predicate Hashable(t: Tree) {
    |t.Keys| <= MAX_FILES + 1 && (forall p | p in t :: !t[p].Odd?) && FitsArchive(t, t.Keys)
  }

  predicate PlainMode(m: nat) {
    m < 512
  }

  predicate SafeChar(c: char) {
    'a' <= c <= 'z' || 'A' <= c <= 'Z' || '0' <= c <= '9' || c in {'.', '_', '-'}
  }

  predicate SafeName(name: string) {
    name !in {"", ".", ".."} && forall i | 0 <= i < |name| :: SafeChar(name[i])
  }

  /** `check_confined` accepts the path of an entry. */
  predicate SafePath(p: Path) {
    forall i | 0 <= i < |p| :: SafeName(p[i])
  }

  /** An entry that an inventory may list. */
  predicate Storable(p: Path, n: Node) {
    SafePath(p) && (n.Dir? || n.File?) && PlainMode(n.mode)
  }

  /** `capture_work_tree` can make an inventory of the tree. */
  ghost predicate Capturable(t: Tree) {
    && IsDirectory(t) && |t.Keys| <= MAX_FILES + 1
    && (forall p | p in t :: Storable(p, t[p]))
    && FitsArchive(t, t.Keys)
  }

  // ----- The size of an inventory --------------------------------------------------------------

  const MAX_STATE_BYTES: nat := 256 * 1024

  function Digits(n: nat): nat {
    if n < 10 then 1 else 1 + Digits(n / 10)
  }

  function NameBytes(p: Path): nat {
    if p == [] then 0 else NameBytes(p[..|p| - 1]) + 1 + |p[|p| - 1]|
  }

  /** The length of the path of an entry, from the root of the repository. */
  function PathBytes(scenario: string, p: Path): nat {
    24 + |scenario| + NameBytes(p)
  }

  /** What one entry takes in `attempt.json`. */
  function EntryBytes(scenario: string, t: Tree, p: Path): nat {
    PathBytes(scenario, p) + if p in t && t[p].File? then 174 + Digits(|t[p].data|) else 118
  }

  ghost function InventoryBytes(scenario: string, t: Tree, paths: set<Path>): nat {
    if paths == {} then 0
    else
      var p :| p in paths;
      EntryBytes(scenario, t, p) + InventoryBytes(scenario, t, paths - {p})
  }

  function BaselineBytes(scenario: string, baseline: seq<Target>): nat {
    if baseline == [] then 0
    else BaselineBytes(scenario, baseline[..|baseline| - 1]) + 136 + PathBytes(scenario, baseline[|baseline| - 1].path)
  }

  /** The size of `attempt.json` for an attempt that nothing blocks. */
  ghost function MetaBytes(scenario: string, m: Meta): nat {
    379 + |scenario| + BaselineBytes(scenario, m.baseline) + InventoryBytes(scenario, m.inventory, m.inventory.Keys)
  }

  ghost predicate MetaFits(scenario: string, m: Meta) {
    MetaBytes(scenario, m) <= MAX_STATE_BYTES
  }

  // ----- What became of the staged files -----------------------------------------------------------

  datatype Status = ReplacedByDirectory | Missing | Unknown | Modified | ModeChanged | Unchanged

  function StatusOf(t: Tree, target: Target): Status {
    var p := target.path;
    if p in t && t[p].Dir? then ReplacedByDirectory
    else if p !in t || !t[p].File? then Missing
    else if target.staged.None? || !target.staged.value.File? then Unknown
    else if t[p].data != target.staged.value.data then Modified
    else if t[p].mode % 512 != target.staged.value.mode then ModeChanged
    else Unchanged
  }

  predicate AllUnchanged(t: Tree, targets: seq<Target>) {
    forall i | 0 <= i < |targets| :: StatusOf(t, targets[i]) == Unchanged
  }

  predicate IsUnchanged(t: Tree, targets: seq<Target>, p: Path) {
    exists i | 0 <= i < |targets| :: targets[i].path == p && StatusOf(t, targets[i]) == Unchanged
  }

  /** The participant's files: all regular files but the staged ones that are as they were staged. */
  function ChangedFiles(t: Tree, targets: seq<Target>): set<Path> {
    set p | p in t && t[p].File? && !IsUnchanged(t, targets, p)
  }

  predicate ExpectedDir(targets: seq<Target>, p: Path) {
    p == [] || exists i | 0 <= i < |targets| :: p < targets[i].path
  }

  /** An entry that a copy of the changed files alone would lose. */
  predicate NeedsWholeTree(targets: seq<Target>, p: Path, n: Node) {
    n.Link? || n.Odd? || (n.Dir? && !ExpectedDir(targets, p))
  }

  ghost predicate MovesWhole(t: Tree, targets: seq<Target>) {
    || !([] in t && t[[]].Dir?)
    || (exists p | p in t :: NeedsWholeTree(targets, p, t[p]))
    || |ChangedFiles(t, targets)| > MAX_FILES
    || !FitsArchive(t, ChangedFiles(t, targets))
  }

  // ----- Start ----------------------------------------------------------------------------------------

  function Terms(def: seq<Item>): (r: seq<(Path, nat)>)
    ensures |r| == |def|
  {
    seq(|def|, i requires 0 <= i < |def| => (def[i].target, def[i].mode))
  }

  function Planned(def: seq<Item>): seq<Target> {
    seq(|def|, i requires 0 <= i < |def| => Target(def[i].target, None))
  }

  function Staged(def: seq<Item>): (r: seq<Target>)
    ensures |r| == |def| && forall i | 0 <= i < |def| ::
              r[i] == Target(def[i].target, Some(File(def[i].mode, def[i].data)))
  {
    seq(|def|, i requires 0 <= i < |def| => Target(def[i].target, Some(File(def[i].mode, def[i].data))))
  }

  /** Something is staged; targets lie strictly inside the work directory, all different and none inside another. */
  predicate ValidDef(def: seq<Item>) {
    && def != []
    && (forall i | 0 <= i < |def| :: def[i].target != [] && PlainMode(def[i].mode))
    && (forall i, j | 0 <= i < |def| && 0 <= j < |def| && i != j :: !(def[i].target <= def[j].target))
  }

  /** Makes a directory and whatever it needs above it. */
  function MakeDirs(t: Tree, p: Path): seq<Op>
    decreases |p|
  {
    if p in t then [] else (if p == [] then [] else MakeDirs(t, Parent(p))) + [MakeDir(p)]
  }

  /** An atomic write: through a temporary file beside the target. */
  function WriteOps(t: Tree, p: Path, n: Node, name: string): seq<Op>
    requires p != []
  {
    MakeDirs(t, Parent(p)) + [CreateTemp(Parent(p) + [name], n), Replace(Parent(p) + [name], p)]
  }

  function StageOps(fs: FS, def: seq<Item>, name: string): seq<Op>
    requires forall i | 0 <= i < |def| :: def[i].target != []
    decreases |def|
  {
    if def == [] then []
    else
      var ops := WriteOps(Entries(fs.work), def[0].target, File(def[0].mode, def[0].data), name);
      ops + StageOps(Exec(fs, ops), def[1..], name)
  }

  predicate MayStart(fs: FS) {
    && fs.state.None? && fs.backup.None?
    && (fs.work.Some? ==> [] in fs.work.value && fs.work.value[[]].Dir?)
  }

  /** What is saved before anything is touched. */
  function FirstRecord(fs: FS, def: seq<Item>): Record {
    Record(false, fs.work.Some?, false, None, Planned(def), Terms(def))
  }

  /** What is saved once the pre-start tree is out of the way, if there was one. */
  function MovedRecord(fs: FS, def: seq<Item>): Record {
    if fs.work.Some? then FirstRecord(fs, def).(moved := true, hash := fs.work) else FirstRecord(fs, def)
  }

  function LastRecord(fs: FS, def: seq<Item>, active: bool): Record {
    MovedRecord(fs, def).(active := active, targets := Staged(def))
  }

  /** The operations up to staging; a tree that cannot be hashed is put back and the start gives up. */
  ghost function PreserveOps(fs: FS, def: seq<Item>): seq<Op> {
    [SaveState(FirstRecord(fs, def))]
    + (if fs.work.None? then []
       else [MoveWorkToBackup] + if Hashable(fs.work.value) then [SaveState(MovedRecord(fs, def))]
           else [MoveBackupToWork, ClearState])
  }

  ghost predicate Starts(fs: FS) {
    MayStart(fs) && (fs.work.Some? ==> Hashable(fs.work.value))
  }

  ghost function StartOps(fs: FS, def: seq<Item>, active: bool, name: string): seq<Op>
    requires ValidDef(def)
  {
    if !MayStart(fs) then []
    else if !Starts(fs) then PreserveOps(fs, def)
    else
      PreserveOps(fs, def)
      + StageOps(Exec(fs, PreserveOps(fs, def)), def, name)
      + [SaveState(LastRecord(fs, def, active))]
  }

  // ----- Reset ----------------------------------------------------------------------------------------

  /** Nothing was staged and nothing moved: the work directory is still the participant's own. */
  predicate Untouched(fs: FS, r: Record) {
    !r.active && r.existed && !r.moved && fs.backup.None?
  }

  ghost function MetaOf(fs: FS, r: Record): Meta {
    var captured := fs.work.Some? && Capturable(fs.work.value);
    Meta(r.terms, r.targets, if captured then fs.work.value else map[], !captured || !r.active)
  }

  function Copies(id: nat, t: Tree, paths: seq<Path>): (ops: seq<Op>)
    requires forall i | 0 <= i < |paths| :: paths[i] in t
    ensures |ops| == |paths| && forall i | 0 <= i < |ops| :: ops[i] == CopyToArchive(id, paths[i], t[paths[i]])
  {
    seq(|paths|, i requires 0 <= i < |paths| => CopyToArchive(id, paths[i], t[paths[i]]))
  }

  ghost predicate Enumerates(paths: seq<Path>, s: set<Path>) {
    && (forall p :: p in paths <==> p in s)
    && (forall i, j | 0 <= i < j < |paths| :: paths[i] != paths[j])
  }

  /** `archive_attempt`: nothing, the whole tree, or a copy of every changed file. */
  ghost function ArchiveOps(fs: FS, r: Record, id: nat, copies: seq<Path>): seq<Op>
    requires Enumerates(copies, ChangedFiles(Entries(fs.work), r.targets))
  {
    var t := Entries(fs.work);
    if Untouched(fs, r) then []
    else if fs.work.Some? && MovesWhole(t, r.targets) then
        [NewArchive(id), MoveWorkToArchive(id), WriteMeta(id, MetaOf(fs, r))]
    else if copies == [] && AllUnchanged(t, r.targets) then []
    else
      assert forall i | 0 <= i < |copies| :: copies[i] in copies;
      [NewArchive(id)] + Copies(id, t, copies) + [WriteMeta(id, MetaOf(fs, r))]
  }

  /** `restore_work_directory`, unless it refuses. */
  ghost predicate Restorable(fs: FS, r: Record) {
    r.existed ==>
      if fs.backup.Some? && [] in fs.backup.value && fs.backup.value[[]].Dir?
      then r.hash.Some? ==> fs.backup == r.hash
      else !r.active && !r.moved && fs.work.Some? && [] in fs.work.value && fs.work.value[[]].Dir?
  }

  ghost function RestoreOps(fs: FS, r: Record, order: seq<Path>): seq<Op>
    requires Restorable(fs, r)
  {
    if !r.existed then Removal(order)
    else if fs.backup.Some? && [] in fs.backup.value && fs.backup.value[[]].Dir? then
        Removal(order) + [MoveBackupToWork]
    else []
  }

  /** What a reset is free to choose: a new archive, the order of its copies, the order of the removal. */
  datatype Choices = Choices(id: nat, copies: seq<Path>, order: seq<Path>)

  ghost predicate Proper(fs: FS, r: Record, c: Choices) {
    && c.id !in fs.archives
    && Enumerates(c.copies, ChangedFiles(Entries(fs.work), r.targets))
    && RemovalOrder(c.order, Entries(Exec(fs, ArchiveOps(fs, r, c.id, c.copies)).work))
  }

  ghost predicate Resets(fs: FS, r: Record, c: Choices)
    requires Proper(fs, r, c)
  {
    Restorable(Exec(fs, ArchiveOps(fs, r, c.id, c.copies)), r)
  }

  ghost function ResetOps(fs: FS, r: Record, c: Choices): seq<Op>
    requires Proper(fs, r, c)
  {
    var archive := ArchiveOps(fs, r, c.id, c.copies);
    if Resets(fs, r, c) then archive + RestoreOps(Exec(fs, archive), r, c.order) + [ClearState] else archive
  }

  // ----- Resume ---------------------------------------------------------------------------------------

  predicate OwnerAccess(mode: nat) {
    mode / 64 % 8 == 7
  }

  /** Every directory is readable, writable and searchable for its owner. */
  predicate OpenToOwner(t: Tree) {
    forall p | p in t && t[p].Dir? :: OwnerAccess(t[p].mode)
  }

  /** What `load_attempt` accepts. */
  ghost predicate Loadable(m: Meta) {
    !m.blocked && Capturable(m.inventory) && OpenToOwner(m.inventory)
  }

  /** Where the contents of a file come from: the archive, or else the pristine payload. */
  predicate Available(a: Archive, def: seq<Item>, p: Path, data: Bytes) {
    if p in a.tree then a.tree[p].File? && a.tree[p].data == data
    else exists i | 0 <= i < |def| :: def[i].target == p && def[i].data == data
  }

  ghost predicate MayResume(fs: FS, def: seq<Item>, id: nat) {
    && fs.state.None? && id in fs.archives && fs.archives[id].meta.Some?
    && var m := fs.archives[id].meta.value;
       && Loadable(m) && MetaFits(fs.scenario, m) && m.terms == Terms(def) && m.baseline == Staged(def)
       && (forall p | p in m.inventory && m.inventory[p].File? ::
            Available(fs.archives[id], def, p, m.inventory[p].data))
  }

  /** An order with every directory before what stands in it; sorting by path gives one. */
  ghost predicate BuildOrder(order: seq<Path>, t: Tree) {
    && (forall p :: p in order <==> p in t)
    && (forall i, j | 0 <= i < j < |order| :: order[i] != order[j] && !(order[j] < order[i]))
  }

  function BuildOne(t: Tree, p: Path, n: Node, name: string): seq<Op> {
    if n.Dir? || p == [] then MakeDirs(t, p) else WriteOps(t, p, n, name)
  }

  function BuildOps(fs: FS, inventory: Tree, order: seq<Path>, name: string): seq<Op>
    requires forall i | 0 <= i < |order| :: order[i] in inventory
    decreases |order|
  {
    if order == [] then []
    else
      var ops := BuildOne(Entries(fs.work), order[0], inventory[order[0]], name);
      ops + BuildOps(Exec(fs, ops), inventory, order[1..], name)
  }

  /** Directory modes come last, the innermost first. */
  function ChmodOps(inventory: Tree, order: seq<Path>): seq<Op>
    requires forall i | 0 <= i < |order| :: order[i] in inventory
    decreases |order|
  {
    if order == [] then []
    else
      var p := order[|order| - 1];
      (if inventory[p].Dir? then [SetMode(p, inventory[p].mode)] else []) + ChmodOps(inventory, order[..|order| - 1])
  }

  ghost predicate ProperResume(fs: FS, def: seq<Item>, id: nat, name: string, removal: seq<Path>, build: seq<Path>)
    requires ValidDef(def) && MayResume(fs, def, id)
  {
    && RemovalOrder(removal, Entries(Exec(fs, StartOps(fs, def, false, name)).work))
    && BuildOrder(build, fs.archives[id].meta.value.inventory)
  }

  ghost function ResumeOps(fs: FS, def: seq<Item>, id: nat, name: string, removal: seq<Path>, build: seq<Path>): seq<Op>
    requires ValidDef(def)
    requires MayResume(fs, def, id) ==> ProperResume(fs, def, id, name, removal, build)
  {
    if !MayResume(fs, def, id) then []
    else
      var start := StartOps(fs, def, false, name);
      if !Starts(fs) then start
      else
        var inventory := fs.archives[id].meta.value.inventory;
        start + Removal(removal)
        + BuildOps(Exec(fs, start + Removal(removal)), inventory, build, name)
        + ChmodOps(inventory, build)
        + [SaveState(LastRecord(fs, def, true))]
  }
}
