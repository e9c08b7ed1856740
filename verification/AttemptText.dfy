/** The text of `attempt.json`, character by character, and that it is as long as the model says
    (`scripts/workshop.py`). Paths and ids are made of characters that JSON writes as they are. */
module AttemptTexts {
  import opened Options
  import opened Workspaces
  import opened Scenarios
  import Workshops

  function Digit(n: nat): char
    requires n < 10
  {
    "0123456789"[n]
  }

  function Decimal(n: nat): (s: string)
    ensures |s| == Digits(n)
  {
    if n < 10 then [Digit(n)] else Decimal(n / 10) + [Digit(n % 10)]
  }

  /** A mode without special bits, in four octal digits. */
  function Octal(mode: nat): (s: string)
    requires PlainMode(mode)
    ensures |s| == 4
  {
    ['0', Digit(mode / 64), Digit(mode / 8 % 8), Digit(mode % 8)]
  }

  function NameText(p: Path): (s: string)
    ensures |s| == NameBytes(p)
  {
    if p == [] then "" else NameText(p[..|p| - 1]) + "/" + p[|p| - 1]
  }

  function PathText(scenario: string, p: Path): (s: string)
    ensures |s| == PathBytes(scenario, p)
  {
    "workshop/scenarios/" + scenario + "/work" + NameText(p)
  }

  /** A field of an object inside a list, at its indentation. */
  function Field(name: string, value: string): (s: string)
    ensures |s| == 10 + |name| + |value|
  {
    "      \"" + name + "\": " + value
  }

  function Quoted(s: string): (q: string)
    ensures |q| == |s| + 2
  {
    "\"" + s + "\""
  }

  predicate PlainTarget(target: Target) {
    target.staged.Some? && target.staged.value.File? && PlainMode(target.staged.value.mode)
  }

  function BaselineText(scenario: string, target: Target, hash: Bytes -> string): (s: string)
    requires PlainTarget(target)
    ensures |s| == 70 + PathBytes(scenario, target.path) + |hash(target.staged.value.data)|
  {
    "    {\n"
    + Field("path", Quoted(PathText(scenario, target.path))) + ",\n"
    + Field("sha256", Quoted(hash(target.staged.value.data))) + ",\n"
    + Field("mode", Quoted(Octal(target.staged.value.mode))) + "\n"
    + "    }"
  }

  /** A file or a directory of the inventory; a directory has no contents. */
  predicate PlainEntry(n: Node) {
    (n.File? || n.Dir?) && PlainMode(n.mode)
  }

  function EntryText(scenario: string, n: Node, p: Path, hash: Bytes -> string): (s: string)
    requires PlainEntry(n)
    ensures |s| == PathBytes(scenario, p) + if n.File? then 108 + |hash(n.data)| + Digits(|n.data|) else 116
  {
    "    {\n"
    + Field("path", Quoted(PathText(scenario, p))) + ",\n"
    + Field("kind", Quoted(if n.File? then "file" else "directory")) + ",\n"
    + Field("mode", Quoted(Octal(n.mode))) + ",\n"
    + Field("size", Decimal(if n.File? then |n.data| else 0)) + ",\n"
    + Field("sha256", if n.File? then Quoted(hash(n.data)) else "null") + "\n"
    + "    }"
  }

  // ----- Lists and the whole text ----------------------------------------------------------------------

  predicate AllPlain(m: Meta) {
    (forall i | 0 <= i < |m.baseline| :: PlainTarget(m.baseline[i]))
    && forall p | p in m.inventory :: PlainEntry(m.inventory[p])
  }

  /** The objects of a list, one after the other. */
  function BaselineList(scenario: string, baseline: seq<Target>, hash: Bytes -> string): string
    requires forall i | 0 <= i < |baseline| :: PlainTarget(baseline[i])
  {
    if baseline == [] then ""
    else
      var n := |baseline| - 1;
      BaselineList(scenario, baseline[..n], hash) + (if n == 0 then "" else ",\n")
      + BaselineText(scenario, baseline[n], hash)
  }

  function EntryList(scenario: string, t: Tree, order: seq<Path>, hash: Bytes -> string): string
    requires forall i | 0 <= i < |order| :: order[i] in t && PlainEntry(t[order[i]])
  {
    if order == [] then ""
    else
      var n := |order| - 1;
      EntryList(scenario, t, order[..n], hash) + (if n == 0 then "" else ",\n")
      + EntryText(scenario, t[order[n]], order[n], hash)
  }

  /** What the metadata of an attempt that nothing blocks are written as. */
  function AttemptText(scenario: string, m: Meta, started: string, archived: string, manifest: string,
                       catalogue: string, hash: Bytes -> string, order: seq<Path>): string
    requires AllPlain(m) && forall i | 0 <= i < |order| :: order[i] in m.inventory
  {
    "{\n"
    + "  \"schema_version\": 1,\n"
    + "  \"scenario_id\": " + Quoted(scenario) + ",\n"
    + "  \"started_at\": " + Quoted(started) + ",\n"
    + "  \"archived_at\": " + Quoted(archived) + ",\n"
    + "  \"manifest_sha256\": " + Quoted(manifest) + ",\n"
    + "  \"catalogue_sha256\": " + Quoted(catalogue) + ",\n"
    + "  \"baseline\": [\n" + BaselineList(scenario, m.baseline, hash) + "\n  ],\n"
    + "  \"tree\": [\n" + EntryList(scenario, m.inventory, order, hash) + "\n  ],\n"
    + "  \"resume_blocker\": null\n"
    + "}\n"
  }

  lemma NextBaseline(scenario: string, baseline: seq<Target>, hash: Bytes -> string)
    requires forall i | 0 <= i < |baseline| :: PlainTarget(baseline[i])
    requires (forall b :: |hash(b)| == 64) && baseline != []
    ensures var n := |baseline| - 1;
            |BaselineList(scenario, baseline, hash)|
            == |BaselineList(scenario, baseline[..n], hash)| + (if n == 0 then 0 else 2)
               + 134 + PathBytes(scenario, baseline[n].path)
    ensures |baseline| == 1 ==> BaselineList(scenario, baseline[..|baseline| - 1], hash) == ""
  {
    hide BaselineText, PathBytes;
  }

  lemma NextBytes(scenario: string, baseline: seq<Target>)
    requires baseline != []
    ensures var n := |baseline| - 1;
            BaselineBytes(scenario, baseline)
            == BaselineBytes(scenario, baseline[..n]) + 136 + PathBytes(scenario, baseline[n].path)
    ensures |baseline| == 1 ==> BaselineBytes(scenario, baseline[..|baseline| - 1]) == 0
  {
    hide PathBytes;
  }

  lemma {:induction false} BaselineLength(scenario: string, baseline: seq<Target>, hash: Bytes -> string)
    requires forall i | 0 <= i < |baseline| :: PlainTarget(baseline[i])
    requires (forall b :: |hash(b)| == 64) && baseline != []
    ensures |BaselineList(scenario, baseline, hash)| + 2 == BaselineBytes(scenario, baseline)
  {
    hide BaselineList, BaselineBytes, PathBytes, PlainTarget;
    var n := |baseline| - 1;
    NextBaseline(scenario, baseline, hash);
    NextBytes(scenario, baseline);
    if n > 0 {
      BaselineLength(scenario, baseline[..n], hash);
    }
  }

  lemma OneEntry(scenario: string, t: Tree, p: Path, hash: Bytes -> string)
    requires p in t && PlainEntry(t[p]) && forall b :: |hash(b)| == 64
    ensures |EntryText(scenario, t[p], p, hash)| + 2 == EntryBytes(scenario, t, p)
  {
  }

  lemma NoEntries(scenario: string, t: Tree)
    ensures InventoryBytes(scenario, t, {}) == 0
  {
  }

  lemma NextEntry(scenario: string, t: Tree, order: seq<Path>, hash: Bytes -> string)
    requires forall i | 0 <= i < |order| :: order[i] in t && PlainEntry(t[order[i]])
    requires (forall b :: |hash(b)| == 64) && order != []
    ensures var n := |order| - 1;
            |EntryList(scenario, t, order, hash)|
            == |EntryList(scenario, t, order[..n], hash)| + (if n == 0 then 0 else 2)
               + EntryBytes(scenario, t, order[n]) - 2
    ensures |order| == 1 ==> EntryList(scenario, t, order[..|order| - 1], hash) == ""
  {
    hide EntryText, EntryBytes;
    OneEntry(scenario, t, order[|order| - 1], hash);
  }

  function Members(order: seq<Path>): set<Path> {
    set p | p in order
  }

  lemma LastMember(order: seq<Path>)
    requires order != [] && forall i, j | 0 <= i < j < |order| :: order[i] != order[j]
    ensures var n := |order| - 1;
            order[n] in Members(order) && Members(order) - {order[n]} == Members(order[..n])
    ensures |order| == 1 ==> Members(order[..|order| - 1]) == {}
  {
    var n := |order| - 1;
    assert order == order[..n] + [order[n]];
  }

  lemma {:induction false} EntryLength(scenario: string, t: Tree, order: seq<Path>, hash: Bytes -> string)
    requires forall i | 0 <= i < |order| :: order[i] in t && PlainEntry(t[order[i]])
    requires forall i, j | 0 <= i < j < |order| :: order[i] != order[j]
    requires (forall b :: |hash(b)| == 64) && order != []
    ensures |EntryList(scenario, t, order, hash)| + 2 == InventoryBytes(scenario, t, Members(order))
  {
    hide EntryList, EntryBytes, InventoryBytes, PlainEntry, Members;
    var n := |order| - 1;
    NextEntry(scenario, t, order, hash);
    LastMember(order);
    Workshops.InventoryWithout(scenario, t, Members(order), order[n]);
    if n == 0 {
      NoEntries(scenario, t);
    } else {
      EntryLength(scenario, t, order[..n], hash);
    }
  }

  /** `attempt.json` is exactly as long as the model says, whatever the contents, in whatever order the entries are
      written; timestamps have 25 characters and digests 64. */
  lemma AttemptLength(scenario: string, m: Meta, started: string, archived: string, manifest: string,
                      catalogue: string, hash: Bytes -> string, order: seq<Path>)
    requires AllPlain(m) && m.baseline != [] && m.inventory != map[] && Enumerates(order, m.inventory.Keys)
    requires |started| == |archived| == 25 && |manifest| == |catalogue| == 64 && forall b :: |hash(b)| == 64
    ensures forall i | 0 <= i < |order| :: order[i] in m.inventory
    ensures |AttemptText(scenario, m, started, archived, manifest, catalogue, hash, order)| == MetaBytes(scenario, m)
  {
    hide BaselineList, EntryList, BaselineBytes, InventoryBytes, PlainTarget, PlainEntry;
    assert forall i | 0 <= i < |order| :: order[i] in order;
    assert Members(order) == m.inventory.Keys;
    var p :| p in m.inventory;
    assert p in order;
    BaselineLength(scenario, m.baseline, hash);
    EntryLength(scenario, m.inventory, order, hash);
  }
}
