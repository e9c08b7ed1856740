/** The byte stream a release snapshot is bound to (`scripts/workshop_release.py`): it can be read back, so two
    source trees with one stream are one tree. Bytes are the characters below 256. */
module Snapshots {
  import opened Options
  import opened Words

  type Byte = c: char | (c as int) < 256

  type Name = seq<Byte>

  /** A SHA-256 digest; that two contents never share one is not part of this model. */
  type Digest = d: seq<Byte> | |d| == 32 witness seq(32, i => '\0')

  datatype Content = File(executable: bool, digest: Digest) | Deleted

  datatype Entry = Entry(name: Name, content: Content)

  // ----- Encoding ------------------------------------------------------------------------------------------

  const DELETED: seq<Byte> := ['d', 'e', 'l', 'e', 't', 'e', 'd']

  function BigEndian(n: nat, width: nat): (r: seq<Byte>)
    ensures |r| == width
  {
    if width == 0 then [] else BigEndian(n / 256, width - 1) + [(n % 256) as char]
  }

  function Number(s: seq<Byte>): nat {
    if s == [] then 0 else Number(s[..|s| - 1]) * 256 + s[|s| - 1] as int
  }

  function Limit(width: nat): nat {
    if width == 0 then 1 else 256 * Limit(width - 1)
  }

  predicate Fits(name: Name) {
    |name| < Limit(8)
  }

  function Body(c: Content): seq<Byte> {
    if c.Deleted? then DELETED else [if c.executable then 'x' else 'f'] + c.digest
  }

  function Encoded(e: Entry): seq<Byte> {
    BigEndian(|e.name|, 8) + (e.name + Body(e.content))
  }

  function Stream(es: seq<Entry>): seq<Byte> {
    if es == [] then [] else Stream(es[..|es| - 1]) + Encoded(es[|es| - 1])
  }

  // ----- Decoding ------------------------------------------------------------------------------------------

  /** What a name is followed by, and what comes after that. */
  function DecodeContent(body: seq<Byte>): Option<(Content, seq<Byte>)>
    requires body != []
  {
    if body[0] == 'x' || body[0] == 'f' then
      if |body| < 33 then None else Some((File(body[0] == 'x', body[1..33]), body[33..]))
    else
      if |body| < 7 || body[..7] != DELETED then None else Some((Deleted, body[7..]))
  }

  /** The first entry of a stream and what follows it. */
  function DecodeOne(s: seq<Byte>): Option<(Entry, seq<Byte>)> {
    if |s| < 8 then None
    else
      var n, rest := Number(s[..8]), s[8..];
      if |rest| <= n then None
      else
        var content := DecodeContent(rest[n..]);
        if content.None? then None else Some((Entry(rest[..n], content.value.0), content.value.1))
  }

  function Decode(s: seq<Byte>): Option<seq<Entry>>
    decreases |s|
  {
    if s == [] then Some([])
    else
      var first := DecodeOne(s);
      if first.None? then None
      else
        var rest := Decode(first.value.1);
        if rest.None? then None else Some([first.value.0] + rest.value)
  }

  lemma {:induction false} NumberOf(n: nat, width: nat)
    requires n < Limit(width)
    ensures Number(BigEndian(n, width)) == n
  {
    if width > 0 {
      NumberOf(n / 256, width - 1);
      var s := BigEndian(n, width);
      assert s[..|s| - 1] == BigEndian(n / 256, width - 1);
    }
  }

  lemma {:induction false} BigEndianOf(s: seq<Byte>)
    ensures Number(s) < Limit(|s|) && BigEndian(Number(s), |s|) == s
  {
    if s != [] {
      BigEndianOf(s[..|s| - 1]);
    }
  }

  lemma DecodeFirst(e: Entry, tail: seq<Byte>)
    requires Fits(e.name)
    ensures DecodeOne(Encoded(e) + tail) == Some((e, tail))
  {
    hide Number, BigEndian, Limit, Body, DecodeContent;
    var s := Encoded(e) + tail;
    var length, body := BigEndian(|e.name|, 8), Body(e.content) + tail;
    assert s == length + (e.name + body);
    assert s[..8] == length && s[8..] == e.name + body;
    NumberOf(|e.name|, 8);
    assert s[8..][..|e.name|] == e.name && s[8..][|e.name|..] == body;
    DecodeBody(e.content, tail);
  }

  lemma DecodeBody(c: Content, tail: seq<Byte>)
    ensures Body(c) + tail != [] && DecodeContent(Body(c) + tail) == Some((c, tail))
  {
    var body := Body(c) + tail;
    if c.File? {
      assert body[1..33] == c.digest && body[33..] == tail;
    } else {
      assert body[0] == 'd' && body[..7] == DELETED && body[7..] == tail;
    }
  }

  lemma {:induction false} StreamFromFront(es: seq<Entry>)
    requires es != []
    ensures Stream(es) == Encoded(es[0]) + Stream(es[1..])
  {
    hide Stream, Encoded;
    var n := |es| - 1;
    StreamSplits(es);
    if n == 0 {
      EmptyStream();
      assert es[..0] == [] && es[1..] == [];
    } else {
      StreamSplits(es[1..]);
      StreamFromFront(es[..n]);
      assert es[..n][1..] == es[1..][..n - 1];
      Joins(Encoded(es[0]), Stream(es[1..][..n - 1]), Encoded(es[n]));
    }
  }

  lemma Joins(a: seq<Byte>, b: seq<Byte>, c: seq<Byte>)
    ensures a + b + c == a + (b + c)
  {
  }

  lemma EmptyStream()
    ensures Stream([]) == []
  {
  }

  lemma StreamSplits(es: seq<Entry>)
    requires es != []
    ensures Stream(es) == Stream(es[..|es| - 1]) + Encoded(es[|es| - 1])
  {
  }

  predicate AllFit(es: seq<Entry>) {
    forall i | 0 <= i < |es| :: Fits(es[i].name)
  }

  /** What was encoded can be read back. */
  lemma {:induction false} RoundTrip(es: seq<Entry>)
    requires AllFit(es)
    ensures Decode(Stream(es)) == Some(es)
  {
    hide DecodeOne, Encoded, Fits;
    if es != [] {
      StreamFromFront(es);
      DecodeFirst(es[0], Stream(es[1..]));
      NotEmpty(es[0], Stream(es[1..]));
      RoundTrip(es[1..]);
      assert es == [es[0]] + es[1..];
    }
  }

  lemma NotEmpty(e: Entry, tail: seq<Byte>)
    ensures Encoded(e) + tail != []
  {
  }

  /** And what can be read is what was encoded. */
  lemma {:induction false} ReadBack(s: seq<Byte>)
    requires Decode(s).Some?
    ensures AllFit(Decode(s).value) && Stream(Decode(s).value) == s
    decreases |s|
  {
    hide DecodeOne, Encoded, Fits, Stream;
    if s == [] {
      NoEntries();
    } else {
      var first := DecodeOne(s).value;
      ReadOne(s);
      ReadBack(first.1);
      var es := Decode(s).value;
      assert es[1..] == Decode(first.1).value;
      StreamFromFront(es);
    }
  }

  lemma NoEntries()
    ensures Stream([]) == []
  {
  }

  lemma ReadContent(body: seq<Byte>)
    requires body != [] && DecodeContent(body).Some?
    ensures var (c, tail) := DecodeContent(body).value; Body(c) + tail == body && |tail| < |body|
  {
    if body[0] == 'x' || body[0] == 'f' {
      assert body == [body[0]] + body[1..33] + body[33..];
    } else {
      assert body == body[..7] + body[7..];
    }
  }

  lemma Joined(s: seq<Byte>, n: nat, body: seq<Byte>, tail: seq<Byte>)
    requires |s| >= 8 && |s| - 8 >= n && body + tail == s[8..][n..]
    ensures s[..8] + (s[8..][..n] + body) + tail == s
  {
    assert s == s[..8] + s[8..];
    assert s[8..] == s[8..][..n] + s[8..][n..];
    assert s[..8] + (s[8..][..n] + body) + tail == s[..8] + (s[8..][..n] + (body + tail));
  }

  lemma ReadOne(s: seq<Byte>)
    requires DecodeOne(s).Some?
    ensures var (e, tail) := DecodeOne(s).value; Fits(e.name) && Encoded(e) + tail == s && |tail| < |s|
  {
    hide Number, BigEndian, Limit, Body, DecodeContent;
    var (e, tail) := DecodeOne(s).value;
    var n := Number(s[..8]);
    BigEndianOf(s[..8]);
    ReadContent(s[8..][n..]);
    Joined(s, n, Body(e.content), tail);
  }

  /** The bytes of an entry: the length of the name in eight bytes, the most significant first; the name; then the
      letter x for an executable file and f for any other, with the digest, or the word for a deleted one. */
  lemma Layout(e: Entry)
    requires |e.name| < 0x1_0000_0000_0000_0000
    ensures var s, n := Encoded(e), |e.name|;
            && |s| == 8 + n + (if e.content.Deleted? then 7 else 33)
            && s[0] as int == n / 0x100_0000_0000_0000 && s[1] as int == n / 0x1_0000_0000_0000 % 256
            && s[2] as int == n / 0x100_0000_0000 % 256 && s[3] as int == n / 0x1_0000_0000 % 256
            && s[4] as int == n / 0x100_0000 % 256 && s[5] as int == n / 0x1_0000 % 256
            && s[6] as int == n / 0x100 % 256 && s[7] as int == n % 256
            && s[8..8 + n] == e.name
            && (e.content.File? ==>
                  s[8 + n] == (if e.content.executable then 'x' else 'f') && s[9 + n..] == e.content.digest)
            && (e.content.Deleted? ==> s[8 + n..] == "deleted")
  {
    EightBytes(|e.name|);
    hide BigEndian;
    var s, n := Encoded(e), |e.name|;
    assert s[..8] == BigEndian(n, 8);
    assert forall i | 0 <= i < 8 :: s[i] == s[..8][i];
    assert s[8 + n..] == Body(e.content);
    if e.content.File? {
      assert s[8 + n] == s[8 + n..][0] && s[9 + n..] == s[8 + n..][1..];
    }
  }

  lemma EightBytes(n: nat)
    requires n < 0x1_0000_0000_0000_0000
    ensures var s := BigEndian(n, 8);
            && s[0] as int == n / 0x100_0000_0000_0000 && s[1] as int == n / 0x1_0000_0000_0000 % 256
            && s[2] as int == n / 0x100_0000_0000 % 256 && s[3] as int == n / 0x1_0000_0000 % 256
            && s[4] as int == n / 0x100_0000 % 256 && s[5] as int == n / 0x1_0000 % 256
            && s[6] as int == n / 0x100 % 256 && s[7] as int == n % 256
  {
    hide BigEndian, Limit;
    Limits();
    forall i | 0 <= i < 8
      ensures Limit(7 - i) > 0 && BigEndian(n, 8)[i] as int == n / Limit(7 - i) % 256
    {
      ByteAt(n, 8, i);
    }
  }

  lemma Limits()
    ensures Limit(0) == 1 && Limit(1) == 0x100 && Limit(2) == 0x1_0000 && Limit(3) == 0x100_0000
            && Limit(4) == 0x1_0000_0000 && Limit(5) == 0x100_0000_0000 && Limit(6) == 0x1_0000_0000_0000
            && Limit(7) == 0x100_0000_0000_0000 && Limit(8) == 0x1_0000_0000_0000_0000
  {
    assert Limit(2) == 0x1_0000;
    assert Limit(4) == 0x1_0000_0000;
    assert Limit(6) == 0x1_0000_0000_0000;
  }

  lemma {:induction false} ByteAt(n: nat, width: nat, i: nat)
    requires i < width
    ensures Limit(width - 1 - i) > 0
    ensures BigEndian(n, width)[i] as int == n / Limit(width - 1 - i) % 256
  {
    if i < width - 1 {
      ByteAt(n / 256, width - 1, i);
      DivideTwice(n, Limit(width - 2 - i));
    }
  }

  lemma DivideTwice(n: nat, m: nat)
    requires m > 0
    ensures n / 256 / m == n / (256 * m)
  {
    var q := n / 256;
    var t, u := q / m, q % m;
    assert q == m * t + u;
    assert n == 256 * m * t + (256 * u + n % 256);
    Quotient(n, 256 * m, t, 256 * u + n % 256);
  }

  lemma Quotient(n: nat, d: nat, t: nat, r: nat)
    requires d > 0 && r < d && n == d * t + r
    ensures n / d == t
  {
    var q, m := n / d, n % d;
    Division(n, d);
    Multiples(d, q - t);
    Distributes(d, q, t);
  }

  lemma Division(n: nat, d: nat)
    requires d > 0
    ensures n == d * (n / d) + n % d && 0 <= n % d < d
  {
  }

  lemma Distributes(d: int, q: int, t: int)
    ensures d * (q - t) == d * q - d * t
  {
  }

  lemma Multiples(d: int, k: int)
    requires d > 0
    ensures (k > 0 ==> d * k >= d) && (k < 0 ==> d * k <= -d)
  {
  }

  // ----- The tree ------------------------------------------------------------------------------------------

  /** What a name stands for: a file, nothing, or anything else; a link on the way to it is refused first. */
  datatype State = Regular(executable: bool, digest: Digest) | Missing | NotAFile | Linked

  /** The names Git tracks and the others it does not ignore, what they stand for, and which lie under the directory
      the snapshot is written to. */
  datatype Source = Source(tracked: set<Name>, others: set<Name>, states: map<Name, State>, output: set<Name>) {
    function Names(): set<Name> {
      tracked + others
    }

    predicate Known() {
      Names() <= states.Keys
    }

    predicate Refuses(name: Name)
      requires name in states
    {
      || states[name].Linked?
      || (if name in output then name in tracked else states[name].NotAFile? || !Fits(name))
    }

    predicate Refused()
      requires Known()
    {
      exists name | name in Names() :: Refuses(name)
    }

    /** The names the stream speaks of. */
    function Kept(): set<Name> {
      Names() - output
    }

    function Tree(): map<Name, Content>
      requires Known()
    {
      map name | name in Kept() :: ContentOf(states[name])
    }
  }

  function ContentOf(s: State): Content {
    if s.Regular? then File(s.executable, s.digest) else Deleted
  }

  predicate SortedNames(names: seq<Name>) {
    forall i, j | 0 <= i < j < |names| :: Less(names[i], names[j])
  }

  predicate InOrder(es: seq<Entry>) {
    forall i, j | 0 <= i < j < |es| :: Less(es[i].name, es[j].name)
  }

  /** The sorted listing of a tree. */
  predicate ListsTree(es: seq<Entry>, tree: map<Name, Content>) {
    && InOrder(es)
    && (forall i | 0 <= i < |es| :: es[i].name in tree && es[i].content == tree[es[i].name])
    && (forall name | name in tree :: Entry(name, tree[name]) in es)
  }

  lemma InsertName(names: seq<Name>, name: Name, n: nat)
    requires SortedNames(names) && n <= |names|
    requires n > 0 ==> Less(names[n - 1], name)
    requires n < |names| ==> Less(name, names[n])
    ensures SortedNames(names[..n] + [name] + names[n..])
  {
    hide Less;
    var r := names[..n] + [name] + names[n..];
    forall i, j | 0 <= i < j < |r|
      ensures Less(r[i], r[j])
    {
      if j == n && i < n - 1 {
        LessTransitive(names[i], names[n - 1], name);
      }
      if i == n && j > n + 1 {
        LessTransitive(name, names[n], names[j - 1]);
      }
    }
  }

  lemma InsertedNames(names: seq<Name>, name: Name, n: nat, x: Name)
    requires n <= |names|
    ensures x in names[..n] + [name] + names[n..] <==> x == name || x in names
  {
    assert names == names[..n] + names[n..];
  }

  method SortNames(names: set<Name>) returns (r: seq<Name>)
    ensures SortedNames(r) && forall name :: name in r <==> name in names
  {
    hide Less;
    r := [];
    var left := names;
    while left != {}
      invariant left <= names && SortedNames(r) && forall name :: name in r <==> name in names - left
    {
      var name :| name in left;
      var n := |r|;
      while n > 0 && Less(name, r[n - 1])
        invariant 0 <= n <= |r| && (n < |r| ==> Less(name, r[n]))
      {
        n := n - 1;
      }
      if n > 0 {
        assert r[n - 1] in r;
        LessTotal(name, r[n - 1]);
      }
      InsertName(r, name, n);
      forall x
        ensures x in r[..n] + [name] + r[n..] <==> x in names - (left - {name})
      {
        InsertedNames(r, name, n, x);
      }
      r := r[..n] + [name] + r[n..];
      left := left - {name};
    }
  }

  lemma StreamNext(es: seq<Entry>, e: Entry)
    ensures Stream(es + [e]) == Stream(es) + Encoded(e)
  {
    assert (es + [e])[..|es|] == es;
  }

  /** The updates of the digest for one name. */
  method Update(stream: seq<Byte>, e: Entry) returns (r: seq<Byte>)
    ensures r == stream + Encoded(e)
  {
    r := stream + BigEndian(|e.name|, 8);
    r := r + e.name;
    r := r + Body(e.content);
  }

  /** The names are those of the source tree. */
  ghost predicate Covers(source: Source, names: seq<Name>) {
    forall name :: name in names <==> name in source.Names()
  }

  method SourceNames(source: Source) returns (names: seq<Name>)
    ensures SortedNames(names) && Covers(source, names)
  {
    names := SortNames(source.Names());
  }

  lemma NameIsOne(source: Source, names: seq<Name>, n: nat)
    requires source.Known() && Covers(source, names) && n < |names|
    ensures names[n] in source.Names() && names[n] in source.states
  {
    assert names[n] in names;
  }

  ghost predicate AnyUntracked(source: Source, names: seq<Name>, n: nat) {
    n <= |names| && exists i :: 0 <= i < n && names[i] in source.Kept() && names[i] in source.others
  }

  lemma UntrackedNext(source: Source, names: seq<Name>, n: nat)
    requires n < |names|
    ensures AnyUntracked(source, names, n + 1)
       <==> AnyUntracked(source, names, n) || (names[n] in source.Kept() && names[n] in source.others)
  {
  }

  /** Something untracked is outside the output directory. */
  ghost predicate HasUntracked(source: Source) {
    exists name :: name in source.others && name !in source.output
  }

  lemma UntrackedAtEnd(source: Source, names: seq<Name>)
    requires Covers(source, names)
    ensures AnyUntracked(source, names, |names|) <==> HasUntracked(source)
    ensures !AnyUntracked(source, names, 0)
  {
    if name :| name in source.others && name !in source.output {
      assert name in source.Kept() && name in names;
      var i :| 0 <= i < |names| && names[i] == name;
    }
  }

  /** One name of the tree: refused, passed over, or added to the stream. */
  method OneName(source: Source, names: seq<Name>, n: nat, stream: seq<Byte>, untracked: bool, ghost es: seq<Entry>)
    returns (refused: bool, stream': seq<Byte>, untracked': bool, ghost es': seq<Entry>)
    requires source.Known() && Covers(source, names) && SortedNames(names) && n < |names|
    requires stream == Stream(es) && Built(source, names, n, es) && (untracked <==> AnyUntracked(source, names, n))
    ensures refused ==> source.Refused()
    ensures !refused ==>
              stream' == Stream(es') && Built(source, names, n + 1, es')
              && (untracked' <==> AnyUntracked(source, names, n + 1))
  {
    hide Built, AnyUntracked, SortedNames, AllFit, Fits, Stream, Encoded, Covers;
    refused, stream', untracked', es' := false, stream, untracked, es;
    var name := names[n];
    NameIsOne(source, names, n);
    UntrackedNext(source, names, n);
    var state := source.states[name];
    if source.Refuses(name) {
      refused := true;
      return;
    }
    if name in source.output {
      SkipName(source, names, n, es);
    } else {
      untracked' := untracked || name in source.others;
      var e := Entry(name, ContentOf(state));
      AddName(source, names, n, es);
      StreamNext(es, e);
      stream' := Update(stream, e);
      es' := es + [e];
    }
  }

  /** The stream of a source tree and whether it holds anything untracked; the entries are its sorted listing. */
  method SourceSnapshot(source: Source) returns (r: Option<(seq<Byte>, bool)>, ghost es: seq<Entry>)
    requires source.Known()
    ensures r.None? <==> HasForbidden(source)
    ensures r.Some? ==> r.value.0 == Stream(es) && ListsTree(es, source.Tree()) && AllFit(es)
    ensures r.Some? ==> Listing(source, es)
    ensures r.Some? ==> (r.value.1 <==> HasUntracked(source))
  {
    hide HasForbidden, HasUntracked, Listing, Source.Refused, Source.Tree, Covers;
    hide Built, AnyUntracked, SortedNames, ListsTree, AllFit, Fits, Stream, Encoded;
    RefusedIs(source);
    var names := SourceNames(source);
    UntrackedAtEnd(source, names);
    var stream: seq<Byte> := [];
    var untracked := false;
    es := [];
    NothingBuilt(source, names);
    for n := 0 to |names|
      invariant stream == Stream(es) && Built(source, names, n, es)
      invariant untracked <==> AnyUntracked(source, names, n)
    {
      var refused;
      refused, stream, untracked, es := OneName(source, names, n, stream, untracked, es);
      if refused {
        return None, es;
      }
    }
    AllBuilt(source, names, es);
    ListingIs(source, es);
    return Some((stream, untracked)), es;
  }

  /** What no snapshot is taken of: a link on the way to a name; a tracked name under the output directory; elsewhere
      something that is not a file, or a name of 2^64 bytes or more. */
  ghost predicate Forbidden(source: Source, name: Name) {
    && (name in source.tracked || name in source.others) && name in source.states
    && (|| source.states[name].Linked?
        || (name in source.output && name in source.tracked)
        || (name !in source.output && (source.states[name].NotAFile? || |name| >= 0x1_0000_0000_0000_0000)))
  }

  /** What an entry says of a name: a file with its digest and whether its owner may execute it, a missing one as
      deleted. */
  predicate Says(content: Content, state: State) {
    match state
    case Regular(executable, digest) => content == File(executable, digest)
    case Missing => content == Deleted
    case _ => false
  }

  /** The entries are those of the names outside the output directory, once each and in byte order. */
  ghost predicate Listing(source: Source, es: seq<Entry>) {
    && (forall i, j | 0 <= i < j < |es| :: Comes(es[i].name, es[j].name))
    && (forall name | (name in source.tracked || name in source.others) && name !in source.output ::
          exists i :: 0 <= i < |es| && es[i].name == name)
    && (forall i | 0 <= i < |es| ::
          && (es[i].name in source.tracked || es[i].name in source.others) && es[i].name !in source.output
          && es[i].name in source.states && Says(es[i].content, source.states[es[i].name]))
  }

  ghost predicate HasForbidden(source: Source) {
    exists name :: Forbidden(source, name)
  }

  lemma RefusedIs(source: Source)
    requires source.Known()
    ensures source.Refused() <==> HasForbidden(source)
  {
    Limits();
    hide Limit;
    if source.Refused() {
      var name :| name in source.Names() && source.Refuses(name);
      assert Forbidden(source, name);
    }
    if name :| Forbidden(source, name) {
      assert name in source.Names() && source.Refuses(name);
    }
  }

  lemma OrderIs(es: seq<Entry>)
    requires InOrder(es)
    ensures forall i, j | 0 <= i < j < |es| :: Comes(es[i].name, es[j].name)
  {
    hide Comes, Less;
    forall i, j | 0 <= i < j < |es|
      ensures Comes(es[i].name, es[j].name)
    {
      LessIs(es[i].name, es[j].name);
    }
  }

  lemma EntrySays(source: Source, name: Name)
    requires source.Known() && name in source.Tree() && !source.Refused()
    ensures name in source.states && Says(source.Tree()[name], source.states[name])
  {
    assert name in source.Names() && !source.Refuses(name);
  }

  lemma ListingIs(source: Source, es: seq<Entry>)
    requires source.Known() && !source.Refused() && ListsTree(es, source.Tree())
    ensures Listing(source, es)
  {
    OrderIs(es);
    hide InOrder, Comes, Source.Refused, Says, ContentOf;
    forall i | 0 <= i < |es|
      ensures es[i].name in source.states && Says(es[i].content, source.states[es[i].name])
    {
      EntrySays(source, es[i].name);
    }
    forall name | (name in source.tracked || name in source.others) && name !in source.output
      ensures exists i :: 0 <= i < |es| && es[i].name == name
    {
      assert name in source.Tree();
      var e := Entry(name, source.Tree()[name]);
      var i :| 0 <= i < |es| && es[i] == e;
      assert es[i].name == name;
    }
  }

  lemma NothingBuilt(source: Source, names: seq<Name>)
    requires source.Known()
    ensures Built(source, names, 0, []) && Stream([]) == []
  {
  }

  /** The entries of the first `n` names. */
  ghost predicate Built(source: Source, names: seq<Name>, n: nat, es: seq<Entry>)
    requires source.Known()
  {
    && n <= |names| && InOrder(es) && AllFit(es)
    && (forall i | 0 <= i < n :: names[i] in source.states && !source.Refuses(names[i]))
    && (forall i | 0 <= i < |es| ::
         es[i].name in names[..n] && es[i].name in source.Tree() && es[i].content == source.Tree()[es[i].name])
    && (forall i | 0 <= i < n :: names[i] in source.Tree() ==> Entry(names[i], source.Tree()[names[i]]) in es)
  }

  lemma SkipName(source: Source, names: seq<Name>, n: nat, es: seq<Entry>)
    requires source.Known() && n < |names| && Built(source, names, n, es)
    requires names[n] in source.states && !source.Refuses(names[n]) && names[n] in source.output
    ensures Built(source, names, n + 1, es)
  {
    assert names[..n + 1] == names[..n] + [names[n]];
    assert names[n] !in source.Tree();
  }

  lemma AddName(source: Source, names: seq<Name>, n: nat, es: seq<Entry>)
    requires source.Known() && n < |names| && SortedNames(names) && Built(source, names, n, es)
    requires names[n] in source.Kept() && !source.Refuses(names[n])
    ensures Built(source, names, n + 1, es + [Entry(names[n], ContentOf(source.states[names[n]]))])
  {
    hide Less, Fits;
    var e := Entry(names[n], ContentOf(source.states[names[n]]));
    assert names[..n + 1] == names[..n] + [names[n]];
    assert e.name in source.Tree() && source.Tree()[e.name] == e.content;
    forall i | 0 <= i < |es|
      ensures Less(es[i].name, e.name)
    {
      var j :| 0 <= j < n && names[j] == es[i].name;
    }
    assert Fits(names[n]);
    forall i | 0 <= i < n + 1 && names[i] in source.Tree()
      ensures Entry(names[i], source.Tree()[names[i]]) in es + [e]
    {
      if i == n {
        assert (es + [e])[|es|] == e;
      }
    }
  }

  lemma AllBuilt(source: Source, names: seq<Name>, es: seq<Entry>)
    requires source.Known() && Built(source, names, |names|, es) && Covers(source, names)
    ensures ListsTree(es, source.Tree()) && AllFit(es) && !source.Refused()
  {
    forall name | name in source.Names()
      ensures !source.Refuses(name)
      ensures name in source.Tree() ==> Entry(name, source.Tree()[name]) in es
    {
      assert name in names;
      var i :| 0 <= i < |names| && names[i] == name;
    }
  }

  /** A listing tells the tree. */
  lemma ListedTree(es: seq<Entry>, a: map<Name, Content>, b: map<Name, Content>)
    requires ListsTree(es, a) && ListsTree(es, b)
    ensures a == b
  {
    forall name
      ensures name in a ==> name in b && b[name] == a[name]
      ensures name in b ==> name in a
    {
      if name in a {
        var i :| 0 <= i < |es| && es[i] == Entry(name, a[name]);
      }
      if name in b {
        var i :| 0 <= i < |es| && es[i] == Entry(name, b[name]);
      }
    }
  }

  /** Different trees never give the same stream. */
  lemma OneTreePerStream(a: map<Name, Content>, b: map<Name, Content>, es: seq<Entry>, fs: seq<Entry>)
    requires ListsTree(es, a) && ListsTree(fs, b) && AllFit(es) && AllFit(fs) && Stream(es) == Stream(fs)
    ensures a == b
  {
    RoundTrip(es);
    RoundTrip(fs);
    ListedTree(es, a, b);
  }
}
