/** Interval aggregation of telemetry readings (`mittelwerk/telemetry/transform.py`), against its group-by
    specification. Times are microseconds since the epoch, before it too. */
module Intervals {
  import opened Options
  import opened Words

  datatype Reading = Reading(asset: string, time: int, value: real, count: int)

  datatype Bar = Bar(asset: string, open: real, high: real, low: real, close: real, count: int, start: int)

  /** A bar is identified by its asset and the number of its interval. */
  datatype Key = Key(asset: string, bucket: int)

  /** Rounds down, for negative times too. */
  function Seconds(time: int): int {
    time / 1_000_000
  }

  function KeyOf(r: Reading, interval: int): Key
    requires interval > 0
  {
    Key(r.asset, Seconds(r.time) / interval)
  }

  // ----- Order -----------------------------------------------------------------------------------------

  /** The order in which readings are taken: by time, then asset, then as they were given. */
  predicate Before(readings: seq<Reading>, i: nat, j: nat)
    requires i < |readings| && j < |readings|
  {
    var a, b := readings[i], readings[j];
    a.time < b.time || (a.time == b.time && (Less(a.asset, b.asset) || (a.asset == b.asset && i < j)))
  }

  lemma BeforeTotal(readings: seq<Reading>, i: nat, j: nat)
    requires i < |readings| && j < |readings| && i != j
    ensures Before(readings, i, j) <==> !Before(readings, j, i)
  {
    LessTotal(readings[i].asset, readings[j].asset);
  }

  lemma BeforeTransitive(readings: seq<Reading>, i: nat, j: nat, k: nat)
    requires i < |readings| && j < |readings| && k < |readings| && Before(readings, i, j) && Before(readings, j, k)
    ensures Before(readings, i, k)
  {
    if Less(readings[i].asset, readings[j].asset) && Less(readings[j].asset, readings[k].asset) {
      LessTransitive(readings[i].asset, readings[j].asset, readings[k].asset);
    }
  }

  /** A stable sort of the first `n` readings, as their positions in order. */
  ghost predicate Ordered(readings: seq<Reading>, n: nat, order: seq<nat>)
    requires n <= |readings|
  {
    && (forall i :: i in order <==> 0 <= i < n)
    && (forall k, l | 0 <= k < l < |order| ::
         order[k] < |readings| && order[l] < |readings| && Before(readings, order[k], order[l]))
  }

  lemma InsertedMembers(order: seq<nat>, n: nat, k: nat)
    requires k <= |order|
    ensures forall i :: i in order[..k] + [n] + order[k..] <==> i in order || i == n
  {
    assert order == order[..k] + order[k..];
  }

  lemma InsertKeepsOrder(readings: seq<Reading>, n: nat, order: seq<nat>, k: nat)
    requires n < |readings| && Ordered(readings, n, order) && k <= |order|
    requires forall l | 0 <= l < |order| :: order[l] in order
    requires forall l | 0 <= l < k :: Before(readings, order[l], n)
    requires k < |order| ==> Before(readings, n, order[k])
    ensures Ordered(readings, n + 1, order[..k] + [n] + order[k..])
  {
    hide Before;
    InsertedMembers(order, n, k);
    var order' := order[..k] + [n] + order[k..];
    forall a, b | 0 <= a < b < |order'|
      ensures order'[a] < |readings| && order'[b] < |readings| && Before(readings, order'[a], order'[b])
    {
      assert order'[a] == if a < k then order[a] else if a == k then n else order[a - 1];
      assert order'[b] == if b < k then order[b] else if b == k then n else order[b - 1];
      if a == k && b > k + 1 {
        assert Before(readings, order[k], order[b - 1]);
        BeforeTransitive(readings, n, order[k], order[b - 1]);
      }
    }
  }

  /** Two different readings in order: by time; at one time by asset; for one asset at one time as they were given. */
  predicate InTime(readings: seq<Reading>, i: nat, j: nat) {
    && i < |readings| && j < |readings| && i != j
    && var a, b := readings[i], readings[j];
       && a.time <= b.time
       && (a.time == b.time ==> a.asset == b.asset || Less(a.asset, b.asset))
       && (a.time == b.time && a.asset == b.asset ==> i < j)
  }

  /** Every reading once, in that order. */
  ghost predicate TimeOrder(readings: seq<Reading>, order: seq<nat>) {
    && (forall i :: i in order <==> 0 <= i < |readings|)
    && (forall k, l | 0 <= k < l < |order| :: InTime(readings, order[k], order[l]))
  }

  lemma OrderedInTime(readings: seq<Reading>, order: seq<nat>)
    requires Ordered(readings, |readings|, order)
    ensures TimeOrder(readings, order)
  {
    forall k, l | 0 <= k < l < |order|
      ensures InTime(readings, order[k], order[l])
    {
      assert Before(readings, order[k], order[l]);
      LessTotal(readings[order[k]].asset, readings[order[l]].asset);
    }
  }

  /** The library's stable sort, as insertion of each reading behind everything not after it. */
  method StableOrder(readings: seq<Reading>) returns (order: seq<nat>)
    ensures Ordered(readings, |readings|, order)
    ensures TimeOrder(readings, order)
  {
    hide TimeOrder;
    order := [];
    for n := 0 to |readings|
      invariant Ordered(readings, n, order)
    {
      assert forall l | 0 <= l < |order| :: order[l] in order;
      var k := |order|;
      while k > 0 && Before(readings, n, order[k - 1])
        invariant 0 <= k <= |order|
        invariant k < |order| ==> Before(readings, n, order[k])
      {
        k := k - 1;
      }
      forall l | 0 <= l < k
        ensures Before(readings, order[l], n)
      {
        BeforeTotal(readings, order[k - 1], n);
        if l < k - 1 {
          BeforeTransitive(readings, order[l], order[k - 1], n);
        }
      }
      InsertKeepsOrder(readings, n, order, k);
      order := order[..k] + [n] + order[k..];
    }
    OrderedInTime(readings, order);
  }

  // ----- Bars --------------------------------------------------------------------------------------------

  /** The positions among `seen` of the readings of one asset in one interval. */
  function Group(readings: seq<Reading>, interval: int, key: Key, seen: set<nat>): set<nat>
    requires interval > 0
  {
    set g | g in seen && g < |readings| && KeyOf(readings[g], interval) == key
  }

  predicate IsPosition(readings: seq<Reading>, g: nat) {
    g < |readings|
  }

  function Positions(readings: seq<Reading>): set<nat> {
    set g: nat | g < |readings| && IsPosition(readings, g)
  }

  ghost function CountOf(readings: seq<Reading>, group: set<nat>): int {
    if group == {} then 0
    else
      var g :| g in group;
      (if g < |readings| then readings[g].count else 0) + CountOf(readings, group - {g})
  }

  lemma {:induction false} CountWithout(readings: seq<Reading>, group: set<nat>, g: nat)
    requires g in group && g < |readings|
    ensures CountOf(readings, group) == readings[g].count + CountOf(readings, group - {g})
    decreases |group|
  {
    var q :| q in group
        && CountOf(readings, group)
        == (if q < |readings| then readings[q].count else 0) + CountOf(readings, group - {q});
    if q != g {
      CountWithout(readings, group - {q}, g);
      assert group - {q} - {g} == group - {g} - {q};
      if q < |readings| {
        CountWithout(readings, group - {g}, q);
      } else {
        CountSkip(readings, group - {g}, q);
      }
    }
  }

  lemma {:induction false} CountSkip(readings: seq<Reading>, group: set<nat>, g: nat)
    requires g in group && g >= |readings|
    ensures CountOf(readings, group) == CountOf(readings, group - {g})
    decreases |group|
  {
    var q :| q in group
        && CountOf(readings, group)
        == (if q < |readings| then readings[q].count else 0) + CountOf(readings, group - {q});
    if q != g {
      CountSkip(readings, group - {q}, g);
      assert group - {q} - {g} == group - {g} - {q};
      if q < |readings| {
        CountWithout(readings, group - {g}, q);
      } else {
        CountSkip(readings, group - {g}, q);
      }
    }
  }

  ghost predicate IsFirst(readings: seq<Reading>, group: set<nat>, f: nat) {
    f in group && f < |readings| && forall g | g in group && g != f :: g < |readings| && Before(readings, f, g)
  }

  ghost predicate IsLast(readings: seq<Reading>, group: set<nat>, l: nat) {
    l in group && l < |readings| && forall g | g in group && g != l :: g < |readings| && Before(readings, g, l)
  }

  ghost predicate Has(readings: seq<Reading>, group: set<nat>, value: real) {
    exists g :: g in group && g < |readings| && readings[g].value == value
  }

  /** What a bar says of its group: opened by the first reading and closed by the last, in stable time order; the
      highest and the lowest value; all samples. */
  ghost predicate Describes(readings: seq<Reading>, group: set<nat>, bar: Bar) {
    && (exists f: nat :: IsFirst(readings, group, f) && bar.open == readings[f].value)
    && (exists l: nat :: IsLast(readings, group, l) && bar.close == readings[l].value)
    && Has(readings, group, bar.high) && Has(readings, group, bar.low)
    && (forall g | g in group :: g < |readings| && bar.low <= readings[g].value <= bar.high)
    && bar.count == CountOf(readings, group)
  }

  ghost predicate BarOver(readings: seq<Reading>, interval: int, key: Key, seen: set<nat>, bar: Bar)
    requires interval > 0
  {
    && bar.asset == key.asset && bar.start == key.bucket * interval
    && Describes(readings, Group(readings, interval, key, seen), bar)
  }

  function NewBar(r: Reading, interval: int): Bar
    requires interval > 0
  {
    Bar(r.asset, r.value, r.value, r.value, r.value, r.count, KeyOf(r, interval).bucket * interval)
  }

  function Updated(bar: Bar, r: Reading): Bar {
    bar.(high := if r.value > bar.high then r.value else bar.high,
         low := if r.value < bar.low then r.value else bar.low,
         close := r.value, count := bar.count + r.count)
  }

  lemma NewDescribes(readings: seq<Reading>, r: nat, bar: Bar)
    requires r < |readings| && bar.open == bar.high == bar.low == bar.close == readings[r].value
             && bar.count == readings[r].count
    ensures Describes(readings, {r}, bar)
  {
    CountWithout(readings, {r}, r);
    assert {r} - {r} == {};
    assert IsFirst(readings, {r}, r) && IsLast(readings, {r}, r);
  }

  lemma UpdatedDescribes(readings: seq<Reading>, group: set<nat>, r: nat, bar: Bar)
    requires r < |readings| && r !in group && Describes(readings, group, bar)
    requires forall g | g in group :: g < |readings| && Before(readings, g, r)
    ensures Describes(readings, group + {r}, Updated(bar, readings[r]))
  {
    hide Before, CountOf;
    var group' := group + {r};
    var f: nat :| IsFirst(readings, group, f) && bar.open == readings[f].value;
    assert IsFirst(readings, group', f) && IsLast(readings, group', r);
    CountWithout(readings, group', r);
    assert group' - {r} == group;
    var h :| h in group && h < |readings| && readings[h].value == bar.high;
    var l :| l in group && l < |readings| && readings[l].value == bar.low;
    assert h in group' && l in group' && r in group';
  }

  // ----- The specification -------------------------------------------------------------------------------

  /** Bars come by start, then asset. */
  predicate BarBefore(a: Bar, b: Bar) {
    a.start < b.start || (a.start == b.start && Less(a.asset, b.asset))
  }

  predicate Sorted(bars: seq<Bar>) {
    forall i, j | 0 <= i < j < |bars| :: BarBefore(bars[i], bars[j])
  }

  function BarKey(bar: Bar, interval: int): Key
    requires interval > 0
  {
    Key(bar.asset, bar.start / interval)
  }

  ghost predicate HasBar(bars: seq<Bar>, interval: int, key: Key)
    requires interval > 0
  {
    exists i :: 0 <= i < |bars| && BarKey(bars[i], interval) == key
  }

  /** One bar for each asset and interval that has readings, in strict order, each describing its readings. */
  ghost predicate GroupedBy(readings: seq<Reading>, interval: int, bars: seq<Bar>)
    requires interval > 0
  {
    && Sorted(bars)
    && (forall i | 0 <= i < |bars| ::
         BarOver(readings, interval, BarKey(bars[i], interval), Positions(readings), bars[i]))
    && (forall g | 0 <= g < |readings| :: HasBar(bars, interval, KeyOf(readings[g], interval)))
  }

  lemma StartIs(readings: seq<Reading>, interval: int, key: Key, seen: set<nat>, bar: Bar)
    requires interval > 0 && BarOver(readings, interval, key, seen, bar)
    ensures bar.start == key.bucket * interval
  {
  }

  /** Every reading lies in the half-open span of its bar. */
  lemma InSpan(readings: seq<Reading>, interval: int, bars: seq<Bar>, i: nat, g: nat)
    requires interval > 0 && GroupedBy(readings, interval, bars) && i < |bars| && g < |readings|
    requires KeyOf(readings[g], interval) == BarKey(bars[i], interval)
    ensures bars[i].start * 1_000_000 <= readings[g].time < (bars[i].start + interval) * 1_000_000
  {
    assert BarOver(readings, interval, BarKey(bars[i], interval), Positions(readings), bars[i]);
    hide BarOver;
    StartIs(readings, interval, BarKey(bars[i], interval), Positions(readings), bars[i]);
    SpanOf(readings[g].time, interval);
  }

  lemma SpanOf(time: int, interval: int)
    requires interval > 0
    ensures var start := Seconds(time) / interval * interval; start * 1_000_000 <= time < (start + interval) * 1_000_000
  {
    var s := Seconds(time);
    assert s == s / interval * interval + s % interval;
    assert time == s * 1_000_000 + time % 1_000_000;
  }

  /** A group is described in one way only. */
  lemma DescribesUnique(readings: seq<Reading>, group: set<nat>, a: Bar, b: Bar)
    requires Describes(readings, group, a) && Describes(readings, group, b)
    ensures a.open == b.open && a.high == b.high && a.low == b.low && a.close == b.close && a.count == b.count
  {
    var f: nat :| IsFirst(readings, group, f) && a.open == readings[f].value;
    var f': nat :| IsFirst(readings, group, f') && b.open == readings[f'].value;
    var l: nat :| IsLast(readings, group, l) && a.close == readings[l].value;
    var l': nat :| IsLast(readings, group, l') && b.close == readings[l'].value;
    if f != f' {
      BeforeTotal(readings, f, f');
    }
    if l != l' {
      BeforeTotal(readings, l, l');
    }
  }

  // ----- The aggregation ---------------------------------------------------------------------------------

  /** The bars of the readings seen so far. */
  ghost predicate AllBars(readings: seq<Reading>, interval: int, bars: map<Key, Bar>, seen: set<nat>)
    requires interval > 0
  {
    && (forall key | key in bars :: BarOver(readings, interval, key, seen, bars[key]))
    && (forall g | g in seen :: g < |readings| && KeyOf(readings[g], interval) in bars)
  }

  function BarAfter(bars: map<Key, Bar>, r: Reading, interval: int): Bar
    requires interval > 0
  {
    if KeyOf(r, interval) in bars then Updated(bars[KeyOf(r, interval)], r) else NewBar(r, interval)
  }

  lemma GroupNext(readings: seq<Reading>, interval: int, key: Key, seen: set<nat>, r: nat)
    requires interval > 0 && r < |readings|
    ensures Group(readings, interval, key, seen + {r})
         == Group(readings, interval, key, seen) + (if KeyOf(readings[r], interval) == key then {r} else {})
  {
  }

  lemma BarsNext(readings: seq<Reading>, interval: int, bars: map<Key, Bar>, seen: set<nat>, r: nat)
    requires interval > 0 && r < |readings| && AllBars(readings, interval, bars, seen) && r !in seen
    requires forall g | g in seen :: g < |readings| && Before(readings, g, r)
    ensures AllBars(readings, interval, bars[KeyOf(readings[r], interval) := BarAfter(bars, readings[r], interval)],
            seen + {r})
  {
    hide Before, Describes, KeyOf;
    var key := KeyOf(readings[r], interval);
    var bars' := bars[key := BarAfter(bars, readings[r], interval)];
    forall k | k in bars'
      ensures BarOver(readings, interval, k, seen + {r}, bars'[k])
    {
      GroupNext(readings, interval, k, seen, r);
      var group := Group(readings, interval, k, seen);
      if k != key {
        assert group + {} == group;
      } else if key in bars {
        UpdatedDescribes(readings, group, r, bars[key]);
      } else {
        assert group == {};
        assert {} + {r} == {r};
        NewDescribes(readings, r, bars'[key]);
        NewBarKey(readings[r], interval);
      }
    }
  }

  lemma NewBarKey(r: Reading, interval: int)
    requires interval > 0
    ensures NewBar(r, interval).asset == KeyOf(r, interval).asset
            && NewBar(r, interval).start == KeyOf(r, interval).bucket * interval
  {
  }

  lemma BarOrder(a: Bar, b: Bar, c: Bar)
    ensures BarBefore(a, b) && BarBefore(b, c) ==> BarBefore(a, c)
    ensures a.start != b.start || a.asset != b.asset ==> (BarBefore(a, b) <==> !BarBefore(b, a))
    ensures !BarBefore(a, a)
  {
    LessTotal(a.asset, b.asset);
    LessTotal(a.asset, a.asset);
    if Less(a.asset, b.asset) && Less(b.asset, c.asset) {
      LessTransitive(a.asset, b.asset, c.asset);
    }
  }

  ghost predicate AllDifferent(bars: map<Key, Bar>) {
    forall k, k' | k in bars && k' in bars && k != k' ::
          bars[k].start != bars[k'].start || bars[k].asset != bars[k'].asset
  }

  /** Sorted bars for exactly the keys taken so far. */
  ghost predicate SortedOf(bars: map<Key, Bar>, taken: set<Key>, r: seq<Bar>) {
    && Sorted(r)
    && (forall i | 0 <= i < |r| :: exists k :: k in taken && k in bars && bars[k] == r[i])
    && (forall k | k in taken :: k in bars && bars[k] in r)
  }

  lemma SortedIs(bars: map<Key, Bar>, taken: set<Key>, r: seq<Bar>, i: nat) returns (k: Key)
    requires SortedOf(bars, taken, r) && i < |r|
    ensures k in taken && k in bars && bars[k] == r[i]
  {
    var bar := r[i];
    k :| k in taken && k in bars && bars[k] == bar;
  }

  lemma InsertSorted(r: seq<Bar>, bar: Bar, n: nat)
    requires Sorted(r) && n <= |r|
    requires forall i | 0 <= i < n :: BarBefore(r[i], bar)
    requires forall i | n <= i < |r| :: BarBefore(bar, r[i])
    ensures Sorted(r[..n] + [bar] + r[n..])
  {
    hide BarBefore;
    var r' := r[..n] + [bar] + r[n..];
    forall i, j | 0 <= i < j < |r'|
      ensures BarBefore(r'[i], r'[j])
    {
      assert r'[i] == if i < n then r[i] else if i == n then bar else r[i - 1];
      assert r'[j] == if j < n then r[j] else if j == n then bar else r[j - 1];
    }
  }

  lemma InsertMembers(r: seq<Bar>, bar: Bar, n: nat, b: Bar)
    requires n <= |r|
    ensures b in r[..n] + [bar] + r[n..] <==> b == bar || b in r
  {
    assert r == r[..n] + r[n..];
  }

  lemma SortedNext(bars: map<Key, Bar>, taken: set<Key>, r: seq<Bar>, key: Key, n: nat)
    requires SortedOf(bars, taken, r) && key in bars && n <= |r|
    requires forall i | 0 <= i < n :: BarBefore(r[i], bars[key])
    requires forall i | n <= i < |r| :: BarBefore(bars[key], r[i])
    ensures SortedOf(bars, taken + {key}, r[..n] + [bars[key]] + r[n..])
  {
    hide Sorted;
    var r' := r[..n] + [bars[key]] + r[n..];
    InsertSorted(r, bars[key], n);
    forall i | 0 <= i < |r'|
      ensures exists k :: k in taken + {key} && k in bars && bars[k] == r'[i]
    {
      InsertMembers(r, bars[key], n, r'[i]);
      if r'[i] == bars[key] {
        assert key in taken + {key};
      } else {
        var j :| 0 <= j < |r| && r[j] == r'[i];
        var k := SortedIs(bars, taken, r, j);
        assert k in taken + {key};
      }
    }
    forall k | k in taken + {key}
      ensures k in bars && bars[k] in r'
    {
      InsertMembers(r, bars[key], n, bars[k]);
    }
  }

  /** The bars of the dictionary, sorted. */
  method SortBars(bars: map<Key, Bar>) returns (r: seq<Bar>)
    requires AllDifferent(bars)
    ensures SortedOf(bars, bars.Keys, r)
  {
    hide BarBefore;
    r := [];
    var left := bars.Keys;
    while left != {}
      invariant left <= bars.Keys && SortedOf(bars, bars.Keys - left, r)
    {
      var key :| key in left;
      var n := |r|;
      while n > 0 && BarBefore(bars[key], r[n - 1])
        invariant 0 <= n <= |r| && forall i | n <= i < |r| :: BarBefore(bars[key], r[i])
      {
        n := n - 1;
      }
      PlaceFound(bars, bars.Keys - left, r, key, n);
      SortedNext(bars, bars.Keys - left, r, key, n);
      assert bars.Keys - (left - {key}) == bars.Keys - left + {key};
      r := r[..n] + [bars[key]] + r[n..];
      left := left - {key};
    }
    assert bars.Keys - {} == bars.Keys;
  }

  lemma PlaceFound(bars: map<Key, Bar>, taken: set<Key>, r: seq<Bar>, key: Key, n: nat)
    requires AllDifferent(bars) && SortedOf(bars, taken, r) && key in bars && key !in taken && n <= |r|
    requires n > 0 ==> !BarBefore(bars[key], r[n - 1])
    ensures forall i | 0 <= i < n :: BarBefore(r[i], bars[key])
  {
    hide BarBefore;
    forall i | 0 <= i < n
      ensures BarBefore(r[i], bars[key])
    {
      var k :| k in taken && k in bars && bars[k] == r[n - 1];
      BarOrder(bars[key], r[n - 1], r[n - 1]);
      BarOrder(r[i], r[n - 1], bars[key]);
    }
  }

  function Seen(order: seq<nat>, n: nat): set<nat>
    requires n <= |order|
  {
    set i | i in order[..n]
  }

  lemma OrderedSeen(readings: seq<Reading>, order: seq<nat>, n: nat)
    requires Ordered(readings, |readings|, order) && n < |order|
    ensures order[n] < |readings| && order[n] !in Seen(order, n)
    ensures forall g | g in Seen(order, n) :: g < |readings| && Before(readings, g, order[n])
    ensures Seen(order, n + 1) == Seen(order, n) + {order[n]}
  {
    assert order[n] in order;
    assert order[..n + 1] == order[..n] + [order[n]];
    forall g | g in order[..n]
      ensures g < |readings| && Before(readings, g, order[n]) && g != order[n]
    {
      var k :| 0 <= k < n && order[k] == g;
      BeforeIrreflexive(readings, order[n]);
    }
  }

  lemma BeforeIrreflexive(readings: seq<Reading>, i: nat)
    requires i < |readings|
    ensures !Before(readings, i, i)
  {
    LessTotal(readings[i].asset, readings[i].asset);
  }

  lemma BucketOfStart(bucket: int, interval: int)
    requires interval > 0
    ensures bucket * interval / interval == bucket
  {
    var x := bucket * interval;
    var q := x / interval;
    assert x == q * interval + x % interval;
    Multiples(bucket - q, interval);
  }

  lemma Multiples(d: int, interval: int)
    requires interval > 0
    ensures d > 0 ==> d * interval >= interval
    ensures d < 0 ==> d * interval <= -interval
  {
  }

  lemma SameStart(a: int, b: int, interval: int)
    requires interval > 0 && a * interval == b * interval
    ensures a == b
  {
    BucketOfStart(a, interval);
    BucketOfStart(b, interval);
  }

  lemma AllBarsDifferent(readings: seq<Reading>, interval: int, bars: map<Key, Bar>, seen: set<nat>)
    requires interval > 0 && AllBars(readings, interval, bars, seen)
    ensures AllDifferent(bars)
  {
    hide Describes, Group;
    forall k, k' | k in bars && k' in bars && k != k'
      ensures bars[k].start != bars[k'].start || bars[k].asset != bars[k'].asset
    {
      if bars[k].start == bars[k'].start {
        SameStart(k.bucket, k'.bucket, interval);
      }
    }
  }

  lemma BarIsOver(readings: seq<Reading>, interval: int, bars: map<Key, Bar>, r: seq<Bar>, i: nat)
    requires interval > 0 && AllBars(readings, interval, bars, Positions(readings)) && SortedOf(bars, bars.Keys, r)
             && i < |r|
    ensures BarOver(readings, interval, BarKey(r[i], interval), Positions(readings), r[i])
  {
    hide Describes, Group, Sorted, KeyOf;
    var k := SortedIs(bars, bars.Keys, r, i);
    BucketOfStart(k.bucket, interval);
    assert BarKey(r[i], interval) == k;
  }

  lemma ReadingHasBar(readings: seq<Reading>, interval: int, bars: map<Key, Bar>, r: seq<Bar>, g: nat)
    requires interval > 0 && AllBars(readings, interval, bars, Positions(readings)) && SortedOf(bars, bars.Keys, r)
             && g < |readings|
    ensures HasBar(r, interval, KeyOf(readings[g], interval))
  {
    hide Describes, Group, Sorted, KeyOf;
    var k := KeyOf(readings[g], interval);
    assert g in Positions(readings) && IsPosition(readings, g);
    var i :| 0 <= i < |r| && r[i] == bars[k];
    BucketOfStart(k.bucket, interval);
    assert BarKey(r[i], interval) == k;
  }

  lemma SortedGroups(readings: seq<Reading>, interval: int, bars: map<Key, Bar>, r: seq<Bar>)
    requires interval > 0 && AllBars(readings, interval, bars, Positions(readings)) && SortedOf(bars, bars.Keys, r)
    ensures GroupedBy(readings, interval, r)
  {
    hide AllBars, Sorted, BarOver, BarKey, KeyOf, HasBar;
    forall i | 0 <= i < |r|
      ensures BarOver(readings, interval, BarKey(r[i], interval), Positions(readings), r[i])
    {
      BarIsOver(readings, interval, bars, r, i);
    }
    forall g | 0 <= g < |readings|
      ensures HasBar(r, interval, KeyOf(readings[g], interval))
    {
      ReadingHasBar(readings, interval, bars, r, g);
    }
  }

  lemma AllSeen(readings: seq<Reading>, order: seq<nat>)
    requires Ordered(readings, |readings|, order)
    ensures Seen(order, |order|) == Positions(readings)
  {
    assert order[..|order|] == order;
    forall g: nat | g < |readings|
      ensures g in Positions(readings)
    {
      assert IsPosition(readings, g);
    }
  }

  // ----- The bars in terms of time -----------------------------------------------------------------------

  /** The reading at `g` is of the asset of the bar and lies in its span. */
  predicate InBar(readings: seq<Reading>, interval: int, bar: Bar, g: nat) {
    && g < |readings| && readings[g].asset == bar.asset
    && bar.start * 1_000_000 <= readings[g].time < (bar.start + interval) * 1_000_000
  }

  /** The bar opens with the reading at `f`: none of the bar is earlier, and none that is as early was given before. */
  ghost predicate OpenedBy(readings: seq<Reading>, interval: int, bar: Bar, f: nat) {
    && InBar(readings, interval, bar, f) && bar.open == readings[f].value
    && forall g | 0 <= g < |readings| && InBar(readings, interval, bar, g) ::
         readings[f].time < readings[g].time || (readings[f].time == readings[g].time && f <= g)
  }

  /** The bar closes with the reading at `l`: none of the bar is later, and none that is as late was given after. */
  ghost predicate ClosedBy(readings: seq<Reading>, interval: int, bar: Bar, l: nat) {
    && InBar(readings, interval, bar, l) && bar.close == readings[l].value
    && forall g | 0 <= g < |readings| && InBar(readings, interval, bar, g) ::
         readings[g].time < readings[l].time || (readings[g].time == readings[l].time && g <= l)
  }

  /** A bar against the readings in it. */
  ghost predicate TimedBar(readings: seq<Reading>, interval: int, bar: Bar)
    requires interval > 0
  {
    && bar.start % interval == 0
    && (exists f: nat :: OpenedBy(readings, interval, bar, f))
    && (exists l: nat :: ClosedBy(readings, interval, bar, l))
    && (forall g | 0 <= g < |readings| && InBar(readings, interval, bar, g) ::
          bar.low <= readings[g].value <= bar.high)
    && (exists g: nat :: InBar(readings, interval, bar, g) && readings[g].value == bar.high)
    && (exists g: nat :: InBar(readings, interval, bar, g) && readings[g].value == bar.low)
    && bar.count == CountOf(readings, set g | g in Positions(readings) && InBar(readings, interval, bar, g))
  }

  /** To belong to the group of a bar is to be of its asset and in its span. */
  lemma InBarIs(readings: seq<Reading>, interval: int, bar: Bar, g: nat)
    requires interval > 0 && bar.start == bar.start / interval * interval && g < |readings|
    ensures InBar(readings, interval, bar, g) <==> KeyOf(readings[g], interval) == BarKey(bar, interval)
  {
    var time := readings[g].time;
    SpanOf(time, interval);
    if InBar(readings, interval, bar, g) {
      var bucket, b := Seconds(time) / interval, bar.start / interval;
      assert (bucket * interval) * 1_000_000 < (b * interval + interval) * 1_000_000;
      assert (b * interval) * 1_000_000 < (bucket * interval + interval) * 1_000_000;
      Multiples(bucket - b, interval);
    }
  }

  lemma GroupIsInBar(readings: seq<Reading>, interval: int, bar: Bar)
    requires interval > 0 && bar.start == bar.start / interval * interval
    ensures Group(readings, interval, BarKey(bar, interval), Positions(readings))
         == set g | g in Positions(readings) && InBar(readings, interval, bar, g)
    ensures forall g | 0 <= g < |readings| ::
              InBar(readings, interval, bar, g)
              <==> g in Group(readings, interval, BarKey(bar, interval), Positions(readings))
  {
    hide InBar, KeyOf, BarKey;
    forall g: nat | g < |readings|
      ensures InBar(readings, interval, bar, g) <==> KeyOf(readings[g], interval) == BarKey(bar, interval)
      ensures g in Positions(readings)
    {
      InBarIs(readings, interval, bar, g);
      assert IsPosition(readings, g);
    }
  }

  lemma StartIsMultiple(readings: seq<Reading>, interval: int, bar: Bar)
    requires interval > 0 && BarOver(readings, interval, BarKey(bar, interval), Positions(readings), bar)
    ensures bar.start == bar.start / interval * interval && bar.start % interval == 0
  {
    hide Describes, Group;
  }

  /** Of two readings of one asset the earlier comes before, and of two at one time the one given first. */
  lemma BeforeIs(readings: seq<Reading>, i: nat, j: nat)
    requires i < |readings| && j < |readings| && readings[i].asset == readings[j].asset
    ensures Before(readings, i, j)
            <==> readings[i].time < readings[j].time || (readings[i].time == readings[j].time && i < j)
  {
    LessTotal(readings[i].asset, readings[j].asset);
  }

  /** The first and the last of a group, by time and then by position. */
  lemma FirstOpens(readings: seq<Reading>, interval: int, bar: Bar, group: set<nat>)
    requires forall g | 0 <= g < |readings| :: InBar(readings, interval, bar, g) <==> g in group
    requires exists f: nat :: IsFirst(readings, group, f) && bar.open == readings[f].value
    ensures exists f: nat :: OpenedBy(readings, interval, bar, f)
  {
    var f: nat :| IsFirst(readings, group, f) && bar.open == readings[f].value;
    hide Before;
    forall g | 0 <= g < |readings| && InBar(readings, interval, bar, g)
      ensures readings[f].time < readings[g].time || (readings[f].time == readings[g].time && f <= g)
    {
      BeforeIs(readings, f, g);
    }
    assert OpenedBy(readings, interval, bar, f);
  }

  lemma LastCloses(readings: seq<Reading>, interval: int, bar: Bar, group: set<nat>)
    requires forall g | 0 <= g < |readings| :: InBar(readings, interval, bar, g) <==> g in group
    requires exists l: nat :: IsLast(readings, group, l) && bar.close == readings[l].value
    ensures exists l: nat :: ClosedBy(readings, interval, bar, l)
  {
    var l: nat :| IsLast(readings, group, l) && bar.close == readings[l].value;
    hide Before;
    forall g | 0 <= g < |readings| && InBar(readings, interval, bar, g)
      ensures readings[g].time < readings[l].time || (readings[g].time == readings[l].time && g <= l)
    {
      BeforeIs(readings, g, l);
    }
    assert ClosedBy(readings, interval, bar, l);
  }

  lemma DescribedInTime(readings: seq<Reading>, interval: int, bar: Bar, group: set<nat>)
    requires interval > 0 && bar.start % interval == 0 && Describes(readings, group, bar)
    requires forall g | 0 <= g < |readings| :: InBar(readings, interval, bar, g) <==> g in group
    requires group == set g | g in Positions(readings) && InBar(readings, interval, bar, g)
    ensures TimedBar(readings, interval, bar)
  {
    hide InBar, IsFirst, IsLast, OpenedBy, ClosedBy, CountOf, Positions;
    FirstOpens(readings, interval, bar, group);
    LastCloses(readings, interval, bar, group);
    var h :| h in group && h < |readings| && readings[h].value == bar.high;
    var w :| w in group && w < |readings| && readings[w].value == bar.low;
    assert InBar(readings, interval, bar, h) && InBar(readings, interval, bar, w);
  }

  /** Every bar of the group-by, said of times: it starts at a multiple of the interval, opens with the earliest of
      its readings and closes with the latest, among those at one time with the one given first and the one given
      last; its high and low are reached and not passed; it counts the samples of its readings and no others. */
  lemma BarsAreTimed(readings: seq<Reading>, interval: int, bars: seq<Bar>, i: nat)
    requires interval > 0 && GroupedBy(readings, interval, bars) && i < |bars|
    ensures TimedBar(readings, interval, bars[i])
  {
    assert BarOver(readings, interval, BarKey(bars[i], interval), Positions(readings), bars[i]);
    hide GroupedBy, Describes, InBar, BarKey, Group, TimedBar, Positions;
    StartIsMultiple(readings, interval, bars[i]);
    GroupIsInBar(readings, interval, bars[i]);
    DescribedInTime(readings, interval, bars[i],
        Group(readings, interval, BarKey(bars[i], interval), Positions(readings)));
  }

  /** Earlier starts first, and at one start the assets in ascending order. */
  predicate ByStart(bars: seq<Bar>) {
    forall i, j | 0 <= i < j < |bars| ::
      bars[i].start <= bars[j].start && (bars[i].start == bars[j].start ==> Less(bars[i].asset, bars[j].asset))
  }

  lemma BarsByStart(readings: seq<Reading>, interval: int, bars: seq<Bar>)
    requires interval > 0 && GroupedBy(readings, interval, bars)
    ensures ByStart(bars)
  {
    assert forall i, j | 0 <= i < j < |bars| :: BarBefore(bars[i], bars[j]);
    hide GroupedBy;
  }

  /** Every reading is in a bar, and in one only. */
  lemma OneBarEach(readings: seq<Reading>, interval: int, bars: seq<Bar>, g: nat)
    requires interval > 0 && GroupedBy(readings, interval, bars) && g < |readings|
    ensures exists i :: 0 <= i < |bars| && InBar(readings, interval, bars[i], g)
    ensures forall i, j | 0 <= i < j < |bars| ::
              !(InBar(readings, interval, bars[i], g) && InBar(readings, interval, bars[j], g))
  {
    forall i | 0 <= i < |bars|
      ensures InBar(readings, interval, bars[i], g)
              <==> KeyOf(readings[g], interval) == BarKey(bars[i], interval)
    {
      assert BarOver(readings, interval, BarKey(bars[i], interval), Positions(readings), bars[i]);
      StartIsMultiple(readings, interval, bars[i]);
      InBarIs(readings, interval, bars[i], g);
    }
    assert HasBar(bars, interval, KeyOf(readings[g], interval));
    forall i, j | 0 <= i < j < |bars|
      ensures BarKey(bars[i], interval) != BarKey(bars[j], interval)
    {
      KeysDiffer(readings, interval, bars, i, j);
    }
    hide GroupedBy, InBar, KeyOf, BarKey;
    var i :| 0 <= i < |bars| && BarKey(bars[i], interval) == KeyOf(readings[g], interval);
    assert InBar(readings, interval, bars[i], g);
  }

  /** Sorts the readings and aggregates them, bar by bar; an interval that is not positive is refused. */
  method ReadingsToIntervals(readings: seq<Reading>, interval: int) returns (r: Option<seq<Bar>>)
    ensures r.None? <==> interval <= 0
    ensures r.Some? ==> GroupedBy(readings, interval, r.value)
    ensures r.Some? ==> forall i | 0 <= i < |r.value| :: TimedBar(readings, interval, r.value[i])
    ensures r.Some? ==> ByStart(r.value)
  {
    if interval <= 0 {
      return None;
    }
    hide AllBars, Ordered, GroupedBy, Before, KeyOf, BarAfter, SortedOf, AllDifferent;
    var order := StableOrder(readings);
    var bars: map<Key, Bar> := map[];
    ghost var seen := Seen(order, 0);
    NoBars(readings, interval, seen);
    for n := 0 to |order|
      invariant seen == Seen(order, n) && AllBars(readings, interval, bars, seen)
    {
      OrderedSeen(readings, order, n);
      BarsNext(readings, interval, bars, seen, order[n]);
      var reading := readings[order[n]];
      bars := bars[KeyOf(reading, interval) := BarAfter(bars, reading, interval)];
      seen := seen + {order[n]};
    }
    AllSeen(readings, order);
    AllBarsDifferent(readings, interval, bars, seen);
    var sorted := SortBars(bars);
    SortedGroups(readings, interval, bars, sorted);
    hide TimedBar, ByStart;
    BarsByStart(readings, interval, sorted);
    forall i | 0 <= i < |sorted|
      ensures TimedBar(readings, interval, sorted[i])
    {
      BarsAreTimed(readings, interval, sorted, i);
    }
    return Some(sorted);
  }

  lemma NoBars(readings: seq<Reading>, interval: int, seen: set<nat>)
    requires interval > 0 && seen == {}
    ensures AllBars(readings, interval, map[], seen)
  {
  }

  // ----- What the specification implies ----------------------------------------------------------------

  lemma KeysDiffer(readings: seq<Reading>, interval: int, bars: seq<Bar>, i: nat, j: nat)
    requires interval > 0 && GroupedBy(readings, interval, bars) && i < j < |bars|
    ensures BarKey(bars[i], interval) != BarKey(bars[j], interval)
  {
    assert BarOver(readings, interval, BarKey(bars[i], interval), Positions(readings), bars[i]);
    assert BarOver(readings, interval, BarKey(bars[j], interval), Positions(readings), bars[j]);
    assert BarBefore(bars[i], bars[j]);
    LessTotal(bars[i].asset, bars[j].asset);
    hide Describes, Group, GroupedBy;
  }

  lemma {:induction false} CountUnion(readings: seq<Reading>, a: set<nat>, b: set<nat>)
    requires a !! b && (forall g | g in a :: g < |readings|) && (forall g | g in b :: g < |readings|)
    ensures CountOf(readings, a + b) == CountOf(readings, a) + CountOf(readings, b)
    decreases |b|
  {
    if b == {} {
      assert a + b == a;
    } else {
      var g :| g in b;
      CountUnion(readings, a, b - {g});
      assert a + b - {g} == a + (b - {g});
      CountWithout(readings, a + b, g);
      CountWithout(readings, b, g);
    }
  }

  function SampleTotal(bars: seq<Bar>): int {
    if bars == [] then 0 else SampleTotal(bars[..|bars| - 1]) + bars[|bars| - 1].count
  }

  /** The positions of the readings in the first `n` bars. */
  function Covered(readings: seq<Reading>, interval: int, bars: seq<Bar>, n: nat): set<nat>
    requires interval > 0 && n <= |bars|
  {
    set g | g in Positions(readings) && g < |readings| && exists i ::
          0 <= i < n && BarKey(bars[i], interval) == KeyOf(readings[g], interval)
  }

  lemma CoveredNext(readings: seq<Reading>, interval: int, bars: seq<Bar>, n: nat)
    requires interval > 0 && n < |bars| && GroupedBy(readings, interval, bars)
    ensures var group := Group(readings, interval, BarKey(bars[n], interval), Positions(readings));
            Covered(readings, interval, bars, n + 1) == Covered(readings, interval, bars, n) + group
                && Covered(readings, interval, bars, n) !! group
  {
    hide GroupedBy, KeyOf, BarKey;
    forall i | 0 <= i < n
      ensures BarKey(bars[i], interval) != BarKey(bars[n], interval)
    {
      KeysDiffer(readings, interval, bars, i, n);
    }
  }

  lemma {:induction false} CoveredTotal(readings: seq<Reading>, interval: int, bars: seq<Bar>, n: nat)
    requires interval > 0 && n <= |bars| && GroupedBy(readings, interval, bars)
    ensures SampleTotal(bars[..n]) == CountOf(readings, Covered(readings, interval, bars, n))
  {
    hide GroupedBy, Covered, BarKey, Group, CountOf;
    if n == 0 {
      NothingCovered(readings, interval, bars);
    } else {
      CoveredTotal(readings, interval, bars, n - 1);
      CoveredNext(readings, interval, bars, n - 1);
      BarCounts(readings, interval, bars, n - 1);
      CoveredPositions(readings, interval, bars, n - 1);
      assert bars[..n][..n - 1] == bars[..n - 1];
      CountUnion(readings, Covered(readings, interval, bars, n - 1),
          Group(readings, interval, BarKey(bars[n - 1], interval), Positions(readings)));
    }
  }

  lemma NothingCovered(readings: seq<Reading>, interval: int, bars: seq<Bar>)
    requires interval > 0
    ensures Covered(readings, interval, bars, 0) == {} && CountOf(readings, {}) == 0
  {
  }

  lemma BarCounts(readings: seq<Reading>, interval: int, bars: seq<Bar>, n: nat)
    requires interval > 0 && n < |bars| && GroupedBy(readings, interval, bars)
    ensures bars[n].count
            == CountOf(readings, Group(readings, interval, BarKey(bars[n], interval), Positions(readings)))
  {
    assert BarOver(readings, interval, BarKey(bars[n], interval), Positions(readings), bars[n]);
  }

  lemma CoveredPositions(readings: seq<Reading>, interval: int, bars: seq<Bar>, n: nat)
    requires interval > 0 && n < |bars|
    ensures forall g | g in Covered(readings, interval, bars, n) :: g < |readings|
    ensures forall g | g in Group(readings, interval, BarKey(bars[n], interval), Positions(readings)) :: g < |readings|
  {
  }

  /** No sample is lost and none is counted twice. */
  lemma SamplesConserved(readings: seq<Reading>, interval: int, bars: seq<Bar>)
    requires interval > 0 && GroupedBy(readings, interval, bars)
    ensures SampleTotal(bars) == CountOf(readings, Positions(readings))
  {
    hide CountOf, Sorted, BarOver, KeyOf, BarKey;
    CoveredTotal(readings, interval, bars, |bars|);
    assert bars[..|bars|] == bars;
    assert Covered(readings, interval, bars, |bars|) == Positions(readings);
  }

  lemma BarHasTwin(readings: seq<Reading>, interval: int, a: seq<Bar>, b: seq<Bar>, i: nat)
    requires interval > 0 && GroupedBy(readings, interval, a) && GroupedBy(readings, interval, b) && i < |a|
    ensures a[i] in b
  {
    hide Describes, Sorted, KeyOf, BarKey;
    var key := BarKey(a[i], interval);
    assert BarOver(readings, interval, key, Positions(readings), a[i]);
    var g := GroupMember(readings, interval, key, a[i]);
    assert HasBar(b, interval, KeyOf(readings[g], interval));
    var j :| 0 <= j < |b| && BarKey(b[j], interval) == key;
    assert BarOver(readings, interval, key, Positions(readings), b[j]);
    DescribesUnique(readings, Group(readings, interval, key, Positions(readings)), a[i], b[j]);
  }

  lemma GroupMember(readings: seq<Reading>, interval: int, key: Key, bar: Bar) returns (g: nat)
    requires interval > 0 && BarOver(readings, interval, key, Positions(readings), bar)
    ensures g < |readings| && KeyOf(readings[g], interval) == key
  {
    g :| IsFirst(readings, Group(readings, interval, key, Positions(readings)), g);
  }

  lemma {:induction false} SortedUnique(a: seq<Bar>, b: seq<Bar>)
    requires Sorted(a) && Sorted(b) && forall bar :: bar in a <==> bar in b
    ensures a == b
  {
    hide BarBefore;
    assert a != [] ==> a[0] in a;
    assert b != [] ==> b[0] in b;
    if a != [] {
      var x, y := a[|a| - 1], b[|b| - 1];
      BarOrder(x, y, x);
      assert x in b && y in a;
      assert x == y;
      var a', b' := a[..|a| - 1], b[..|b| - 1];
      assert a == a' + [x] && b == b' + [y];
      BarOrder(x, x, x);
      forall bar
        ensures bar in a' <==> bar in b'
      {
        assert bar in a <==> bar in a' || bar == x;
        assert bar in b <==> bar in b' || bar == y;
      }
      SortedUnique(a', b');
    }
  }

  /** The group-by specification has one answer. */
  lemma OneAnswer(readings: seq<Reading>, interval: int, a: seq<Bar>, b: seq<Bar>)
    requires interval > 0 && GroupedBy(readings, interval, a) && GroupedBy(readings, interval, b)
    ensures a == b
  {
    hide BarOver, HasBar, Sorted;
    forall bar
      ensures bar in a <==> bar in b
    {
      if bar in a {
        var i :| 0 <= i < |a| && a[i] == bar;
        BarHasTwin(readings, interval, a, b, i);
      }
      if bar in b {
        var i :| 0 <= i < |b| && b[i] == bar;
        BarHasTwin(readings, interval, b, a, i);
      }
    }
    SortedUnique(a, b);
  }
}
