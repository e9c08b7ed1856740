/** The two-sided queue of one asset (`mittelwerk/core/queue.py`): sorted rate levels of orders in arrival
    order, and an index of the resting ids. The orders themselves are shared, mutable objects. */
module Queues {
  import opened Options
  import opened Orders
  import FM = FlatMatch

  /** The value of a rate level: which orders stand in it, not what they are like. */
  datatype Level = Level(rate: real, orders: seq<WorkOrder>)

  /** All orders of a side in priority order. */
  ghost function Flat(levels: seq<Level>): seq<WorkOrder> {
    if levels == [] then [] else levels[0].orders + Flat(levels[1..])
  }

  /** The values of orders at this moment. */
  ghost function Views(ws: seq<WorkOrder>): (vs: seq<Order>)
    reads set w | w in ws
    ensures |vs| == |ws| && forall i | 0 <= i < |ws| :: vs[i] == ws[i].View()
  {
    seq(|ws|, i requires 0 <= i < |ws| reads set w | w in ws => ws[i].View())
  }

  predicate StandsAt(w: WorkOrder, side: Side, rate: real) {
    w.side == side && w.cap == Some(rate)
  }

  /** Levels are strictly sorted, never empty, and hold orders of their side and rate. */
  ghost predicate Leveled(side: Side, levels: seq<Level>) {
    && (forall i, j | 0 <= i < j < |levels| :: FM.Better(side, levels[i].rate, levels[j].rate))
    && (forall i | 0 <= i < |levels| :: levels[i].orders != [])
    && (forall i | 0 <= i < |levels| :: forall w | w in levels[i].orders :: StandsAt(w, side, levels[i].rate))
  }

  ghost predicate DistinctIds(ws: seq<WorkOrder>) {
    forall i, j | 0 <= i < j < |ws| :: ws[i].id != ws[j].id
  }

  /** The index holds exactly the resting ids, each with its side and rate. */
  ghost predicate Indexed(index: map<string, (Side, real)>, requests: seq<WorkOrder>, offers: seq<WorkOrder>) {
    IndexedSide(index, requests, Request) && IndexedSide(index, offers, Offer)
  }

  ghost predicate IndexedSide(index: map<string, (Side, real)>, ws: seq<WorkOrder>, side: Side) {
    && (forall w | w in ws :: w.id in index && w.cap.Some? && index[w.id] == (side, w.cap.value))
    && (forall id | id in index && index[id].0 == side :: exists w :: w in ws && w.id == id)
  }

  lemma {:induction false} FlatConcat(a: seq<Level>, b: seq<Level>)
    ensures Flat(a + b) == Flat(a) + Flat(b)
  {
    if a == [] {
      assert a + b == b;
    } else {
      FlatConcat(a[1..], b);
      assert (a + b)[1..] == a[1..] + b && (a + b)[0] == a[0];
      assert a[0].orders + (Flat(a[1..]) + Flat(b)) == a[0].orders + Flat(a[1..]) + Flat(b);
    }
  }

  lemma {:induction false} FlatMember(levels: seq<Level>, w: WorkOrder)
    ensures w in Flat(levels) <==> exists i :: 0 <= i < |levels| && w in levels[i].orders
  {
    if levels != [] {
      FlatMember(levels[1..], w);
      if i :| 0 <= i < |levels[1..]| && w in levels[1..][i].orders {
        assert w in levels[i + 1].orders;
      }
      if i :| 0 <= i < |levels| && w in levels[i].orders {
        assert i == 0 || w in levels[1..][i - 1].orders;
      }
    }
  }

  lemma FlatSplit(levels: seq<Level>, k: nat)
    requires k <= |levels|
    ensures Flat(levels) == Flat(levels[..k]) + Flat(levels[k..])
  {
    assert levels == levels[..k] + levels[k..];
    FlatConcat(levels[..k], levels[k..]);
  }

  lemma FlatOne(l: Level)
    ensures Flat([l]) == l.orders
  {
    assert [l][1..] == [];
    assert l.orders + [] == l.orders;
  }

  /** One level of the side replaced, or dropped when nothing is left in it. */
  ghost function Replace(levels: seq<Level>, k: nat, orders: seq<WorkOrder>): seq<Level>
    requires k < |levels|
  {
    if orders == [] then levels[..k] + levels[k + 1..] else levels[k := Level(levels[k].rate, orders)]
  }

  lemma FlatAround(a: seq<Level>, l: Level, b: seq<Level>)
    ensures Flat(a + [l] + b) == Flat(a) + l.orders + Flat(b)
  {
    FlatConcat(a + [l], b);
    FlatConcat(a, [l]);
    FlatOne(l);
  }

  lemma FlatAt(levels: seq<Level>, k: nat)
    requires k < |levels|
    ensures Flat(levels) == Flat(levels[..k]) + levels[k].orders + Flat(levels[k + 1..])
  {
    FlatSplit(levels, k);
    assert levels[k..][1..] == levels[k + 1..];
    assert Flat(levels[k..]) == levels[k].orders + Flat(levels[k + 1..]);
  }

  lemma FlatReplace(levels: seq<Level>, k: nat, orders: seq<WorkOrder>)
    requires k < |levels|
    ensures Flat(Replace(levels, k, orders)) == Flat(levels[..k]) + orders + Flat(levels[k + 1..])
  {
    if orders == [] {
      FlatConcat(levels[..k], levels[k + 1..]);
      assert Flat(levels[..k]) + orders == Flat(levels[..k]);
    } else {
      FlatAround(levels[..k], Level(levels[k].rate, orders), levels[k + 1..]);
      assert Replace(levels, k, orders) == levels[..k] + [Level(levels[k].rate, orders)] + levels[k + 1..];
    }
  }

  lemma LeveledReplace(side: Side, levels: seq<Level>, k: nat, orders: seq<WorkOrder>)
    requires Leveled(side, levels) && k < |levels|
    requires forall w | w in orders :: StandsAt(w, side, levels[k].rate)
    ensures Leveled(side, Replace(levels, k, orders))
  {
  }

  /** The place of a rate among the levels: all before it are strictly better. */
  ghost predicate PlaceFor(side: Side, levels: seq<Level>, rate: real, k: nat) {
    && k <= |levels|
    && (forall i | 0 <= i < k :: FM.Better(side, levels[i].rate, rate))
    && (k < |levels| ==> !FM.Better(side, levels[k].rate, rate))
  }

  /** The levels with an order added at its place: in the level of its rate, or in a new one. */
  ghost function Added(levels: seq<Level>, k: nat, rate: real, w: WorkOrder): seq<Level>
    requires k <= |levels|
  {
    if k < |levels| && levels[k].rate == rate then levels[k := Level(rate, levels[k].orders + [w])]
    else levels[..k] + [Level(rate, [w])] + levels[k..]
  }

  lemma LeveledAdded(side: Side, levels: seq<Level>, k: nat, rate: real, w: WorkOrder)
    requires Leveled(side, levels) && PlaceFor(side, levels, rate, k) && StandsAt(w, side, rate)
    ensures Leveled(side, Added(levels, k, rate, w))
  {
    var levels' := Added(levels, k, rate, w);
    var merged := k < |levels| && levels[k].rate == rate;
    hide StandsAt;
    forall i, j | 0 <= i < j < |levels'|
      ensures FM.Better(side, levels'[i].rate, levels'[j].rate)
    {
      if merged || j < k {
        assert FM.Better(side, levels[i].rate, levels[j].rate);
      } else if i < k {
        assert j == k || FM.Better(side, levels[i].rate, levels[j - 1].rate);
      } else if i == k {
        assert j == k + 1 || FM.Better(side, levels[k].rate, levels[j - 1].rate);
      } else {
        assert FM.Better(side, levels[i - 1].rate, levels[j - 1].rate);
      }
    }
  }

  /** Where the new order ends up in the list of the side. */
  lemma FlatAdded(levels: seq<Level>, k: nat, rate: real, w: WorkOrder) returns (n: nat)
    requires k <= |levels|
    ensures n == |Flat(levels[..if k < |levels| && levels[k].rate == rate then k + 1 else k])|
    ensures n <= |Flat(levels)|
    ensures Flat(Added(levels, k, rate, w)) == Flat(levels)[..n] + [w] + Flat(levels)[n..]
  {
    hide Flat;
    if k < |levels| && levels[k].rate == rate {
      FlatJoined(levels, k, w);
      n := |Flat(levels[..k + 1])|;
    } else {
      FlatSplit(levels, k);
      FlatAround(levels[..k], Level(rate, [w]), levels[k..]);
      n := |Flat(levels[..k])|;
      Between(Flat(levels[..k]), w, Flat(levels[k..]));
    }
  }

  lemma Between(a: seq<WorkOrder>, w: WorkOrder, c: seq<WorkOrder>)
    ensures (a + c)[..|a|] + [w] + (a + c)[|a|..] == a + [w] + c
  {
  }

  lemma FlatJoined(levels: seq<Level>, k: nat, w: WorkOrder)
    requires k < |levels|
    ensures var n := |Flat(levels[..k + 1])|;
            && n <= |Flat(levels)|
            && Flat(levels[k := Level(levels[k].rate, levels[k].orders + [w])])
               == Flat(levels)[..n] + [w] + Flat(levels)[n..]
  {
    hide Flat;
    var l := Level(levels[k].rate, levels[k].orders + [w]);
    FlatAround(levels[..k], l, levels[k + 1..]);
    assert levels[k := l] == levels[..k] + [l] + levels[k + 1..];
    FlatAround(levels[..k], levels[k], []);
    FlatNone();
    assert levels[..k + 1] == levels[..k] + [levels[k]] + [];
    FlatSplit(levels, k + 1);
    var a, c := Flat(levels[..k + 1]), Flat(levels[k + 1..]);
    assert a == Flat(levels[..k]) + levels[k].orders;
    assert Flat(levels[..k]) + l.orders + c == a + [w] + c;
    Between(a, w, c);
  }

  lemma FlatNone()
    ensures Flat([]) == []
  {
  }

  /** Every order before that place is at least as good, every order after it strictly worse. */
  lemma AddedPlace(side: Side, levels: seq<Level>, k: nat, rate: real, n: nat)
    requires Leveled(side, levels) && PlaceFor(side, levels, rate, k)
    requires n == |Flat(levels[..if k < |levels| && levels[k].rate == rate then k + 1 else k])|
    ensures n <= |Flat(levels)|
    ensures forall i | 0 <= i < n :: Flat(levels)[i].cap.Some? && !FM.Better(side, rate, Flat(levels)[i].cap.value)
    ensures forall i | n <= i < |Flat(levels)| ::
              Flat(levels)[i].cap.Some? && FM.Better(side, rate, Flat(levels)[i].cap.value)
  {
    var c := if k < |levels| && levels[k].rate == rate then k + 1 else k;
    FlatSplit(levels, c);
    forall i | 0 <= i < n
      ensures Flat(levels)[i].cap.Some? && !FM.Better(side, rate, Flat(levels)[i].cap.value)
    {
      FlatMember(levels[..c], Flat(levels)[i]);
      assert Flat(levels)[i] in Flat(levels[..c]);
    }
    forall i | n <= i < |Flat(levels)|
      ensures Flat(levels)[i].cap.Some? && FM.Better(side, rate, Flat(levels)[i].cap.value)
    {
      FlatMember(levels[c..], Flat(levels)[i]);
      assert Flat(levels)[i] == Flat(levels[c..])[i - n];
      var j :| 0 <= j < |levels[c..]| && Flat(levels)[i] in levels[c..][j].orders;
      assert StandsAt(Flat(levels)[i], side, levels[c + j].rate);
    }
  }

  /** A single rate level: a queue of orders at one rate. */
  class RateLevel {
    const rate: real
    var orders: seq<WorkOrder>

    constructor (rate: real)
      ensures this.rate == rate && orders == []
    {
      this.rate := rate;
      orders := [];
    }

    method Add(w: WorkOrder)
      modifies this
      ensures orders == old(orders) + [w]
    {
      orders := orders + [w];
    }

    method RemoveFront() returns (w: WorkOrder?)
      modifies this
      ensures old(orders) == [] ==> w == null && orders == []
      ensures old(orders) != [] ==> w == old(orders)[0] && orders == old(orders)[1..]
    {
      if orders == [] {
        return null;
      }
      w := orders[0];
      orders := orders[1..];
    }

    method PeekFront() returns (w: WorkOrder?)
      ensures w == if orders == [] then null else orders[0]
    {
      w := if orders == [] then null else orders[0];
    }

    /** Finds the first order of that id, then removes the first order that compares equal to it. What compares
        equal has its id, so that is the order found. */
    method RemoveWorkOrder(id: string) returns (w: WorkOrder?)
      modifies this
      ensures (forall v | v in old(orders) :: v.id != id) ==> w == null && orders == old(orders)
      ensures (exists v :: v in old(orders) && v.id == id) ==>
                exists k :: 0 <= k < |old(orders)| && w == old(orders)[k] && w.id == id
                            && (forall j | 0 <= j < k :: old(orders)[j].id != id)
                            && orders == old(orders)[..k] + old(orders)[k + 1..]
    {
      var i := 0;
      while i < |orders|
        invariant i <= |orders| && orders == old(orders)
        invariant forall j | 0 <= j < i :: orders[j].id != id
      {
        if orders[i].id == id {
          w := orders[i];
          var k := 0;
          while orders[k].View() != w.View()
            invariant k <= i && orders == old(orders)
            decreases i - k
          {
            k := k + 1;
          }
          assert orders[k].View().id == id;
          orders := orders[..k] + orders[k + 1..];
          return;
        }
        i := i + 1;
      }
      w := null;
    }

    /** Read live from the orders, so it stays right while they are assigned in place. */
    method TotalHours() returns (hours: real)
      ensures hours == FM.HoursIn(Views(orders))
    {
      hours := 0.0;
      for i := 0 to |orders|
        invariant hours == FM.HoursIn(Views(orders)[..i])
      {
        FM.HoursInAppend(Views(orders), i);
        hours := hours + (orders[i].requestedHours - orders[i].assignedHours);
      }
      assert Views(orders)[..|orders|] == Views(orders);
    }
  }

  /** Distinct ids stay distinct when an order with a new id joins. */
  lemma DistinctInsert(ws: seq<WorkOrder>, n: nat, w: WorkOrder)
    requires DistinctIds(ws) && n <= |ws| && forall v | v in ws :: v.id != w.id
    ensures DistinctIds(ws[..n] + [w] + ws[n..])
  {
    var ws' := ws[..n] + [w] + ws[n..];
    forall i, j | 0 <= i < j < |ws'|
      ensures ws'[i].id != ws'[j].id
    {
      assert i == n || ws'[i] == ws[if i < n then i else i - 1];
      assert j == n || ws'[j] == ws[if j < n then j else j - 1];
    }
  }

  lemma DistinctRemove(ws: seq<WorkOrder>, n: nat)
    requires DistinctIds(ws) && n < |ws|
    ensures DistinctIds(ws[..n] + ws[n + 1..])
    ensures forall v | v in ws[..n] + ws[n + 1..] :: v.id != ws[n].id
  {
    var ws' := ws[..n] + ws[n + 1..];
    forall i | 0 <= i < |ws'|
      ensures ws'[i].id != ws[n].id
    {
      assert ws'[i] == ws[if i < n then i else i + 1];
    }
    forall i, j | 0 <= i < j < |ws'|
      ensures ws'[i].id != ws'[j].id
    {
      assert ws'[i] == ws[if i < n then i else i + 1] && ws'[j] == ws[if j < n then j else j + 1];
    }
  }

  /** The orders of a side, when the two sides are given. */
  ghost function Pick(side: Side, requests: seq<WorkOrder>, offers: seq<WorkOrder>): seq<WorkOrder> {
    if side == Request then requests else offers
  }

  lemma IndexedInsert(index: map<string, (Side, real)>, r: seq<WorkOrder>, o: seq<WorkOrder>, r': seq<WorkOrder>,
                      o': seq<WorkOrder>, side: Side, n: nat, w: WorkOrder)
    requires Indexed(index, r, o) && w.id !in index && w.cap.Some? && n <= |Pick(side, r, o)|
    requires Pick(side, r', o') == Pick(side, r, o)[..n] + [w] + Pick(side, r, o)[n..]
    requires Pick(side.Opposite(), r', o') == Pick(side.Opposite(), r, o)
    ensures Indexed(index[w.id := (side, w.cap.value)], r', o')
  {
    var ws, ws' := Pick(side, r, o), Pick(side, r', o');
    assert forall v :: v in ws' <==> v in ws || v == w by {
      assert ws == ws[..n] + ws[n..];
    }
  }

  lemma IndexedRemove(index: map<string, (Side, real)>, r: seq<WorkOrder>, o: seq<WorkOrder>, r': seq<WorkOrder>,
                      o': seq<WorkOrder>, side: Side, n: nat)
    requires Indexed(index, r, o) && DistinctIds(Pick(side, r, o)) && n < |Pick(side, r, o)|
    requires Pick(side, r', o') == Pick(side, r, o)[..n] + Pick(side, r, o)[n + 1..]
    requires Pick(side.Opposite(), r', o') == Pick(side.Opposite(), r, o)
    ensures Indexed(index - {Pick(side, r, o)[n].id}, r', o')
  {
    var ws, ws' := Pick(side, r, o), Pick(side, r', o');
    DistinctRemove(ws, n);
    hide DistinctIds;
    assert forall v :: v in ws <==> v in ws' || v == ws[n] by {
      assert ws == ws[..n] + [ws[n]] + ws[n + 1..];
    }
    IndexedWithout(index, ws, ws', side, ws[n]);
    IndexedApart(index, r, o, side, ws[n].id);
  }

  /** The index of one side, when one of its orders goes. */
  lemma IndexedWithout(index: map<string, (Side, real)>, ws: seq<WorkOrder>, ws': seq<WorkOrder>, side: Side,
                       w: WorkOrder)
    requires IndexedSide(index, ws, side) && (forall v :: v in ws <==> v in ws' || v == w) && forall v | v in ws' ::
               v.id != w.id
    ensures IndexedSide(index - {w.id}, ws', side)
  {
  }

  /** The index of the other side does not notice. */
  lemma IndexedApart(index: map<string, (Side, real)>, r: seq<WorkOrder>, o: seq<WorkOrder>, side: Side, id: string)
    requires Indexed(index, r, o) && exists w :: w in Pick(side, r, o) && w.id == id
    ensures IndexedSide(index - {id}, Pick(side.Opposite(), r, o), side.Opposite())
  {
    var w :| w in Pick(side, r, o) && w.id == id;
    assert id in index && index[id].0 == side;
  }

  /** The orders of a side at one rate are those of the level at its place. */
  lemma LevelOfRate(side: Side, levels: seq<Level>, rate: real, k: nat)
    requires Leveled(side, levels) && PlaceFor(side, levels, rate, k)
    ensures forall w | w in Flat(levels) && w.cap == Some(rate) ::
              k < |levels| && levels[k].rate == rate && w in levels[k].orders
    ensures k < |levels| && levels[k].rate == rate ==>
      forall w | w in levels[k].orders :: w in Flat(levels) && w.cap == Some(rate)
  {
    forall w | w in Flat(levels) && w.cap == Some(rate)
      ensures k < |levels| && levels[k].rate == rate && w in levels[k].orders
    {
      FlatMember(levels, w);
      var i :| 0 <= i < |levels| && w in levels[i].orders;
      assert StandsAt(w, side, levels[i].rate);
      assert i >= k;
    }
    if k < |levels| && levels[k].rate == rate {
      forall w | w in levels[k].orders
        ensures w in Flat(levels) && w.cap == Some(rate)
      {
        FlatMember(levels, w);
        assert StandsAt(w, side, levels[k].rate);
      }
    }
  }

  lemma MiddleDistinct(a: seq<WorkOrder>, b: seq<WorkOrder>, c: seq<WorkOrder>)
    requires DistinctIds(a + b + c)
    ensures DistinctIds(b)
  {
    forall i, j | 0 <= i < j < |b|
      ensures b[i].id != b[j].id
    {
      assert (a + b + c)[|a| + i] == b[i] && (a + b + c)[|a| + j] == b[j];
    }
  }

  lemma RemoveMiddle(a: seq<WorkOrder>, b: seq<WorkOrder>, c: seq<WorkOrder>, j: nat)
    requires j < |b|
    ensures (a + b + c)[|a| + j] == b[j]
    ensures (a + b + c)[..|a| + j] + (a + b + c)[|a| + j + 1..] == a + (b[..j] + b[j + 1..]) + c
  {
    var s := a + b + c;
    assert s[..|a| + j] == a + b[..j];
    assert s[|a| + j + 1..] == b[j + 1..] + c;
  }

  /** Taking the `j`-th order out of the `k`-th level takes one order out of the list of the side. */
  lemma RemovedOne(side: Side, levels: seq<Level>, k: nat, j: nat) returns (n: nat)
    requires Leveled(side, levels) && DistinctIds(Flat(levels)) && k < |levels| && j < |levels[k].orders|
    ensures n < |Flat(levels)| && Flat(levels)[n] == levels[k].orders[j] && (k == 0 ==> n == j)
    ensures var levels' := Replace(levels, k, levels[k].orders[..j] + levels[k].orders[j + 1..]);
            && Leveled(side, levels') && DistinctIds(Flat(levels'))
            && Flat(levels') == Flat(levels)[..n] + Flat(levels)[n + 1..]
  {
    var orders := levels[k].orders;
    var before, after := Flat(levels[..k]), Flat(levels[k + 1..]);
    var orders' := orders[..j] + orders[j + 1..];
    n := |before| + j;
    LeveledReplace(side, levels, k, orders');
    hide Leveled, Replace, DistinctIds;
    FlatAt(levels, k);
    FlatReplace(levels, k, orders');
    RemoveMiddle(before, orders, after, j);
    DistinctRemove(Flat(levels), n);
  }

  lemma RemovedFirst(side: Side, levels: seq<Level>)
    requires Leveled(side, levels) && DistinctIds(Flat(levels)) && levels != []
    ensures Flat(levels) != [] && levels[0].orders != [] && Flat(levels)[0] == levels[0].orders[0]
    ensures var levels' := Replace(levels, 0, levels[0].orders[1..]);
            Leveled(side, levels') && DistinctIds(Flat(levels')) && Flat(levels') == Flat(levels)[1..]
  {
    assert levels[0].orders != [];
    hide Leveled, DistinctIds, Flat, Replace;
    var n := RemovedOne(side, levels, 0, 0);
    assert levels[0].orders[..0] + levels[0].orders[1..] == levels[0].orders[1..];
    assert Flat(levels)[..0] + Flat(levels)[1..] == Flat(levels)[1..];
  }

  lemma LevelDistinct(levels: seq<Level>, k: nat)
    requires DistinctIds(Flat(levels)) && k < |levels|
    ensures DistinctIds(levels[k].orders)
  {
    FlatAt(levels, k);
    MiddleDistinct(Flat(levels[..k]), levels[k].orders, Flat(levels[k + 1..]));
  }

  /** One side's sorted map from rates to levels. */
  class SortedLevels {
    const side: Side
    var levels: seq<RateLevel>
    ghost var values: seq<Level>
    ghost var objects: set<object>

    /** The level objects, all different, have the values recorded for them. */
    ghost predicate Holds()
      reads this, objects
    {
      && this in objects
      && |levels| == |values|
      && (forall i | 0 <= i < |levels| ::
            levels[i] in objects && levels[i].rate == values[i].rate && levels[i].orders == values[i].orders)
      && (forall i, j | 0 <= i < j < |levels| :: levels[i] != levels[j])
    }

    ghost predicate Valid()
      reads this, objects
    {
      Holds() && Leveled(side, values) && DistinctIds(Orders())
    }

    /** The resting orders of the side, best first. */
    ghost function Orders(): seq<WorkOrder>
      reads this
    {
      Flat(values)
    }

    constructor (side: Side)
      ensures Valid() && fresh(objects) && this.side == side && Orders() == []
    {
      this.side := side;
      levels, values, objects := [], [], {this};
    }

    /** The position of a rate among the sorted levels. */
    method Locate(rate: real) returns (k: nat)
      requires Valid()
      ensures PlaceFor(side, values, rate, k)
    {
      k := 0;
      while k < |levels| && FM.Better(side, levels[k].rate, rate)
        invariant k <= |levels|
        invariant forall i | 0 <= i < k :: FM.Better(side, values[i].rate, rate)
      {
        k := k + 1;
      }
    }

    method PeekFirst() returns (w: WorkOrder?)
      requires Valid()
      ensures w == if Orders() == [] then null else Orders()[0]
    {
      if levels == [] {
        return null;
      }
      assert values[0].orders != [];
      w := levels[0].PeekFront();
    }

    /** Opens an empty level at position `k`. */
    method OpenLevel(rate: real, k: nat)
      requires Holds() && k <= |levels|
      modifies this
      ensures Holds() && fresh(objects - old(objects)) && |levels| == |old(levels)| + 1
      ensures values == old(values)[..k] + [Level(rate, [])] + old(values)[k..]
    {
      var level := new RateLevel(rate);
      objects := objects + {level};
      values := values[..k] + [Level(rate, [])] + values[k..];
      levels := levels[..k] + [level] + levels[k..];
    }

    /** Puts the order into the level at position `k`, opening the level first if need be. */
    method Join(w: WorkOrder, rate: real, k: nat)
      requires Holds() && k <= |levels|
      modifies objects
      ensures Holds() && fresh(objects - old(objects))
      ensures values == Added(old(values), k, rate, w)
    {
      if k == |levels| || levels[k].rate != rate {
        OpenLevel(rate, k);
      }
      levels[k].Add(w);
      values := values[k := Level(rate, values[k].orders + [w])];
      assert [] + [w] == [w];
      assert values == Added(old(values), k, rate, w);
    }

    /** Puts the order at its place in the side. */
    method Add(w: WorkOrder) returns (ghost n: nat)
      requires Valid() && w.side == side && w.cap.Some? && forall v | v in Orders() :: v.id != w.id
      modifies objects
      ensures Valid() && fresh(objects - old(objects))
      ensures n <= |old(Orders())| && Orders() == old(Orders())[..n] + [w] + old(Orders())[n..]
      ensures forall i | 0 <= i < |old(Orders())| ::
                old(Orders())[i].cap.Some? && (i < n <==> !FM.Better(side, w.cap.value, old(Orders())[i].cap.value))
    {
      var rate := w.cap.value;
      var k := Locate(rate);
      n := FlatAdded(values, k, rate, w);
      AddedPlace(side, values, k, rate, n);
      LeveledAdded(side, values, k, rate, w);
      DistinctInsert(Orders(), n, w);
      hide Leveled, Flat, Holds, DistinctIds;
      Join(w, rate, k);
    }

    /** Takes the level at `k` to its new orders, and drops it when none are left. */
    method Settle(k: nat, ghost orders: seq<WorkOrder>)
      requires this in objects && k < |levels| == |values|
      requires forall i | 0 <= i < |levels| ::
        levels[i] in objects && levels[i].rate == values[i].rate && levels[i].orders == if i == k then orders
            else values[i].orders
      requires forall i, j | 0 <= i < j < |levels| :: levels[i] != levels[j]
      modifies this
      ensures Holds() && objects == old(objects) && values == Replace(old(values), k, orders)
    {
      values := Replace(values, k, orders);
      if levels[k].orders == [] {
        levels := levels[..k] + levels[k + 1..];
      }
    }

    /** Removes and returns the first order of the side. */
    method PopFirst() returns (w: WorkOrder?)
      requires Valid()
      modifies objects
      ensures Valid() && objects == old(objects)
      ensures old(Orders()) == [] ==> w == null && Orders() == []
      ensures old(Orders()) != [] ==> w == old(Orders())[0] && Orders() == old(Orders())[1..]
    {
      if levels == [] {
        return null;
      }
      hide Leveled, DistinctIds, Flat, Replace;
      RemovedFirst(side, values);
      w := levels[0].RemoveFront();
      Settle(0, values[0].orders[1..]);
    }

    /** Removes and returns the order with the given id from the level of `rate`, if it is there. */
    method Remove(id: string, rate: real) returns (w: WorkOrder?, ghost n: nat)
      requires Valid()
      modifies objects
      ensures Valid() && objects == old(objects)
      ensures w == null <==> !exists v :: v in old(Orders()) && v.id == id && v.cap == Some(rate)
      ensures w == null ==> Orders() == old(Orders())
      ensures w != null ==>
                && n < |old(Orders())| && w == old(Orders())[n] && w.id == id
                && Orders() == old(Orders())[..n] + old(Orders())[n + 1..]
    {
      hide Flat, StandsAt, DistinctIds, Leveled, Replace;
      n := 0;
      var k := Locate(rate);
      LevelOfRate(side, values, rate, k);
      if k == |levels| || levels[k].rate != rate {
        return null, 0;
      }
      LevelDistinct(values, k);
      w := levels[k].RemoveWorkOrder(id);
      if w != null {
        ghost var orders := values[k].orders;
        ghost var j :| 0 <= j < |orders| && w == orders[j] && w.id == id
            && levels[k].orders == orders[..j] + orders[j + 1..];
        n := RemovedOne(side, values, k, j);
        Settle(k, orders[..j] + orders[j + 1..]);
      }
    }
  }

  lemma ValidDistinct(levels: SortedLevels)
    requires levels.Valid()
    ensures DistinctIds(levels.Orders())
  {
  }

  /** What the index says of an id is true. */
  lemma IndexedFinds(index: map<string, (Side, real)>, r: seq<WorkOrder>, o: seq<WorkOrder>, id: string)
    requires Indexed(index, r, o)
    ensures id in index ==> exists v :: v in Pick(index[id].0, r, o) && v.id == id && v.cap == Some(index[id].1)
    ensures id !in index ==> forall side: Side, v | v in Pick(side, r, o) :: v.id != id
  {
  }

  /** The queue of one asset. */
  class DispatchQueue {
    const asset: string
    const requests: SortedLevels
    const offers: SortedLevels
    var index: map<string, (Side, real)>

    function SideQueue(side: Side): SortedLevels {
      if side == Request then requests else offers
    }

    ghost function Objects(): set<object>
      reads this, requests, offers
    {
      {this as object} + requests.objects + offers.objects
    }

    /** The resting orders of a side, best first. */
    ghost function Orders(side: Side): seq<WorkOrder>
      reads requests, offers
    {
      SideQueue(side).Orders()
    }

    ghost predicate Valid()
      reads this, requests, offers, requests.objects, offers.objects
    {
      && requests.Valid() && offers.Valid()
      && requests.side == Request && offers.side == Offer
      && requests in requests.objects && offers in offers.objects
      && requests.objects !! offers.objects && this !in requests.objects && this !in offers.objects
      && Indexed(index, requests.Orders(), offers.Orders())
    }

    constructor (asset: string)
      ensures Valid() && fresh(Objects()) && this.asset == asset
      ensures Orders(Request) == [] && Orders(Offer) == []
    {
      this.asset := asset;
      requests := new SortedLevels(Request);
      offers := new SortedLevels(Offer);
      index := map[];
    }

    method PeekBest(side: Side) returns (w: WorkOrder?)
      requires Valid()
      ensures w == if Orders(side) == [] then null else Orders(side)[0]
    {
      w := SideQueue(side).PeekFirst();
    }

    /** Rests an order behind everything at a better or the same rate; an order without a rate is refused. */
    method AddWorkOrder(w: WorkOrder) returns (ok: bool, ghost n: nat)
      requires Valid() && w.id !in index
      modifies Objects()
      ensures Valid() && fresh(Objects() - old(Objects()))
      ensures ok <==> w.cap.Some?
      ensures !ok ==> Orders(Request) == old(Orders(Request)) && Orders(Offer) == old(Orders(Offer))
      ensures ok ==>
                n <= |old(Orders(w.side))|
                && Orders(w.side) == old(Orders(w.side))[..n] + [w] + old(Orders(w.side))[n..]
      ensures ok ==> Orders(w.side.Opposite()) == old(Orders(w.side.Opposite()))
      ensures ok ==> forall i | 0 <= i < |old(Orders(w.side))| ::
                old(Orders(w.side))[i].cap.Some?
                && (i < n <==> !FM.Better(w.side, w.cap.value, old(Orders(w.side))[i].cap.value))
    {
      if w.cap.None? {
        return false, 0;
      }
      ok := true;
      n := SideQueue(w.side).Add(w);
      IndexedInsert(index, old(Orders(Request)), old(Orders(Offer)), Orders(Request), Orders(Offer), w.side, n, w);
      index := index[w.id := (w.side, w.cap.value)];
    }

    /** Removes and returns the best order of a side. */
    method PopBest(side: Side) returns (w: WorkOrder?)
      requires Valid()
      modifies Objects()
      ensures Valid() && Objects() == old(Objects())
      ensures old(Orders(side)) == [] ==> w == null && Orders(side) == []
      ensures old(Orders(side)) != [] ==> w == old(Orders(side))[0] && Orders(side) == old(Orders(side))[1..]
      ensures Orders(side.Opposite()) == old(Orders(side.Opposite()))
    {
      hide SortedLevels.Valid, SortedLevels.Orders, Indexed, DistinctIds;
      ghost var before := Orders(side);
      ValidDistinct(SideQueue(side));
      w := SideQueue(side).PopFirst();
      if w != null {
        assert before[..0] + before[1..] == before[1..];
        IndexedRemove(index, old(Orders(Request)), old(Orders(Offer)), Orders(Request), Orders(Offer), side, 0);
        index := index - {w.id};
      }
    }

    /** Removes and returns the order with the given id, if it rests here. */
    method CancelWorkOrder(id: string) returns (w: WorkOrder?, ghost side: Side, ghost n: nat)
      requires Valid()
      modifies Objects()
      ensures Valid() && Objects() == old(Objects())
      ensures w == null ==> forall s: Side, v | v in old(Orders(s)) :: v.id != id
      ensures w == null ==> Orders(Request) == old(Orders(Request)) && Orders(Offer) == old(Orders(Offer))
      ensures w != null ==>
                && n < |old(Orders(side))| && w == old(Orders(side))[n] && w.id == id
                && Orders(side) == old(Orders(side))[..n] + old(Orders(side))[n + 1..]
                && Orders(side.Opposite()) == old(Orders(side.Opposite()))
    {
      hide SortedLevels.Valid, SortedLevels.Orders, Indexed, DistinctIds;
      IndexedFinds(index, Orders(Request), Orders(Offer), id);
      assert forall s: Side :: Orders(s) == Pick(s, Orders(Request), Orders(Offer));
      if id !in index {
        return null, Request, 0;
      }
      var (s, rate) := index[id];
      side := s;
      ValidDistinct(SideQueue(s));
      w, n := SideQueue(s).Remove(id, rate);
      IndexedRemove(index, old(Orders(Request)), old(Orders(Offer)), Orders(Request), Orders(Offer), s, n);
      index := index - {id};
    }

    /** The first levels of a side, at least one if there is any. */
    method FirstLevels(side: Side, depth: nat) returns (levels: seq<RateLevel>)
      requires Valid()
      ensures |levels| <= |SideQueue(side).levels| && levels == SideQueue(side).levels[..|levels|]
      ensures |levels| == |SideQueue(side).levels| || |levels| == depth || (depth == 0 && |levels| == 1)
      ensures depth > 0 ==> |levels| <= depth
    {
      var all := SideQueue(side).levels;
      levels := [];
      for i := 0 to |all|
        invariant levels == all[..i] && (i == 0 || i < depth)
      {
        levels := levels + [all[i]];
        if |levels| >= depth {
          return;
        }
      }
    }
  }
}
