/** The queue objects and the queue values agree: insertion, removal and level counts. */
module QueueModel {
  import opened Orders
  import opened FlatMatch
  import opened Dispatch
  import opened Queues
  import QI = QueueInvariant
  import FK = FillOrKill

  /** The values of a slice are the slice of the values. */
  lemma ViewsJoin(a: seq<WorkOrder>, b: seq<WorkOrder>)
    ensures Views(a + b) == Views(a) + Views(b)
  {
    hide Views, WorkOrder.View;
  }

  lemma ViewsSlice(ws: seq<WorkOrder>, i: nat, j: nat)
    requires i <= j <= |ws|
    ensures Views(ws[i..j]) == Views(ws)[i..j]
  {
    hide Views, WorkOrder.View;
  }

  /** The place of an insertion is unique. */
  lemma {:induction false} InsertAt(side: Side, list: seq<Order>, o: Order, n: nat)
    requires n <= |list|
    requires forall i | 0 <= i < |list| :: i < n <==> !Better(side, RateOf(o), RateOf(list[i]))
    ensures Insert(side, list, o) == list[..n] + [o] + list[n..]
  {
    var k := QI.InsertPlace(side, list, o);
    assert k < |list| ==> (k < n <==> !Better(side, RateOf(o), RateOf(list[k])));
    assert n < |list| ==> Better(side, RateOf(o), RateOf(list[n]));
  }

  lemma WithoutAt(list: seq<Order>, id: string, n: nat)
    requires n < |list| && list[n].id == id
    requires forall i, j | 0 <= i < j < |list| :: list[i].id != list[j].id
    ensures Without(list, id) == list[..n] + list[n + 1..]
  {
    var k := QI.WithoutPlace(list, id);
    assert list[k].id == list[n].id;
  }

  lemma InsertViews(side: Side, ws: seq<WorkOrder>, w: WorkOrder, n: nat)
    requires n <= |ws| && w.cap.Some?
    requires forall i | 0 <= i < |ws| :: ws[i].cap.Some? && (i < n <==> !Better(side, w.cap.value, ws[i].cap.value))
    ensures Views(ws[..n] + [w] + ws[n..]) == Insert(side, Views(ws), w.View())
  {
    hide Views;
    ViewsJoin(ws[..n] + [w], ws[n..]);
    ViewsJoin(ws[..n], [w]);
    ViewsSlice(ws, 0, n);
    ViewsSlice(ws, n, |ws|);
    InsertAt(side, Views(ws), w.View(), n);
  }

  lemma RemoveViews(ws: seq<WorkOrder>, n: nat)
    requires n < |ws| && DistinctIds(ws)
    ensures Views(ws[..n] + ws[n + 1..]) == Without(Views(ws), ws[n].id)
  {
    hide Views, Without;
    ViewsJoin(ws[..n], ws[n + 1..]);
    ViewsSlice(ws, 0, n);
    ViewsSlice(ws, n + 1, |ws|);
    WithoutAt(Views(ws), ws[n].id, n);
  }

  /** The first level of the values is the first level of the queue. */
  lemma FirstLevelIs(side: Side, levels: seq<Level>)
    requires Leveled(side, levels) && levels != [] && Resting(side, Views(Flat(levels)))
    ensures FirstLevel(side, Views(Flat(levels))) == |levels[0].orders|
  {
    hide Views, FirstLevel;
    var flat := Flat(levels);
    var n := |levels[0].orders|;
    assert flat == levels[0].orders + Flat(levels[1..]) && levels[0].orders != [];
    forall i | 0 <= i < n
      ensures RateOf(Views(flat)[i]) == levels[0].rate
    {
      assert flat[i] in levels[0].orders;
      assert StandsAt(flat[i], side, levels[0].rate);
    }
    if n < |flat| {
      var w := flat[n];
      assert w == Flat(levels[1..])[0];
      FlatMember(levels[1..], w);
      var j :| 0 <= j < |levels[1..]| && w in levels[1..][j].orders;
      assert StandsAt(w, side, levels[j + 1].rate) && Better(side, levels[0].rate, levels[j + 1].rate);
      assert RateOf(Views(flat)[n]) != levels[0].rate;
    }
  }

  /** What is left after the first level. */
  lemma AfterFirstLevel(side: Side, levels: seq<Level>)
    requires Leveled(side, levels) && levels != [] && Resting(side, Views(Flat(levels)))
    ensures FirstLevel(side, Views(Flat(levels))) == |levels[0].orders| > 0
    ensures Leveled(side, levels[1..]) && Resting(side, Views(Flat(levels[1..])))
    ensures |levels[0].orders| <= |Flat(levels)|
    ensures Views(Flat(levels))[|levels[0].orders|..] == Views(Flat(levels[1..]))
  {
    hide Views, WorkOrder.View, FirstLevel, Order.Restable;
    FirstLevelIs(side, levels);
    assert levels[0].orders != [];
    var flat := Flat(levels);
    assert flat[|levels[0].orders|..] == Flat(levels[1..]);
    ViewsSlice(flat, |levels[0].orders|, |flat|);
  }

  /** The orders in the first levels, counted on the values and on the queue. */
  lemma {:induction false} InLevelsIs(side: Side, levels: seq<Level>, depth: nat)
    requires Leveled(side, levels) && Resting(side, Views(Flat(levels)))
    ensures InLevels(side, Views(Flat(levels)), depth) == |Flat(levels[..if depth < |levels| then depth else |levels|])|
  {
    hide Views, FirstLevel, Leveled, Flat, Resting;
    var m := if depth < |levels| then depth else |levels|;
    if m == 0 {
      FlatEmpty();
      assert levels[..m] == [];
    } else {
      AfterFirstLevel(side, levels);
      FlatTake(levels, m);
      InLevelsIs(side, levels[1..], depth - 1);
    }
  }

  lemma FlatEmpty()
    ensures Flat([]) == []
  {
  }

  lemma FlatTake(levels: seq<Level>, m: nat)
    requires 0 < m <= |levels|
    ensures Flat(levels[..m]) == levels[0].orders + Flat(levels[1..][..m - 1])
  {
    assert levels[..m][1..] == levels[1..][..m - 1];
  }

  /** Every order in the first `i` levels stands at an accepted rate; the first one after them at that of level `i`. */
  lemma LevelRates(o: Order, side: Side, levels: seq<Level>, i: nat)
    requires Leveled(side, levels) && i <= |levels|
    requires forall j | 0 <= j < i :: o.Accepts(levels[j].rate)
    ensures |Flat(levels[..i])| <= |Flat(levels)| && Flat(levels)[..|Flat(levels[..i])|] == Flat(levels[..i])
    ensures forall w | w in Flat(levels[..i]) :: o.Accepts(RateOf(w.View()))
    ensures i == |levels| ==> |Flat(levels[..i])| == |Flat(levels)|
    ensures i < |levels| ==>
              |Flat(levels[..i])| < |Flat(levels)| && RateOf(Flat(levels)[|Flat(levels[..i])|].View()) == levels[i].rate
  {
    FlatSplit(levels, i);
    assert levels[..|levels|] == levels;
    forall w | w in Flat(levels[..i])
      ensures o.Accepts(RateOf(w.View()))
    {
      FlatMember(levels[..i], w);
      var j :| 0 <= j < |levels[..i]| && w in levels[..i][j].orders;
      assert w in levels[j].orders && StandsAt(w, side, levels[j].rate);
    }
    if i < |levels| {
      FlatAt(levels, i);
      assert levels[i].orders != [] && levels[i].orders[0] in levels[i].orders;
      assert Flat(levels)[|Flat(levels[..i])|] == levels[i].orders[0];
      assert StandsAt(levels[i].orders[0], side, levels[i].rate);
    }
  }

  /** What the complete-or-nothing check has counted when it has seen the first `i` of its `n` levels. */
  lemma SeenLevels(o: Order, levels: seq<Level>, n: nat, i: nat)
    requires Leveled(o.side.Opposite(), levels) && Resting(o.side.Opposite(), Views(Flat(levels)))
    requires i <= n <= |levels| && n == if LEVEL_DEPTH < |levels| then LEVEL_DEPTH else |levels|
    requires forall j | 0 <= j < i :: o.Accepts(levels[j].rate)
    ensures HoursIn(Views(Flat(levels[..i]))) <= AvailableHours(o, Views(Flat(levels)))
    ensures i == n || !o.Accepts(levels[i].rate) ==>
              HoursIn(Views(Flat(levels[..i]))) == AvailableHours(o, Views(Flat(levels)))
  {
    hide Views, Flat, Leveled, Order.Restable, Order.Accepts, InLevels, Crossable, HoursIn;
    var side := o.side.Opposite();
    var flat, first := Flat(levels), levels[..n];
    InLevelsIs(side, levels, LEVEL_DEPTH);
    FirstLeveled(side, levels, n);
    LevelRates(o, side, first, i);
    assert first[..i] == levels[..i];
    var m := |Flat(levels[..i])|;
    FlatSplit(levels, n);
    var seen := Views(flat)[..|Flat(first)|];
    assert seen == Views(Flat(first)) by {
      ViewsSlice(flat, 0, |Flat(first)|);
      assert flat[0..|Flat(first)|] == Flat(first);
    }
    assert seen[..m] == Views(Flat(levels[..i])) by {
      ViewsSlice(Flat(first), 0, m);
    }
    forall j | 0 <= j < m
      ensures o.Accepts(RateOf(seen[j]))
    {
      assert Flat(levels[..i])[j] in Flat(levels[..i]) && seen[j] == Flat(levels[..i])[j].View();
    }
    if i < n {
      assert seen[m] == Flat(first)[m].View();
    }
    var k := Crossable(o, seen);
    assert m <= k;
    FK.HoursGrow(side, seen, m, k);
  }

  lemma FirstLeveled(side: Side, levels: seq<Level>, n: nat)
    requires Leveled(side, levels) && n <= |levels|
    ensures Leveled(side, levels[..n])
  {
  }
}
