/** The queues in every reachable state: priority order, no crossing rates, and agreement with the ledger. */
module QueueInvariant {
  import opened Orders
  import opened FlatMatch
  import opened Dispatch

  /** Rate-time priority: a better rate, or the same rate and an earlier submission. */
  ghost predicate Precedes(ledger: Ledger, side: Side, a: Order, b: Order) {
    && a.id in ledger && b.id in ledger
    && (Better(side, RateOf(a), RateOf(b)) || (RateOf(a) == RateOf(b) && ledger[a.id].at < ledger[b.id].at))
  }

  /** The order is the engine's own record of it. */
  ghost predicate Known(ledger: Ledger, asset: string, o: Order) {
    o.asset == asset && o.id in ledger && ledger[o.id].now == o
  }

  ghost predicate SideInv(ledger: Ledger, asset: string, side: Side, list: seq<Order>) {
    && Resting(side, list)
    && (forall i | 0 <= i < |list| :: Known(ledger, asset, list[i]))
    && (forall i, j | 0 <= i < j < |list| :: Precedes(ledger, side, list[i], list[j]))
  }

  /** Every request stands strictly below every offer. */
  ghost predicate Uncrossed(q: Queue) {
    forall i, j | 0 <= i < |q.requests| && 0 <= j < |q.offers| :: RateOf(q.requests[i]) < RateOf(q.offers[j])
  }

  ghost predicate QueueInv(ledger: Ledger, asset: string, q: Queue) {
    && SideInv(ledger, asset, Request, q.requests)
    && SideInv(ledger, asset, Offer, q.offers)
    && Uncrossed(q)
  }

  ghost predicate QueuesInv(ledger: Ledger, queues: map<string, Queue>) {
    forall a | a in queues :: QueueInv(ledger, a, queues[a])
  }

  lemma QueuesInvRest(s: State)
    requires QueuesInv(s.ledger, s.queues)
    ensures QueuesRest(s)
  {
    forall a | a in s.queues
      ensures SideRests(s.ledger, Request, s.queues[a].requests) && SideRests(s.ledger, Offer, s.queues[a].offers)
    {
      assert QueueInv(s.ledger, a, s.queues[a]);
    }
  }

  /** Orders of one side are different orders. */
  lemma SideDistinct(ledger: Ledger, asset: string, side: Side, list: seq<Order>)
    requires SideInv(ledger, asset, side, list)
    ensures forall i, j | 0 <= i < j < |list| :: list[i].id != list[j].id
    ensures Sorted(side, list)
  {
    forall i, j | 0 <= i < j < |list|
      ensures list[i].id != list[j].id
    {
      assert Precedes(ledger, side, list[i], list[j]);
    }
    forall i, j | 0 <= i < j < |list|
      ensures !Better(side, RateOf(list[j]), RateOf(list[i]))
    {
      assert Precedes(ledger, side, list[i], list[j]);
    }
  }

  /** A side depends on nothing but the records of its own orders. */
  lemma SideFrame(ledger: Ledger, ledger': Ledger, asset: string, side: Side, list: seq<Order>)
    requires SideInv(ledger, asset, side, list)
    requires forall i | 0 <= i < |list| :: list[i].id in ledger' && ledger'[list[i].id] == ledger[list[i].id]
    ensures SideInv(ledger', asset, side, list)
  {
    hide Order.Restable, Better;
    forall i, j | 0 <= i < j < |list|
      ensures Precedes(ledger', side, list[i], list[j])
    {
      assert Precedes(ledger, side, list[i], list[j]);
    }
  }

  /** A queue does not notice changes to orders that are not in it. */
  lemma QueueFrame(ledger: Ledger, ledger': Ledger, asset: string, q: Queue)
    requires QueueInv(ledger, asset, q)
    requires forall side: Side, i | 0 <= i < |q.Of(side)| ::
      q.Of(side)[i].id in ledger' && ledger'[q.Of(side)[i].id] == ledger[q.Of(side)[i].id]
    ensures QueueInv(ledger', asset, q)
  {
    assert q.Of(Request) == q.requests && q.Of(Offer) == q.offers;
    SideFrame(ledger, ledger', asset, Request, q.requests);
    SideFrame(ledger, ledger', asset, Offer, q.offers);
  }

  /** What `Touch` does to each record. */
  lemma {:induction false} TouchAt(ledger: Ledger, touched: seq<Order>)
    requires forall i | 0 <= i < |touched| :: touched[i].id in ledger
    requires forall i, j | 0 <= i < j < |touched| :: touched[i].id != touched[j].id
    ensures forall i | 0 <= i < |touched| ::
      Touch(ledger, touched)[touched[i].id] == ledger[touched[i].id].(now := touched[i])
    ensures forall id | id in ledger && (forall i | 0 <= i < |touched| :: touched[i].id != id) ::
      Touch(ledger, touched)[id] == ledger[id]
  {
    if touched != [] {
      TouchAt(ledger, touched[..|touched| - 1]);
    }
  }

  /** Taking a stretch out of a side, or a whole side away, keeps the rest in order. */
  lemma SideSlice(ledger: Ledger, asset: string, side: Side, list: seq<Order>, k: nat)
    requires SideInv(ledger, asset, side, list) && k <= |list|
    ensures SideInv(ledger, asset, side, list[k..])
  {
    hide Order.Restable;
    forall i, j | 0 <= i < j < |list[k..]|
      ensures Precedes(ledger, side, list[k..][i], list[k..][j])
    {
      assert Precedes(ledger, side, list[k + i], list[k + j]);
    }
  }

  /** The head of a side may be replaced by a newer record of the same order at the same rate. */
  lemma SideHead(ledger: Ledger, ledger': Ledger, asset: string, side: Side, list: seq<Order>, head: Order)
    requires SideInv(ledger, asset, side, list) && list != []
    requires head.id == list[0].id && head.cap == list[0].cap && head.side == side && head.asset == asset
             && head.Restable()
    requires head.id in ledger' && ledger'[head.id] == ledger[head.id].(now := head)
    requires forall i | 0 < i < |list| :: list[i].id in ledger' && ledger'[list[i].id] == ledger[list[i].id]
    ensures SideInv(ledger', asset, side, [head] + list[1..])
  {
    var list' := [head] + list[1..];
    hide Order.Restable, Better;
    forall i, j | 0 <= i < j < |list'|
      ensures Precedes(ledger', side, list'[i], list'[j])
    {
      assert Precedes(ledger, side, list[i], list[j]);
    }
  }

  /** Between two ledgers the touched orders got their new records, `id` may have changed, and nothing else did. */
  ghost predicate Moved(ledger: Ledger, ledger': Ledger, id: string, touched: seq<Order>) {
    && ledger'.Keys == ledger.Keys
    && (forall i | 0 <= i < |touched| ::
          touched[i].id in ledger && touched[i].id != id
              && ledger'[touched[i].id] == ledger[touched[i].id].(now := touched[i]))
    && (forall other | other in ledger && other != id && (forall i | 0 <= i < |touched| :: touched[i].id != other) ::
          ledger'[other] == ledger[other])
  }

  lemma SettleMoves(ledger: Ledger, touched: seq<Order>, incoming: Order)
    requires incoming.id in ledger
    requires forall i | 0 <= i < |touched| :: touched[i].id in ledger && touched[i].id != incoming.id
    requires forall i, j | 0 <= i < j < |touched| :: touched[i].id != touched[j].id
    ensures var l := Touch(ledger, touched);
            Moved(ledger, l[incoming.id := l[incoming.id].(now := incoming)], incoming.id, touched)
  {
    TouchAt(ledger, touched);
  }

  ghost predicate NotIn(q: Queue, id: string) {
    forall side: Side, i | 0 <= i < |q.Of(side)| :: q.Of(side)[i].id != id
  }

  ghost predicate NotQueued(queues: map<string, Queue>, id: string) {
    forall a | a in queues :: NotIn(queues[a], id)
  }

  /** The touched orders are distinct and stand on the opposite side of the same asset. */
  lemma TouchedOrders(ledger: Ledger, q: Queue, o: Order, m: MatchResult)
    requires o.Validated() && QueueInv(ledger, o.asset, q) && NotIn(q, o.id)
    requires ClosedForm(o, q.Of(o.side.Opposite()), m)
    ensures var rest := q.Of(o.side.Opposite());
            && (forall i | 0 <= i < |m.touched| ::
                  && m.touched[i].id == rest[i].id && Known(ledger, o.asset, rest[i])
                  && rest[i].side == o.side.Opposite() && m.touched[i].id != o.id)
            && (forall i, j | 0 <= i < j < |rest| :: rest[i].id != rest[j].id)
  {
    var side := o.side.Opposite();
    MatchTouched(o, q.Of(side), m);
    SideDistinct(ledger, o.asset, side, q.Of(side));
  }

  /** A resting order that was served in part is still at its place, and may stay there. */
  lemma ServedInPart(o: Order, rest: seq<Order>, m: MatchResult)
    requires o.Validated() && Resting(o.side.Opposite(), rest) && ClosedForm(o, rest, m)
             && Resting(o.side.Opposite(), m.rest)
    requires |m.fills| > 0 && !m.touched[|m.fills| - 1].FullyAssigned()
    ensures var k := |m.fills|; var head := m.touched[k - 1];
            && k <= |rest| && m.rest == [head] + rest[k..]
            && head.id == rest[k - 1].id && head.cap == rest[k - 1].cap && head.asset == rest[k - 1].asset
            && head.side == o.side.Opposite() && head.Restable()
  {
    hide AverageAfter;
    var k := |m.fills|;
    assert PositionFilled(o, rest, m, k - 1);
    assert m.rest[0] == m.touched[k - 1];
  }

  lemma ServedWhole(o: Order, rest: seq<Order>, m: MatchResult)
    requires o.Validated() && Resting(o.side.Opposite(), rest) && ClosedForm(o, rest, m)
    requires |m.fills| == 0 || m.touched[|m.fills| - 1].FullyAssigned()
    ensures |m.fills| <= |rest| && m.rest == rest[|m.fills|..]
  {
    hide PositionFilled;
  }

  lemma SideKnown(ledger: Ledger, asset: string, side: Side, list: seq<Order>)
    requires SideInv(ledger, asset, side, list)
    ensures forall i | 0 <= i < |list| :: Known(ledger, asset, list[i])
  {
  }

  lemma FillsTouched(o: Order, rest: seq<Order>, m: MatchResult)
    requires o.Validated() && Resting(o.side.Opposite(), rest) && ClosedForm(o, rest, m)
    ensures |m.touched| == |m.fills| <= |rest|
  {
    hide PositionFilled;
  }

  /** The opposite side after a match. */
  lemma MatchedSide(ledger: Ledger, ledger': Ledger, o: Order, rest: seq<Order>, m: MatchResult)
    requires o.Validated() && SideInv(ledger, o.asset, o.side.Opposite(), rest)
    requires ClosedForm(o, rest, m) && Resting(o.side.Opposite(), m.rest)
    requires Moved(ledger, ledger', o.id, m.touched)
    requires forall i | 0 <= i < |rest| :: rest[i].id != o.id
    ensures SideInv(ledger', o.asset, o.side.Opposite(), m.rest)
  {
    hide Order.Restable, Order.Validated, Precedes, ClosedForm, Better;
    var k := |m.fills|;
    var side := o.side.Opposite();
    MatchTouched(o, rest, m);
    SideDistinct(ledger, o.asset, side, rest);
    SideKnown(ledger, o.asset, side, rest);
    FillsTouched(o, rest, m);
    UntouchedSame(ledger, ledger', o, rest, m);
    if k > 0 && !m.touched[k - 1].FullyAssigned() {
      ServedInPart(o, rest, m);
      SideSlice(ledger, o.asset, side, rest, k - 1);
      hide Order.FullyAssigned, SideInv;
      SideHead(ledger, ledger', o.asset, side, rest[k - 1..], m.touched[k - 1]);
      assert rest[k - 1..][1..] == rest[k..];
    } else {
      ServedWhole(o, rest, m);
      SideSlice(ledger, o.asset, side, rest, k);
      hide Order.FullyAssigned, SideInv;
      SideFrame(ledger, ledger', o.asset, side, rest[k..]);
    }
  }

  lemma UntouchedSame(ledger: Ledger, ledger': Ledger, o: Order, rest: seq<Order>, m: MatchResult)
    requires Moved(ledger, ledger', o.id, m.touched) && |m.touched| <= |rest|
    requires forall i | 0 <= i < |rest| :: rest[i].id in ledger && rest[i].id != o.id
    requires forall i | 0 <= i < |m.touched| :: m.touched[i].id == rest[i].id
    requires forall i, j | 0 <= i < j < |rest| :: rest[i].id != rest[j].id
    ensures forall i | |m.touched| <= i < |rest| :: ledger'[rest[i].id] == ledger[rest[i].id]
  {
  }

  /** The side of the incoming order does not notice the match. */
  lemma OwnSide(ledger: Ledger, ledger': Ledger, o: Order, own: seq<Order>, touched: seq<Order>)
    requires SideInv(ledger, o.asset, o.side, own) && Moved(ledger, ledger', o.id, touched)
    requires forall i | 0 <= i < |own| :: own[i].id != o.id
    requires forall i | 0 <= i < |touched| :: ledger[touched[i].id].now.side == o.side.Opposite()
    ensures SideInv(ledger', o.asset, o.side, own)
  {
    forall i | 0 <= i < |own|
      ensures own[i].id in ledger' && ledger'[own[i].id] == ledger[own[i].id]
    {
      assert Known(ledger, o.asset, own[i]);
    }
    SideFrame(ledger, ledger', o.asset, o.side, own);
  }

  /** Shortening one side, with the rates that remain, cannot make the rates cross. */
  lemma UncrossedAfterMatch(q: Queue, q': Queue, side: Side)
    requires Uncrossed(q)
    requires q'.Of(side) == q.Of(side)
    requires var a, b := q.Of(side.Opposite()), q'.Of(side.Opposite());
             |b| <= |a| && forall i | 0 <= i < |b| :: b[i].cap == a[|a| - |b| + i].cap
    ensures Uncrossed(q')
  {
    var d := |q.Of(side.Opposite())| - |q'.Of(side.Opposite())|;
    forall i, j | 0 <= i < |q'.requests| && 0 <= j < |q'.offers|
      ensures RateOf(q'.requests[i]) < RateOf(q'.offers[j])
    {
      if side == Request {
        assert RateOf(q.requests[i]) < RateOf(q.offers[j + d]);
      } else {
        assert RateOf(q.requests[i + d]) < RateOf(q.offers[j]);
      }
    }
  }

  /** The queue of the asset after a match. */
  lemma MatchedQueue(ledger: Ledger, ledger': Ledger, q: Queue, o: Order, m: MatchResult)
    requires o.Validated() && QueueInv(ledger, o.asset, q) && NotIn(q, o.id)
    requires ClosedForm(o, q.Of(o.side.Opposite()), m) && Resting(o.side.Opposite(), m.rest)
    requires Moved(ledger, ledger', o.id, m.touched)
    ensures QueueInv(ledger', o.asset, q.With(o.side.Opposite(), m.rest))
  {
    hide Order.Validated, Order.Restable, ClosedForm, Moved, Precedes;
    var opposite := o.side.Opposite();
    var q' := q.With(opposite, m.rest);
    assert SideInv(ledger', o.asset, opposite, m.rest) by {
      MatchedSide(ledger, ledger', o, q.Of(opposite), m);
    }
    assert SideInv(ledger', o.asset, o.side, q.Of(o.side)) by {
      TouchedOrders(ledger, q, o, m);
      OwnSide(ledger, ledger', o, q.Of(o.side), m.touched);
    }
    assert Uncrossed(q') by {
      MatchLeaves(o, q.Of(opposite), m);
      UncrossedAfterMatch(q, q', o.side);
    }
  }

  /** A newcomer goes behind every order at a better or the same rate. */
  lemma {:induction false} InsertPlace(side: Side, list: seq<Order>, o: Order) returns (k: nat)
    ensures k <= |list| && Insert(side, list, o) == list[..k] + [o] + list[k..]
    ensures forall i | 0 <= i < k :: !Better(side, RateOf(o), RateOf(list[i]))
    ensures k < |list| ==> Better(side, RateOf(o), RateOf(list[k]))
  {
    if list == [] || Better(side, RateOf(o), RateOf(list[0])) {
      k := 0;
    } else {
      k := InsertPlace(side, list[1..], o);
      k := k + 1;
      assert list == [list[0]] + list[1..];
    }
  }

  lemma InsertedSide(ledger: Ledger, asset: string, side: Side, list: seq<Order>, o: Order)
    requires SideInv(ledger, asset, side, list)
    requires Known(ledger, asset, o) && o.side == side && o.Restable()
    requires forall i | 0 <= i < |list| :: ledger[list[i].id].at < ledger[o.id].at
    ensures SideInv(ledger, asset, side, Insert(side, list, o))
  {
    var k := InsertPlace(side, list, o);
    var list' := list[..k] + [o] + list[k..];
    hide Order.Restable;
    forall i, j | 0 <= i < j < |list'|
      ensures Precedes(ledger, side, list'[i], list'[j])
    {
      var a, b := if i <= k then i else i - 1, if j <= k then j else j - 1;
      if i != k && j != k {
        assert Precedes(ledger, side, list[a], list[b]);
      } else if i == k {
        assert b == k || Precedes(ledger, side, list[k], list[b]);
      }
    }
  }

  /** What the best rate of the opposite side does not suit, none of its rates suits. */
  lemma NoneSuits(o: Order, rest: seq<Order>)
    requires o.Restable() && Resting(o.side.Opposite(), rest) && Sorted(o.side.Opposite(), rest)
    requires rest == [] || !o.Accepts(RateOf(rest[0]))
    ensures forall i | 0 <= i < |rest| ::
              if o.side == Request then RateOf(o) < RateOf(rest[i]) else RateOf(rest[i]) < RateOf(o)
  {
    forall i | 0 <= i < |rest|
      ensures if o.side == Request then RateOf(o) < RateOf(rest[i]) else RateOf(rest[i]) < RateOf(o)
    {
      assert i == 0 || !Better(o.side.Opposite(), RateOf(rest[i]), RateOf(rest[0]));
    }
  }

  /** A newcomer that the opposite side's best rate does not suit cannot cross anything. */
  lemma InsertedUncrossed(ledger: Ledger, asset: string, q: Queue, o: Order)
    requires QueueInv(ledger, asset, q) && o.Restable()
    requires var rest := q.Of(o.side.Opposite()); rest == [] || !o.Accepts(RateOf(rest[0]))
    ensures Uncrossed(q.With(o.side, Insert(o.side, q.Of(o.side), o)))
  {
    hide Insert, Order.Validated, Order.Restable, Order.Accepts, Better, Precedes, RateOf;
    var k := InsertPlace(o.side, q.Of(o.side), o);
    SideDistinct(ledger, asset, o.side.Opposite(), q.Of(o.side.Opposite()));
    NoneSuits(o, q.Of(o.side.Opposite()));
    hide SideInv, Sorted, Resting;
    var q' := q.With(o.side, Insert(o.side, q.Of(o.side), o));
    forall i, j | 0 <= i < |q'.requests| && 0 <= j < |q'.offers|
      ensures RateOf(q'.requests[i]) < RateOf(q'.offers[j])
    {
      if o.side == Request {
        assert q'.requests[i] == if i < k then q.requests[i] else if i == k then o else q.requests[i - 1];
      } else {
        assert q'.offers[j] == if j < k then q.offers[j] else if j == k then o else q.offers[j - 1];
      }
    }
  }

  lemma InsertedQueue(ledger: Ledger, asset: string, q: Queue, o: Order)
    requires QueueInv(ledger, asset, q) && Known(ledger, asset, o) && o.Restable()
    requires var rest := q.Of(o.side.Opposite()); rest == [] || !o.Accepts(RateOf(rest[0]))
    requires forall i | 0 <= i < |q.Of(o.side)| :: ledger[q.Of(o.side)[i].id].at < ledger[o.id].at
    ensures QueueInv(ledger, asset, q.With(o.side, Insert(o.side, q.Of(o.side), o)))
  {
    InsertedSide(ledger, asset, o.side, q.Of(o.side), o);
    InsertedUncrossed(ledger, asset, q, o);
  }

  /** Taking one order out. */
  lemma {:induction false} WithoutPlace(list: seq<Order>, id: string) returns (k: nat)
    requires Contains(list, id)
    ensures k < |list| && list[k].id == id && Without(list, id) == list[..k] + list[k + 1..]
  {
    if list[0].id == id {
      k := 0;
    } else {
      k := WithoutPlace(list[1..], id);
      k := k + 1;
      assert list == [list[0]] + list[1..];
    }
  }

  lemma WithoutSide(ledger: Ledger, asset: string, side: Side, list: seq<Order>, id: string)
    requires SideInv(ledger, asset, side, list) && Contains(list, id)
    ensures SideInv(ledger, asset, side, Without(list, id))
    ensures forall i | 0 <= i < |Without(list, id)| :: Without(list, id)[i].id != id && Without(list, id)[i] in list
    ensures id in ledger && ledger[id].now.side == side
  {
    var k := WithoutPlace(list, id);
    var list' := list[..k] + list[k + 1..];
    SideDistinct(ledger, asset, side, list);
    assert Known(ledger, asset, list[k]);
    forall i, j | 0 <= i < j < |list'|
      ensures Precedes(ledger, side, list'[i], list'[j])
    {
      assert Precedes(ledger, side, list[if i < k then i else i + 1], list[if j < k then j else j + 1]);
    }
  }

  lemma OtherSideLacks(ledger: Ledger, asset: string, side: Side, list: seq<Order>, id: string)
    requires SideInv(ledger, asset, side, list) && id in ledger && ledger[id].now.side != side
    ensures forall i | 0 <= i < |list| :: list[i].id != id
  {
    forall i | 0 <= i < |list|
      ensures list[i].id != id
    {
      assert Known(ledger, asset, list[i]);
    }
  }

  lemma WithoutQueue(ledger: Ledger, asset: string, q: Queue, side: Side, id: string)
    requires QueueInv(ledger, asset, q) && Contains(q.Of(side), id)
    ensures QueueInv(ledger, asset, q.With(side, Without(q.Of(side), id)))
    ensures NotIn(q.With(side, Without(q.Of(side), id)), id)
  {
    WithoutSide(ledger, asset, side, q.Of(side), id);
    OtherSideLacks(ledger, asset, side.Opposite(), q.Of(side.Opposite()), id);
    hide SideInv;
  }
}
