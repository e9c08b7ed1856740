/** Every operation of the dispatch engine keeps the invariant. */
module Steps {
  import opened Options
  import opened Orders
  import opened FlatMatch
  import opened Workloads
  import opened Dispatch
  import opened QueueInvariant
  import opened Conservation
  import opened Lifecycle
  import opened Invariant

  /** The order being worked on is known, valid, and its asset has a queue. */
  ghost predicate AtWork(s: State, o: Order, p: Phase) {
    && Working(s, o.id, p)
    && s.ledger[o.id].now == o
    && Latest(s.ledger, o.id)
    && o.asset in s.queues
  }

  lemma AtWorkReady(s: State, o: Order, p: Phase)
    requires AtWork(s, o, p)
    ensures Ready(s, o)
  {
    assert EntryInv(s.ledger, s.count, o.id);
    hide EntryInv, QueuesInv;
    QueuesInvRest(s);
  }

  lemma AtWorkMatching(s: State, o: Order, p: Phase)
    requires AtWork(s, o, p) && Ready(s, o)
    ensures Matching(s.ledger, s.queues[o.asset], o, Match(o, Opposite(s, o)))
  {
    hide Match, Order.Validated;
    assert QueueInv(s.ledger, o.asset, s.queues[o.asset]) && NotIn(s.queues[o.asset], o.id);
    MatchClosedForm(o, Opposite(s, o));
  }

  lemma SettleMoved(s: State, o: Order, m: MatchResult)
    requires Ready(s, o) && Matching(s.ledger, s.queues[o.asset], o, m) && Fits(s, o, m)
    ensures var l := Settle(s, o, m).ledger;
            Moved(s.ledger, l, o.id, m.touched) && l[o.id] == s.ledger[o.id].(now := m.incoming)
  {
    TouchedDistinct(s.ledger, s.queues[o.asset], o, m);
    hide Matching, ApplyFills, Moved, Order.Validated;
    SettleMoves(s.ledger, m.touched, m.incoming);
    TouchAt(s.ledger, m.touched);
  }

  /** The fills of a match all belong to the asset and carry hours. */
  lemma MatchingFills(ledger: Ledger, q: Queue, o: Order, m: MatchResult)
    requires Matching(ledger, q, o, m)
    ensures Positive(m.fills) && forall i | 0 <= i < |m.fills| :: m.fills[i].asset == o.asset
  {
    hide Match, QueueInv;
    MatchTouched(o, q.Of(o.side.Opposite()), m);
  }

  /** What a settled match starts from, and how queues, log and events change. */
  ghost predicate Settling(s: State, s': State, o: Order, m: MatchResult, p: Phase) {
    && AtWork(s, o, p) && Matching(s.ledger, s.queues[o.asset], o, m)
    && Moved(s.ledger, s'.ledger, o.id, m.touched) && s'.ledger[o.id] == s.ledger[o.id].(now := m.incoming)
    && Resting(o.side.Opposite(), m.rest) && |m.fills| == |m.touched|
    && s'.count == s.count && s'.log == s.log + m.fills
    && s'.events == s.events + MatchEvents(o.id, m.fills, m.touched)
    && s'.queues == s.queues[o.asset := s.queues[o.asset].With(o.side.Opposite(), m.rest)]
  }

  lemma SettleQueues(s: State, s': State, o: Order, m: MatchResult, p: Phase)
    requires Settling(s, s', o, m, p)
    ensures QueuesInv(s'.ledger, s'.queues) && NotQueued(s'.queues, o.id)
  {
    hide Match, MatchEvents, Moved, EntriesInv, AccountsInv, BookInv, Silent, PhaseAfter, QueueInv;
    MatchQueues(s.ledger, s'.ledger, s.queues, o, m);
  }

  /** Queues, orders and accounts after a match. */
  lemma SettleLedger(s: State, s': State, o: Order, m: MatchResult, p: Phase)
    requires Settling(s, s', o, m, p)
    ensures QueuesInv(s'.ledger, s'.queues) && NotQueued(s'.queues, o.id)
    ensures EntriesInv(s'.ledger, s'.count) && AccountsInv(s'.ledger, s'.log) && SameTerms(o, m.incoming)
  {
    hide Matching, MatchEvents, Moved, QueuesInv, NotQueued, EntriesInv, AccountsInv, BookInv, Silent, PhaseAfter,
         Order.Validated;
    var q := s.queues[o.asset];
    IncomingEntry(s.ledger, q, o, m);
    SettleQueues(s, s', o, m, p);
    MatchEntries(s.ledger, s'.ledger, s.count, q, o, m);
    MatchAccounts(s.ledger, s'.ledger, s.log, q, o, m);
  }

  /** Events and the other orders after a match. */
  lemma SettleStory(s: State, s': State, o: Order, m: MatchResult, p: Phase)
    requires Settling(s, s', o, m, p)
    ensures Silent(s'.ledger, s'.events) && PhaseAfter(s'.events, o.id) == p
    ensures OthersSettled(s', o.id) && Latest(s'.ledger, o.id)
  {
    hide Matching, MatchEvents, Moved, AtWork, OthersSettled, Silent, PhaseAfter, Order.Validated;
    SettlePhases(s, s', o, m, p);
    SettleOthers(s, s', o, m, p);
    LatestAtWork(s, o, p);
    MovedLatest(s.ledger, s'.ledger, o.id, m.touched);
  }

  lemma LatestAtWork(s: State, o: Order, p: Phase)
    requires AtWork(s, o, p)
    ensures Latest(s.ledger, o.id)
  {
  }

  /** Workloads after a match. */
  lemma SettleBook(s: State, o: Order, m: MatchResult, p: Phase)
    requires AtWork(s, o, p) && Matching(s.ledger, s.queues[o.asset], o, m) && Fits(s, o, m)
    ensures BookInv(Settle(s, o, m).book, Settle(s, o, m).log)
  {
    hide Matching, Touch, ApplyFills, MatchEvents, BookInv, QueuesInv, EntriesInv, AccountsInv, Silent, Order.Validated;
    MatchingFills(s.ledger, s.queues[o.asset], o, m);
    MatchBook(s.book, s.log, m.fills, o.asset);
  }

  /** A match settles every order it touches and leaves the incoming order at work, in the same phase. */
  lemma SettleWorks(s: State, o: Order, p: Phase)
    requires AtWork(s, o, p) && Ready(s, o) && Fits(s, o, Match(o, Opposite(s, o)))
    ensures var m := Match(o, Opposite(s, o)); AtWork(Settle(s, o, m), m.incoming, p)
  {
    var m := Match(o, Opposite(s, o));
    var s' := Settle(s, o, m);
    AtWorkMatching(s, o, p);
    hide Match, Matching, Moved, Touch, ApplyFills, MatchEvents, Order.Validated, PhaseAfter, Latest, QueuesRest;
    hide QueuesInv, NotQueued, EntriesInv, AccountsInv, BookInv, Silent, OthersSettled;
    SettleMoved(s, o, m);
    SettleLedger(s, s', o, m, p);
    SettleStory(s, s', o, m, p);
    SettleBook(s, o, m, p);
  }

  lemma MovedLatest(ledger: Ledger, ledger': Ledger, id: string, touched: seq<Order>)
    requires Moved(ledger, ledger', id, touched) && Latest(ledger, id) && ledger'[id].at == ledger[id].at
    ensures Latest(ledger', id)
  {
    forall other | other in ledger' && other != id
      ensures ledger'[other].at == ledger[other].at
    {
      if i :| 0 <= i < |touched| && touched[i].id == other {
      }
    }
  }

  lemma SettlePhases(s: State, s': State, o: Order, m: MatchResult, p: Phase)
    requires AtWork(s, o, p) && Matching(s.ledger, s.queues[o.asset], o, m)
    requires Moved(s.ledger, s'.ledger, o.id, m.touched)
    requires |m.fills| == |m.touched| && s'.events == s.events + MatchEvents(o.id, m.fills, m.touched)
    ensures Silent(s'.ledger, s'.events) && PhaseAfter(s'.events, o.id) == p
  {
    hide Matching, PhaseAfter, MatchEvents, QueuesInv, AccountsInv, BookInv, EntriesInv;
    MatchTells(s.ledger, s'.ledger, s.events, s.queues[o.asset], o, m, o.id);
    forall id | id !in s'.ledger
      ensures PhaseAfter(s'.events, id) == Absent
    {
      MatchTells(s.ledger, s'.ledger, s.events, s.queues[o.asset], o, m, id);
    }
  }

  lemma SettleOthers(s: State, s': State, o: Order, m: MatchResult, p: Phase)
    requires AtWork(s, o, p) && Matching(s.ledger, s.queues[o.asset], o, m)
    requires Moved(s.ledger, s'.ledger, o.id, m.touched) && s'.ledger[o.id] == s.ledger[o.id].(now := m.incoming)
    requires |m.fills| == |m.touched| && s'.events == s.events + MatchEvents(o.id, m.fills, m.touched)
    requires s'.queues == s.queues[o.asset := s.queues[o.asset].With(o.side.Opposite(), m.rest)]
    ensures OthersSettled(s', o.id)
  {
    hide Matching, Told, Placed, MatchEvents, QueuesInv, AccountsInv, BookInv;
    TouchedDistinct(s.ledger, s.queues[o.asset], o, m);
    forall id | id in s'.ledger && id != o.id
      ensures Placed(s'.queues, s'.ledger[id].now) && Told(s'.events, s'.ledger[id].now)
    {
      assert EntryInv(s.ledger, s.count, id);
      MatchTells(s.ledger, s'.ledger, s.events, s.queues[o.asset], o, m, id);
      MatchPlaces(s.ledger, s'.ledger, s.queues, o, m, id);
    }
  }

  // ----- The residual ---------------------------------------------------------------

  function Rest(s: State, o: Order): State
    requires o.asset in s.queues
  {
    s.(queues := s.queues[o.asset := s.queues[o.asset].With(o.side, Insert(o.side, s.queues[o.asset].Of(o.side), o))])
  }

  lemma InsertContains(side: Side, list: seq<Order>, o: Order, id: string)
    ensures Contains(Insert(side, list, o), id) <==> Contains(list, id) || id == o.id
  {
    var k := InsertPlace(side, list, o);
    var list' := list[..k] + [o] + list[k..];
    if Contains(list, id) {
      var i :| 0 <= i < |list| && list[i].id == id;
      assert list'[if i < k then i else i + 1].id == id;
    }
    if id == o.id {
      assert list'[k].id == id;
    }
  }

  /** A residual that the opposite side does not suit takes its place in the queue. */
  lemma RestQueues(s: State, o: Order, p: Phase)
    requires AtWork(s, o, p) && o.Restable()
    requires Opposite(s, o) == [] || !o.Accepts(RateOf(Opposite(s, o)[0]))
    ensures QueuesInv(s.ledger, Rest(s, o).queues)
  {
    var q := s.queues[o.asset];
    assert QueueInv(s.ledger, o.asset, q) && NotIn(q, o.id);
    var own := q.Of(o.side);
    forall i | 0 <= i < |own|
      ensures s.ledger[own[i].id].at < s.ledger[o.id].at
    {
      assert SideInv(s.ledger, o.asset, o.side, own);
      assert Known(s.ledger, o.asset, own[i]) && own[i].id != o.id;
    }
    hide QueueInv, NotIn, Order.Restable, Insert, AccountsInv, BookInv;
    InsertedQueue(s.ledger, o.asset, q, o);
  }

  lemma RestPlaces(queues: map<string, Queue>, o: Order, other: Order)
    requires o.asset in queues && (Placed(queues, other) || (other == o && o.status in {Accepted, PartiallyAssigned}))
    ensures Placed(queues[o.asset := queues[o.asset].With(o.side, Insert(o.side, queues[o.asset].Of(o.side), o))],
            other)
  {
    hide Insert, Contains;
    InsertContains(o.side, queues[o.asset].Of(o.side), o, other.id);
  }

  lemma RestSettles(s: State, o: Order, p: Phase)
    requires AtWork(s, o, p) && o.Restable() && PhaseFor(o.status) == p
    requires Opposite(s, o) == [] || !o.Accepts(RateOf(Opposite(s, o)[0]))
    ensures Inv(Rest(s, o))
  {
    RestQueues(s, o, p);
    var s' := Rest(s, o);
    assert o.status in {Accepted, PartiallyAssigned};
    hide QueuesInv, NotQueued, AccountsInv, BookInv, EntriesInv, Silent, Insert, Placed, PhaseAfter;
    forall id | id in s'.ledger
      ensures Placed(s'.queues, s'.ledger[id].now) && Told(s'.events, s'.ledger[id].now)
    {
      RestPlaces(s.queues, o, s.ledger[id].now);
    }
  }

  lemma FinaliseSettles(s: State, o: Order, matched: bool)
    requires AtWork(s, o, IsAccepted) && Ready(s, o) && o.status == Accepted
    requires o.Remaining() == 0.0 || Opposite(s, o) == [] || !o.Accepts(RateOf(Opposite(s, o)[0]))
    ensures Inv(Finalise(s, o, matched))
  {
    hide Core, NotQueued, OthersSettled, PhaseAfter, Insert, QueuesRest;
    if o.FullyAssigned() {
      RecordSettles(s, OrderAssigned, o.id, IsAccepted, Assigned);
    } else if o.mode == RateCapped && o.window == Open {
      if matched {
        var o1 := o.(status := PartiallyAssigned);
        RecordWorks(s, OrderPartiallyAssigned, o.id, IsAccepted, PartiallyAssigned);
        RestSettles(Record(s, OrderPartiallyAssigned, o1), o1, IsPartial);
      } else {
        RestSettles(s, o, IsAccepted);
      }
    } else if matched {
      RecordWorks(s, OrderPartiallyAssigned, o.id, IsAccepted, PartiallyAssigned);
      var o1 := o.(status := PartiallyAssigned);
      RecordSettles(Record(s, OrderPartiallyAssigned, o1), OrderCancelled, o.id, IsPartial, Cancelled);
    } else {
      RecordSettles(s, OrderCancelled, o.id, IsAccepted, Cancelled);
    }
  }

  /** After a match the loop has stopped for one of its three reasons. */
  lemma SettleStops(s: State, o: Order)
    requires Ready(s, o) && Fits(s, o, Match(o, Opposite(s, o)))
    ensures var m := Match(o, Opposite(s, o));
            var rest := Opposite(Settle(s, o, m), m.incoming);
            m.incoming.Remaining() == 0.0 || rest == [] || !m.incoming.Accepts(RateOf(rest[0]))
  {
    MatchStops(o, Opposite(s, o));
    hide Match, ApplyFills, MatchEvents, Touch;
  }

  lemma MatchedSettles(s: State, o: Order)
    requires AtWork(s, o, IsAccepted) && Ready(s, o) && o.status == Accepted
    requires Fits(s, o, Match(o, Opposite(s, o)))
    ensures var m := Match(o, Opposite(s, o));
            Ready(Settle(s, o, m), m.incoming) && Inv(Finalise(Settle(s, o, m), m.incoming, m.fills != []))
  {
    SettleReady(s, o, Match(o, Opposite(s, o)));
    SettleWorks(s, o, IsAccepted);
    SettleStops(s, o);
    hide AtWork, Match, Settle, Finalise, Inv, QueuesRest;
    var m := Match(o, Opposite(s, o));
    FinaliseSettles(Settle(s, o, m), m.incoming, m.fills != []);
  }

  lemma DispatchedSettles(s: State, o: Order)
    requires AtWork(s, o, IsAccepted) && Ready(s, o) && o.status == Accepted
    ensures Inv(Dispatched(s, o))
  {
    hide Core, NotQueued, OthersSettled, PhaseAfter, CanAssignFully, Settle, Match, Finalise, Fits;
    if o.window == Complete && !CanAssignFully(o, Opposite(s, o)) {
      RecordSettles(s, OrderCancelled, o.id, IsAccepted, Cancelled);
    } else {
      MatchFits(s, o);
      MatchedSettles(s, o);
    }
  }

  /** An order that passed every check is accepted and dispatched. */
  lemma AdmittedSettles(s: State, o: Order)
    requires Working(s, o.id, IsSubmitted) && Latest(s.ledger, o.id) && o.asset in s.queues
    requires s.ledger[o.id].now == o
    ensures var accepted := o.(status := Accepted); var s' := Record(s, OrderAccepted, accepted);
            Ready(s', accepted) && Inv(Dispatched(s', accepted))
  {
    hide Core, NotQueued, OthersSettled, PhaseAfter, QueuesRest, Dispatched;
    var accepted := o.(status := Accepted);
    var s' := Record(s, OrderAccepted, accepted);
    RecordWorks(s, OrderAccepted, o.id, IsSubmitted, Accepted);
    AtWorkReady(s', accepted, IsAccepted);
    DispatchedSettles(s', accepted);
  }

  /** Submission keeps the invariant. */
  lemma SubmitKeeps(cfg: Config, s: State, o: Order)
    requires cfg.Valid() && Inv(s) && o.Validated()
    ensures QueuesRest(s)
    ensures Inv(Submit(cfg, s, o))
  {
    QueuesInvRest(s);
    if o.id !in s.ledger {
      hide Inv, Working, Latest, QueuesRest, WithinBoundary, Allowed, Dispatched, Record, Ready, Order.Validated;
      var s1 := Enter(s, o);
      EnterWorks(s, o);
      if o.status != New || !WithinBoundary(cfg, o) {
        RecordSettles(s1, OrderRejected, o.id, IsSubmitted, Rejected);
      } else {
        var s2 := OpenQueue(s1, o.asset);
        OpenQueueWorks(s1, o.asset, o.id, IsSubmitted);
        if !Allowed(cfg, s2, o) {
          RecordSettles(s2, OrderRejected, o.id, IsSubmitted, Rejected);
        } else {
          AdmittedSettles(s2, o);
        }
      }
    }
  }

  /** A repricing keeps the invariant. */
  lemma RepriceKeeps(s: State, asset: string, mark: real)
    requires Inv(s)
    ensures Inv(RepriceStep(s, asset, mark))
  {
    assert BookInvBut(s.book, s.log, asset);
    hide BookInvBut, BookInv, AccountsInv, QueuesInv, EntriesInv, Silent;
    RepricedBook(s.book, s.log, asset, mark);
  }

  /** Taking an order out of its queue leaves it out of all of them ... */
  lemma WithdrawnQueues(ledger: Ledger, queues: map<string, Queue>, o: Order)
    requires QueuesInv(ledger, queues) && o.asset in queues && Contains(queues[o.asset].Of(o.side), o.id)
    requires o.id in ledger && ledger[o.id].now == o
    ensures QueuesInv(ledger, Withdrawn(queues, o)) && NotQueued(Withdrawn(queues, o), o.id)
  {
    hide QueueInv, NotIn, Without, Contains;
    WithoutQueue(ledger, o.asset, queues[o.asset], o.side, o.id);
    forall a | a in queues && a != o.asset
      ensures NotIn(queues[a], o.id)
    {
      OtherAssetLacks(ledger, a, queues[a], o.id);
    }
  }

  /** ... and every other order in its place. */
  lemma WithdrawnPlaces(queues: map<string, Queue>, o: Order, other: Order)
    requires o.asset in queues && Contains(queues[o.asset].Of(o.side), o.id)
    requires Placed(queues, other) && other.id != o.id
    ensures Placed(Withdrawn(queues, o), other)
  {
    hide Without, Contains;
    WithoutContains(queues[o.asset].Of(o.side), o.id, other.id);
  }

  lemma WithdrawnWorks(s: State, id: string)
    requires Inv(s) && Cancellable(s, id, None)
    ensures Working(s.(queues := Withdrawn(s.queues, s.ledger[id].now)), id, PhaseFor(s.ledger[id].now.status))
  {
    var o := s.ledger[id].now;
    WithdrawnQueues(s.ledger, s.queues, o);
    hide QueuesInv, NotQueued, AccountsInv, BookInv, Silent, Placed, PhaseAfter, Withdrawn, Contains;
    forall other | other in s.ledger && other != id
      ensures Placed(Withdrawn(s.queues, o), s.ledger[other].now)
    {
      assert EntryInv(s.ledger, s.count, other);
      WithdrawnPlaces(s.queues, o, s.ledger[other].now);
    }
  }

  lemma OtherAssetLacks(ledger: Ledger, asset: string, q: Queue, id: string)
    requires QueueInv(ledger, asset, q) && id in ledger && ledger[id].now.asset != asset
    ensures NotIn(q, id)
  {
    forall side: Side, i | 0 <= i < |q.Of(side)|
      ensures q.Of(side)[i].id != id
    {
      assert SideInv(ledger, asset, side, q.Of(side));
      assert Known(ledger, asset, q.Of(side)[i]);
    }
  }

  lemma WithoutContains(list: seq<Order>, id: string, other: string)
    requires other != id && Contains(list, id)
    ensures Contains(list, other) ==> Contains(Without(list, id), other)
  {
    var k := WithoutPlace(list, id);
    hide Without;
    if Contains(list, other) {
      var i :| 0 <= i < |list| && list[i].id == other;
      assert (list[..k] + list[k + 1..])[if i < k then i else i - 1].id == other;
    }
  }

  /** An order that stands in a queue is not finished. */
  lemma QueuedIsActive(s: State, id: string)
    requires Inv(s) && Cancellable(s, id, None)
    ensures s.ledger[id].now.status in {Accepted, PartiallyAssigned}
  {
    var o := s.ledger[id].now;
    var list := s.queues[o.asset].Of(o.side);
    var i :| 0 <= i < |list| && list[i].id == id;
    assert QueueInv(s.ledger, o.asset, s.queues[o.asset]);
    assert SideInv(s.ledger, o.asset, o.side, list);
    assert Known(s.ledger, o.asset, list[i]);
  }

  lemma WithdrawnSettles(s: State, id: string)
    requires Inv(s) && Cancellable(s, id, None)
    ensures var o := s.ledger[id].now;
            Inv(Record(s.(queues := Withdrawn(s.queues, o)), OrderCancelled, o.(status := Cancelled)))
  {
    hide Inv, Working, Withdrawn, Record, Contains;
    QueuedIsActive(s, id);
    WithdrawnWorks(s, id);
    RecordSettles(s.(queues := Withdrawn(s.queues, s.ledger[id].now)), OrderCancelled, id,
        PhaseFor(s.ledger[id].now.status), Cancelled);
  }

  /** A cancellation keeps the invariant. */
  lemma CancelKeeps(s: State, id: string, asset: Option<string>)
    requires Inv(s)
    ensures Inv(Cancel(s, id, asset))
  {
    hide Inv, Withdrawn, Record, Contains;
    if Cancellable(s, id, asset) {
      WithdrawnSettles(s, id);
    }
  }
}
