/** The invariant of the dispatch engine, and that every operation keeps it. */
module Invariant {
  import opened Orders
  import opened FlatMatch
  import opened Workloads
  import opened Dispatch
  import opened QueueInvariant
  import opened Conservation
  import opened Lifecycle

  /** An order keeps its identity and terms for ever. */
  predicate SameTerms(a: Order, b: Order) {
    b == a.(status := b.status, assignedHours := b.assignedHours, avg := b.avg)
  }

  ghost predicate EntryInv(ledger: Ledger, count: nat, id: string)
    requires id in ledger
  {
    var e := ledger[id];
    e.first.id == id && SameTerms(e.first, e.now) && e.now.Validated() && e.at < count
  }

  ghost predicate EntriesInv(ledger: Ledger, count: nat) {
    forall id | id in ledger :: EntryInv(ledger, count, id)
  }

  /** Money and hours of every workload, over every organization. */
  ghost predicate BookInv(book: Book, log: seq<Fill>) {
    && book.Valid()
    && AllMarked(book)
    && (forall asset :: OneMark(book, asset))
    && (forall asset :: NetSum(book, asset) == 0.0 && BasisSum(book, asset) == 0.0)
    && (forall key :: FollowsLog(book, log, key))
  }

  function PhaseFor(status: Status): Phase {
    match status
    case New => IsSubmitted
    case Accepted => IsAccepted
    case PartiallyAssigned => IsPartial
    case Assigned => IsAssigned
    case Cancelled => IsCancelled
    case Rejected => IsRejected
    case Expired => Broken
  }

  ghost predicate InItsQueue(queues: map<string, Queue>, o: Order) {
    o.asset in queues && Contains(queues[o.asset].Of(o.side), o.id)
  }

  /** A settled order stands in its queue unless it is finished. */
  ghost predicate Placed(queues: map<string, Queue>, o: Order) {
    && o.status in {Accepted, PartiallyAssigned, Assigned, Cancelled, Rejected}
    && (!o.status.IsTerminal() ==> InItsQueue(queues, o))
  }

  /** A settled order's events tell its status. */
  ghost predicate Told(events: seq<Event>, o: Order) {
    PhaseAfter(events, o.id) == PhaseFor(o.status)
  }

  /** No event was ever published for an id the engine does not know. */
  ghost predicate Silent(ledger: Ledger, events: seq<Event>) {
    forall id | id !in ledger :: PhaseAfter(events, id) == Absent
  }

  /** What holds of the engine whatever order is being worked on. */
  ghost predicate Core(s: State) {
    && QueuesInv(s.ledger, s.queues)
    && EntriesInv(s.ledger, s.count)
    && AccountsInv(s.ledger, s.log)
    && BookInv(s.book, s.log)
    && Silent(s.ledger, s.events)
  }

  /** The invariant between operations. */
  ghost predicate Inv(s: State) {
    Core(s) && forall id | id in s.ledger :: Placed(s.queues, s.ledger[id].now) && Told(s.events, s.ledger[id].now)
  }

  /** The invariant while the order `id` is in phase `p` and stands in no queue. */
  ghost predicate Working(s: State, id: string, p: Phase) {
    && Core(s)
    && id in s.ledger
    && NotQueued(s.queues, id)
    && PhaseAfter(s.events, id) == p
    && OthersSettled(s, id)
  }

  ghost predicate OthersSettled(s: State, id: string)
    requires id in s.ledger
  {
    forall other | other in s.ledger && other != id ::
      Placed(s.queues, s.ledger[other].now) && Told(s.events, s.ledger[other].now)
  }

  /** Every other order the engine knows arrived before `id`. */
  ghost predicate Latest(ledger: Ledger, id: string) {
    id in ledger && forall other | other in ledger && other != id :: ledger[other].at < ledger[id].at
  }

  lemma InitialInv()
    ensures Inv(INITIAL)
  {
  }

  // ----- Entering, recording, opening a queue ------------------------------------

  lemma NewIdUnknown(ledger: Ledger, asset: string, q: Queue, id: string)
    requires QueueInv(ledger, asset, q) && id !in ledger
    ensures NotIn(q, id)
    ensures forall side: Side, i | 0 <= i < |q.Of(side)| :: q.Of(side)[i].id in ledger
  {
    forall side: Side, i | 0 <= i < |q.Of(side)|
      ensures q.Of(side)[i].id in ledger
    {
      assert SideInv(ledger, asset, side, q.Of(side));
      assert Known(ledger, asset, q.Of(side)[i]);
    }
  }

  lemma EnterQueues(ledger: Ledger, queues: map<string, Queue>, id: string, e: Entry)
    requires QueuesInv(ledger, queues) && id !in ledger
    ensures QueuesInv(ledger[id := e], queues) && NotQueued(queues, id)
  {
    hide QueueInv, NotIn;
    forall a | a in queues
      ensures QueueInv(ledger[id := e], a, queues[a]) && NotIn(queues[a], id)
    {
      NewIdUnknown(ledger, a, queues[a], id);
      QueueFrame(ledger, ledger[id := e], a, queues[a]) by {
        assert NotIn(queues[a], id);
      }
    }
  }

  lemma EnterAccounts(ledger: Ledger, log: seq<Fill>, o: Order, at: nat)
    requires AccountsInv(ledger, log) && o.id !in ledger && o.Validated()
    ensures AccountsInv(ledger[o.id := Entry(o, at, o)], log)
  {
    OrderSumNone(log, o.id, HoursOf);
    OrderSumNone(log, o.id, ValueOf);
  }

  /** One work-order event changes the phase of its own order only. */
  lemma EventPhases(events: seq<Event>, kind: Kind, o: Order)
    ensures var events' := events + [WorkOrderEvent(kind, o.id, o.status, o.assignedHours)];
            forall id :: PhaseAfter(events', id)
                      == if id == o.id then Next(PhaseAfter(events, id), kind) else PhaseAfter(events, id)
  {
    var e := WorkOrderEvent(kind, o.id, o.status, o.assignedHours);
    forall id
      ensures PhaseAfter(events + [e], id) == if id == o.id then Next(PhaseAfter(events, id), kind)
              else PhaseAfter(events, id)
    {
      PhaseAppend(events, e, id);
    }
  }

  lemma EnterWorks(s: State, o: Order)
    requires Inv(s) && o.Validated() && o.id !in s.ledger
    ensures Working(Enter(s, o), o.id, IsSubmitted) && Latest(Enter(s, o).ledger, o.id)
  {
    hide QueuesInv, AccountsInv, BookInv, PhaseAfter, Placed, NotQueued, Order.Validated, EntriesInv, Told, Silent;
    EnterQueues(s.ledger, s.queues, o.id, Entry(o, s.count, o));
    EnterAccounts(s.ledger, s.log, o, s.count);
    EnterEntries(s.ledger, s.count, o);
    EntryIds(s.ledger, s.count);
    EnterEvents(s, o);
  }

  lemma EntryIds(ledger: Ledger, count: nat)
    requires EntriesInv(ledger, count)
    ensures forall id | id in ledger :: ledger[id].now.id == id
  {
    hide Order.Validated;
    forall id | id in ledger
      ensures ledger[id].now.id == id
    {
      assert EntryInv(ledger, count, id);
    }
  }

  lemma EnterEntries(ledger: Ledger, count: nat, o: Order)
    requires EntriesInv(ledger, count) && o.Validated() && o.id !in ledger
    ensures var l := ledger[o.id := Entry(o, count, o)]; EntriesInv(l, count + 1) && Latest(l, o.id)
  {
    hide Order.Validated;
    forall id | id in ledger
      ensures EntryInv(ledger[o.id := Entry(o, count, o)], count + 1, id) && ledger[id].at < count
    {
      assert EntryInv(ledger, count, id);
    }
  }

  lemma EnterEvents(s: State, o: Order)
    requires Silent(s.ledger, s.events) && o.id !in s.ledger
    requires forall id | id in s.ledger :: Told(s.events, s.ledger[id].now) && s.ledger[id].now.id == id
    ensures var s' := Enter(s, o);
            && Silent(s'.ledger, s'.events) && PhaseAfter(s'.events, o.id) == IsSubmitted
            && forall id | id in s.ledger :: Told(s'.events, s.ledger[id].now)
  {
    hide PhaseAfter;
    EventPhases(s.events, OrderSubmitted, o);
  }

  lemma OpenQueueWorks(s: State, asset: string, id: string, p: Phase)
    requires Working(s, id, p)
    ensures Working(OpenQueue(s, asset), id, p)
  {
    hide AccountsInv, BookInv, PhaseAfter, Order.Validated, EntryInv;
  }

  /** Changing the record of an order that stands in no queue leaves the queues in order. */
  lemma RecordQueues(ledger: Ledger, queues: map<string, Queue>, o: Order)
    requires QueuesInv(ledger, queues) && NotQueued(queues, o.id) && o.id in ledger
    ensures QueuesInv(ledger[o.id := ledger[o.id].(now := o)], queues)
  {
    var ledger' := ledger[o.id := ledger[o.id].(now := o)];
    forall a | a in queues
      ensures QueueInv(ledger', a, queues[a])
    {
      RecordQueue(ledger, a, queues[a], o);
    }
  }

  lemma RecordQueue(ledger: Ledger, asset: string, q: Queue, o: Order)
    requires QueueInv(ledger, asset, q) && NotIn(q, o.id) && o.id in ledger
    ensures QueueInv(ledger[o.id := ledger[o.id].(now := o)], asset, q)
  {
    forall side: Side, i | 0 <= i < |q.Of(side)|
      ensures q.Of(side)[i].id in ledger
    {
      assert SideInv(ledger, asset, side, q.Of(side));
      assert Known(ledger, asset, q.Of(side)[i]);
    }
    QueueFrame(ledger, ledger[o.id := ledger[o.id].(now := o)], asset, q);
  }

  /** A change of status alone is no matter for the accounts. */
  lemma StatusAccounts(ledger: Ledger, log: seq<Fill>, id: string, status: Status)
    requires AccountsInv(ledger, log) && id in ledger
    ensures var e := ledger[id]; AccountsInv(ledger[id := e.(now := e.now.(status := status))], log)
  {
    hide OrderSum;
  }

  lemma RecordWorks(s: State, kind: Kind, id: string, p: Phase, status: Status)
    requires Working(s, id, p)
    ensures var o := s.ledger[id].now.(status := status); Working(Record(s, kind, o), id, Next(p, kind))
  {
    hide EntriesInv, EntryInv, Order.Validated, QueuesInv, AccountsInv, BookInv, PhaseAfter, Placed, NotQueued, Told,
         Silent;
    var o := s.ledger[id].now.(status := status);
    EntryIds(s.ledger, s.count);
    RecordEntries(s.ledger, s.count, id, status);
    RecordQueues(s.ledger, s.queues, o);
    StatusAccounts(s.ledger, s.log, id, status);
    RecordEvents(s, kind, o);
  }

  lemma RecordEntries(ledger: Ledger, count: nat, id: string, status: Status)
    requires EntriesInv(ledger, count) && id in ledger
    ensures EntriesInv(ledger[id := ledger[id].(now := ledger[id].now.(status := status))], count)
  {
    forall other | other in ledger
      ensures EntryInv(ledger[id := ledger[id].(now := ledger[id].now.(status := status))], count, other)
    {
      assert EntryInv(ledger, count, other);
    }
  }

  lemma RecordEvents(s: State, kind: Kind, o: Order)
    requires Silent(s.ledger, s.events) && o.id in s.ledger
    ensures var s' := Record(s, kind, o);
            && Silent(s'.ledger, s'.events) && PhaseAfter(s'.events, o.id) == Next(PhaseAfter(s.events, o.id), kind)
            && forall other: Order | other.id != o.id && Told(s.events, other) :: Told(s'.events, other)
  {
    hide PhaseAfter;
    EventPhases(s.events, kind, o);
  }

  /** An order that ends settles at once. */
  lemma RecordSettles(s: State, kind: Kind, id: string, p: Phase, status: Status)
    requires Working(s, id, p) && status in {Assigned, Cancelled, Rejected} && Next(p, kind) == PhaseFor(status)
    ensures Inv(Record(s, kind, s.ledger[id].now.(status := status)))
  {
    RecordWorks(s, kind, id, p, status);
    hide Core, PhaseAfter, NotQueued;
  }

  // ----- Matching ------------------------------------------------------------------

  /** Fewer open terms: the other assets' queues do not notice a match. */
  lemma OtherQueues(ledger: Ledger, ledger': Ledger, asset: string, q: Queue, o: Order, touched: seq<Order>)
    requires QueueInv(ledger, asset, q) && NotIn(q, o.id) && asset != o.asset
    requires Moved(ledger, ledger', o.id, touched)
    requires forall i | 0 <= i < |touched| :: touched[i].id in ledger && ledger[touched[i].id].now.asset == o.asset
    ensures QueueInv(ledger', asset, q)
  {
    forall side: Side, i | 0 <= i < |q.Of(side)|
      ensures q.Of(side)[i].id in ledger' && ledger'[q.Of(side)[i].id] == ledger[q.Of(side)[i].id]
    {
      assert SideInv(ledger, asset, side, q.Of(side));
      assert Known(ledger, asset, q.Of(side)[i]);
    }
    QueueFrame(ledger, ledger', asset, q);
  }

  lemma MatchQueues(ledger: Ledger, ledger': Ledger, queues: map<string, Queue>, o: Order, m: MatchResult)
    requires o.Validated() && o.asset in queues && QueuesInv(ledger, queues) && NotQueued(queues, o.id)
    requires Resting(o.side.Opposite(), queues[o.asset].Of(o.side.Opposite()))
    requires ClosedForm(o, queues[o.asset].Of(o.side.Opposite()), m) && Resting(o.side.Opposite(), m.rest)
    requires Moved(ledger, ledger', o.id, m.touched)
    ensures var queues' := queues[o.asset := queues[o.asset].With(o.side.Opposite(), m.rest)];
            QueuesInv(ledger', queues') && NotQueued(queues', o.id)
  {
    hide QueueInv, NotIn, ClosedForm, Order.Validated, Moved, Resting;
    MatchedQueue(ledger, ledger', queues[o.asset], o, m);
    MatchedNotIn(queues[o.asset], o, m);
    forall a | a in queues && a != o.asset
      ensures QueueInv(ledger', a, queues[a])
    {
      TouchedAsset(ledger, queues[o.asset], o, m);
      OtherQueues(ledger, ledger', a, queues[a], o, m.touched);
    }
  }

  lemma TouchedAsset(ledger: Ledger, q: Queue, o: Order, m: MatchResult)
    requires o.Validated() && QueueInv(ledger, o.asset, q) && NotIn(q, o.id)
    requires ClosedForm(o, q.Of(o.side.Opposite()), m)
    ensures forall i | 0 <= i < |m.touched| :: m.touched[i].id in ledger && ledger[m.touched[i].id].now.asset == o.asset
  {
    hide ClosedForm;
    TouchedOrders(ledger, q, o, m);
  }

  lemma MatchedNotIn(q: Queue, o: Order, m: MatchResult)
    requires o.Validated() && Resting(o.side.Opposite(), q.Of(o.side.Opposite())) && NotIn(q, o.id)
    requires ClosedForm(o, q.Of(o.side.Opposite()), m)
    ensures NotIn(q.With(o.side.Opposite(), m.rest), o.id)
  {
    hide Order.Validated, Order.Restable, ClosedForm, Resting;
    MatchLeaves(o, q.Of(o.side.Opposite()), m);
    var q' := q.With(o.side.Opposite(), m.rest);
    forall side: Side, i | 0 <= i < |q'.Of(side)|
      ensures q'.Of(side)[i].id != o.id
    {
      var j := if side == o.side then i else |q.Of(side)| - |m.rest| + i;
      assert q'.Of(side)[i].id == q.Of(side)[j].id;
    }
  }

  /** The order `o`, known but in no queue, is matched against its asset's queue with result `m`. */
  ghost predicate Matching(ledger: Ledger, q: Queue, o: Order, m: MatchResult) {
    && o.Validated() && QueueInv(ledger, o.asset, q) && NotIn(q, o.id)
    && o.id in ledger && ledger[o.id].now == o
    && Resting(o.side.Opposite(), q.Of(o.side.Opposite()))
    && m == Match(o, q.Of(o.side.Opposite()))
    && ClosedForm(o, q.Of(o.side.Opposite()), m)
  }

  /** Each fill names two orders the engine knows. */
  lemma MatchFillsKnown(ledger: Ledger, q: Queue, o: Order, m: MatchResult)
    requires Matching(ledger, q, o, m)
    ensures |m.touched| == |m.fills|
    ensures forall id | id !in ledger :: Unmentioned(m.fills, id)
    ensures forall id | id in ledger && id != o.id && (forall i | 0 <= i < |m.touched| :: m.touched[i].id != id) ::
      Unmentioned(m.fills, id)
    ensures forall i, j | 0 <= i < |m.touched| && 0 <= j < |m.fills| ::
              Mentions(m.fills[j], m.touched[i].id) <==> i == j
  {
    TouchedOrders(ledger, q, o, m);
    MatchMentions(o, q.Of(o.side.Opposite()), m);
    hide ClosedForm, Match, Mentions, QueueInv;
  }

  lemma TouchedRecord(ledger: Ledger, q: Queue, o: Order, m: MatchResult, i: nat)
    requires Matching(ledger, q, o, m) && i < |m.touched| && i < |m.fills|
    ensures m.touched[i].id in ledger
    ensures var now := ledger[m.touched[i].id].now;
            && now.Restable() && m.fills[i].hours > 0.0 && m.fills[i].rate == RateOf(now)
            && m.touched[i] == FilledResting(now, m.fills[i].hours, m.fills[i].rate)
            && m.fills[i].hours <= now.Remaining()
            && now.asset == o.asset && now.side == o.side.Opposite()
  {
    TouchedOrders(ledger, q, o, m);
    assert PositionFilled(o, q.Of(o.side.Opposite()), m, i);
    hide ClosedForm, Match, QueueInv, FilledResting;
  }

  lemma AccountAfterMatch(ledger: Ledger, ledger': Ledger, log: seq<Fill>, q: Queue, o: Order, m: MatchResult,
                          id: string)
    requires Matching(ledger, q, o, m) && id in ledger && AccountsInv(ledger, log)
    requires Moved(ledger, ledger', o.id, m.touched) && ledger'[o.id] == ledger[o.id].(now := m.incoming)
    ensures ledger'[id].first.id == id && Accounted(log + m.fills, ledger'[id])
  {
    if id == o.id {
      IncomingAccounted(log, ledger[id], q.Of(o.side.Opposite()));
    } else {
      hide Matching, Accounted, Mentions, FilledResting;
      MatchFillsKnown(ledger, q, o, m);
      if i :| 0 <= i < |m.touched| && m.touched[i].id == id {
        TouchedRecord(ledger, q, o, m, i);
        TouchedAccounted(log, ledger[id], m.fills, i, m.touched[i]);
      } else {
        OtherAccounted(log, ledger[id], m.fills);
      }
    }
  }

  lemma MatchAccounts(ledger: Ledger, ledger': Ledger, log: seq<Fill>, q: Queue, o: Order, m: MatchResult)
    requires Matching(ledger, q, o, m) && AccountsInv(ledger, log)
    requires Moved(ledger, ledger', o.id, m.touched) && ledger'[o.id] == ledger[o.id].(now := m.incoming)
    ensures AccountsInv(ledger', log + m.fills)
  {
    MatchFillsKnown(ledger, q, o, m);
    hide Matching, Accounted, Mentions;
    assert ledger'.Keys == ledger.Keys;
    forall id | id in ledger'
      ensures ledger'[id].first.id == id && Accounted(log + m.fills, ledger'[id])
    {
      AccountAfterMatch(ledger, ledger', log, q, o, m, id);
    }
  }

  /** The touched orders as a set of records. */
  lemma TouchedDistinct(ledger: Ledger, q: Queue, o: Order, m: MatchResult)
    requires Matching(ledger, q, o, m)
    ensures |m.touched| == |m.fills|
    ensures forall i | 0 <= i < |m.touched| :: m.touched[i].id in ledger && m.touched[i].id != o.id
    ensures forall i, j | 0 <= i < j < |m.touched| :: m.touched[i].id != m.touched[j].id
  {
    TouchedOrders(ledger, q, o, m);
    hide Match, QueueInv;
  }

  lemma TouchedEntry(ledger: Ledger, count: nat, q: Queue, o: Order, m: MatchResult, i: nat)
    requires Matching(ledger, q, o, m) && i < |m.touched| && i < |m.fills|
    requires m.touched[i].id in ledger && EntryInv(ledger, count, m.touched[i].id)
    ensures SameTerms(ledger[m.touched[i].id].first, m.touched[i]) && m.touched[i].Validated()
  {
    hide Matching, AverageAfter;
    TouchedRecord(ledger, q, o, m, i);
  }

  lemma IncomingEntry(ledger: Ledger, q: Queue, o: Order, m: MatchResult)
    requires Matching(ledger, q, o, m)
    ensures SameTerms(o, m.incoming) && m.incoming.Validated()
  {
    hide ClosedForm, QueueInv, NotIn;
    MatchIncoming(o, q.Of(o.side.Opposite()));
  }

  lemma MatchEntries(ledger: Ledger, ledger': Ledger, count: nat, q: Queue, o: Order, m: MatchResult)
    requires Matching(ledger, q, o, m) && EntriesInv(ledger, count) && ledger[o.id].now == o
    requires Moved(ledger, ledger', o.id, m.touched) && ledger'[o.id] == ledger[o.id].(now := m.incoming)
    ensures EntriesInv(ledger', count)
  {
    hide Matching;
    TouchedDistinct(ledger, q, o, m);
    IncomingEntry(ledger, q, o, m);
    forall id | id in ledger'
      ensures EntryInv(ledger', count, id)
    {
      assert EntryInv(ledger, count, id);
      if i :| 0 <= i < |m.touched| && m.touched[i].id == id {
        TouchedEntry(ledger, count, q, o, m, i);
      }
    }
  }

  lemma UntouchedStays(ledger: Ledger, q: Queue, o: Order, m: MatchResult, id: string)
    requires Matching(ledger, q, o, m) && Contains(q.Of(o.side.Opposite()), id)
    requires forall i | 0 <= i < |m.touched| :: m.touched[i].id != id
    ensures Contains(m.rest, id)
  {
    var rest := q.Of(o.side.Opposite());
    var j :| 0 <= j < |rest| && rest[j].id == id;
    hide Match, QueueInv;
    TouchedOrders(ledger, q, o, m);
    MatchLeaves(o, rest, m);
    assert j >= |m.touched|;
    hide ClosedForm;
    assert m.rest[|m.rest| - |rest| + j].id == id;
  }

  lemma TouchedPlaced(ledger: Ledger, q: Queue, o: Order, m: MatchResult, i: nat)
    requires Matching(ledger, q, o, m) && i < |m.touched|
    ensures m.touched[i].status == if m.touched[i].FullyAssigned() then Assigned else PartiallyAssigned
    ensures m.touched[i].asset == o.asset && m.touched[i].side == o.side.Opposite()
    ensures !m.touched[i].FullyAssigned() ==> Contains(m.rest, m.touched[i].id)
  {
    TouchedRecord(ledger, q, o, m, i);
    if !m.touched[i].FullyAssigned() {
      assert i == |m.touched| - 1 && m.rest[0] == m.touched[i];
    }
  }

  /** Which queue an order has to be looked for in, when one side was replaced. */
  lemma QueueAfter(queues: map<string, Queue>, asset: string, side: Side, rest: seq<Order>, o: Order)
    requires asset in queues
    ensures InItsQueue(queues[asset := queues[asset].With(side, rest)], o)
       <==> if o.asset == asset && o.side == side then Contains(rest, o.id) else InItsQueue(queues, o)
  {
    hide Contains;
  }

  lemma QueueContains(queues: map<string, Queue>, o: Order)
    ensures InItsQueue(queues, o) ==> o.asset in queues && Contains(queues[o.asset].Of(o.side), o.id)
  {
    hide Contains;
  }

  /** After a match every other order stands in its queue unless it is finished. */
  lemma MatchPlaces(ledger: Ledger, ledger': Ledger, queues: map<string, Queue>, o: Order, m: MatchResult, id: string)
    requires o.asset in queues && Matching(ledger, queues[o.asset], o, m)
    requires Moved(ledger, ledger', o.id, m.touched)
    requires id in ledger && id != o.id && ledger[id].now.id == id && Placed(queues, ledger[id].now)
    ensures Placed(queues[o.asset := queues[o.asset].With(o.side.Opposite(), m.rest)], ledger'[id].now)
  {
    var q := queues[o.asset];
    var now := ledger[id].now;
    hide Matching, Contains, InItsQueue, Order.FullyAssigned;
    QueueAfter(queues, o.asset, o.side.Opposite(), m.rest, now);
    QueueAfter(queues, o.asset, o.side.Opposite(), m.rest, ledger'[id].now);
    QueueContains(queues, now);
    if i :| 0 <= i < |m.touched| && m.touched[i].id == id {
      TouchedPlaced(ledger, q, o, m, i);
    } else if now.asset == o.asset && now.side == o.side.Opposite() && !now.status.IsTerminal() {
      UntouchedStays(ledger, q, o, m, id);
    }
  }

  lemma TouchedPhase(ledger: Ledger, q: Queue, o: Order, m: MatchResult, i: nat, p: Phase)
    requires Matching(ledger, q, o, m) && i < |m.touched|
    requires m.touched[i].id in ledger && p == PhaseFor(ledger[m.touched[i].id].now.status)
    ensures Next(p, RestingKind(m.touched[i])) == PhaseFor(m.touched[i].status)
  {
    hide Matching, FilledResting, Order.Validated;
    TouchedPlaced(ledger, q, o, m, i);
    TouchedDistinct(ledger, q, o, m);
    TouchedRecord(ledger, q, o, m, i);
  }

  /** After a match the events of every other order tell its status; the incoming order's phase is as before. */
  lemma MatchTells(ledger: Ledger, ledger': Ledger, events: seq<Event>, q: Queue, o: Order, m: MatchResult, id: string)
    requires Matching(ledger, q, o, m) && Moved(ledger, ledger', o.id, m.touched)
    ensures |m.fills| == |m.touched|
    ensures var events' := events + MatchEvents(o.id, m.fills, m.touched);
            && ((id == o.id || id !in ledger) ==> PhaseAfter(events', id) == PhaseAfter(events, id))
            && (id in ledger && id != o.id && ledger[id].now.id == id && Told(events, ledger[id].now) ==>
                 Told(events', ledger'[id].now))
  {
    hide Matching, PhaseAfter, RestingKind;
    TouchedDistinct(ledger, q, o, m);
    PhaseMatchEvents(events, o.id, m.fills, m.touched, id);
    if id in ledger && id != o.id && ledger[id].now.id == id && Told(events, ledger[id].now) {
      if i :| 0 <= i < |m.touched| && m.touched[i].id == id {
        TouchedPhase(ledger, q, o, m, i, PhaseAfter(events, id));
      }
    }
  }

  /** The workload invariant while the open workloads of `asset` may be on different marks. */
  ghost predicate BookInvBut(book: Book, log: seq<Fill>, asset: string) {
    && book.Valid()
    && AllMarked(book)
    && (forall other | other != asset :: OneMark(book, other))
    && (forall other :: NetSum(book, other) == 0.0 && BasisSum(book, other) == 0.0)
    && (forall key :: FollowsLog(book, log, key))
  }

  lemma FilledBook(book: Book, log: seq<Fill>, fills: seq<Fill>, asset: string)
    requires BookInvBut(book, log, asset) && Positive(fills) && forall i | 0 <= i < |fills| :: fills[i].asset == asset
    ensures BookInvBut(ApplyFills(book, fills), log + fills, asset)
  {
    hide ApplyFills, NetSum, BasisSum, FollowsLog, OneMark, AllMarked, Book.Valid, Positive;
    ApplyFillsMarked(book, fills, asset);
    forall other
      ensures NetSum(ApplyFills(book, fills), other) == 0.0 && BasisSum(ApplyFills(book, fills), other) == 0.0
    {
      ApplyFillsSums(book, fills, other);
    }
    forall key
      ensures FollowsLog(ApplyFills(book, fills), log + fills, key)
    {
      ApplyFillsFollowLog(book, log, fills, key);
    }
  }

  lemma RepricedBook(book: Book, log: seq<Fill>, asset: string, mark: real)
    requires BookInvBut(book, log, asset)
    ensures BookInv(book.RepriceAsset(asset, mark), log)
  {
    hide Book.RepriceAsset, NetSum, BasisSum, FollowsLog, OneMark, AllMarked, Book.Valid;
    RepricedSums(book, asset, mark);
    RepricedFollows(book, log, asset, mark);
  }

  /** The workloads after the fills of one asset and the repricing that follows them. */
  lemma MatchBook(book: Book, log: seq<Fill>, fills: seq<Fill>, asset: string)
    requires BookInv(book, log) && Positive(fills) && forall i | 0 <= i < |fills| :: fills[i].asset == asset
    ensures fills == [] ==> BookInv(ApplyFills(book, fills), log + fills)
    ensures fills != [] ==> BookInv(ApplyFills(book, fills).RepriceAsset(asset, fills[|fills| - 1].rate), log + fills)
  {
    if fills == [] {
      assert log + fills == log;
    } else {
      assert BookInvBut(book, log, asset);
      hide BookInv, BookInvBut;
      FilledBook(book, log, fills, asset);
      RepricedBook(ApplyFills(book, fills), log + fills, asset, fills[|fills| - 1].rate);
    }
  }

  lemma RepricedSums(b: Book, asset: string, mark: real)
    requires b.Valid() && AllMarked(b)
    ensures var b' := b.RepriceAsset(asset, mark);
            && b'.Valid() && AllMarked(b') && OneMark(b', asset)
            && (forall other :: NetSum(b', other) == NetSum(b, other))
            && (forall other :: BasisSum(b', other) == BasisSum(b, other))
            && (forall other | OneMark(b, other) :: OneMark(b', other))
  {
    hide Book.RepriceAsset, NetSum, BasisSum, OneMark, AllMarked, Book.Valid;
    RepriceAssetSums(b, asset, mark, asset);
    forall other
      ensures var b' := b.RepriceAsset(asset, mark);
              && b'.Valid() && AllMarked(b') && OneMark(b', asset)
              && NetSum(b', other) == NetSum(b, other) && BasisSum(b', other) == BasisSum(b, other)
              && (OneMark(b, other) ==> OneMark(b', other))
    {
      RepriceAssetSums(b, asset, mark, other);
    }
  }

  lemma RepricedFollows(b: Book, log: seq<Fill>, asset: string, mark: real)
    ensures forall key | FollowsLog(b, log, key) :: FollowsLog(b.RepriceAsset(asset, mark), log, key)
  {
    forall key | FollowsLog(b, log, key)
      ensures FollowsLog(b.RepriceAsset(asset, mark), log, key)
    {
      assert At(b.RepriceAsset(asset, mark), key, Net) == At(b, key, Net);
      assert At(b.RepriceAsset(asset, mark), key, Basis) == At(b, key, Basis);
    }
  }
}
