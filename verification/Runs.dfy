/** What holds of the dispatch engine in every reachable state, and what no later operation can change. */
module Runs {
  import opened Options
  import opened Orders
  import opened FlatMatch
  import W = Workloads
  import opened Dispatch
  import opened QueueInvariant
  import opened Conservation
  import opened Lifecycle
  import opened Invariant
  import opened Steps

  datatype Action =
    | Submitting(order: Order)
    | Cancelling(id: string, scope: Option<string>)
    | Marking(asset: string, mark: real)

  /** Any action the engine can be asked for; orders satisfy their own model's validation. */
  predicate Possible(action: Action) {
    action.Submitting? ==> action.order.Validated()
  }

  function Do(cfg: Config, s: State, action: Action): (s': State)
    requires cfg.Valid() && Inv(s) && Possible(action)
    ensures Inv(s')
  {
    match action
    case Submitting(o) => SubmitKeeps(cfg, s, o); Submit(cfg, s, o)
    case Cancelling(id, scope) => CancelKeeps(s, id, scope); Cancel(s, id, scope)
    case Marking(asset, mark) => RepriceKeeps(s, asset, mark); RepriceStep(s, asset, mark)
  }

  predicate AllPossible(actions: seq<Action>) {
    forall i | 0 <= i < |actions| :: Possible(actions[i])
  }

  function Run(cfg: Config, s: State, actions: seq<Action>): (s': State)
    requires cfg.Valid() && Inv(s) && AllPossible(actions)
    ensures Inv(s')
  {
    if actions == [] then s
    else Do(cfg, Run(cfg, s, actions[..|actions| - 1]), actions[|actions| - 1])
  }

  /** `s` is the state of an engine after some sequence of actions. */
  ghost predicate Reachable(cfg: Config, s: State)
    requires cfg.Valid()
  {
    InitialInv();
    exists actions :: AllPossible(actions) && s == Run(cfg, INITIAL, actions)
  }

  lemma ReachableInv(cfg: Config, s: State)
    requires cfg.Valid() && Reachable(cfg, s)
    ensures Inv(s)
  {
    InitialInv();
    hide Inv;
  }

  lemma InitialReachable(cfg: Config)
    requires cfg.Valid()
    ensures Reachable(cfg, INITIAL)
  {
    InitialInv();
    hide Inv;
    assert AllPossible([]) && INITIAL == Run(cfg, INITIAL, []);
  }

  lemma ReachableStep(cfg: Config, s: State, action: Action)
    requires cfg.Valid() && Reachable(cfg, s) && Possible(action) && Inv(s)
    ensures Reachable(cfg, Do(cfg, s, action))
  {
    InitialInv();
    hide Inv, Do;
    var actions :| AllPossible(actions) && s == Run(cfg, INITIAL, actions);
    assert (actions + [action])[..|actions|] == actions;
    assert AllPossible(actions + [action]) && Do(cfg, s, action) == Run(cfg, INITIAL, actions + [action]);
  }

  // ----- In every reachable state ----------------------------------------------------

  /** Every order in a queue is unfinished, rate-capped, open and the engine's own record ... */
  lemma QueuedOrders(cfg: Config, s: State, a: string, side: Side)
    requires cfg.Valid() && Reachable(cfg, s) && a in s.queues
    ensures forall i | 0 <= i < |s.queues[a].Of(side)| ::
              var o := s.queues[a].Of(side)[i];
              && o.side == side && o.asset == a && o.mode == RateCapped && o.window == Open && o.cap.Some?
              && o.status in {Accepted, PartiallyAssigned} && 0.0 <= o.assignedHours < o.requestedHours
              && o.id in s.ledger && s.ledger[o.id].now == o
    ensures forall i, j | 0 <= i < j < |s.queues[a].Of(side)| ::
              var x, y := s.queues[a].Of(side)[i], s.queues[a].Of(side)[j];
              && x.id != y.id
              && (if side == Request then x.cap.value >= y.cap.value else x.cap.value <= y.cap.value)
              && (x.cap == y.cap ==> s.ledger[x.id].at < s.ledger[y.id].at)
  {
    ReachableInv(cfg, s);
    var list := s.queues[a].Of(side);
    assert QueueInv(s.ledger, a, s.queues[a]);
    assert SideInv(s.ledger, a, side, list);
    hide Reachable, Inv, QueueInv, Order.Restable, Precedes;
    SideDistinct(s.ledger, a, side, list);
    forall i | 0 <= i < |list|
      ensures list[i].asset == a && list[i].id in s.ledger && s.ledger[list[i].id].now == list[i]
    {
      assert Known(s.ledger, a, list[i]);
    }
  }

  /** ... every unfinished order is in its queue ... */
  lemma UnfinishedQueued(cfg: Config, s: State, id: string)
    requires cfg.Valid() && Reachable(cfg, s) && id in s.ledger && !s.ledger[id].now.status.IsTerminal()
    ensures var o := s.ledger[id].now; o.asset in s.queues && o in s.queues[o.asset].Of(o.side)
  {
    ReachableInv(cfg, s);
    var o := s.ledger[id].now;
    assert Placed(s.queues, o) && EntryInv(s.ledger, s.count, id);
    assert QueueInv(s.ledger, o.asset, s.queues[o.asset]);
    var list := s.queues[o.asset].Of(o.side);
    assert SideInv(s.ledger, o.asset, o.side, list);
    hide Reachable, Inv, QueueInv, Order.Restable, Precedes;
    var i :| 0 <= i < |list| && list[i].id == id;
    assert Known(s.ledger, o.asset, list[i]);
  }

  /** ... and no request is as good as any offer. */
  lemma NeverCrossed(cfg: Config, s: State, a: string)
    requires cfg.Valid() && Reachable(cfg, s) && a in s.queues
    ensures forall i, j | 0 <= i < |s.queues[a].requests| && 0 <= j < |s.queues[a].offers| ::
              RateOf(s.queues[a].requests[i]) < RateOf(s.queues[a].offers[j])
  {
    ReachableInv(cfg, s);
    assert QueueInv(s.ledger, a, s.queues[a]);
    hide Reachable, Inv, SideInv;
  }

  /** Over all organizations the net hours of an asset sum to zero, and so does its cost. */
  lemma ZeroSum(cfg: Config, s: State, asset: string)
    requires cfg.Valid() && Reachable(cfg, s)
    ensures W.NetSum(s.book, asset) == 0.0 && W.CostSum(s.book, asset) == 0.0
  {
    ReachableInv(cfg, s);
    assert BookInv(s.book, s.log);
    hide Reachable, Inv;
    W.ZeroCost(s.book, asset);
  }

  /** Each workload is what the assignment log says: net hours, and cost on top of its average and mark. */
  lemma WorkloadsFollowLog(cfg: Config, s: State, key: W.Key)
    requires cfg.Valid() && Reachable(cfg, s)
    ensures key !in s.book.loads ==> W.LogSum(s.log, key, W.HoursOf) == 0.0
    ensures key in s.book.loads ==>
              var w := s.book.loads[key];
              && w.net == W.LogSum(s.log, key, W.HoursOf)
              && w.realized == w.avg * w.net + W.LogSum(s.log, key, W.CostOf)
              && (w.last.Some? ==> w.Total() == w.last.value * w.net + W.LogSum(s.log, key, W.CostOf))
  {
    assert W.FollowsLog(s.book, s.log, key) && W.AllMarked(s.book) by {
      hide Reachable, W.FollowsLog, W.AllMarked, W.LogSum, W.Basis, W.Load.Total;
      ReachableInv(cfg, s);
    }
    hide *;
    W.FollowedLoad(s.book, s.log, key);
  }

  /** The hours half of one entry. */
  lemma EntryHours(ledger: Ledger, count: nat, log: seq<Fill>, id: string)
    requires id in ledger && EntryInv(ledger, count, id) && Accounted(log, ledger[id])
    ensures var e := ledger[id];
            && e.now.assignedHours == e.first.assignedHours + OrderSum(log, id, W.HoursOf)
            && 0.0 <= e.now.assignedHours <= e.now.requestedHours == e.first.requestedHours
  {
    hide OrderSum, Costed;
  }

  /** The average rate of an order times its hours is `value`; it is at most the cap a rate-capped request arrived
      with, and at least the ask of such an offer. */
  predicate PaidFor(e: Entry, value: real) {
    && e.now.avg.Some?
    && e.now.avg.value * e.now.assignedHours == value
    && (e.first.mode == RateCapped ==>
          e.first.cap.Some?
          && if e.first.side == Request then e.now.avg.value <= e.first.cap.value
             else e.now.avg.value >= e.first.cap.value)
  }

  /** The money half of one entry. */
  lemma EntryMoney(ledger: Ledger, count: nat, log: seq<Fill>, id: string)
    requires id in ledger && EntryInv(ledger, count, id) && Accounted(log, ledger[id])
    requires ledger[id].first.assignedHours == 0.0 && ledger[id].now.assignedHours > 0.0
    ensures PaidFor(ledger[id], OrderSum(log, id, ValueOf))
  {
    hide OrderSum;
    var e := ledger[id];
    assert Costed(e.now, OrderSum(log, id, ValueOf));
    hide Accounted;
  }

  /** What is known of one entry in a reachable state. */
  lemma EntryFacts(cfg: Config, s: State, id: string)
    requires cfg.Valid() && Reachable(cfg, s) && id in s.ledger
    ensures EntryInv(s.ledger, s.count, id) && Accounted(s.log, s.ledger[id])
  {
    ReachableInv(cfg, s);
    hide Reachable, EntryInv, Accounted, Placed, Told, QueuesInv, BookInv, Silent;
  }

  /** The hours of each order are those of its assignments, never more than requested; and if it arrived
      unassigned, its average rate times its hours is their value and keeps the order's own limit. */
  lemma OrderAccounts(cfg: Config, s: State, id: string)
    requires cfg.Valid() && Reachable(cfg, s) && id in s.ledger
    ensures var e := s.ledger[id];
            && e.now.assignedHours == e.first.assignedHours + OrderSum(s.log, id, W.HoursOf)
            && 0.0 <= e.now.assignedHours <= e.now.requestedHours == e.first.requestedHours
            && (e.first.assignedHours == 0.0 && e.now.assignedHours > 0.0 ==> PaidFor(e, OrderSum(s.log, id, ValueOf)))
  {
    hide Reachable, EntryInv, Accounted, PaidFor, OrderSum;
    EntryFacts(cfg, s, id);
    EntryHours(s.ledger, s.count, s.log, id);
    var e := s.ledger[id];
    if e.first.assignedHours == 0.0 && e.now.assignedHours > 0.0 {
      EntryMoney(s.ledger, s.count, s.log, id);
    }
  }

  /** The published events of any id form a word of the lifecycle language, and its last letter tells the
      order's status. */
  lemma LifecycleWords(cfg: Config, s: State, id: string)
    requires cfg.Valid() && Reachable(cfg, s)
    ensures InLanguage(Word(s.events, id))
    ensures id in s.ledger <==> Word(s.events, id) != []
    ensures id in s.ledger ==> PhaseAfter(s.events, id) == PhaseFor(s.ledger[id].now.status)
  {
    hide Reachable, QueuesInv, AccountsInv, BookInv, Word, InLanguage, PhaseOf, Order.Validated;
    ReachableInv(cfg, s);
    if id in s.ledger {
      assert EntryInv(s.ledger, s.count, id);
    }
    PhaseMeansLanguage(Word(s.events, id));
    EmptyWord(Word(s.events, id));
  }

  /** An id is submitted at most once in a whole run. */
  lemma SubmittedOnce(cfg: Config, s: State, id: string)
    requires cfg.Valid() && Reachable(cfg, s)
    ensures var word := Word(s.events, id); forall i | 0 <= i < |word| :: word[i] == OrderSubmitted <==> i == 0
  {
    hide Reachable, Word, PhaseAfter;
    LifecycleWords(cfg, s, id);
    var word := Word(s.events, id);
    forall i | 0 <= i < |word|
      ensures word[i] == OrderSubmitted <==> i == 0
    {
    }
  }

  // ----- What no later action changes ------------------------------------------------

  /** Histories only grow, and what the engine recorded about an order on arrival stays. */
  ghost predicate Extends(s: State, s': State) {
    && s.events <= s'.events
    && s.log <= s'.log
    && (forall id | id in s.ledger ::
          id in s'.ledger && s'.ledger[id].first == s.ledger[id].first && s'.ledger[id].at == s.ledger[id].at)
    && (forall id | id in s.ledger && s.ledger[id].now.status.IsTerminal() :: s'.ledger[id] == s.ledger[id])
  }

  /** What happens to a newcomer is no matter for the orders known before it. */
  lemma NewcomerExtends(s0: State, s: State, kind: Kind, o: Order)
    requires Extends(s0, s) && o.id !in s0.ledger && o.id in s.ledger
    ensures Extends(s0, Record(s, kind, o))
  {
  }

  lemma ExtendsTransitive(a: State, b: State, c: State)
    requires Extends(a, b) && Extends(b, c)
    ensures Extends(a, c)
  {
  }

  /** The orders a match touches were unfinished before it. */
  lemma TouchedUnfinished(ledger: Ledger, q: Queue, o: Order, m: MatchResult)
    requires Matching(ledger, q, o, m)
    ensures forall i | 0 <= i < |m.touched| ::
              m.touched[i].id in ledger && !ledger[m.touched[i].id].now.status.IsTerminal()
  {
    hide Matching, Order.Validated, FilledResting;
    TouchedDistinct(ledger, q, o, m);
    forall i | 0 <= i < |m.touched|
      ensures !ledger[m.touched[i].id].now.status.IsTerminal()
    {
      TouchedRecord(ledger, q, o, m, i);
    }
  }

  lemma MovedExtends(ledger: Ledger, ledger': Ledger, o: Order, incoming: Order, touched: seq<Order>)
    requires Moved(ledger, ledger', o.id, touched) && o.id in ledger && ledger'[o.id] == ledger[o.id].(now := incoming)
    requires !ledger[o.id].now.status.IsTerminal()
    requires forall i | 0 <= i < |touched| :: !ledger[touched[i].id].now.status.IsTerminal()
    ensures forall id | id in ledger ::
              id in ledger' && ledger'[id].first == ledger[id].first && ledger'[id].at == ledger[id].at
    ensures forall id | id in ledger && ledger[id].now.status.IsTerminal() :: ledger'[id] == ledger[id]
  {
    hide Status.IsTerminal;
    forall id | id in ledger
      ensures ledger'[id].first == ledger[id].first && ledger'[id].at == ledger[id].at
    {
      if i :| 0 <= i < |touched| && touched[i].id == id {
      }
    }
  }

  lemma SettleExtends(s: State, o: Order, p: Phase)
    requires AtWork(s, o, p) && Ready(s, o) && Fits(s, o, Match(o, Opposite(s, o))) && !o.status.IsTerminal()
    ensures var s' := Settle(s, o, Match(o, Opposite(s, o)));
            Extends(s, s') && o.id in s'.ledger && s'.ledger[o.id].now.status == o.status
  {
    hide Match, Matching, Moved, Touch, W.ApplyFills, MatchEvents, Core, Order.Validated;
    var m := Match(o, Opposite(s, o));
    AtWorkMatching(s, o, p);
    SettleMoved(s, o, m);
    TouchedDistinct(s.ledger, s.queues[o.asset], o, m);
    TouchedUnfinished(s.ledger, s.queues[o.asset], o, m);
    MovedExtends(s.ledger, Settle(s, o, m).ledger, o, m.incoming, m.touched);
  }

  /** The queues are no matter either. */
  lemma QueuesExtend(s0: State, s: State, queues: map<string, Queue>)
    requires Extends(s0, s)
    ensures Extends(s0, s.(queues := queues))
  {
  }

  lemma FinaliseExtends(s0: State, s: State, o: Order, matched: bool)
    requires Ready(s, o) && Extends(s0, s) && o.id !in s0.ledger
    ensures Extends(s0, Finalise(s, o, matched))
  {
    hide QueuesRest, Insert, Order.Validated, Extends;
    var partial := o.(status := PartiallyAssigned);
    var s1 := if matched then Record(s, OrderPartiallyAssigned, partial) else s;
    NewcomerExtends(s0, s, OrderPartiallyAssigned, partial);
    if o.FullyAssigned() {
      NewcomerExtends(s0, s, OrderAssigned, o.(status := Assigned));
    } else if o.mode == RateCapped && o.window == Open {
      QueuesExtend(s0, s1, Finalise(s, o, matched).queues);
    } else {
      NewcomerExtends(s0, s1, OrderCancelled, o.(status := Cancelled));
    }
  }

  lemma DispatchedExtends(s0: State, s: State, o: Order)
    requires AtWork(s, o, IsAccepted) && Ready(s, o) && o.status == Accepted
    requires Extends(s0, s) && o.id !in s0.ledger
    ensures Extends(s0, Dispatched(s, o))
  {
    hide AtWork, Extends, Match, Settle, Finalise, CanAssignFully, Record, Order.Validated;
    if o.window == Complete && !CanAssignFully(o, Opposite(s, o)) {
      NewcomerExtends(s0, s, OrderCancelled, o.(status := Cancelled));
    } else {
      var m := Match(o, Opposite(s, o));
      MatchFits(s, o);
      SettleReady(s, o, m);
      SettleExtends(s, o, IsAccepted);
      ExtendsTransitive(s0, s, Settle(s, o, m));
      FinaliseExtends(s0, Settle(s, o, m), m.incoming, m.fills != []);
    }
  }

  lemma EnterExtends(s: State, o: Order)
    requires o.id !in s.ledger
    ensures Extends(s, Enter(s, o)) && Extends(s, OpenQueue(Enter(s, o), o.asset))
  {
  }

  lemma SubmitExtends(cfg: Config, s: State, o: Order)
    requires cfg.Valid() && Inv(s) && QueuesRest(s) && o.Validated()
    ensures Extends(s, Submit(cfg, s, o))
  {
    if o.id !in s.ledger {
      hide Extends, Inv, Working, QueuesRest, WithinBoundary, Allowed, Dispatched, Latest, Order.Validated, Ready,
           Record;
      var s1 := Enter(s, o);
      var s2 := OpenQueue(s1, o.asset);
      EnterExtends(s, o);
      EnterWorks(s, o);
      if o.status != New || !WithinBoundary(cfg, o) {
        NewcomerExtends(s, s1, OrderRejected, o.(status := Rejected));
      } else {
        OpenQueueWorks(s1, o.asset, o.id, IsSubmitted);
        if !Allowed(cfg, s2, o) {
          NewcomerExtends(s, s2, OrderRejected, o.(status := Rejected));
        } else {
          AdmittedExtends(s, s2, o);
        }
      }
    }
  }

  lemma AdmittedExtends(s0: State, s: State, o: Order)
    requires Working(s, o.id, IsSubmitted) && Latest(s.ledger, o.id) && o.asset in s.queues && s.ledger[o.id].now == o
    requires Extends(s0, s) && o.id !in s0.ledger
    ensures var accepted := o.(status := Accepted); var s' := Record(s, OrderAccepted, accepted);
            Ready(s', accepted) && Extends(s0, Dispatched(s', accepted))
  {
    hide Working, Extends, AtWork, Record, QueuesRest, Dispatched, Order.Validated;
    var accepted := o.(status := Accepted);
    NewcomerExtends(s0, s, OrderAccepted, accepted);
    AdmittedAtWork(s, o);
    DispatchedExtends(s0, Record(s, OrderAccepted, accepted), accepted);
  }

  lemma AdmittedAtWork(s: State, o: Order)
    requires Working(s, o.id, IsSubmitted) && Latest(s.ledger, o.id) && o.asset in s.queues
    requires s.ledger[o.id].now == o
    ensures var accepted := o.(status := Accepted); var s' := Record(s, OrderAccepted, accepted);
            AtWork(s', accepted, IsAccepted) && Ready(s', accepted)
  {
    hide Core, NotQueued, OthersSettled, PhaseAfter, QueuesRest;
    var accepted := o.(status := Accepted);
    RecordWorks(s, OrderAccepted, o.id, IsSubmitted, Accepted);
    AtWorkReady(Record(s, OrderAccepted, accepted), accepted, IsAccepted);
  }

  lemma CancelExtends(s: State, id: string, asset: Option<string>)
    requires Inv(s)
    ensures Extends(s, Cancel(s, id, asset))
  {
    hide Inv, Withdrawn, Contains;
    if Cancellable(s, id, asset) {
      QueuedIsActive(s, id);
      hide Cancellable;
    }
  }

  lemma DoExtends(cfg: Config, s: State, action: Action)
    requires cfg.Valid() && Inv(s) && Possible(action)
    ensures Extends(s, Do(cfg, s, action))
  {
    match action
    case Submitting(o) =>
      SubmitKeeps(cfg, s, o);
      SubmitExtends(cfg, s, o);
    case Cancelling(id, scope) => CancelExtends(s, id, scope);
    case Marking(asset, mark) => hide Inv;
  }

  lemma {:induction false} RunExtends(cfg: Config, s: State, actions: seq<Action>)
    requires cfg.Valid() && Inv(s) && AllPossible(actions)
    ensures Extends(s, Run(cfg, s, actions))
  {
    if actions != [] {
      hide Inv, Do, Extends;
      var init := actions[..|actions| - 1];
      RunExtends(cfg, s, init);
      DoExtends(cfg, Run(cfg, s, init), actions[|actions| - 1]);
      ExtendsTransitive(s, Run(cfg, s, init), Run(cfg, s, actions));
    } else {
      hide Inv;
    }
  }

  /** Once an order is finished, no run changes any field of it or publishes another event for it. */
  lemma FinishedForEver(cfg: Config, s: State, actions: seq<Action>, id: string)
    requires cfg.Valid() && Inv(s) && AllPossible(actions)
    requires id in s.ledger && s.ledger[id].now.status.IsTerminal()
    ensures var s' := Run(cfg, s, actions);
            id in s'.ledger && s'.ledger[id] == s.ledger[id] && Word(s'.events, id) == Word(s.events, id)
  {
    hide Run, Core, Word, PhaseOf, Order.Validated;
    var s' := Run(cfg, s, actions);
    RunExtends(cfg, s, actions);
    assert s.events <= s'.events && id in s'.ledger && s'.ledger[id] == s.ledger[id];
    FinishedPhase(s, id);
    FinishedPhase(s', id);
    hide Inv, Extends;
    WordGrows(s.events, s'.events, id);
    WordEnds(Word(s.events, id), Word(s'.events, id));
  }

  lemma FinishedPhase(s: State, id: string)
    requires Inv(s) && id in s.ledger && s.ledger[id].now.status.IsTerminal()
    ensures PhaseOf(Word(s.events, id)) in {IsRejected, IsAssigned, IsCancelled}
  {
    hide QueuesInv, AccountsInv, BookInv, Silent, Word, PhaseOf, InItsQueue, Order.Validated, Told, Placed;
    assert EntryInv(s.ledger, s.count, id);
    assert Told(s.events, s.ledger[id].now) && Placed(s.queues, s.ledger[id].now);
    hide Inv;
    FinalPhase(s.events, s.queues, s.ledger[id].now);
  }

  lemma FinalPhase(events: seq<Event>, queues: map<string, Queue>, o: Order)
    requires Told(events, o) && Placed(queues, o) && o.status.IsTerminal()
    ensures PhaseOf(Word(events, o.id)) in {IsRejected, IsAssigned, IsCancelled}
  {
    hide Word, PhaseOf, InItsQueue;
  }
}
