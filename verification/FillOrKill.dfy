/** The complete-or-nothing check agrees with the matcher. */
module FillOrKill {
  import opened Options
  import opened Orders
  import opened FlatMatch
  import opened Dispatch
  import opened QueueInvariant
  import opened Lifecycle
  import opened Invariant
  import opened Steps

  lemma {:induction false} HoursGrow(side: Side, rest: seq<Order>, i: nat, j: nat)
    requires Resting(side, rest) && i <= j <= |rest|
    ensures HoursIn(rest[..i]) <= HoursIn(rest[..j])
  {
    if i < j {
      HoursGrow(side, rest, i, j - 1);
      HoursInAppend(rest, j - 1);
    }
  }

  lemma {:induction false} CrossablePrefix(o: Order, rest: seq<Order>, n: nat)
    requires Resting(o.side.Opposite(), rest) && n <= |rest|
    ensures Crossable(o, rest[..n]) == if Crossable(o, rest) <= n then Crossable(o, rest) else n
  {
    if n > 0 && o.Accepts(RateOf(rest[0])) {
      CrossablePrefix(o, rest[1..], n - 1);
      assert rest[..n][1..] == rest[1..][..n - 1];
    }
  }

  /** The check sees no more than the crossable hours, and all of them when there are few enough levels. */
  lemma AvailableIsCrossable(o: Order, rest: seq<Order>)
    requires Resting(o.side.Opposite(), rest)
    ensures AvailableHours(o, rest) <= HoursIn(rest[..Crossable(o, rest)])
    ensures LevelCount(o.side.Opposite(), rest) <= LEVEL_DEPTH ==>
      AvailableHours(o, rest) == HoursIn(rest[..Crossable(o, rest)])
  {
    var n := InLevels(o.side.Opposite(), rest, LEVEL_DEPTH);
    var k := Crossable(o, rest);
    CrossablePrefix(o, rest, n);
    HoursGrow(o.side.Opposite(), rest, if k <= n then k else n, k);
    assert rest[..n][..if k <= n then k else n] == rest[..if k <= n then k else n];
    if LevelCount(o.side.Opposite(), rest) <= LEVEL_DEPTH {
      AllLevels(o.side.Opposite(), rest, LEVEL_DEPTH);
    }
  }

  /** When the check says yes, the matcher assigns the whole order. */
  lemma YesMeansAll(o: Order, rest: seq<Order>)
    requires o.Validated() && Resting(o.side.Opposite(), rest) && CanAssignFully(o, rest)
    ensures Match(o, rest).incoming.Remaining() == 0.0
  {
    AvailableIsCrossable(o, rest);
    MatchHours(o, rest);
    MatchIncoming(o, rest);
    hide Match, Resting, Crossable, HoursIn, InLevels;
  }

  /** When the check says no and saw every level, the matcher could not have assigned the whole order. */
  lemma NoMeansTooLittle(o: Order, rest: seq<Order>)
    requires o.Validated() && Resting(o.side.Opposite(), rest)
    requires LevelCount(o.side.Opposite(), rest) <= LEVEL_DEPTH
    ensures CanAssignFully(o, rest) <==> Match(o, rest).incoming.Remaining() == 0.0
    ensures CanAssignFully(o, rest) <==> HoursIn(rest[..Crossable(o, rest)]) >= o.Remaining()
  {
    AvailableIsCrossable(o, rest);
    MatchHours(o, rest);
    MatchIncoming(o, rest);
    hide Match, Resting, Crossable, HoursIn, InLevels;
  }

  lemma {:induction false} SomeLevelUnseen(side: Side, rest: seq<Order>, depth: nat)
    requires Resting(side, rest) && depth < LevelCount(side, rest)
    ensures InLevels(side, rest, depth) < |rest|
  {
    if depth > 0 {
      hide Order.Restable;
      SomeLevelUnseen(side, rest[FirstLevel(side, rest)..], depth - 1);
    }
  }

  /** An order at any rate for everything that rests. */
  function TakeAll(asset: string, side: Side, rest: seq<Order>): Order {
    Order("all", "org", asset, side.Opposite(), AnyRate, Complete, HoursIn(rest), None, None, New, 0.0, None)
  }

  lemma {:induction false} AnyRateCrossesAll(o: Order, rest: seq<Order>)
    requires Resting(o.side.Opposite(), rest) && o.mode == AnyRate
    ensures Crossable(o, rest) == |rest|
  {
    if rest != [] {
      AnyRateCrossesAll(o, rest[1..]);
    }
  }

  lemma {:induction false} HoursLeftOut(side: Side, rest: seq<Order>, n: nat)
    requires Resting(side, rest) && n < |rest|
    ensures HoursIn(rest[..n]) < HoursIn(rest)
  {
    HoursInAppend(rest, n);
    HoursGrow(side, rest, n + 1, |rest|);
    assert rest[..|rest|] == rest;
  }

  /** The check says of every order what the matcher would do with it. */
  ghost predicate CheckIsRight(side: Side, rest: seq<Order>)
    requires Resting(side, rest)
  {
    forall o: Order | o.Validated() && o.side.Opposite() == side ::
      CanAssignFully(o, rest) <==> Match(o, rest).incoming.Remaining() == 0.0
  }

  /** Beyond that depth it refuses an order for everything, which the matcher would assign whole. */
  lemma WrongBeyondDepth(asset: string, side: Side, rest: seq<Order>)
    requires Resting(side, rest) && LevelCount(side, rest) > LEVEL_DEPTH
    ensures var o := TakeAll(asset, side, rest);
            && o.Validated() && o.side.Opposite() == side
            && !CanAssignFully(o, rest) && Match(o, rest).incoming.Remaining() == 0.0
  {
    var o := TakeAll(asset, side, rest);
    var n := InLevels(side, rest, LEVEL_DEPTH);
    SomeLevelUnseen(side, rest, LEVEL_DEPTH);
    HoursLeftOut(side, rest, n);
    HoursInNonNegative(side, rest[..n]);
    AnyRateCrossesAll(o, rest);
    AnyRateCrossesAll(o, rest[..n]);
    assert rest[..n][..n] == rest[..n] && rest[..|rest|] == rest;
    MatchHours(o, rest);
    MatchIncoming(o, rest);
    hide Match, Resting, Crossable, HoursIn, InLevels, LevelCount;
  }

  /** It is right about every order exactly as long as the side has no more levels than the check looks at. */
  lemma RightUpToDepth(side: Side, rest: seq<Order>)
    requires Resting(side, rest)
    ensures CheckIsRight(side, rest) <==> LevelCount(side, rest) <= LEVEL_DEPTH
  {
    hide Match, CanAssignFully, LevelCount, Order.Validated, Order.Remaining;
    if LevelCount(side, rest) > LEVEL_DEPTH {
      WrongBeyondDepth("", side, rest);
    } else {
      forall o: Order | o.Validated() && o.side.Opposite() == side
        ensures CanAssignFully(o, rest) <==> Match(o, rest).incoming.Remaining() == 0.0
      {
        NoMeansTooLittle(o, rest);
      }
    }
  }

  /** The opposite side the order will meet. */
  function Facing(s: State, o: Order): seq<Order> {
    if o.asset in s.queues then s.queues[o.asset].Of(o.side.Opposite()) else []
  }

  /** A new order that the engine admits. */
  ghost predicate Admissible(cfg: Config, s: State, o: Order)
    requires cfg.Valid()
  {
    && Inv(s) && o.Validated()
    && o.id !in s.ledger && o.status == New
    && WithinBoundary(cfg, o) && Allowed(cfg, s, o)
  }

  lemma FacingRests(s: State, o: Order)
    requires Inv(s)
    ensures QueuesRest(s) && Resting(o.side.Opposite(), Facing(s, o))
  {
    QueuesInvRest(s);
    hide Inv;
  }

  /** The state in which an admitted order is dispatched. */
  function Admitted(s: State, o: Order): State
  {
    Record(OpenQueue(Enter(s, o), o.asset), OrderAccepted, o.(status := Accepted))
  }

  lemma SubmitDispatches(cfg: Config, s: State, o: Order)
    requires cfg.Valid() && Admissible(cfg, s, o) && QueuesRest(s)
    ensures var accepted := o.(status := Accepted);
            && Ready(Admitted(s, o), accepted)
            && Submit(cfg, s, o) == Dispatched(Admitted(s, o), accepted)
            && Opposite(Admitted(s, o), accepted) == Facing(s, o)
  {
    hide Inv, Working, Latest, QueuesRest, WithinBoundary, Dispatched, Record, Order.Validated;
    EnterWorks(s, o);
    OpenQueueWorks(Enter(s, o), o.asset, o.id, IsSubmitted);
    AdmittedSettles(OpenQueue(Enter(s, o), o.asset), o);
    AdmittedFields(s, o);
  }

  lemma AdmittedFields(s: State, o: Order)
    requires o.id !in s.ledger
    ensures var s' := Admitted(s, o);
            && s'.queues == OpenQueue(s, o.asset).queues && s'.book == s.book && s'.log == s.log
            && s'.ledger.Keys == s.ledger.Keys + {o.id} && s'.ledger[o.id].now == o.(status := Accepted)
            && (forall id | id in s.ledger :: s'.ledger[id] == s.ledger[id])
  {
  }

  lemma CheckIgnoresStatus(o: Order, status: Status, rest: seq<Order>)
    requires Resting(o.side.Opposite(), rest)
    ensures CanAssignFully(o.(status := status), rest) <==> CanAssignFully(o, rest)
  {
    CrossableSameTerms(o, o.(status := status), rest[..InLevels(o.side.Opposite(), rest, LEVEL_DEPTH)]);
  }

  lemma RefusedWhole(s: State, o: Order)
    requires Ready(s, o) && o.window == Complete && !CanAssignFully(o, Opposite(s, o))
    ensures Dispatched(s, o) == Record(s, OrderCancelled, o.(status := Cancelled))
  {
    hide CanAssignFully, Match, Settle, Finalise;
  }

  lemma AssignedWhole(s: State, o: Order)
    requires Ready(s, o) && o.window == Complete && CanAssignFully(o, Opposite(s, o))
    ensures var s' := Dispatched(s, o);
            o.id in s'.ledger && s'.ledger[o.id].now.status == Assigned && s'.ledger[o.id].now.Remaining() == 0.0
  {
    hide CanAssignFully, Match, Settle, Order.Validated;
    YesMeansAll(o, Opposite(s, o));
    MatchFits(s, o);
    SettleReady(s, o, Match(o, Opposite(s, o)));
  }

  /** A complete-or-nothing order ends ASSIGNED with nothing remaining, or CANCELLED with queues, workloads,
      log and every other order untouched; the check decides which. */
  lemma CompleteOrNothing(cfg: Config, s: State, o: Order)
    requires cfg.Valid() && Admissible(cfg, s, o) && o.window == Complete
    ensures QueuesRest(s) && Resting(o.side.Opposite(), Facing(s, o))
    ensures o.id in Submit(cfg, s, o).ledger
    ensures CanAssignFully(o, Facing(s, o)) ==>
              var now := Submit(cfg, s, o).ledger[o.id].now; now.status == Assigned && now.Remaining() == 0.0
    ensures !CanAssignFully(o, Facing(s, o)) ==>
              var s' := Submit(cfg, s, o);
              && s'.ledger[o.id].now == o.(status := Cancelled)
              && s'.queues == OpenQueue(s, o.asset).queues
              && s'.book == s.book && s'.log == s.log
              && forall id | id in s.ledger :: id in s'.ledger && s'.ledger[id] == s.ledger[id]
  {
    hide Inv, CanAssignFully, Submit, Dispatched, OpenQueue, Order.Validated, WithinBoundary, Allowed, QueuesRest,
         Resting, Ready;
    FacingRests(s, o);
    SubmitDispatches(cfg, s, o);
    AdmittedFields(s, o);
    CheckIgnoresStatus(o, Accepted, Facing(s, o));
    var accepted := o.(status := Accepted);
    hide Admissible, Admitted;
    if CanAssignFully(o, Facing(s, o)) {
      AssignedWhole(Admitted(s, o), accepted);
    } else {
      RefusedWhole(Admitted(s, o), accepted);
    }
  }
}
