/** What one submission, cancellation or repricing leaves behind, said of the fields of the engine's state: which
    orders are refused, where a residual goes, what becomes of every other order, queue and workload, and which
    events tell of it. */
module Outcomes {
  import opened Options
  import opened Orders
  import opened FlatMatch
  import W = Workloads
  import opened Dispatch
  import opened QueueInvariant
  import opened Conservation
  import opened Lifecycle
  import opened Invariant
  import opened Steps
  import opened FillOrKill
  import Runs

  // ----- Admission -------------------------------------------------------------------------------------

  /** `x` is `n` times `unit`. */
  predicate Counts(n: nat, unit: real, x: real) {
    n > 0 && x == n as real * unit
  }

  ghost predicate IsCounted(unit: real, x: real) {
    exists n: nat :: Counts(n, unit, x)
  }

  lemma MultipleIsCounted(x: real, unit: real)
    requires unit > 0.0
    ensures IsMultiple(x, unit) <==> IsCounted(unit, x)
  {
    if IsMultiple(x, unit) {
      var n := (x / unit).Floor;
      SignOfFactor(n as real, unit);
      assert n != 0;
      assert Counts(n, unit, x);
    }
    if IsCounted(unit, x) {
      var n: nat :| Counts(n, unit, x);
      assert x / unit == n as real;
      assert n as real * unit > 0.0;
    }
  }

  /** What keeps a new order out: it is not NEW, its mode or window is not served, its asset is not among the
      equipment, its hours are not a positive multiple of the lot, its cap is not one of the increment, or the
      check says no to it and the workload its organization has, if it has one. */
  ghost predicate Refusable(cfg: Config, s: State, o: Order)
    requires cfg.Valid()
  {
    || o.status != New
    || o.mode.Escalation? || o.mode.EscalationCapped?
    || o.window.Shift? || o.window.ScheduledEnd?
    || (cfg.equipment != map[] &&
          (|| o.asset !in cfg.equipment
           || !IsCounted(cfg.equipment[o.asset].hourLot, o.requestedHours)
           || (o.cap.Some? && !IsCounted(cfg.equipment[o.asset].rateIncrement, o.cap.value))))
    || (cfg.check.Some? &&
          var key := W.Key(o.org, o.asset);
          !cfg.check.value(o, if key in s.book.loads then Some(s.book.loads[key]) else None))
  }

  lemma RefusableIs(cfg: Config, s: State, o: Order)
    requires cfg.Valid()
    ensures Refusable(cfg, s, o) <==> o.status != New || !WithinBoundary(cfg, o) || !Allowed(cfg, s, o)
  {
    if o.asset in cfg.equipment {
      MultipleIsCounted(o.requestedHours, cfg.equipment[o.asset].hourLot);
      if o.cap.Some? {
        MultipleIsCounted(o.cap.value, cfg.equipment[o.asset].rateIncrement);
      }
    }
    hide IsMultiple, IsCounted;
  }

  // ----- The residual ----------------------------------------------------------------------------------

  /** What the match left of the order: nothing, hours that rest, or hours that are stood down. */
  lemma ResidualIs(s: State, o: Order, matched: bool)
    requires Ready(s, o) && s.ledger[o.id].now == o
    ensures var s' := Finalise(s, o, matched);
            var left := o.assignedHours < o.requestedHours;
            var rests := left && o.mode == RateCapped && o.window == Open;
            var status := if !left then Assigned else if !rests then Cancelled
                else if matched then PartiallyAssigned else o.status;
            && s'.ledger == s.ledger[o.id := s.ledger[o.id].(now := o.(status := status))]
            && s'.count == s.count && s'.log == s.log && s'.book == s.book
            && s'.queues == (if !rests then s.queues
                             else s.queues[o.asset := s.queues[o.asset].With(o.side,
                                  Insert(o.side, s.queues[o.asset].Of(o.side), o.(status := status)))])
  {
    hide QueuesRest, Insert, Order.Validated;
  }

  /** An admitted order is at work before it is matched. */
  lemma AdmittedWorks(cfg: Config, s: State, o: Order)
    requires cfg.Valid() && Admissible(cfg, s, o)
    ensures AtWork(Admitted(s, o), o.(status := Accepted), IsAccepted)
  {
    hide Inv, Working, Latest, QueuesRest, WithinBoundary, Allowed, Record, Ready, AtWork, Order.Validated;
    EnterWorks(s, o);
    OpenQueueWorks(Enter(s, o), o.asset, o.id, IsSubmitted);
    Runs.AdmittedAtWork(OpenQueue(Enter(s, o), o.asset), o);
  }

  /** The admitted order is matched unless it is COMPLETE and cannot be served whole. */
  ghost predicate Matched(o: Order, rest: seq<Order>)
    requires Resting(o.side.Opposite(), rest)
  {
    o.window != Complete || CanAssignFully(o, rest)
  }

  /** The match of an admitted order. */
  function MatchOf(s: State, o: Order): MatchResult
    requires o.Validated() && Resting(o.side.Opposite(), Facing(s, o))
  {
    Match(o.(status := Accepted), Facing(s, o))
  }

  /** The engine between admission and residual: the state after the match. */
  lemma SubmitUnfolds(cfg: Config, s: State, o: Order)
    requires cfg.Valid() && Admissible(cfg, s, o)
    ensures QueuesRest(s) && Resting(o.side.Opposite(), Facing(s, o))
    ensures Matched(o, Facing(s, o)) ==>
              var s1, a, m := Admitted(s, o), o.(status := Accepted), MatchOf(s, o);
              && Ready(s1, a) && Fits(s1, a, m) && Ready(Settle(s1, a, m), m.incoming)
              && Submit(cfg, s, o) == Finalise(Settle(s1, a, m), m.incoming, m.fills != [])
              && Matching(s1.ledger, s1.queues[o.asset], a, m)
  {
    hide Inv, CanAssignFully, Submit, Match, Settle, Finalise, OpenQueue, Order.Validated, WithinBoundary, Allowed,
         QueuesRest, Resting, Fits, Matching, AtWork;
    FacingRests(s, o);
    SubmitDispatches(cfg, s, o);
    AdmittedWorks(cfg, s, o);
    CheckIgnoresStatus(o, Accepted, Facing(s, o));
    var s1, a := Admitted(s, o), o.(status := Accepted);
    hide Admissible, Admitted;
    if Matched(o, Facing(s, o)) {
      MatchFits(s1, a);
      SettleReady(s1, a, MatchOf(s, o));
      AtWorkMatching(s1, a, IsAccepted);
    }
  }

  /** What the match leaves in the state. */
  lemma AfterMatch(s: State, o: Order, m: MatchResult)
    requires Ready(s, o) && Fits(s, o, m) && Matching(s.ledger, s.queues[o.asset], o, m)
    ensures var s' := Settle(s, o, m);
            && Moved(s.ledger, s'.ledger, o.id, m.touched) && s'.ledger[o.id] == s.ledger[o.id].(now := m.incoming)
            && s'.queues == s.queues[o.asset := s.queues[o.asset].With(o.side.Opposite(), m.rest)]
            && s'.count == s.count && s'.log == s.log + m.fills
            && s'.events == s.events + MatchEvents(o.id, m.fills, m.touched)
  {
    SettleMoved(s, o, m);
    hide Matching, Moved, W.ApplyFills, MatchEvents, Touch, Ready, Order.Validated;
  }

  /** What an admitted order ends as. Nothing left: ASSIGNED. Hours left of an OPEN rate-capped order: it stays,
      PARTIALLY_ASSIGNED if anything was assigned and ACCEPTED otherwise. Hours left of any other: CANCELLED. What it
      was assigned is the smaller of what it needed and what it could cross. */
  lemma ResidualOutcome(cfg: Config, s: State, o: Order)
    requires cfg.Valid() && Admissible(cfg, s, o)
    ensures QueuesRest(s) && Resting(o.side.Opposite(), Facing(s, o))
    ensures Matched(o, Facing(s, o)) ==> o.id in Submit(cfg, s, o).ledger
    ensures Matched(o, Facing(s, o)) ==>
              var now, m := Submit(cfg, s, o).ledger[o.id].now, MatchOf(s, o);
              var need := o.requestedHours - o.assignedHours;
              var offered := HoursIn(Facing(s, o)[..Crossable(o, Facing(s, o))]);
              && now == o.(status := now.status, avg := m.incoming.avg,
                           assignedHours := o.assignedHours + if need <= offered then need else offered)
              && (now.assignedHours == o.requestedHours ==> now.status == Assigned)
              && (now.assignedHours < o.requestedHours ==>
                    now.status == if o.mode != RateCapped || o.window != Open then Cancelled
                                  else if now.assignedHours > o.assignedHours then PartiallyAssigned
                                  else Accepted)
  {
    hide Match, Settle, Finalise, Submit, Inv, Fits, Matching, Moved, CanAssignFully, WithinBoundary, Allowed,
         QueuesRest, HoursIn, Crossable, MatchEvents, FillHours, Resting, Record, Facing;
    SubmitUnfolds(cfg, s, o);
    if Matched(o, Facing(s, o)) {
      var s1, a, m := Admitted(s, o), o.(status := Accepted), MatchOf(s, o);
      AfterMatch(s1, a, m);
      AssignedHours(s, o);
      AnyFills(a, Facing(s, o));
      ResidualIs(Settle(s1, a, m), m.incoming, m.fills != []);
    }
  }

  lemma AssignedHours(s: State, o: Order)
    requires o.Validated() && Resting(o.side.Opposite(), Facing(s, o))
    ensures var m := MatchOf(s, o);
            && m.incoming == o.(status := Accepted, assignedHours := o.assignedHours + FillHours(m.fills),
                 avg := m.incoming.avg)
            && FillHours(m.fills) == Min(o.Remaining(), HoursIn(Facing(s, o)[..Crossable(o, Facing(s, o))]))
  {
    var a := o.(status := Accepted);
    MatchIncoming(a, Facing(s, o));
    MatchHours(a, Facing(s, o));
    CrossableSameTerms(o, a, Facing(s, o));
    hide Match, Crossable, HoursIn, Facing;
  }

  lemma {:induction false} HoursOfFills(fills: seq<Fill>)
    requires forall i | 0 <= i < |fills| :: fills[i].hours > 0.0
    ensures FillHours(fills) >= 0.0 && (fills != [] ==> FillHours(fills) > 0.0)
  {
    if fills != [] {
      HoursOfFills(fills[1..]);
    }
  }

  lemma AnyFills(o: Order, rest: seq<Order>)
    requires o.Validated() && Resting(o.side.Opposite(), rest)
    ensures var fills := Match(o, rest).fills; fills != [] <==> FillHours(fills) > 0.0
  {
    MatchClosedForm(o, rest);
    MatchTouched(o, rest, Match(o, rest));
    hide Match, ClosedForm;
    HoursOfFills(Match(o, rest).fills);
  }

  // ----- The queues ------------------------------------------------------------------------------------

  /** The orders of one side of an asset. */
  function SideOf(s: State, asset: string, side: Side): seq<Order> {
    if asset in s.queues then s.queues[asset].Of(side) else []
  }

  /** `o` joined the list behind everything at its rate or a better one, and before everything at a worse one. */
  ghost predicate Joined(before: seq<Order>, o: Order, after: seq<Order>, n: nat) {
    && n <= |before| && after == before[..n] + [o] + before[n..] && o.cap.Some?
    && forall i | 0 <= i < |before| ::
         before[i].cap.Some?
         && (i < n <==> if o.side == Request then before[i].cap.value >= o.cap.value
                        else before[i].cap.value <= o.cap.value)
  }

  lemma InsertJoins(ledger: Ledger, asset: string, list: seq<Order>, o: Order) returns (n: nat)
    requires SideInv(ledger, asset, o.side, list) && o.cap.Some?
    ensures Joined(list, o, Insert(o.side, list, o), n)
  {
    n := InsertPlace(o.side, list, o);
    SideDistinct(ledger, asset, o.side, list);
    hide Insert;
    forall i | 0 <= i < |list|
      ensures list[i].cap.Some?
      ensures i < n <==> if o.side == Request then list[i].cap.value >= o.cap.value
                         else list[i].cap.value <= o.cap.value
    {
      assert list[i].Restable();
      if n < i {
        assert !Better(o.side, RateOf(list[i]), RateOf(list[n])) && list[n].Restable();
      }
    }
  }

  lemma SideOfInv(s: State, asset: string, side: Side)
    requires Inv(s)
    ensures SideInv(s.ledger, asset, side, SideOf(s, asset, side))
  {
    if asset in s.queues {
      assert QueueInv(s.ledger, asset, s.queues[asset]);
    }
  }

  /** The residual and the queues: only its own side of its own asset, and only if it rests. */
  lemma QueuesAfter(s: State, o: Order, matched: bool)
    requires Ready(s, o) && s.ledger[o.id].now == o
    ensures var s' := Finalise(s, o, matched);
            && o.id in s'.ledger && s'.queues.Keys == s.queues.Keys
            && (forall a | a in s.queues && a != o.asset :: s'.queues[a] == s.queues[a])
            && s'.queues[o.asset].Of(o.side.Opposite()) == s.queues[o.asset].Of(o.side.Opposite())
            && s'.ledger[o.id].now == o.(status := s'.ledger[o.id].now.status)
            && s'.queues[o.asset].Of(o.side)
               == var own := s.queues[o.asset].Of(o.side);
                  if o.assignedHours < o.requestedHours && o.mode == RateCapped && o.window == Open
                  then Insert(o.side, own, s'.ledger[o.id].now) else own
  {
    hide Finalise, QueuesRest, Insert, Order.Validated;
    ResidualIs(s, o, matched);
  }

  /** Where an admitted order goes: an unfinished one joins its own side at its place in rate and time, and the side
      is as it was when it is finished; the match took what it took from the other side; no other asset's queue
      changes. */
  lemma ResidualQueue(cfg: Config, s: State, o: Order)
    requires cfg.Valid() && Admissible(cfg, s, o)
    ensures QueuesRest(s) && Resting(o.side.Opposite(), Facing(s, o))
    ensures Matched(o, Facing(s, o)) ==>
              var s', m := Submit(cfg, s, o), MatchOf(s, o);
              && o.id in s'.ledger && s'.queues.Keys == s.queues.Keys + {o.asset}
              && (forall a | a in s.queues && a != o.asset :: s'.queues[a] == s.queues[a])
              && s'.queues[o.asset].Of(o.side.Opposite()) == m.rest
              && var now := s'.ledger[o.id].now;
                 var own, own' := SideOf(s, o.asset, o.side), s'.queues[o.asset].Of(o.side);
                 if now.assignedHours < o.requestedHours && o.mode == RateCapped && o.window == Open
                 then exists n: nat :: Joined(own, now, own', n)
                 else own' == own
  {
    hide Match, Settle, Finalise, Submit, Inv, Fits, Matching, Moved, CanAssignFully, WithinBoundary, Allowed,
         QueuesRest, HoursIn, Crossable, MatchEvents, FillHours, Resting, Insert, Joined, SideInv, Admitted;
    SubmitUnfolds(cfg, s, o);
    AdmittedFields(s, o);
    AdmittedEntry(s, o);
    if Matched(o, Facing(s, o)) {
      var s1, a, m := Admitted(s, o), o.(status := Accepted), MatchOf(s, o);
      AfterMatch(s1, a, m);
      AssignedHours(s, o);
      SideOfInv(s, o.asset, o.side);
      QueuesAfter(Settle(s1, a, m), m.incoming, m.fills != []);
      var now := Submit(cfg, s, o).ledger[o.id].now;
      if o.mode == RateCapped {
        var n := InsertJoins(s.ledger, o.asset, SideOf(s, o.asset, o.side), now);
        assert Settle(s1, a, m).queues[o.asset].Of(o.side) == SideOf(s, o.asset, o.side);
      }
    }
  }

  /** A finished order stands in no queue. */
  lemma FinishedNotQueued(s: State, id: string)
    requires Inv(s) && id in s.ledger && s.ledger[id].now.status.IsTerminal()
    ensures forall a | a in s.queues ::
              && (forall i | 0 <= i < |s.queues[a].requests| :: s.queues[a].requests[i].id != id)
              && (forall i | 0 <= i < |s.queues[a].offers| :: s.queues[a].offers[i].id != id)
  {
    forall a | a in s.queues
      ensures forall i | 0 <= i < |s.queues[a].requests| :: s.queues[a].requests[i].id != id
      ensures forall i | 0 <= i < |s.queues[a].offers| :: s.queues[a].offers[i].id != id
    {
      assert QueueInv(s.ledger, a, s.queues[a]);
      hide Inv;
      SideUnfinished(s.ledger, a, Request, s.queues[a].requests, id);
      SideUnfinished(s.ledger, a, Offer, s.queues[a].offers, id);
    }
  }

  lemma SideUnfinished(ledger: Ledger, asset: string, side: Side, list: seq<Order>, id: string)
    requires SideInv(ledger, asset, side, list) && id in ledger && ledger[id].now.status.IsTerminal()
    ensures forall i | 0 <= i < |list| :: list[i].id != id
  {
    forall i | 0 <= i < |list|
      ensures list[i].id != id
    {
      assert Known(ledger, asset, list[i]) && list[i].Restable();
    }
  }

  // ----- The records, the log and the workloads ----------------------------------------------------------

  lemma AdmittedEntry(s: State, o: Order)
    requires o.id !in s.ledger
    ensures var s' := Admitted(s, o);
            && o.id in s'.ledger && s'.ledger[o.id] == Entry(o, s.count, o.(status := Accepted))
            && s'.count == s.count + 1 && o.asset in s'.queues
  {
  }

  /** Every other order's record: the orders the match touched are as it left them, and no other record changes. */
  lemma RecordsOutcome(cfg: Config, s: State, o: Order)
    requires cfg.Valid() && Admissible(cfg, s, o)
    ensures QueuesRest(s) && Resting(o.side.Opposite(), Facing(s, o))
    ensures Matched(o, Facing(s, o)) ==>
              var s', m := Submit(cfg, s, o), MatchOf(s, o);
              && s'.ledger.Keys == s.ledger.Keys + {o.id} && s'.count == s.count + 1 && s'.log == s.log + m.fills
              && s'.ledger[o.id].first == o && s'.ledger[o.id].at == s.count
              && (forall i | 0 <= i < |m.touched| ::
                    m.touched[i].id in s.ledger
                    && s'.ledger[m.touched[i].id] == s.ledger[m.touched[i].id].(now := m.touched[i]))
              && (forall id | id in s.ledger && (forall i | 0 <= i < |m.touched| :: m.touched[i].id != id) ::
                    s'.ledger[id] == s.ledger[id])
  {
    hide Match, Settle, Finalise, Submit, Inv, Fits, Matching, CanAssignFully, WithinBoundary, Allowed,
         QueuesRest, MatchEvents, Resting, Insert, Facing, Admitted, Order.Validated;
    SubmitUnfolds(cfg, s, o);
    AdmittedFields(s, o);
    AdmittedEntry(s, o);
    if Matched(o, Facing(s, o)) {
      var s1, a, m := Admitted(s, o), o.(status := Accepted), MatchOf(s, o);
      AfterMatch(s1, a, m);
      AssignedHours(s, o);
      ResidualIs(Settle(s1, a, m), m.incoming, m.fills != []);
    }
  }

  lemma BookAfterMatch(s: State, o: Order, m: MatchResult)
    requires Fits(s, o, m)
    ensures W.Positive(m.fills)
    ensures Settle(s, o, m).book
            == var b := W.ApplyFills(s.book, m.fills);
               if m.fills == [] then s.book else b.RepriceAsset(o.asset, m.fills[|m.fills| - 1].rate)
  {
    hide W.Book.RepriceAsset, Touch, MatchEvents, SideRests;
  }

  lemma SubmitBook(cfg: Config, s: State, o: Order)
    requires cfg.Valid() && Admissible(cfg, s, o)
    ensures QueuesRest(s) && Resting(o.side.Opposite(), Facing(s, o))
    ensures Matched(o, Facing(s, o)) ==>
              var m := MatchOf(s, o);
              W.Positive(m.fills)
              && Submit(cfg, s, o).book
                 == var b := W.ApplyFills(s.book, m.fills);
                    if m.fills == [] then s.book else b.RepriceAsset(o.asset, m.fills[|m.fills| - 1].rate)
  {
    hide Match, Settle, Finalise, Submit, Inv, Fits, Matching, CanAssignFully, WithinBoundary, Allowed, Moved,
         QueuesRest, MatchEvents, Resting, Insert, Facing, W.ApplyFills, W.Book.RepriceAsset;
    SubmitUnfolds(cfg, s, o);
    if Matched(o, Facing(s, o)) {
      var s1, a, m := Admitted(s, o), o.(status := Accepted), MatchOf(s, o);
      BookAfterMatch(s1, a, m);
      AfterMatch(s1, a, m);
      AssignedHours(s, o);
      ResidualIs(Settle(s1, a, m), m.incoming, m.fills != []);
    }
  }

  /** The workloads after a submission: those the assignments leave, one after the other; and when there were any,
      every open workload of the asset is valued at the rate of the last one. */
  lemma WorkloadsOutcome(cfg: Config, s: State, o: Order)
    requires cfg.Valid() && Admissible(cfg, s, o)
    ensures QueuesRest(s) && Resting(o.side.Opposite(), Facing(s, o))
    ensures Matched(o, Facing(s, o)) ==>
              var m, b' := MatchOf(s, o), Submit(cfg, s, o).book;
              W.Positive(m.fills)
              && var b := W.ApplyFills(s.book, m.fills);
                 && (m.fills == [] ==> b' == s.book)
                 && (m.fills != [] ==>
                       && b'.keys == b.keys && b'.loads.Keys == b.loads.Keys
                       && forall k | k in b.loads ::
                            b'.loads[k] == var w := b.loads[k];
                                           var mark := m.fills[|m.fills| - 1].rate;
                                           if k.asset != o.asset || w.net == 0.0 then w
                                           else w.(last := Some(mark), unrealized := (mark - w.avg) * w.net))
  {
    hide Match, Submit, Inv, CanAssignFully, WithinBoundary, Allowed, QueuesRest, Resting, Facing, W.ApplyFills,
         W.Book.RepriceAsset, Order.Validated;
    SubmitBook(cfg, s, o);
    if Matched(o, Facing(s, o)) {
      var m := MatchOf(s, o);
      if m.fills != [] {
        W.RepriceMarks(W.ApplyFills(s.book, m.fills), o.asset, m.fills[|m.fills| - 1].rate);
      }
    }
  }

  // ----- The events --------------------------------------------------------------------------------------

  /** Each assignment is told by three events, in the order of the match: that it was executed, that it moved the
      workloads, and what it made of the resting order. */
  lemma {:induction false} ThreeEventsEach(id: string, fills: seq<Fill>, touched: seq<Order>)
    requires |fills| == |touched|
    ensures var events := MatchEvents(id, fills, touched);
            && |events| == 3 * |fills|
            && forall i | 0 <= i < |fills| ::
                 && events[3 * i] == AssignmentExecuted(id, fills[i])
                 && events[3 * i + 1] == WorkloadUpdated(id, fills[i])
                 && events[3 * i + 2]
                    == WorkOrderEvent(if touched[i].assignedHours < touched[i].requestedHours
                                      then OrderPartiallyAssigned else OrderAssigned,
                                      touched[i].id, touched[i].status, touched[i].assignedHours)
  {
    if fills != [] {
      var n := |fills| - 1;
      ThreeEventsEach(id, fills[..n], touched[..n]);
    }
  }

  lemma ResidualTells(s: State, o: Order, matched: bool)
    requires Ready(s, o)
    ensures var left := o.assignedHours < o.requestedHours;
            Finalise(s, o, matched).events
            == s.events
               + (if left && matched
                  then [WorkOrderEvent(OrderPartiallyAssigned, o.id, PartiallyAssigned, o.assignedHours)] else [])
               + (if !left then [WorkOrderEvent(OrderAssigned, o.id, Assigned, o.assignedHours)]
                  else if o.mode == RateCapped && o.window == Open then []
                  else [WorkOrderEvent(OrderCancelled, o.id, Cancelled, o.assignedHours)])
  {
    hide QueuesRest, Insert, Order.Validated;
  }

  /** A matched submission is told by SUBMITTED and ACCEPTED, then by its assignments, then, when hours are left but
      some were assigned, by PARTIALLY_ASSIGNED, and at last by ASSIGNED, by CANCELLED, or by nothing if it rests. */
  lemma EventsOutcome(cfg: Config, s: State, o: Order)
    requires cfg.Valid() && Admissible(cfg, s, o)
    ensures QueuesRest(s) && Resting(o.side.Opposite(), Facing(s, o))
    ensures Matched(o, Facing(s, o)) ==> o.id in Submit(cfg, s, o).ledger
    ensures Matched(o, Facing(s, o)) ==>
              var s', m := Submit(cfg, s, o), MatchOf(s, o);
              var now := s'.ledger[o.id].now;
              var left := now.assignedHours < o.requestedHours;
              |m.fills| == |m.touched|
              && s'.events
                 == s.events
                    + [WorkOrderEvent(OrderSubmitted, o.id, New, o.assignedHours),
                       WorkOrderEvent(OrderAccepted, o.id, Accepted, o.assignedHours)]
                    + MatchEvents(o.id, m.fills, m.touched)
                    + (if left && now.assignedHours > o.assignedHours
                       then [WorkOrderEvent(OrderPartiallyAssigned, o.id, PartiallyAssigned, now.assignedHours)]
                       else [])
                    + (if !left then [WorkOrderEvent(OrderAssigned, o.id, Assigned, now.assignedHours)]
                       else if o.mode == RateCapped && o.window == Open then []
                       else [WorkOrderEvent(OrderCancelled, o.id, Cancelled, now.assignedHours)])
  {
    hide Match, Settle, Finalise, Submit, Inv, Matching, CanAssignFully, WithinBoundary, Allowed, Moved,
         QueuesRest, MatchEvents, Resting, Insert, Facing, Touch, HoursIn, Crossable, FillHours, SideRests;
    SubmitUnfolds(cfg, s, o);
    ResidualOutcome(cfg, s, o);
    if Matched(o, Facing(s, o)) {
      var s1, a, m := Admitted(s, o), o.(status := Accepted), MatchOf(s, o);
      AfterMatch(s1, a, m);
      AssignedHours(s, o);
      AnyFills(a, Facing(s, o));
      ResidualTells(Settle(s1, a, m), m.incoming, m.fills != []);
    }
  }

  // ----- Refusals, cancellations and marks ---------------------------------------------------------------

  /** At most an empty queue was opened. */
  predicate SameQueues(s: State, s': State, asset: string) {
    s'.queues == s.queues || (asset !in s.queues && s'.queues == s.queues[asset := Queue([], [])])
  }

  /** An order that trades nothing: its own record and its events are new, and perhaps an empty queue. */
  predicate OnlyRecorded(s: State, s': State, o: Order, status: Status, told: seq<Event>) {
    && s'.ledger == s.ledger[o.id := Entry(o, s.count, o.(status := status))]
    && s'.count == s.count + 1 && s'.log == s.log && s'.book == s.book
    && s'.events == s.events + told && SameQueues(s, s', o.asset)
  }

  lemma RejectRecords(s: State, o: Order)
    ensures OnlyRecorded(s, Reject(Enter(s, o), o), o, Rejected,
                         [WorkOrderEvent(OrderSubmitted, o.id, o.status, o.assignedHours),
                          WorkOrderEvent(OrderRejected, o.id, Rejected, o.assignedHours)])
    ensures OnlyRecorded(s, Reject(OpenQueue(Enter(s, o), o.asset), o), o, Rejected,
                         [WorkOrderEvent(OrderSubmitted, o.id, o.status, o.assignedHours),
                          WorkOrderEvent(OrderRejected, o.id, Rejected, o.assignedHours)])
  {
  }

  lemma AllowedEarly(cfg: Config, s: State, o: Order)
    ensures Allowed(cfg, OpenQueue(Enter(s, o), o.asset), o) <==> Allowed(cfg, s, o)
  {
  }

  /** A known id changes nothing. A new order is refused exactly when it is refusable, and then nothing but its own
      record, its two events and perhaps an empty queue are new. */
  lemma RefusedOutcome(cfg: Config, s: State, o: Order)
    requires cfg.Valid() && Inv(s) && o.Validated()
    ensures QueuesRest(s)
    ensures o.id in s.ledger ==> Submit(cfg, s, o) == s
    ensures o.id !in s.ledger && Refusable(cfg, s, o) ==>
              OnlyRecorded(s, Submit(cfg, s, o), o, Rejected,
                           [WorkOrderEvent(OrderSubmitted, o.id, o.status, o.assignedHours),
                            WorkOrderEvent(OrderRejected, o.id, Rejected, o.assignedHours)])
    ensures o.id !in s.ledger && !Refusable(cfg, s, o) ==> Admissible(cfg, s, o)
  {
    hide WithinBoundary, QueuesRest, Dispatched, Order.Validated, Ready, Refusable, Allowed, OnlyRecorded, Reject,
         Record, OpenQueue, QueuesInv, AccountsInv, BookInv, Silent, EntriesInv;
    QueuesInvRest(s);
    RefusableIs(cfg, s, o);
    RejectRecords(s, o);
    AllowedEarly(cfg, s, o);
  }

  /** A COMPLETE order that cannot be served whole is accepted and then CANCELLED, and trades nothing. */
  lemma StoodDownOutcome(cfg: Config, s: State, o: Order)
    requires cfg.Valid() && Admissible(cfg, s, o)
    ensures QueuesRest(s) && Resting(o.side.Opposite(), Facing(s, o))
    ensures !Matched(o, Facing(s, o)) ==>
              OnlyRecorded(s, Submit(cfg, s, o), o, Cancelled,
                           [WorkOrderEvent(OrderSubmitted, o.id, New, o.assignedHours),
                            WorkOrderEvent(OrderAccepted, o.id, Accepted, o.assignedHours),
                            WorkOrderEvent(OrderCancelled, o.id, Cancelled, o.assignedHours)])
  {
    hide Inv, CanAssignFully, Submit, Dispatched, Order.Validated, WithinBoundary, Allowed, QueuesRest, Resting,
         Ready, Facing;
    FacingRests(s, o);
    if !Matched(o, Facing(s, o)) {
      SubmitDispatches(cfg, s, o);
      CheckIgnoresStatus(o, Accepted, Facing(s, o));
      RefusedWhole(Admitted(s, o), o.(status := Accepted));
    }
  }

  /** What becomes of an order that is not refused: all its hours assigned, ASSIGNED; otherwise an OPEN rate-capped
      one stays, PARTIALLY_ASSIGNED if it was assigned any and ACCEPTED if none, and every other is CANCELLED. Nothing
      but its status, hours and average changes. */
  ghost predicate Ended(o: Order, now: Order) {
    && now == o.(status := now.status, assignedHours := now.assignedHours, avg := now.avg)
    && o.assignedHours <= now.assignedHours <= o.requestedHours
    && now.status == if now.assignedHours == o.requestedHours then Assigned
                     else if o.mode != RateCapped || o.window != Open then Cancelled
                     else if now.assignedHours > o.assignedHours then PartiallyAssigned
                     else Accepted
  }

  lemma NewcomerEnds(cfg: Config, s: State, o: Order)
    requires cfg.Valid() && Inv(s) && o.Validated() && o.id !in s.ledger && !Refusable(cfg, s, o)
    ensures QueuesRest(s)
    ensures o.id in Submit(cfg, s, o).ledger && Ended(o, Submit(cfg, s, o).ledger[o.id].now)
  {
    hide Inv, CanAssignFully, Submit, WithinBoundary, Allowed, QueuesRest, Resting, Facing, Refusable, HoursIn,
         Crossable, Match, SameQueues;
    RefusedOutcome(cfg, s, o);
    ResidualOutcome(cfg, s, o);
    StoodDownOutcome(cfg, s, o);
    var rest := Facing(s, o);
    if Matched(o, rest) {
      HoursInNonNegative(o.side.Opposite(), rest[..Crossable(o, rest)]) by {
        PrefixRests(o.side.Opposite(), rest, Crossable(o, rest));
      }
    } else {
      TooFewLeft(o, rest);
    }
  }

  lemma PrefixRests(side: Side, rest: seq<Order>, n: nat)
    requires Resting(side, rest) && n <= |rest|
    ensures Resting(side, rest[..n])
  {
  }

  lemma TooFewLeft(o: Order, rest: seq<Order>)
    requires Resting(o.side.Opposite(), rest) && !CanAssignFully(o, rest)
    ensures o.assignedHours < o.requestedHours
  {
    var seen := rest[..InLevels(o.side.Opposite(), rest, LEVEL_DEPTH)];
    HoursInNonNegative(o.side.Opposite(), seen[..Crossable(o, seen)]);
  }

  lemma CancellableIs(s: State, id: string, asset: Option<string>)
    requires Inv(s)
    ensures Cancellable(s, id, asset)
            <==> id in s.ledger && !s.ledger[id].now.status.IsTerminal()
                 && (asset.None? || asset.value == s.ledger[id].now.asset)
  {
    if id in s.ledger {
      assert EntryInv(s.ledger, s.count, id) && Placed(s.queues, s.ledger[id].now);
      if Cancellable(s, id, asset) {
        QueuedIsActive(s, id);
      }
      hide Inv, Contains;
    }
  }

  /** The list without the order at `i`, which has that id. */
  predicate TakenOut(list: seq<Order>, id: string, list': seq<Order>, i: nat) {
    i < |list| && list[i].id == id && list' == list[..i] + list[i + 1..]
  }

  lemma WithdrawnTakes(queues: map<string, Queue>, o: Order)
    requires o.asset in queues && Contains(queues[o.asset].Of(o.side), o.id)
    ensures var queues' := Withdrawn(queues, o);
            && queues'.Keys == queues.Keys
            && (forall a | a in queues && a != o.asset :: queues'[a] == queues[a])
            && queues'[o.asset].Of(o.side.Opposite()) == queues[o.asset].Of(o.side.Opposite())
            && exists i: nat ::
                 TakenOut(queues[o.asset].Of(o.side), o.id, queues'[o.asset].Of(o.side), i)
  {
    var list := queues[o.asset].Of(o.side);
    var k := WithoutPlace(list, o.id);
    hide Without;
    assert Withdrawn(queues, o)[o.asset].Of(o.side) == Without(list, o.id);
    assert TakenOut(list, o.id, Withdrawn(queues, o)[o.asset].Of(o.side), k);
  }

  /** A cancellation takes effect exactly on an unfinished order, asked for with its own asset or with none: it is
      CANCELLED with the hours it has and leaves its side, on which every other order keeps its place. */
  lemma CancelOutcome(s: State, id: string, asset: Option<string>)
    requires Inv(s)
    ensures var s' := Cancel(s, id, asset);
            if id !in s.ledger || s.ledger[id].now.status.IsTerminal()
               || (asset.Some? && asset.value != s.ledger[id].now.asset) then s' == s
            else
              var o := s.ledger[id].now;
              && s'.ledger == s.ledger[id := s.ledger[id].(now := o.(status := Cancelled))]
              && s'.count == s.count && s'.log == s.log && s'.book == s.book
              && s'.events == s.events + [WorkOrderEvent(OrderCancelled, id, Cancelled, o.assignedHours)]
              && o.asset in s.queues && s'.queues.Keys == s.queues.Keys
              && (forall a | a in s.queues && a != o.asset :: s'.queues[a] == s.queues[a])
              && s'.queues[o.asset].Of(o.side.Opposite()) == s.queues[o.asset].Of(o.side.Opposite())
              && exists i: nat :: TakenOut(s.queues[o.asset].Of(o.side), id, s'.queues[o.asset].Of(o.side), i)
  {
    hide Inv, Contains, Withdrawn, TakenOut;
    CancellableIs(s, id, asset);
    if Cancellable(s, id, asset) {
      WithdrawnTakes(s.queues, s.ledger[id].now);
    }
  }

  /** A mark changes nothing but the workloads of the asset with open hours, which it values. */
  lemma RepriceOutcome(s: State, asset: string, mark: real)
    ensures var s' := RepriceStep(s, asset, mark);
            && s' == s.(book := s'.book)
            && s'.book.keys == s.book.keys && s'.book.loads.Keys == s.book.loads.Keys
            && forall k | k in s.book.loads ::
                 s'.book.loads[k] == var w := s.book.loads[k];
                                     if k.asset != asset || w.net == 0.0 then w
                                     else w.(last := Some(mark), unrealized := (mark - w.avg) * w.net)
  {
    W.RepriceMarks(s.book, asset, mark);
    hide W.Book.RepriceAsset;
  }
}
