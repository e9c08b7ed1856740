/** The matching loop on the mutable objects: `_execute_assignment`, `_match` and `_can_assign_fully` of
    `mittelwerk/core/engine.py`, proved against the reference matcher. */
module Matchers {
  import opened Options
  import opened Orders
  import opened FlatMatch
  import opened Workloads
  import opened Queues
  import opened QueueModel
  import D = Dispatch
  import MT = MatchTerms

  /** The fixed data of one run of the loop: the incoming order, the opposite orders and their values, the
      orders of its own side, the workloads, and the result the reference matcher gives. */
  datatype Setup = Setup(o: Order, ws: seq<WorkOrder>, start: seq<Order>, own: seq<WorkOrder>, book: Book,
      m: MatchResult)

  /** A match result made of what was already done and what the rest of the loop gives. */
  ghost predicate Splits(m: MatchResult, fills: seq<Fill>, touched: seq<Order>, rest: MatchResult) {
    && m.fills == fills + rest.fills && m.touched == touched + rest.touched
    && m.incoming == rest.incoming && m.rest == rest.rest
  }

  lemma SplitsNext(m: MatchResult, fills: seq<Fill>, touched: seq<Order>, o: Order, resting: Order, rest: MatchResult)
    requires o.Validated() && o.Remaining() > 0.0 && resting.Restable()
    requires Splits(m, fills, touched, Passed(o, resting, rest))
    ensures Splits(m, fills + [FillOf(o, resting, StepHours(o, resting), RateOf(resting))],
                   touched + [FilledResting(resting, StepHours(o, resting), RateOf(resting))], rest)
  {
    hide AverageAfter, FilledResting;
  }

  /** A pass satisfies the incoming order or uses the resting order up. */
  lemma PassUsesUp(o: Order, resting: Order)
    requires o.Validated() && o.Remaining() > 0.0 && resting.Restable()
    ensures FilledResting(resting, StepHours(o, resting), RateOf(resting)).FullyAssigned()
            || StepIncoming(o, resting).Remaining() == 0.0
    ensures StepIncoming(o, resting).Validated()
  {
    hide AverageAfter;
  }

  lemma FirstRests(side: Side, rest: seq<Order>)
    requires Resting(side, rest) && rest != []
    ensures rest[0].Restable()
  {
  }

  lemma OwnsItself(manager: WorkloadManager)
    requires manager.Valid()
    ensures manager in manager.objects
  {
  }

  lemma DistinctTail(ws: seq<WorkOrder>, k: nat)
    requires DistinctIds(ws) && k <= |ws|
    ensures DistinctIds(ws[k..])
    ensures forall i, j | 0 <= i < j < |ws| :: ws[i] != ws[j]
  {
    forall i, j | 0 <= i < j < |ws|
      ensures ws[i] != ws[j]
    {
      assert ws[i].id != ws[j].id;
    }
  }

  /** The opposite side after an assignment to its first order, seen on the objects and on the values. */
  lemma FillsNext(b: Book, fills: seq<Fill>, f: Fill)
    requires Positive(fills) && f.hours > 0.0
    ensures Positive(fills + [f]) && ApplyFills(b, fills + [f]) == ApplyFills(b, fills).ApplyFill(f)
  {
    hide Book.ApplyFill;
    assert (fills + [f])[..|fills|] == fills;
  }

  lemma WhatIsLeft(o: Order, rest: seq<Order>, ws: seq<WorkOrder>)
    requires o.Validated() && Resting(o.side.Opposite(), rest) && Continues(o, rest) && |ws| == |rest|
    requires Views(ws) == [FilledResting(rest[0], StepHours(o, rest[0]), RateOf(rest[0]))] + rest[1..]
    ensures ws[0].View() == FilledResting(rest[0], StepHours(o, rest[0]), RateOf(rest[0]))
    ensures Views(if ws[0].View().FullyAssigned() then ws[1..] else ws) == StepRest(o, rest)
  {
    hide Views, Order.Validated, FilledResting, Continues;
    ViewsSlice(ws, 1, |ws|);
  }

  class Matcher {
    const manager: WorkloadManager

    constructor ()
      ensures manager.Valid() && manager.View() == Book([], map[]) && fresh(manager) && fresh(manager.objects)
    {
      manager := new WorkloadManager();
    }

    /** One assignment between two orders: their hours, averages and status, and both workloads. */
    method ExecuteAssignment(incoming: WorkOrder, resting: WorkOrder, hours: real, rate: real) returns (f: Fill)
      requires manager.Valid() && incoming != resting && hours > 0.0
      requires incoming !in manager.objects && resting !in manager.objects
      requires incoming.assignedHours >= 0.0 && resting.assignedHours >= 0.0
      modifies incoming, resting, manager.objects
      ensures manager.Valid() && fresh(manager.objects - old(manager.objects))
      ensures incoming.View() == Filled(old(incoming.View()), hours, rate)
      ensures resting.View() == FilledResting(old(resting.View()), hours, rate)
      ensures f == FillOf(old(incoming.View()), old(resting.View()), hours, rate)
      ensures manager.View() == old(manager.View()).ApplyFill(f)
    {
      hide WorkloadManager.Valid, AverageAfter, Book.AssignTo;
      TakeHours(incoming, hours, rate);
      TakeHours(resting, hours, rate);
      resting.status := if resting.assignedHours >= resting.requestedHours then Assigned else PartiallyAssigned;
      var requester, provider := incoming, resting;
      if incoming.side != Request {
        requester, provider := resting, incoming;
      }
      f := Fill(incoming.asset, requester.id, provider.id, rate, hours, requester.org, provider.org, incoming.side);
      BookBoth(f);
    }

    method TakeHours(w: WorkOrder, hours: real, rate: real)
      requires w.assignedHours >= 0.0 && hours > 0.0
      modifies w
      ensures w.View() == Filled(old(w.View()), hours, rate)
    {
      w.avg := Some(AverageAfter(w.avg, w.assignedHours, rate, hours));
      w.assignedHours := w.assignedHours + hours;
    }

    method BookBoth(f: Fill)
      requires manager.Valid() && f.hours > 0.0
      modifies manager.objects
      ensures manager.Valid() && fresh(manager.objects - old(manager.objects))
      ensures manager.View() == old(manager.View()).ApplyFill(f)
    {
      hide WorkloadManager.Valid, Book.AssignTo;
      var requested := manager.ApplyAssignment(f.requesterOrg, f.asset, Request, f.hours, f.rate);
      var provided := manager.ApplyAssignment(f.providerOrg, f.asset, Offer, f.hours, f.rate);
    }

    /** The incoming order, the orders `ws`, the queue and the workloads share no memory. */
    ghost predicate Apart(incoming: WorkOrder, q: DispatchQueue, ws: seq<WorkOrder>)
      reads manager, q, q.requests, q.offers
    {
      && manager in manager.objects && q.requests in q.Objects() && q.offers in q.Objects()
      && q.Objects() !! manager.objects
      && incoming !in q.Objects() && incoming !in manager.objects
      && (forall w | w in ws :: w != incoming && w !in q.Objects() && w !in manager.objects)
    }

    /** One assignment against the best resting order `ws[0]`, before the queue is touched. */
    method Assign(incoming: WorkOrder, resting: WorkOrder, q: DispatchQueue, ghost o: Order,
                  ghost ws: seq<WorkOrder>, ghost rest: seq<Order>)
      returns (f: Fill)
      requires manager.Valid() && q.Valid() && Apart(incoming, q, ws)
      requires o == incoming.View() && o.Validated() && ws != [] && resting == ws[0] && DistinctIds(ws)
      requires rest == Views(ws) && Resting(o.side.Opposite(), rest) && Continues(o, rest)
      modifies incoming, resting, manager.objects
      ensures manager.Valid() && q.Valid() && fresh(manager.objects - old(manager.objects))
      ensures q.Objects() == old(q.Objects()) && forall side: Side :: q.Orders(side) == old(q.Orders(side))
      ensures incoming.View() == StepIncoming(o, rest[0])
      ensures f == FillOf(o, rest[0], StepHours(o, rest[0]), RateOf(rest[0])) && f.hours > 0.0
      ensures Views(ws) == [FilledResting(rest[0], StepHours(o, rest[0]), RateOf(rest[0]))] + rest[1..]
      ensures manager.View() == old(manager.View()).ApplyFill(f)
    {
      hide WorkloadManager.Valid, DispatchQueue.Valid, AverageAfter, Book.ApplyFill, Views;
      assert rest[0] == resting.View() && rest[0].Restable();
      var hours := Min(incoming.requestedHours - incoming.assignedHours,
          resting.requestedHours - resting.assignedHours);
      assert hours == StepHours(o, rest[0]) && hours > 0.0 && resting.cap == Some(RateOf(rest[0]))
             && resting.assignedHours >= 0.0;
      assert forall i | 0 < i < |ws| :: ws[i] != resting;
      f := ExecuteAssignment(incoming, resting, hours, resting.cap.value);
    }

    /** One pass of the loop: an assignment, and the resting order leaves the queue when it is used up. */
    method Pass(incoming: WorkOrder, resting: WorkOrder, q: DispatchQueue, ghost o: Order, ghost ws: seq<WorkOrder>,
                ghost rest: seq<Order>)
      returns (f: Fill)
      requires manager.Valid() && q.Valid() && Apart(incoming, q, ws)
      requires o == incoming.View() && o.Validated() && ws == q.Orders(o.side.Opposite()) && DistinctIds(ws)
      requires ws != [] && resting == ws[0]
      requires rest == Views(ws) && Resting(o.side.Opposite(), rest) && Continues(o, rest)
      modifies incoming, resting, q.Objects(), manager.objects
      ensures manager.Valid() && q.Valid() && fresh(manager.objects - old(manager.objects))
              && q.Objects() == old(q.Objects())
      ensures incoming.View() == StepIncoming(o, rest[0])
      ensures f == FillOf(o, rest[0], StepHours(o, rest[0]), RateOf(rest[0])) && f.hours > 0.0
      ensures resting.View() == FilledResting(rest[0], StepHours(o, rest[0]), RateOf(rest[0]))
      ensures q.Orders(o.side) == old(q.Orders(o.side))
      ensures q.Orders(o.side.Opposite()) == if resting.View().FullyAssigned() then ws[1..] else ws
      ensures Views(q.Orders(o.side.Opposite())) == StepRest(o, rest)
      ensures manager.View() == old(manager.View()).ApplyFill(f)
    {
      hide WorkloadManager.Valid, DispatchQueue.Valid, AverageAfter, Book.ApplyFill, Views, Resting, DistinctIds;
      hide Filled, FilledResting, FillOf, StepHours, StepRest, StepIncoming, Order.Validated, Continues;
      f := Assign(incoming, resting, q, o, ws, rest);
      if resting.assignedHours >= resting.requestedHours {
        ghost var now := Views(ws);
        assert q.Objects() !! manager.objects;
        var popped := q.PopBest(incoming.side.Opposite());
        assert Views(ws) == now;
      }
      WhatIsLeft(o, rest, ws);
    }

    /** The memory and the queue in the middle of the loop: the first `k` orders have left the queue. */
    ghost predicate Standing(incoming: WorkOrder, q: DispatchQueue, c: Setup, k: nat)
      reads manager, manager.objects, q, q.requests, q.offers, q.requests.objects, q.offers.objects
    {
      && manager.Valid() && q.Valid() && Apart(incoming, q, c.ws) && DistinctIds(c.ws)
      && incoming.side == c.o.side
      && k <= |c.ws| && q.Orders(c.o.side.Opposite()) == c.ws[k..] && q.Orders(c.o.side) == c.own
    }

    /** The values in the middle of the loop: what was done and what the reference matcher would still do
        make up its whole result. */
    ghost predicate Going(incoming: WorkOrder, c: Setup, fills: seq<Fill>, touched: seq<WorkOrder>, k: nat)
      reads incoming, (set w | w in c.ws), (set w | w in touched)
    {
      && incoming.View().Validated() && incoming.side == c.o.side && k <= |c.ws|
      && Resting(c.o.side.Opposite(), Views(c.ws[k..]))
      && |fills| == |touched| <= |c.ws| && touched == c.ws[..|fills|]
      && (k == |fills| || (k == |fills| - 1 && incoming.View().Remaining() == 0.0))
      && Splits(c.m, fills, Views(touched), FlatMatch.Match(incoming.View(), Views(c.ws[k..])))
      && (|c.start| == |c.ws| && forall i | |fills| <= i < |c.ws| :: c.ws[i].View() == c.start[i])
    }

    ghost predicate Booked(c: Setup, fills: seq<Fill>)
      reads manager
    {
      Positive(fills) && manager.View() == ApplyFills(c.book, fills)
    }

    /** The values after a pass, from the values before it. */
    lemma GoingOn(incoming: WorkOrder, resting: WorkOrder, c: Setup, fills: seq<Fill>, touched: seq<WorkOrder>,
                  k: nat, k': nat,
                  now: Order, left: seq<Order>, before: seq<Order>)
      requires now.Validated() && now.side == c.o.side && Resting(c.o.side.Opposite(), left) && Continues(now, left)
      requires k == |fills| == |touched| < |c.ws| == |c.start| && touched == c.ws[..k] && resting == c.ws[k]
      requires Splits(c.m, fills, before, FlatMatch.Match(now, left))
      requires incoming.side == c.o.side && incoming.View() == StepIncoming(now, left[0])
      requires k' <= |c.ws| && Views(c.ws[k'..]) == StepRest(now, left)
      requires k' == if resting.View().FullyAssigned() then k + 1 else k
      requires Views(touched) == before
               && resting.View() == FilledResting(left[0], StepHours(now, left[0]), RateOf(left[0]))
      requires forall i | k < i < |c.ws| :: c.ws[i].View() == c.start[i]
      ensures Going(incoming, c, fills + [FillOf(now, left[0], StepHours(now, left[0]), RateOf(left[0]))],
              touched + [resting], k')
    {
      hide AverageAfter, Views, Resting, FlatMatch.Match, FilledResting, Splits, StepRest, StepIncoming, FillOf,
           Order.Validated, Order.Restable;
      FirstRests(c.o.side.Opposite(), left);
      MatchPass(now, left);
      PassUsesUp(now, left[0]);
      SplitsNext(c.m, fills, before, now, left[0], FlatMatch.Match(StepIncoming(now, left[0]), StepRest(now, left)));
      assert Views(touched + [resting]) == before + [resting.View()];
      assert touched + [resting] == c.ws[..k + 1];
    }

    lemma BookedOn(c: Setup, fills: seq<Fill>, f: Fill)
      requires Positive(fills) && f.hours > 0.0 && manager.View() == ApplyFills(c.book, fills).ApplyFill(f)
      ensures Booked(c, fills + [f])
    {
      hide Book.ApplyFill;
      FillsNext(c.book, fills, f);
    }

    /** One pass, seen from the whole queue. */
    method AdvanceQueue(incoming: WorkOrder, resting: WorkOrder, q: DispatchQueue, ghost c: Setup, ghost k: nat,
                        ghost now: Order, ghost left: seq<Order>)
      returns (f: Fill, ghost k': nat)
      requires Standing(incoming, q, c, k) && k < |c.ws| && resting == c.ws[k]
      requires now == incoming.View() && now.Validated() && left == Views(c.ws[k..])
      requires Resting(c.o.side.Opposite(), left) && Continues(now, left)
      modifies incoming, resting, q.Objects(), manager.objects
      ensures k' == if resting.View().FullyAssigned() then k + 1 else k
      ensures Standing(incoming, q, c, k')
      ensures fresh(manager.objects - old(manager.objects)) && q.Objects() == old(q.Objects())
      ensures incoming.View() == StepIncoming(now, left[0]) && Views(c.ws[k'..]) == StepRest(now, left)
      ensures f == FillOf(now, left[0], StepHours(now, left[0]), RateOf(left[0])) && f.hours > 0.0
      ensures resting.View() == FilledResting(left[0], StepHours(now, left[0]), RateOf(left[0]))
      ensures manager.View() == old(manager.View()).ApplyFill(f)
    {
      hide WorkloadManager.Valid, DispatchQueue.Valid, AverageAfter, Book.ApplyFill, Views, Resting, DistinctIds;
      hide FilledResting, FillOf, Order.Validated, StepRest, StepIncoming, StepHours, Continues, DispatchQueue.Orders;
      DistinctTail(c.ws, k);
      f := Pass(incoming, resting, q, now, c.ws[k..], left);
      k' := if resting.View().FullyAssigned() then k + 1 else k;
      assert c.ws[k..][1..] == c.ws[k + 1..];
      OwnsItself(manager);
    }

    /** One pass, seen from the whole loop. */
    method Advance(incoming: WorkOrder, resting: WorkOrder, q: DispatchQueue, ghost c: Setup, ghost fills: seq<Fill>,
                   ghost touched: seq<WorkOrder>, ghost k: nat)
      returns (f: Fill, ghost k': nat)
      requires Standing(incoming, q, c, k) && Going(incoming, c, fills, touched, k) && Booked(c, fills)
      requires k < |c.ws| && Continues(incoming.View(), Views(c.ws[k..])) && resting == c.ws[k]
      modifies incoming, resting, q.Objects(), manager.objects
      ensures Standing(incoming, q, c, k') && Going(incoming, c, fills + [f], touched + [resting], k')
              && Booked(c, fills + [f])
      ensures fresh(manager.objects - old(manager.objects)) && q.Objects() == old(q.Objects())
    {
      hide WorkloadManager.Valid, DispatchQueue.Valid, AverageAfter, Book.ApplyFill, Views, Resting, FlatMatch.Match,
           DistinctIds;
      hide FilledResting, FillOf, Order.Validated, Splits, StepRest, StepIncoming, StepHours, DispatchQueue.Orders;
      ghost var now, left, before := incoming.View(), Views(c.ws[k..]), Views(touched);
      DistinctTail(c.ws, k);
      f, k' := AdvanceQueue(incoming, resting, q, c, k, now, left);
      assert forall i | 0 <= i < |c.ws| && i != k :: c.ws[i].View() == old(c.ws[i].View());
      assert Views(touched) == before;
      GoingOn(incoming, resting, c, fills, touched, k, k', now, left, before);
      BookedOn(c, fills, f);
    }

    /** When the loop stops, what was done is the whole result. */
    lemma Stopped(incoming: WorkOrder, c: Setup, fills: seq<Fill>, touched: seq<WorkOrder>, k: nat)
      requires Going(incoming, c, fills, touched, k) && Booked(c, fills)
               && !Continues(incoming.View(), Views(c.ws[k..]))
      ensures |fills| <= |c.ws| == |c.start| && touched == c.ws[..|fills|]
      ensures forall i | |fills| <= i < |c.ws| :: c.ws[i].View() == c.start[i]
      ensures Positive(fills) && manager.View() == ApplyFills(c.book, fills)
      ensures fills == c.m.fills && Views(touched) == c.m.touched && Views(c.ws[k..]) == c.m.rest
              && incoming.View() == c.m.incoming
    {
      hide Views, Resting, Order.Validated, Continues;
      MatchPass(incoming.View(), Views(c.ws[k..]));
      assert fills + [] == fills && Views(touched) + [] == Views(touched);
    }

    /** Before the loop nothing was done and everything is to do. */
    lemma Starts(incoming: WorkOrder, c: Setup)
      requires incoming.View() == c.o && c.o.Validated() && c.start == Views(c.ws)
               && Resting(c.o.side.Opposite(), c.start)
      requires c.m == FlatMatch.Match(c.o, c.start) && c.book == manager.View()
      ensures Going(incoming, c, [], [], 0) && Booked(c, [])
    {
      hide Views, Resting, Order.Validated, FlatMatch.Match;
      assert c.ws[0..] == c.ws;
      assert Views([]) == [];
    }

    /** The best resting order has a rate, and the loop goes on exactly when the incoming order accepts it. */
    lemma BestRate(incoming: WorkOrder, c: Setup, fills: seq<Fill>, touched: seq<WorkOrder>, k: nat)
      requires Going(incoming, c, fills, touched, k) && k < |c.ws| && incoming.View().Remaining() > 0.0
      ensures c.ws[k].cap.Some? && (incoming.mode == RateCapped ==> incoming.cap.Some?)
      ensures Continues(incoming.View(), Views(c.ws[k..])) <==> incoming.View().Accepts(c.ws[k].cap.value)
      ensures |fills| < |c.ws|
    {
      FirstRests(c.o.side.Opposite(), Views(c.ws[k..]));
      assert Views(c.ws[k..])[0] == c.ws[k].View();
    }

    /** The best resting order, if there is one left. */
    method NextBest(incoming: WorkOrder, q: DispatchQueue, ghost c: Setup, ghost fills: seq<Fill>,
                    ghost touched: seq<WorkOrder>, ghost k: nat)
      returns (resting: WorkOrder?)
      requires Standing(incoming, q, c, k) && Going(incoming, c, fills, touched, k) && Booked(c, fills)
      requires incoming.View().Remaining() > 0.0
      ensures Standing(incoming, q, c, k) && Going(incoming, c, fills, touched, k) && Booked(c, fills)
      ensures resting == if k == |c.ws| then null else c.ws[k]
      ensures resting != null ==>
                && resting.cap.Some? && (incoming.mode == RateCapped ==> incoming.cap.Some?) && |fills| < |c.ws|
                && (Continues(incoming.View(), Views(c.ws[k..])) <==> incoming.View().Accepts(resting.cap.value))
    {
      hide WorkloadManager.Valid, DispatchQueue.Valid, Views, Resting, FlatMatch.Match, DistinctIds, Order.Validated,
           DispatchQueue.Orders;
      hide Going, Booked, ApplyFills, Apart, Continues;
      resting := q.PeekBest(incoming.side.Opposite());
      if resting != null {
        BestRate(incoming, c, fills, touched, k);
      }
    }

    /** No assignment is beyond the limit of a rate-capped order: above its cap, or below its ask. */
    ghost predicate WithinLimit(incoming: WorkOrder, fills: seq<Fill>) {
      incoming.mode == RateCapped ==>
        incoming.cap.Some?
        && forall i | 0 <= i < |fills| ::
             if incoming.side == Request then fills[i].rate <= incoming.cap.value
             else fills[i].rate >= incoming.cap.value
    }

    /** An order that stops with hours to assign and orders left on the other side has a limit, and the best rate left
        is strictly beyond it. */
    ghost predicate StoppedAtLimit(incoming: WorkOrder, q: DispatchQueue)
      reads incoming, q, q.requests, q.offers
    {
      var left := q.Orders(incoming.side.Opposite());
      incoming.assignedHours < incoming.requestedHours && left != [] ==>
        && incoming.mode == RateCapped && incoming.cap.Some? && left[0].cap.Some?
        && if incoming.side == Request then left[0].cap.value > incoming.cap.value
           else left[0].cap.value < incoming.cap.value
    }

    lemma KeptLimits(incoming: WorkOrder, q: DispatchQueue, c: Setup, fills: seq<Fill>)
      requires c.o.Validated() && Resting(c.o.side.Opposite(), c.start) && c.m == FlatMatch.Match(c.o, c.start)
      requires incoming.View() == c.m.incoming && Views(q.Orders(c.o.side.Opposite())) == c.m.rest
      requires fills == c.m.fills
      ensures WithinLimit(incoming, fills) && StoppedAtLimit(incoming, q)
    {
      hide FlatMatch.Match, Resting, DispatchQueue.Orders;
      MatchIncoming(c.o, c.start);
      MT.MatchStopsAtLimit(c.o, c.start);
      if c.o.mode == RateCapped {
        MT.MatchKeepsLimit(c.o, c.start);
      }
      var left := q.Orders(c.o.side.Opposite());
      assert left != [] ==> c.m.rest[0] == left[0].View();
    }

    /** Matches the incoming order against the opposite side of the queue: the orders, the queue and the
        workloads end as the reference matcher says, and each resting order it touched is returned with
        its assignment. */
    method Match(incoming: WorkOrder, q: DispatchQueue, ghost o: Order, ghost ws: seq<WorkOrder>)
      returns (fills: seq<Fill>, touched: seq<WorkOrder>)
      requires manager.Valid() && q.Valid() && Apart(incoming, q, ws) && DistinctIds(ws)
      requires o == incoming.View() && o.Validated() && ws == q.Orders(o.side.Opposite())
      requires Resting(o.side.Opposite(), Views(ws))
      modifies incoming, (set w | w in ws), q.Objects(), manager.objects
      ensures manager.Valid() && q.Valid() && fresh(manager.objects - old(manager.objects))
              && q.Objects() == old(q.Objects())
      ensures var m := FlatMatch.Match(o, old(Views(ws)));
              && fills == m.fills && incoming.View() == m.incoming
              && |fills| <= |ws| && touched == ws[..|fills|] && Views(touched) == m.touched
              && Views(q.Orders(o.side.Opposite())) == m.rest
              && Positive(fills) && manager.View() == ApplyFills(old(manager.View()), fills)
      ensures |q.Orders(o.side.Opposite())| <= |ws|
              && q.Orders(o.side.Opposite()) == ws[|ws| - |q.Orders(o.side.Opposite())|..]
      ensures q.Orders(o.side) == old(q.Orders(o.side))
      ensures forall i | |fills| <= i < |ws| :: ws[i].View() == old(ws[i].View())
      ensures WithinLimit(incoming, fills) && StoppedAtLimit(incoming, q)
    {
      hide WorkloadManager.Valid, DispatchQueue.Valid, Views, Resting, FlatMatch.Match, DistinctIds, Order.Validated,
           DispatchQueue.Orders;
      hide Going, Booked, ApplyFills, WithinLimit, StoppedAtLimit;
      ghost var c := Setup(o, ws, Views(ws), q.Orders(o.side), manager.View(), FlatMatch.Match(o, Views(ws)));
      ghost var k := 0;
      fills, touched := [], [];
      assert ws[0..] == ws;
      Starts(incoming, c);
      while incoming.requestedHours - incoming.assignedHours > 0.0
        invariant Standing(incoming, q, c, k) && Going(incoming, c, fills, touched, k) && Booked(c, fills)
        invariant fresh(manager.objects - old(manager.objects)) && q.Objects() == old(q.Objects())
        invariant |fills| <= |ws|
        decreases |ws| - |fills|
      {
        var resting := NextBest(incoming, q, c, fills, touched, k);
        if resting == null {
          break;
        }
        var rate := resting.cap.value;
        if incoming.mode == RateCapped {
          if incoming.side == Request && incoming.cap.value < rate {
            break;
          }
          if incoming.side == Offer && incoming.cap.value > rate {
            break;
          }
        }
        var f;
        f, k := Advance(incoming, resting, q, c, fills, touched, k);
        fills, touched := fills + [f], touched + [resting];
      }
      Stopped(incoming, c, fills, touched, k);
      KeptLimits(incoming, q, c, fills);
    }

    /** The values of the first levels, with one more of them. */
    lemma NextLevel(levels: seq<Level>, i: nat)
      requires i < |levels|
      ensures HoursIn(Views(Flat(levels[..i + 1])))
              == HoursIn(Views(Flat(levels[..i]))) + HoursIn(Views(levels[i].orders))
    {
      hide Views, Flat;
      assert levels[..i + 1] == levels[..i] + [levels[i]];
      FlatConcat(levels[..i], [levels[i]]);
      FlatOne(levels[i]);
      ViewsJoin(Flat(levels[..i]), levels[i].orders);
      HoursJoin(Views(Flat(levels[..i])), Views(levels[i].orders));
    }

    /** Whether the opposite side holds enough acceptable hours, read off the rate levels without touching them. */
    method CanAssignFully(w: WorkOrder, q: DispatchQueue) returns (yes: bool)
      requires q.Valid() && Resting(w.side.Opposite(), Views(q.Orders(w.side.Opposite())))
      ensures yes == D.CanAssignFully(w.View(), Views(q.Orders(w.side.Opposite())))
    {
      hide Views, Flat, Leveled, Resting, D.AvailableHours, HoursIn, DistinctIds, Indexed;
      var side := w.side.Opposite();
      ghost var values := q.SideQueue(side).values;
      ghost var rest := Views(Flat(values));
      assert Resting(side, rest);
      var needed := w.requestedHours - w.assignedHours;
      var available := 0.0;
      var levels := q.FirstLevels(side, D.LEVEL_DEPTH);
      assert Views(Flat(values)) == rest;
      NoLevels();
      for i := 0 to |levels|
        invariant available == HoursIn(Views(Flat(values[..i])))
        invariant Views(Flat(values)) == rest
        invariant forall j | 0 <= j < i :: w.View().Accepts(values[j].rate)
      {
        SeenLevels(w.View(), values, |levels|, i);
        if w.mode == RateCapped && w.cap.Some?
            && (if w.side == Request then levels[i].rate > w.cap.value else levels[i].rate < w.cap.value) {
          return available >= needed;
        }
        NextLevel(values, i);
        ghost var standing, next := Views(values[i].orders), Views(Flat(values[..i + 1]));
        var hours := levels[i].TotalHours();
        assert Views(values[i].orders) == standing && Views(Flat(values[..i + 1])) == next;
        SeenLevels(w.View(), values, |levels|, i + 1);
        available := available + hours;
        if available >= needed {
          return true;
        }
      }
      SeenLevels(w.View(), values, |levels|, |levels|);
      return available >= needed;
    }
  }

  lemma NoLevels()
    ensures HoursIn(Views(Flat([]))) == 0.0
  {
  }

  lemma {:induction false} HoursJoin(a: seq<Order>, b: seq<Order>)
    ensures HoursIn(a + b) == HoursIn(a) + HoursIn(b)
  {
    if a == [] {
      assert a + b == b;
    } else {
      HoursJoin(a[1..], b);
      assert (a + b)[1..] == a[1..] + b;
    }
  }
}
