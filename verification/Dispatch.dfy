/** The dispatch engine as a state machine over values: what one submission, cancellation or repricing
    does to the queues, the orders, the workloads, the assignment log and the published events
    (`mittelwerk/core/engine.py`). One operation is one atomic step. */
module Dispatch {
  import opened Options
  import opened Orders
  import opened FlatMatch
  import opened Workloads

  datatype Equipment = Equipment(rateIncrement: real, hourLot: real)

  type Check = (Order, Option<Load>) -> bool

  /** Reference data (none of it means no validation) and the optional pre-dispatch check. */
  datatype Config = Config(equipment: map<string, Equipment>, check: Option<Check>) {
    predicate Valid() {
      forall a | a in equipment :: equipment[a].rateIncrement > 0.0 && equipment[a].hourLot > 0.0
    }
  }

  datatype Kind =
    | OrderSubmitted | OrderAccepted | OrderRejected | OrderPartiallyAssigned | OrderAssigned | OrderCancelled

  datatype Event =
    | WorkOrderEvent(kind: Kind, id: string, status: Status, hours: real)
    | AssignmentExecuted(correlation: string, fill: Fill)
    | WorkloadUpdated(correlation: string, fill: Fill)

  /** The two sides of one asset's queue, each in priority order. */
  datatype Queue = Queue(requests: seq<Order>, offers: seq<Order>) {
    function Of(side: Side): seq<Order> {
      if side == Request then requests else offers
    }

    function With(side: Side, list: seq<Order>): Queue {
      if side == Request then this.(requests := list) else this.(offers := list)
    }
  }

  /** An order the engine knows: as it was submitted, its place in the order of submissions, as it is now. */
  datatype Entry = Entry(first: Order, at: nat, now: Order)

  type Ledger = map<string, Entry>

  datatype State = State(
    queues: map<string, Queue>, count: nat, ledger: Ledger, book: Book, log: seq<Fill>, events: seq<Event>)

  const INITIAL: State := State(map[], 0, map[], Book([], map[]), [], [])

  // ----- Boundary validation -------------------------------------------------

  predicate IsMultiple(x: real, unit: real)
    requires unit > 0.0
  {
    x > 0.0 && (x / unit).Floor as real * unit == x
  }

  predicate WithinBoundary(cfg: Config, o: Order)
    requires cfg.Valid()
  {
    && o.mode in {RateCapped, AnyRate}
    && o.window in {Open, Immediate, Complete}
    && (cfg.equipment != map[] ==>
          && o.asset in cfg.equipment
          && IsMultiple(o.requestedHours, cfg.equipment[o.asset].hourLot)
          && (o.cap.Some? ==> IsMultiple(o.cap.value, cfg.equipment[o.asset].rateIncrement)))
  }

  // ----- The complete-or-nothing check ----------------------------------------

  const LEVEL_DEPTH: nat := 1_000_000

  /** The number of leading orders that share the rate of the first. */
  function FirstLevel(side: Side, rest: seq<Order>): (n: nat)
    requires Resting(side, rest)
    ensures n <= |rest| && (rest != [] ==> n > 0)
    ensures forall i | 0 <= i < n :: RateOf(rest[i]) == RateOf(rest[0])
    ensures n < |rest| ==> RateOf(rest[n]) != RateOf(rest[0])
  {
    if |rest| <= 1 then |rest|
    else if RateOf(rest[1]) != RateOf(rest[0]) then 1
    else 1 + FirstLevel(side, rest[1..])
  }

  /** The number of orders in the first `depth` rate levels. */
  function InLevels(side: Side, rest: seq<Order>, depth: nat): (n: nat)
    requires Resting(side, rest)
    ensures n <= |rest|
  {
    if depth == 0 || rest == [] then 0
    else FirstLevel(side, rest) + InLevels(side, rest[FirstLevel(side, rest)..], depth - 1)
  }

  function LevelCount(side: Side, rest: seq<Order>): nat
    requires Resting(side, rest)
  {
    if rest == [] then 0 else 1 + LevelCount(side, rest[FirstLevel(side, rest)..])
  }

  lemma {:induction false} AllLevels(side: Side, rest: seq<Order>, depth: nat)
    requires Resting(side, rest) && depth >= LevelCount(side, rest)
    ensures InLevels(side, rest, depth) == |rest|
  {
    if rest != [] {
      AllLevels(side, rest[FirstLevel(side, rest)..], depth - 1);
    }
  }

  /** Hours the order may take from the levels the check looks at. */
  function AvailableHours(o: Order, rest: seq<Order>): real
    requires Resting(o.side.Opposite(), rest)
  {
    var seen := rest[..InLevels(o.side.Opposite(), rest, LEVEL_DEPTH)];
    HoursIn(seen[..Crossable(o, seen)])
  }

  predicate CanAssignFully(o: Order, rest: seq<Order>)
    requires Resting(o.side.Opposite(), rest)
  {
    AvailableHours(o, rest) >= o.Remaining()
  }

  // ----- Elementary changes ----------------------------------------------------

  /** An order changes, and an event tells so. */
  function Record(s: State, kind: Kind, o: Order): State
    requires o.id in s.ledger
  {
    s.(ledger := s.ledger[o.id := s.ledger[o.id].(now := o)],
       events := s.events + [WorkOrderEvent(kind, o.id, o.status, o.assignedHours)])
  }

  function Enter(s: State, o: Order): State {
    s.(count := s.count + 1,
       ledger := s.ledger[o.id := Entry(o, s.count, o)],
       events := s.events + [WorkOrderEvent(OrderSubmitted, o.id, o.status, o.assignedHours)])
  }

  function Reject(s: State, o: Order): State
    requires o.id in s.ledger
  {
    Record(s, OrderRejected, o.(status := Rejected))
  }

  function OpenQueue(s: State, asset: string): (s': State)
    ensures asset in s'.queues
  {
    if asset in s.queues then s else s.(queues := s.queues[asset := Queue([], [])])
  }

  /** The place of a newcomer: behind everything at a better or the same rate. */
  function Insert(side: Side, list: seq<Order>, o: Order): seq<Order>
  {
    if list == [] || Better(side, RateOf(o), RateOf(list[0])) then [o] + list
    else [list[0]] + Insert(side, list[1..], o)
  }

  function Touch(ledger: Ledger, touched: seq<Order>): (l: Ledger)
    requires forall i | 0 <= i < |touched| :: touched[i].id in ledger
    ensures l.Keys == ledger.Keys
  {
    if touched == [] then ledger
    else
      var l := Touch(ledger, touched[..|touched| - 1]);
      var t := touched[|touched| - 1];
      l[t.id := l[t.id].(now := t)]
  }

  /** The events of one executed assignment: two for the assignment, one for the resting order. */
  function FillEvents(id: string, f: Fill, resting: Order): seq<Event> {
    [AssignmentExecuted(id, f), WorkloadUpdated(id, f),
     WorkOrderEvent(if resting.FullyAssigned() then OrderAssigned else OrderPartiallyAssigned,
                    resting.id, resting.status, resting.assignedHours)]
  }

  function MatchEvents(id: string, fills: seq<Fill>, touched: seq<Order>): seq<Event>
    requires |fills| == |touched|
  {
    if fills == [] then []
    else
      var n := |fills| - 1;
      MatchEvents(id, fills[..n], touched[..n]) + FillEvents(id, fills[n], touched[n])
  }

  // ----- Submission --------------------------------------------------------------

  predicate SideRests(ledger: Ledger, side: Side, list: seq<Order>) {
    Resting(side, list) && forall i | 0 <= i < |list| :: list[i].id in ledger
  }

  /** Every queue holds orders that may stand there, and the engine knows them. */
  predicate QueuesRest(s: State) {
    forall a | a in s.queues ::
      SideRests(s.ledger, Request, s.queues[a].requests) && SideRests(s.ledger, Offer, s.queues[a].offers)
  }

  function Opposite(s: State, o: Order): seq<Order>
    requires o.asset in s.queues
  {
    s.queues[o.asset].Of(o.side.Opposite())
  }

  ghost predicate Ready(s: State, o: Order) {
    && QueuesRest(s)
    && o.Validated()
    && o.id in s.ledger
    && o.asset in s.queues
  }

  /** The touched orders are the first of the side, in order, and every fill belongs to the asset. */
  lemma MatchTouched(o: Order, rest: seq<Order>, m: MatchResult)
    requires o.Validated() && Resting(o.side.Opposite(), rest) && ClosedForm(o, rest, m)
    ensures forall i | 0 <= i < |m.touched| ::
      m.touched[i].id == rest[i].id && m.touched[i].cap == rest[i].cap && m.fills[i].hours > 0.0
          && m.fills[i].asset == o.asset
  {
    hide AverageAfter;
    forall i | 0 <= i < |m.touched|
      ensures m.touched[i].id == rest[i].id && m.touched[i].cap == rest[i].cap
      ensures m.fills[i].hours > 0.0 && m.fills[i].asset == o.asset
    {
      assert PositionFilled(o, rest, m, i);
    }
  }

  /** What is left of the side is the end of it, save that its first order may have been served in part. */
  lemma MatchLeaves(o: Order, rest: seq<Order>, m: MatchResult)
    requires o.Validated() && Resting(o.side.Opposite(), rest) && ClosedForm(o, rest, m)
    ensures |m.rest| <= |rest|
    ensures forall i | 0 <= i < |m.rest| ::
      m.rest[i].id == rest[|rest| - |m.rest| + i].id && m.rest[i].cap == rest[|rest| - |m.rest| + i].cap
  {
    MatchTouched(o, rest, m);
  }

  /** A match result that fits the state it was computed in. */
  ghost predicate Fits(s: State, o: Order, m: MatchResult) {
    && o.id in s.ledger && o.asset in s.queues
    && SideRests(s.ledger, o.side.Opposite(), m.rest)
    && |m.touched| == |m.fills|
    && (forall i | 0 <= i < |m.touched| :: m.touched[i].id in s.ledger && m.fills[i].hours > 0.0)
    && m.incoming.Validated()
    && m.incoming == o.(assignedHours := m.incoming.assignedHours, avg := m.incoming.avg)
  }

  lemma MatchFits(s: State, o: Order)
    requires Ready(s, o)
    ensures Fits(s, o, Match(o, Opposite(s, o)))
  {
    var rest := Opposite(s, o);
    var m := Match(o, rest);
    MatchClosedForm(o, rest);
    MatchIncoming(o, rest);
    assert SideRests(s.ledger, o.side.Opposite(), rest);
    hide Match, Order.Restable, Order.Validated;
    assert forall i | 0 <= i < |m.touched| :: m.touched[i].id in s.ledger && m.fills[i].hours > 0.0 by {
      MatchTouched(o, rest, m);
    }
    assert SideRests(s.ledger, o.side.Opposite(), m.rest) by {
      MatchLeaves(o, rest, m);
    }
  }

  /** Queue, resting orders, workloads, log and events after a match, all in one step. */
  function Settle(s: State, o: Order, m: MatchResult): State
    requires Fits(s, o, m)
  {
    var ledger := Touch(s.ledger, m.touched);
    var book := ApplyFills(s.book, m.fills);
    s.(queues := s.queues[o.asset := s.queues[o.asset].With(o.side.Opposite(), m.rest)],
       ledger := ledger[o.id := ledger[o.id].(now := m.incoming)],
       book := if m.fills == [] then book else book.RepriceAsset(o.asset, m.fills[|m.fills| - 1].rate),
       log := s.log + m.fills,
       events := s.events + MatchEvents(o.id, m.fills, m.touched))
  }

  lemma SettleReady(s: State, o: Order, m: MatchResult)
    requires Ready(s, o) && Fits(s, o, m)
    ensures Ready(Settle(s, o, m), m.incoming)
  {
    hide ApplyFills;
  }

  /** What becomes of the order after the match. */
  function Finalise(s: State, o: Order, matched: bool): State
    requires Ready(s, o)
  {
    if o.FullyAssigned() then Record(s, OrderAssigned, o.(status := Assigned))
    else
      var o1 := if matched then o.(status := PartiallyAssigned) else o;
      var s1 := if matched then Record(s, OrderPartiallyAssigned, o1) else s;
      if o.mode == RateCapped && o.window == Open then
        s1.(queues := s1.queues[o.asset := s1.queues[o.asset].With(o.side,
          Insert(o.side, s1.queues[o.asset].Of(o.side), o1))])
      else
        Record(s1, OrderCancelled, o1.(status := Cancelled))
  }

  /** The admitted order: complete-or-nothing check, match, residual. */
  function Dispatched(s: State, o: Order): State
    requires Ready(s, o)
  {
    if o.window == Complete && !CanAssignFully(o, Opposite(s, o)) then
      Record(s, OrderCancelled, o.(status := Cancelled))
    else
      MatchFits(s, o);
      var m := Match(o, Opposite(s, o));
      SettleReady(s, o, m);
      Finalise(Settle(s, o, m), m.incoming, m.fills != [])
  }

  predicate Allowed(cfg: Config, s: State, o: Order) {
    cfg.check.Some? ==> cfg.check.value(o, s.book.Peek(Key(o.org, o.asset)))
  }

  /** One submission. An id the engine already knows is refused without any change. */
  function Submit(cfg: Config, s: State, o: Order): State
    requires cfg.Valid() && QueuesRest(s) && o.Validated()
  {
    if o.id in s.ledger then s
    else
      var s1 := Enter(s, o);
      if o.status != New || !WithinBoundary(cfg, o) then Reject(s1, o)
      else
        var s2 := OpenQueue(s1, o.asset);
        if !Allowed(cfg, s2, o) then Reject(s2, o)
        else
          var accepted := o.(status := Accepted);
          Dispatched(Record(s2, OrderAccepted, accepted), accepted)
  }

  // ----- Cancellation and repricing ------------------------------------------------

  predicate Contains(list: seq<Order>, id: string) {
    exists i | 0 <= i < |list| :: list[i].id == id
  }

  function Without(list: seq<Order>, id: string): seq<Order> {
    if list == [] then [] else if list[0].id == id then list[1..] else [list[0]] + Without(list[1..], id)
  }

  /** True when the order stands in a queue that the cancellation looks at. */
  predicate Cancellable(s: State, id: string, asset: Option<string>) {
    && id in s.ledger
    && var o := s.ledger[id].now;
       && o.id == id
       && o.asset in s.queues
       && (asset == None || asset == Some(o.asset))
       && Contains(s.queues[o.asset].Of(o.side), id)
  }

  /** The queues with one order taken out of its place. */
  function Withdrawn(queues: map<string, Queue>, o: Order): map<string, Queue>
    requires o.asset in queues
  {
    queues[o.asset := queues[o.asset].With(o.side, Without(queues[o.asset].Of(o.side), o.id))]
  }

  function Cancel(s: State, id: string, asset: Option<string>): State {
    if !Cancellable(s, id, asset) then s
    else
      var o := s.ledger[id].now;
      Record(s.(queues := Withdrawn(s.queues, o)), OrderCancelled, o.(status := Cancelled))
  }

  function RepriceStep(s: State, asset: string, mark: real): State {
    s.(book := s.book.RepriceAsset(asset, mark))
  }
}
