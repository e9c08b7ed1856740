/** The event bus as a concurrent protocol (`mittelwerk/core/events.py`). Publishers, subscribers, dispatch
    loops and the start and stop calls interleave; each action below runs without a suspension point. */
module BusModel {
  import opened EventLogs

  /** A bus that was never started, or whose stop has returned, is stopped. */
  datatype Phase = Stopped | Running | Stopping

  /** The dispatch loop of a callback subscriber: at its loop head, inside the callback, or over. */
  datatype Task = NoTask | Looping | Calling | Ended

  /** A subscriber. `since` is the length of the history when it subscribed, `delivered` what it was handed,
      `dropped` the history positions it lost to a full queue, and `idle` the length of the history when it
      last was without a dispatch loop to serve it. */
  datatype Sub = Sub(
    id: string, types: set<EventType>, callback: bool, queue: seq<DomainEvent>, task: Task,
    since: nat, delivered: seq<DomainEvent>, dropped: set<nat>, idle: nat)

  /** `history` is everything published; `mark` its length when the latest stop began. */
  datatype Bus = Bus(limit: nat, phase: Phase, subs: seq<Sub>, history: seq<DomainEvent>, mark: nat)

  datatype Action =
    | Publish(event: DomainEvent)
    | Subscribe(id: string, types: set<EventType>)
    | OpenStream(id: string, types: set<EventType>)
    | Unsubscribe(id: string)
    | CloseStream(id: string)
    | Turn(id: string)
    | CallbackReturns(id: string)
    | NextFromStream(id: string)
    | Start
    | BeginStop
    | EndStop

  function Initial(limit: nat): Bus {
    Bus(limit, Stopped, [], [], 0)
  }

  predicate Has(subs: seq<Sub>, id: string) {
    exists i | 0 <= i < |subs| :: subs[i].id == id
  }

  predicate HasCallback(subs: seq<Sub>, id: string) {
    exists i | 0 <= i < |subs| :: subs[i].id == id && subs[i].callback
  }

  // ----- One subscriber ----------------------------------------------------------------

  function Receive(sub: Sub, e: DomainEvent, at: nat, limit: nat): Sub {
    if !Matches(e, sub.types) then sub
    else if |sub.queue| < limit then sub.(queue := sub.queue + [e])
    else sub.(dropped := sub.dropped + {at})
  }

  /** Hands the first queued event over. */
  function Take(sub: Sub): Sub
    requires sub.queue != []
  {
    sub.(queue := sub.queue[1..], delivered := sub.delivered + [sub.queue[0]])
  }

  /** One turn of the dispatch loop: over when the bus is not running and the queue is empty; otherwise the
      next event goes to the callback, or the wait for one times out. */
  function TurnOf(sub: Sub, running: bool, now: nat): Sub {
    if sub.task != Looping then sub
    else if !running && sub.queue == [] then sub.(task := Ended, idle := now)
    else if sub.queue == [] then sub
    else Take(sub).(task := Calling)
  }

  // ----- The bus -------------------------------------------------------------------------

  function MapSubs(subs: seq<Sub>, f: Sub -> Sub): (r: seq<Sub>)
    ensures |r| == |subs| && forall i | 0 <= i < |subs| :: r[i] == f(subs[i])
  {
    seq(|subs|, i requires 0 <= i < |subs| => f(subs[i]))
  }

  function Without(subs: seq<Sub>, id: string): seq<Sub> {
    if subs == [] then [] else if subs[0].id == id then subs[1..] else [subs[0]] + Without(subs[1..], id)
  }

  function NewSub(b: Bus, id: string, types: set<EventType>, callback: bool): Sub {
    Sub(id, types, callback, [], if callback && b.phase == Running then Looping
        else NoTask, |b.history|, [], {}, |b.history|)
  }

  /** A stop may return when every dispatch loop is over. */
  predicate CanEndStop(b: Bus) {
    b.phase == Stopping && forall i | 0 <= i < |b.subs| :: b.subs[i].task in {NoTask, Ended}
  }

  /** A taken id is refused; a stream closes while its id is its own or free; starts and stops take turns; the end of
      a stop waits for the loops. */
  predicate Possible(b: Bus, a: Action) {
    match a
    case Subscribe(id, _) => !Has(b.subs, id)
    case OpenStream(id, _) => !Has(b.subs, id)
    case CloseStream(id) => !HasCallback(b.subs, id)
    case Start => b.phase != Stopping
    case BeginStop => b.phase == Running
    case EndStop => CanEndStop(b)
    case _ => true
  }

  /** What an action does to one subscriber. */
  function Changed(b: Bus, a: Action, sub: Sub): Sub {
    match a
    case Publish(e) => Receive(sub, e, |b.history|, b.limit)
    case Turn(id) => if sub.id == id then TurnOf(sub, b.phase == Running, |b.history|) else sub
    case CallbackReturns(id) => if sub.id == id && sub.task == Calling then sub.(task := Looping) else sub
    case NextFromStream(id) => if sub.id == id && !sub.callback && sub.queue != [] then Take(sub) else sub
    case Start => if sub.callback && sub.task == NoTask then sub.(task := Looping) else sub
    case EndStop => sub.(task := NoTask)
    case _ => sub
  }

  function Subs(b: Bus, a: Action): seq<Sub> {
    match a
    case Subscribe(id, types) => b.subs + [NewSub(b, id, types, true)]
    case OpenStream(id, types) => b.subs + [NewSub(b, id, types, false)]
    case Unsubscribe(id) => Without(b.subs, id)
    case CloseStream(id) => Without(b.subs, id)
    case _ => MapSubs(b.subs, (sub: Sub) => Changed(b, a, sub))
  }

  /** What an action does; one that is not possible now does nothing. */
  function Do(b: Bus, a: Action): Bus {
    if !Possible(b, a) then b
    else
      Bus(b.limit,
          if a == Start then Running else if a == BeginStop then Stopping else if a == EndStop then Stopped
              else b.phase,
          Subs(b, a),
          if a.Publish? then b.history + [a.event] else b.history,
          if a == BeginStop then |b.history| else b.mark)
  }

  function Run(b: Bus, actions: seq<Action>): Bus {
    if actions == [] then b else Do(Run(b, actions[..|actions| - 1]), actions[|actions| - 1])
  }

  // ----- What a subscriber is owed ---------------------------------------------------------

  /** The history positions from `since` on that match and were not dropped, in order. */
  function Owed(history: seq<DomainEvent>, types: set<EventType>, since: nat, dropped: set<nat>): seq<nat> {
    if |history| <= since then []
    else
      var n := |history| - 1;
      Owed(history[..n], types, since, dropped) + if Matches(history[n], types) && n !in dropped then [n] else []
  }

  function At(history: seq<DomainEvent>, positions: seq<nat>): seq<DomainEvent>
    requires forall i | 0 <= i < |positions| :: positions[i] < |history|
  {
    seq(|positions|, i requires 0 <= i < |positions| => history[positions[i]])
  }

  /** Exactly those positions, each once and in order. */
  lemma {:induction false} OwedIs(history: seq<DomainEvent>, types: set<EventType>, since: nat, dropped: set<nat>)
    ensures var r := Owed(history, types, since, dropped);
            && (forall i, j | 0 <= i < j < |r| :: r[i] < r[j])
            && (forall p :: p in r <==> since <= p < |history| && Matches(history[p], types) && p !in dropped)
            && (forall i | 0 <= i < |r| :: r[i] < |history|)
  {
    if |history| > since {
      OwedIs(history[..|history| - 1], types, since, dropped);
    }
  }

  /** The events at those positions. */
  function Accepted(history: seq<DomainEvent>, types: set<EventType>, since: nat, dropped: set<nat>): seq<DomainEvent> {
    if |history| <= since then []
    else
      var n := |history| - 1;
      Accepted(history[..n], types, since, dropped) + if Matches(history[n], types) && n !in dropped then
          [history[n]] else []
  }

  lemma {:induction false} AcceptedIs(history: seq<DomainEvent>, types: set<EventType>, since: nat, dropped: set<nat>)
    ensures var r := Owed(history, types, since, dropped);
            && (forall i | 0 <= i < |r| :: r[i] < |history|)
            && Accepted(history, types, since, dropped) == At(history, r)
  {
    OwedIs(history, types, since, dropped);
    if |history| > since {
      AcceptedIs(history[..|history| - 1], types, since, dropped);
    }
  }

  lemma {:induction false} AcceptedSame(history: seq<DomainEvent>, types: set<EventType>, since: nat,
                                        dropped: set<nat>, later: nat)
    requires later >= |history|
    ensures Accepted(history, types, since, dropped + {later}) == Accepted(history, types, since, dropped)
  {
    if |history| > since {
      AcceptedSame(history[..|history| - 1], types, since, dropped, later);
    }
  }

  lemma AcceptedNext(history: seq<DomainEvent>, e: DomainEvent, types: set<EventType>, since: nat, dropped: set<nat>)
    requires since <= |history|
    ensures Accepted(history + [e], types, since, dropped)
         == Accepted(history, types, since, dropped) + if Matches(e, types) && |history| !in dropped then [e] else []
  {
    assert (history + [e])[..|history|] == history;
  }

  /** Nothing was accepted exactly when everything that matched was dropped. */
  lemma {:induction false} AcceptedEmpty(history: seq<DomainEvent>, types: set<EventType>, since: nat,
                                         dropped: set<nat>)
    ensures Accepted(history, types, since, dropped) == [] <==>
            forall p | since <= p < |history| && Matches(history[p], types) :: p in dropped
  {
    if |history| > since {
      var n := |history| - 1;
      AcceptedEmpty(history[..n], types, since, dropped);
      assert forall p | 0 <= p < n :: history[..n][p] == history[p];
    }
  }

  // ----- The invariant ---------------------------------------------------------------------

  /** No dispatch loop serves this callback subscriber. */
  predicate Unserved(sub: Sub) {
    sub.callback && sub.task in {NoTask, Ended}
  }

  /** The loop of a subscriber suits the phase of the bus. */
  predicate Served(b: Bus, sub: Sub) {
    && (!sub.callback ==> sub.task == NoTask)
    && (b.phase == Running && sub.callback ==> sub.task in {Looping, Calling})
    && (b.phase == Stopped ==> sub.task == NoTask)
    && (b.phase == Stopping && Unserved(sub) ==> sub.idle >= b.mark)
  }

  ghost predicate SubInv(b: Bus, sub: Sub) {
    && sub.since <= sub.idle <= |b.history|
    && (forall d | d in sub.dropped :: sub.since <= d < |b.history|)
    && sub.delivered + sub.queue == Accepted(b.history, sub.types, sub.since, sub.dropped)
    && |sub.queue| <= b.limit
    && Served(b, sub)
    && (Unserved(sub) ==>
          && sub.queue == Accepted(b.history, sub.types, sub.idle, sub.dropped)
          && (sub.queue == [] ==> forall d | d in sub.dropped :: d < sub.idle))
  }

  ghost predicate BusInv(b: Bus) {
    && b.limit > 0 && b.mark <= |b.history|
    && (forall i, j | 0 <= i < j < |b.subs| :: b.subs[i].id != b.subs[j].id)
    && forall i | 0 <= i < |b.subs| :: SubInv(b, b.subs[i])
  }

  /** A published event is queued, or dropped, and nothing else changes. */
  lemma ReceiveKeeps(b: Bus, sub: Sub, e: DomainEvent)
    requires SubInv(b, sub) && b.limit > 0
    ensures SubInv(b.(history := b.history + [e]), Receive(sub, e, |b.history|, b.limit))
  {
    var sub' := Receive(sub, e, |b.history|, b.limit);
    hide Accepted;
    AcceptedSame(b.history, sub.types, sub.since, sub.dropped, |b.history|);
    AcceptedSame(b.history, sub.types, sub.idle, sub.dropped, |b.history|);
    AcceptedNext(b.history, e, sub.types, sub.since, sub'.dropped);
    AcceptedNext(b.history, e, sub.types, sub.idle, sub'.dropped);
  }

  lemma TakeKeeps(sub: Sub)
    requires sub.queue != []
    ensures Take(sub).delivered + Take(sub).queue == sub.delivered + sub.queue
  {
  }

  lemma NothingSince(history: seq<DomainEvent>, types: set<EventType>, dropped: set<nat>)
    ensures Accepted(history, types, |history|, dropped) == []
  {
  }

  lemma ChangedKeeps(b: Bus, a: Action, sub: Sub)
    requires SubInv(b, sub) && b.limit > 0 && b.mark <= |b.history| && Possible(b, a)
    requires !a.Subscribe? && !a.OpenStream? && !a.Unsubscribe? && !a.CloseStream?
    requires sub in b.subs
    ensures SubInv(Do(b, a), Changed(b, a, sub))
  {
    hide Accepted, Subs;
    NothingSince(b.history, sub.types, sub.dropped);
    if a.Publish? {
      ReceiveKeeps(b, sub, a.event);
    } else if sub.queue != [] {
      TakeKeeps(sub);
    }
  }

  lemma NewKeeps(b: Bus, id: string, types: set<EventType>, callback: bool)
    requires b.limit > 0 && b.mark <= |b.history|
    ensures SubInv(b, NewSub(b, id, types, callback))
  {
    NothingSince(b.history, types, {});
  }

  lemma {:induction false} WithoutIs(subs: seq<Sub>, id: string)
    requires forall i, j | 0 <= i < j < |subs| :: subs[i].id != subs[j].id
    ensures var r := Without(subs, id);
            && (forall i, j | 0 <= i < j < |r| :: r[i].id != r[j].id)
            && (forall sub :: sub in r <==> sub in subs && sub.id != id)
  {
    if subs != [] {
      WithoutIs(subs[1..], id);
    }
  }

  /** A subscriber does not depend on the others. */
  lemma OthersNoMatter(b: Bus, subs: seq<Sub>, sub: Sub)
    requires SubInv(b, sub)
    ensures SubInv(b.(subs := subs), sub)
  {
  }

  /** Every action keeps the invariant. */
  lemma DoKeeps(b: Bus, a: Action)
    requires BusInv(b)
    ensures BusInv(Do(b, a))
  {
    hide SubInv, Accepted, Receive, TurnOf, Without, CanEndStop;
    var b' := Do(b, a);
    if Possible(b, a) {
      if a.Subscribe? || a.OpenStream? {
        NewKeeps(b, a.id, a.types, a.Subscribe?);
        forall i | 0 <= i < |b'.subs| ensures SubInv(b', b'.subs[i]) {
          OthersNoMatter(b, b'.subs, b'.subs[i]);
        }
      } else if a.Unsubscribe? || a.CloseStream? {
        WithoutIs(b.subs, a.id);
        forall i | 0 <= i < |b'.subs| ensures SubInv(b', b'.subs[i]) {
          assert b'.subs[i] in b.subs;
          OthersNoMatter(b, b'.subs, b'.subs[i]);
        }
      } else {
        forall i | 0 <= i < |b'.subs| ensures SubInv(b', b'.subs[i]) && b'.subs[i].id == b.subs[i].id {
          ChangedKeeps(b, a, b.subs[i]);
          ChangedId(b, a, b.subs[i]);
        }
      }
    }
  }

  lemma ChangedId(b: Bus, a: Action, sub: Sub)
    ensures Changed(b, a, sub).id == sub.id
  {
  }

  // ----- Over every run --------------------------------------------------------------------

  lemma {:induction false} RunKeeps(limit: nat, actions: seq<Action>)
    requires limit > 0
    ensures BusInv(Run(Initial(limit), actions))
  {
    if actions != [] {
      RunKeeps(limit, actions[..|actions| - 1]);
      DoKeeps(Run(Initial(limit), actions[..|actions| - 1]), actions[|actions| - 1]);
    }
  }

  /** What a subscriber was handed, followed by what is queued for it, is every matching event published since
      it subscribed, in order and once each, save those dropped. */
  lemma Delivery(limit: nat, actions: seq<Action>, i: nat)
    requires limit > 0 && i < |Run(Initial(limit), actions).subs|
    ensures var b := Run(Initial(limit), actions);
            var sub := b.subs[i];
            var positions := Owed(b.history, sub.types, sub.since, sub.dropped);
            && (forall j, k | 0 <= j < k < |positions| :: positions[j] < positions[k])
            && (forall p ::
                 p in positions
                 <==> sub.since <= p < |b.history| && p !in sub.dropped
                      && (sub.types == {} || b.history[p].kind in sub.types))
            && (forall j | 0 <= j < |positions| :: positions[j] < |b.history|)
            && sub.delivered + sub.queue == At(b.history, positions)
  {
    RunKeeps(limit, actions);
    var b := Run(Initial(limit), actions);
    var sub := b.subs[i];
    assert SubInv(b, sub);
    OwedIs(b.history, sub.types, sub.since, sub.dropped);
    AcceptedIs(b.history, sub.types, sub.since, sub.dropped);
  }

  /** A published event is dropped for a subscriber exactly when it matches and the queue is full. */
  lemma OnlyFullQueuesDrop(limit: nat, actions: seq<Action>, e: DomainEvent, i: nat)
    requires limit > 0 && i < |Run(Initial(limit), actions).subs|
    ensures var b := Run(Initial(limit), actions);
            var b' := Do(b, Publish(e));
            && |b'.subs| == |b.subs|
            && (|b.history| in b'.subs[i].dropped
                <==> (b.subs[i].types == {} || e.kind in b.subs[i].types) && |b.subs[i].queue| == limit)
            && (forall d | d < |b.history| :: d in b'.subs[i].dropped <==> d in b.subs[i].dropped)
  {
    RunKeeps(limit, actions);
    var b := Run(Initial(limit), actions);
    RunLimit(limit, actions);
    assert SubInv(b, b.subs[i]);
  }

  lemma {:induction false} RunLimit(limit: nat, actions: seq<Action>)
    ensures Run(Initial(limit), actions).limit == limit
  {
    if actions != [] {
      RunLimit(limit, actions[..|actions| - 1]);
    }
  }

  /** When a stop may return, a callback subscriber has events left exactly when one that matches was published
      after its loop had ended, which is after the stop had begun. */
  lemma StopDrains(limit: nat, actions: seq<Action>, i: nat)
    requires limit > 0 && CanEndStop(Run(Initial(limit), actions))
    requires i < |Run(Initial(limit), actions).subs| && Run(Initial(limit), actions).subs[i].callback
    ensures var b := Run(Initial(limit), actions);
            var sub := b.subs[i];
            && b.mark <= sub.idle
            && (sub.queue == [] <==>
                forall p | sub.idle <= p < |b.history| :: !(sub.types == {} || b.history[p].kind in sub.types))
  {
    RunKeeps(limit, actions);
    var b := Run(Initial(limit), actions);
    var sub := b.subs[i];
    assert SubInv(b, sub);
    AcceptedEmpty(b.history, sub.types, sub.idle, sub.dropped);
  }

  /** With nothing published during the drain, a stop returns only when every callback queue is empty. */
  lemma QuietStopDrains(limit: nat, actions: seq<Action>, i: nat)
    requires limit > 0 && CanEndStop(Run(Initial(limit), actions))
    requires |Run(Initial(limit), actions).history| == Run(Initial(limit), actions).mark
    requires i < |Run(Initial(limit), actions).subs| && Run(Initial(limit), actions).subs[i].callback
    ensures Run(Initial(limit), actions).subs[i].queue == []
  {
    StopDrains(limit, actions, i);
  }

  /** One step of a bus with one subscriber. */
  lemma AloneStep(b: Bus, a: Action, sub: Sub)
    requires b.subs == [sub] && Possible(b, a)
    requires !a.Subscribe? && !a.OpenStream? && !a.Unsubscribe? && !a.CloseStream?
    ensures Do(b, a).subs == [Changed(b, a, sub)]
  {
    hide Receive, TurnOf;
  }

  /** Without that, an event may stay behind: one published between the end of a loop and the end of the stop. */
  lemma LateEventStays(e: DomainEvent)
    ensures var b := Do(Do(Do(Do(Do(Do(Initial(1), Subscribe("s", {})), Start), BeginStop), Turn("s")), Publish(e)),
            EndStop);
            b.phase == Stopped && |b.subs| == 1 && b.subs[0].callback && b.subs[0].queue == [e]
  {
    hide Subs;
    var sub := Sub("s", {}, true, [], NoTask, 0, [], {}, 0);
    var b1 := Do(Initial(1), Subscribe("s", {}));
    assert b1 == Bus(1, Stopped, [sub], [], 0) by {
      FirstSub();
    }
    var b2 := Do(b1, Start);
    AloneStep(b1, Start, sub);
    assert b2 == Bus(1, Running, [sub.(task := Looping)], [], 0);
    var b3 := Do(b2, BeginStop);
    AloneStep(b2, BeginStop, sub.(task := Looping));
    assert b3 == Bus(1, Stopping, [sub.(task := Looping)], [], 0);
    var b4 := Do(b3, Turn("s"));
    AloneStep(b3, Turn("s"), sub.(task := Looping));
    assert b4 == Bus(1, Stopping, [sub.(task := Ended)], [], 0);
    var b5 := Do(b4, Publish(e));
    AloneStep(b4, Publish(e), sub.(task := Ended));
    assert b5 == Bus(1, Stopping, [sub.(task := Ended, queue := [] + [e])], [] + [e], 0);
    AloneStep(b5, EndStop, sub.(task := Ended, queue := [] + [e]));
  }

  lemma FirstSub()
    ensures Do(Initial(1), Subscribe("s", {})).subs == [Sub("s", {}, true, [], NoTask, 0, [], {}, 0)]
  {
  }
}
