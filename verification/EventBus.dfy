/** The event bus on its mutable subscriptions, queues and dispatch tasks (`mittelwerk/core/events.py`): every
    method is one action of the protocol. */
module EventBuses {
  import opened EventLogs
  import opened BusModel

  const LOG_SIZE: nat := 100_000

  class Subscription {
    const id: string
    const types: set<EventType>
    const callback: bool
    var queue: seq<DomainEvent>

    constructor (id: string, types: set<EventType>, callback: bool)
      ensures this.id == id && this.types == types && this.callback == callback && queue == []
    {
      this.id, this.types, this.callback := id, types, callback;
      queue := [];
    }
  }

  /** A subscription and its task are what the model says. */
  ghost predicate Shows(tasks: map<string, Task>, s: Subscription, sub: Sub)
    reads s
  {
    && s.id == sub.id && s.types == sub.types && s.callback == sub.callback && s.queue == sub.queue
    && sub.task == (if s.id in tasks then tasks[s.id] else NoTask)
  }

  /** The subscriptions, all different objects, stand for the subscribers `values`. */
  ghost predicate AllShow(subs: seq<Subscription>, tasks: map<string, Task>, values: seq<Sub>)
    reads subs
  {
    && (forall i, j | 0 <= i < j < |subs| :: subs[i] != subs[j])
    && |subs| == |values| && (forall i | 0 <= i < |subs| :: Shows(tasks, subs[i], values[i]))
    && (forall id | id in tasks :: tasks[id] != NoTask && Has(values, id))
  }

  lemma ShowsWithout(subs: seq<Subscription>, tasks: map<string, Task>, values: seq<Sub>, values': seq<Sub>,
                     id: string, k: nat)
    requires AllShow(subs, tasks, values) && k <= |subs|
    requires k < |subs| ==> subs[k].id == id
    requires values' == if k < |values| then values[..k] + values[k + 1..] else values
    requires forall i | 0 <= i < |values| && i != k :: values[i].id != id
    requires forall other :: Has(values, other) && other != id ==> Has(values', other)
    ensures AllShow(if k < |subs| then subs[..k] + subs[k + 1..] else subs, tasks - {id}, values')
  {
    hide Has;
    var subs' := if k < |subs| then subs[..k] + subs[k + 1..] else subs;
    forall i | 0 <= i < |subs'|
      ensures Shows(tasks - {id}, subs'[i], values'[i])
    {
      assert Shows(tasks, subs[if i < k then i else i + 1], values[if i < k then i else i + 1]);
    }
  }

  /** One subscription more, with or without a loop. */
  lemma ShowsMore(subs: seq<Subscription>, tasks: map<string, Task>, values: seq<Sub>, made: Subscription, sub: Sub,
                  tasks': map<string, Task>)
    requires AllShow(subs, tasks, values) && made !in subs && !Has(values, made.id) && sub.id == made.id
    requires sub.types == made.types && sub.callback == made.callback && sub.queue == made.queue
    requires sub.task in {Looping, NoTask}
             && tasks' == (if sub.task == Looping then tasks[made.id := Looping] else tasks)
    ensures AllShow(subs + [made], tasks', values + [sub])
  {
    var subs', values' := subs + [made], values + [sub];
    forall i | 0 <= i < |subs'|
      ensures Shows(tasks', subs'[i], values'[i])
    {
      if i < |subs| {
        assert Shows(tasks, subs[i], values[i]) && values[i].id != made.id;
      }
    }
    assert made.id !in tasks && Shows(tasks', made, sub);
    forall id | id in tasks'
      ensures tasks'[id] != NoTask && Has(values', id)
    {
      if Has(values, id) {
        var i :| 0 <= i < |values| && values[i].id == id;
        assert values'[i].id == id;
      } else {
        assert values'[|values|].id == id;
      }
    }
  }

  class EventBus {
    const persist: bool
    const maxQueue: nat
    const log: EventLog
    /** The subscriptions in the order they were made. */
    var subs: seq<Subscription>
    var tasks: map<string, Task>
    var running: bool
    ghost var model: Bus

    ghost predicate Logged(history: seq<DomainEvent>)
      reads log
    {
      log.Valid() && log.maxSize == LOG_SIZE && (persist ==> log.history == history)
    }

    ghost predicate Valid()
      reads this, log, subs
    {
      && BusInv(model) && model.limit == maxQueue
      && (running <==> model.phase == Running)
      && Logged(model.history) && AllShow(subs, tasks, model.subs)
    }

    constructor (persist: bool, maxQueue: nat)
      requires maxQueue > 0
      ensures Valid() && model == Initial(maxQueue) && fresh(log) && subs == [] && this.persist == persist
    {
      this.persist, this.maxQueue := persist, maxQueue;
      log := new EventLog(LOG_SIZE);
      subs, tasks, running := [], map[], false;
      model := Initial(maxQueue);
    }

    /** The place of a subscriber, or the number of subscribers when there is none of that id. */
    method Find(id: string) returns (k: nat)
      requires Valid()
      ensures k <= |subs| == |model.subs| && (k < |subs| ==> subs[k].id == id && model.subs[k].id == id)
      ensures k == |subs| <==> !Has(model.subs, id)
      ensures forall i | 0 <= i < |model.subs| && i != k :: model.subs[i].id != id
    {
      hide SubInv;
      k := 0;
      while k < |subs| && subs[k].id != id
        invariant k <= |subs| && forall i | 0 <= i < k :: subs[i].id != id
      {
        k := k + 1;
      }
      assert k < |subs| ==> model.subs[k].id == id;
      assert forall i | 0 <= i < |subs| :: subs[i].id == model.subs[i].id;
    }

    /** Queues an event for one subscriber, unless its queue is full. */
    method Offer(s: Subscription, e: DomainEvent, ghost sub: Sub, ghost at: nat)
      requires Shows(tasks, s, sub)
      modifies s
      ensures Shows(tasks, s, Receive(sub, e, at, maxQueue))
    {
      if Matches(e, s.types) {
        if |s.queue| < maxQueue {
          s.queue := s.queue + [e];
        }
      }
    }

    /** Logs an event and offers it to every subscriber. */
    method Publish(e: DomainEvent)
      requires Valid()
      modifies this`model, log, subs
      ensures Valid() && model == Do(old(model), BusModel.Publish(e))
    {
      hide BusInv, Shows, Receive, Subs;
      ghost var a := BusModel.Publish(e);
      ghost var before := model;
      Publishing(before, e);
      if persist {
        var n := log.Append(e);
      }
      for i := 0 to |subs|
        invariant model == before && log.Valid() && (persist ==> log.history == before.history + [e])
        invariant forall j | 0 <= j < i :: Shows(tasks, subs[j], Receive(before.subs[j], e, |before.history|, maxQueue))
        invariant forall j | i <= j < |subs| :: Shows(tasks, subs[j], before.subs[j])
      {
        Offer(subs[i], e, before.subs[i], |before.history|);
      }
      model := Do(model, a);
    }

    /** Registers a callback subscriber; a taken id is refused. On a running bus its dispatch loop starts at once. */
    method Subscribe(id: string, types: set<EventType>) returns (ok: bool)
      requires Valid()
      modifies this`model, this`subs, this`tasks
      ensures Valid() && model == Do(old(model), BusModel.Subscribe(id, types)) && ok == !Has(old(model).subs, id)
      ensures fresh(set s | s in subs && s !in old(subs))
    {
      hide BusInv, NewSub, Logged, Has, AllShow, Do;
      var k := Find(id);
      if k < |subs| {
        DoNothing(model, BusModel.Subscribe(id, types));
        return false;
      }
      ok := true;
      Joining(model, BusModel.Subscribe(id, types));
      var made := new Subscription(id, types, true);
      ghost var now := if running then tasks[id := Looping] else tasks;
      ShowsMore(subs, tasks, model.subs, made, NewSub(model, id, types, true), now);
      subs := subs + [made];
      tasks := if running then tasks[id := Looping] else tasks;
      model := Do(model, BusModel.Subscribe(id, types));
    }

    /** Registers a stream consumer. */
    method OpenStream(id: string, types: set<EventType>) returns (ok: bool)
      requires Valid()
      modifies this`model, this`subs
      ensures Valid() && model == Do(old(model), BusModel.OpenStream(id, types)) && ok == !Has(old(model).subs, id)
      ensures fresh(set s | s in subs && s !in old(subs))
    {
      hide BusInv, NewSub, Logged, Has, AllShow, Do;
      var k := Find(id);
      if k < |subs| {
        DoNothing(model, BusModel.OpenStream(id, types));
        return false;
      }
      ok := true;
      Joining(model, BusModel.OpenStream(id, types));
      var made := new Subscription(id, types, false);
      ShowsMore(subs, tasks, model.subs, made, NewSub(model, id, types, false), tasks);
      subs := subs + [made];
      model := Do(model, BusModel.OpenStream(id, types));
    }

    /** Forgets a subscriber and cancels its dispatch loop. */
    method Unsubscribe(id: string)
      requires Valid()
      modifies this`model, this`subs, this`tasks
      ensures Valid() && model == Do(old(model), BusModel.Unsubscribe(id))
      ensures (set s | s in subs) <= (set s | s in old(subs))
    {
      hide BusInv, Has, Do, Without, Logged, AllShow;
      var k := Find(id);
      Leaving(model, id, k);
      ShowsWithout(subs, tasks, model.subs, Do(model, BusModel.Unsubscribe(id)).subs, id, k);
      if k < |subs| {
        subs := subs[..k] + subs[k + 1..];
      }
      tasks := tasks - {id};
      model := Do(model, BusModel.Unsubscribe(id));
    }

    /** A stream consumer is done: its subscription goes, and no loop is touched. */
    method CloseStream(id: string)
      requires Valid() && !HasCallback(model.subs, id)
      modifies this`model, this`subs
      ensures Valid() && model == Do(old(model), BusModel.CloseStream(id))
      ensures (set s | s in subs) <= (set s | s in old(subs))
    {
      hide BusInv, Has, HasCallback, Do, Logged, AllShow;
      var k := Find(id);
      StreamParts(id, k);
      subs := if k < |subs| then subs[..k] + subs[k + 1..] else subs;
      model := Do(model, BusModel.CloseStream(id));
    }

    /** What is left when the stream at `k` closes. */
    lemma StreamParts(id: string, k: nat)
      requires Valid() && !HasCallback(model.subs, id)
      requires k <= |subs| == |model.subs| && (k < |subs| ==> subs[k].id == id && model.subs[k].id == id)
      requires k == |subs| <==> !Has(model.subs, id)
      ensures var b' := Do(model, BusModel.CloseStream(id));
              && BusInv(b') && b'.limit == model.limit && b'.phase == model.phase && b'.history == model.history
              && AllShow(if k < |subs| then subs[..k] + subs[k + 1..] else subs, tasks, b'.subs)
    {
      StreamHasNoLoop(id);
      hide BusInv, Has, HasCallback, Do, Without, Logged, AllShow;
      Leaving(model, id, k);
      ShowsWithout(subs, tasks, model.subs, Do(model, BusModel.Unsubscribe(id)).subs, id, k);
    }

    /** Every loop serves a callback subscriber. */
    lemma LoopServesCallback(id: string)
      requires Valid() && id in tasks
      ensures HasCallback(model.subs, id)
    {
      var i :| 0 <= i < |model.subs| && model.subs[i].id == id;
      assert Shows(tasks, subs[i], model.subs[i]) && SubInv(model, model.subs[i]);
    }

    lemma StreamHasNoLoop(id: string)
      requires Valid() && !HasCallback(model.subs, id)
      ensures tasks - {id} == tasks
    {
      hide Valid, HasCallback;
      if id in tasks {
        LoopServesCallback(id);
      }
    }

    /** One turn of a dispatch loop: what it hands to the callback, if anything. */
    method Turn(id: string) returns (handed: seq<DomainEvent>)
      requires Valid()
      modifies this`model, this`tasks, subs
      ensures Valid() && model == Do(old(model), BusModel.Turn(id))
      ensures Handed(old(model), model, id, handed)
    {
      hide BusInv, Has, Do, Logged, Handed;
      handed := [];
      var k := Find(id);
      Turning(model, id, k);
      TurnHands(model, id, k);
      if k == |subs| || id !in tasks || tasks[id] != Looping {
        model := Do(model, BusModel.Turn(id));
        return;
      }
      if subs[k].queue == [] {
        tasks := if running then tasks else tasks[id := Ended];
        model := Do(model, BusModel.Turn(id));
        return;
      }
      handed := Hand(id, k);
    }

    /** A loop takes the oldest event and calls its callback. */
    method Hand(id: string, k: nat) returns (handed: seq<DomainEvent>)
      requires Valid() && k < |subs| && subs[k].id == id
               && (forall i | 0 <= i < |model.subs| && i != k :: model.subs[i].id != id)
      requires id in tasks && tasks[id] == Looping && subs[k].queue != []
      modifies this`model, this`tasks, subs
      ensures Valid() && model == Do(old(model), BusModel.Turn(id))
      ensures Handed(old(model), model, id, handed)
    {
      hide BusInv, Has, Do, Logged, Handed;
      Turning(model, id, k);
      TurnHands(model, id, k);
      handed := [subs[k].queue[0]];
      subs[k].queue := subs[k].queue[1..];
      tasks := tasks[id := Calling];
      model := Do(model, BusModel.Turn(id));
    }

    /** The callback is done, whether it raised or not, and the loop goes on. */
    method CallbackReturns(id: string)
      requires Valid()
      modifies this`model, this`tasks
      ensures Valid() && model == Do(old(model), BusModel.CallbackReturns(id))
    {
      hide BusInv, Has, Do, Logged;
      Changing(model, BusModel.CallbackReturns(id));
      if id in tasks && tasks[id] == Calling {
        tasks := tasks[id := Looping];
      }
      model := Do(model, BusModel.CallbackReturns(id));
    }

    /** The next event of a stream, if one is queued. */
    method NextFromStream(id: string) returns (handed: seq<DomainEvent>)
      requires Valid()
      modifies this`model, subs
      ensures Valid() && model == Do(old(model), BusModel.NextFromStream(id))
      ensures Handed(old(model), model, id, handed)
    {
      hide BusInv, Has, Do, Logged;
      handed := [];
      var k := Find(id);
      Changing(model, BusModel.NextFromStream(id));
      if k < |subs| && !subs[k].callback && subs[k].queue != [] {
        handed := [subs[k].queue[0]];
        subs[k].queue := subs[k].queue[1..];
      }
      model := Do(model, BusModel.NextFromStream(id));
    }

    /** Starts the bus: every callback subscriber without a dispatch loop gets one. Not called during a stop. */
    method Start()
      requires Valid() && model.phase != Stopping
      modifies this`model, this`tasks, this`running
      ensures Valid() && model == Do(old(model), BusModel.Start)
    {
      hide BusInv, Do, Logged, Has;
      ghost var before := model;
      Changing(before, BusModel.Start);
      running := true;
      for i := 0 to |subs|
        invariant running && model == before && |before.subs| == |subs|
        invariant forall j | 0 <= j < i :: Shows(tasks, subs[j], Changed(before, BusModel.Start, before.subs[j]))
        invariant forall j | i <= j < |subs| :: Shows(tasks, subs[j], before.subs[j])
        invariant forall id | id in tasks :: tasks[id] != NoTask && Has(before.subs, id)
      {
        HasAt(before.subs, i);
        if subs[i].callback && subs[i].id !in tasks {
          tasks := tasks[subs[i].id := Looping];
        }
      }
      model := Do(model, BusModel.Start);
    }

    /** A stop begins: the loops drain their queues and end. Only the stop of a started bus is of interest. */
    method BeginStop()
      requires Valid() && model.phase == Running
      modifies this`model, this`running
      ensures Valid() && model == Do(old(model), BusModel.BeginStop)
    {
      hide BusInv, Do, Has, Logged;
      Changing(model, BusModel.BeginStop);
      running := false;
      model := Do(model, BusModel.BeginStop);
    }

    /** A stop returns once every dispatch loop has ended. */
    method EndStop() returns (done: bool)
      requires Valid() && model.phase == Stopping
      modifies this`model, this`tasks
      ensures Valid() && done == CanEndStop(old(model)) && model == Do(old(model), BusModel.EndStop)
    {
      hide BusInv, Do, Logged;
      done := forall id | id in tasks :: tasks[id] == Ended;
      AllEnded();
      if done {
        Changing(model, BusModel.EndStop);
        tasks := map[];
      } else {
        DoNothing(model, BusModel.EndStop);
      }
      model := Do(model, BusModel.EndStop);
    }

    lemma AllEnded()
      requires Valid() && model.phase == Stopping
      ensures CanEndStop(model) <==> forall id | id in tasks :: tasks[id] == Ended
    {
      hide BusInv;
      forall id | CanEndStop(model) && id in tasks
        ensures tasks[id] == Ended
      {
        var i :| 0 <= i < |model.subs| && model.subs[i].id == id;
        assert Shows(tasks, subs[i], model.subs[i]);
      }
    }

    /** Replays the log; a bus without one has nothing to replay. */
    method Replay(from: int, types: set<EventType>) returns (r: seq<DomainEvent>)
      requires Valid()
      ensures !persist ==> r == []
      ensures persist ==> r == Filter(From(model.history, Max(from, Max(0, |model.history| - LOG_SIZE))), types)
    {
      hide BusInv;
      if !persist {
        return [];
      }
      r := log.Replay(from, types);
    }
  }

  lemma DoNothing(b: Bus, a: Action)
    requires !Possible(b, a)
    ensures Do(b, a) == b
  {
  }

  lemma HasAt(subs: seq<Sub>, i: nat)
    requires i < |subs|
    ensures Has(subs, subs[i].id)
  {
  }

  /** What a turn hands over. */
  lemma TurnHands(b: Bus, id: string, k: nat)
    requires k <= |b.subs| && (k < |b.subs| ==> b.subs[k].id == id) && forall i | 0 <= i < |b.subs| && i != k ::
               b.subs[i].id != id
    ensures Handed(b, Do(b, BusModel.Turn(id)), id,
                   if k < |b.subs| && b.subs[k].task == Looping && b.subs[k].queue != [] then [b.subs[k].queue[0]]
                       else [])
  {
  }

  /** Whom a turn changes. */
  lemma Turning(b: Bus, id: string, k: nat)
    requires BusInv(b) && k <= |b.subs| && (k < |b.subs| ==> b.subs[k].id == id)
    requires forall i | 0 <= i < |b.subs| && i != k :: b.subs[i].id != id
    ensures var b' := Do(b, BusModel.Turn(id));
            && BusInv(b') && b'.limit == b.limit && b'.history == b.history && b'.phase == b.phase
               && |b'.subs| == |b.subs|
            && (forall i | 0 <= i < |b.subs| && i != k :: b'.subs[i] == b.subs[i])
            && (k < |b.subs| ==> b'.subs[k] == TurnOf(b.subs[k], b.phase == Running, |b.history|))
            && (forall other :: Has(b.subs, other) ==> Has(b'.subs, other))
  {
    hide BusInv, Has, Do, TurnOf;
    Changing(b, BusModel.Turn(id));
  }

  /** An action that changes subscribers one by one. */
  predicate Mapping(a: Action) {
    !a.Subscribe? && !a.OpenStream? && !a.Unsubscribe? && !a.CloseStream?
  }

  lemma Changing(b: Bus, a: Action)
    requires BusInv(b) && Mapping(a) && !a.Publish? && Possible(b, a)
    ensures var b' := Do(b, a);
            && BusInv(b') && b'.limit == b.limit && b'.history == b.history && |b'.subs| == |b.subs|
            && b'.phase
               == (if a == BusModel.Start then Running else if a == BusModel.BeginStop then Stopping
               else if a == BusModel.EndStop then Stopped else b.phase)
            && (forall i | 0 <= i < |b.subs| :: b'.subs[i] == Changed(b, a, b.subs[i]))
            && (forall id :: Has(b.subs, id) ==> Has(b'.subs, id))
            && (forall i, j | 0 <= i < j < |b.subs| :: b.subs[i].id != b.subs[j].id)
  {
    DoKeeps(b, a);
    hide BusInv, Changed;
    var b' := Do(b, a);
    forall id | Has(b.subs, id)
      ensures Has(b'.subs, id)
    {
      var i :| 0 <= i < |b.subs| && b.subs[i].id == id;
      ChangedId(b, a, b.subs[i]);
      assert b'.subs[i].id == id;
    }
  }

  lemma {:induction false} WithoutAt(subs: seq<Sub>, id: string, k: nat)
    requires k < |subs| ==> subs[k].id == id
    requires k <= |subs| && forall i | 0 <= i < k :: subs[i].id != id
    ensures Without(subs, id) == if k < |subs| then subs[..k] + subs[k + 1..] else subs
  {
    if k > 0 {
      WithoutAt(subs[1..], id, k - 1);
    }
  }

  lemma StillHas(subs: seq<Sub>, k: nat, id: string)
    requires k < |subs| && subs[k].id != id && Has(subs, id)
    ensures Has(subs[..k] + subs[k + 1..], id)
  {
    var i :| 0 <= i < |subs| && subs[i].id == id;
    assert (subs[..k] + subs[k + 1..])[if i < k then i else i - 1].id == id;
  }

  lemma Leaving(b: Bus, id: string, k: nat)
    requires BusInv(b) && k <= |b.subs| && (k < |b.subs| ==> b.subs[k].id == id)
             && (k == |b.subs| <==> !Has(b.subs, id))
    ensures var b' := Do(b, BusModel.Unsubscribe(id));
            && BusInv(b') && b'.limit == b.limit && b'.phase == b.phase && b'.history == b.history
            && (!HasCallback(b.subs, id) ==> b' == Do(b, BusModel.CloseStream(id)))
            && b'.subs == (if k < |b.subs| then b.subs[..k] + b.subs[k + 1..] else b.subs)
            && (forall other :: Has(b.subs, other) && other != id ==> Has(b'.subs, other))
            && (forall i | 0 <= i < |b.subs| && i != k :: b.subs[i].id != id)
  {
    DoKeeps(b, BusModel.Unsubscribe(id));
    assert forall i | 0 <= i < |b.subs| && i != k :: b.subs[i].id != id;
    hide BusInv;
    WithoutAt(b.subs, id, k);
    hide Has;
    forall other | Has(b.subs, other) && other != id && k < |b.subs|
      ensures Has(b.subs[..k] + b.subs[k + 1..], other)
    {
      StillHas(b.subs, k, other);
    }
  }

  /** The events handed over are what the subscriber got more. */
  ghost predicate Handed(b: Bus, b': Bus, id: string, handed: seq<DomainEvent>) {
    |b'.subs| == |b.subs| && forall i | 0 <= i < |b.subs| ::
      b'.subs[i].delivered == b.subs[i].delivered + if b.subs[i].id == id then handed else []
  }

  /** A new subscriber joins behind the others. */
  lemma Joining(b: Bus, a: Action)
    requires BusInv(b) && (a.Subscribe? || a.OpenStream?) && !Has(b.subs, a.id)
    ensures var b' := Do(b, a);
            && BusInv(b') && b'.limit == b.limit && b'.phase == b.phase && b'.history == b.history
            && b'.subs == b.subs + [NewSub(b, a.id, a.types, a.Subscribe?)]
            && NewSub(b, a.id, a.types, a.Subscribe?) ==
                 Sub(a.id, a.types, a.Subscribe?, [], if a.Subscribe? && b.phase == Running then Looping
                     else NoTask, |b.history|, [], {}, |b.history|)
            && (forall id :: Has(b.subs, id) ==> Has(b'.subs, id)) && Has(b'.subs, a.id)
  {
    hide BusInv;
    DoKeeps(b, a);
    var b' := Do(b, a);
    forall id | Has(b.subs, id)
      ensures Has(b'.subs, id)
    {
      var i :| 0 <= i < |b.subs| && b.subs[i].id == id;
      assert b'.subs[i].id == id;
    }
    assert b'.subs[|b.subs|].id == a.id;
  }

  lemma Publishing(b: Bus, e: DomainEvent)
    requires BusInv(b)
    ensures var b' := Do(b, BusModel.Publish(e));
            && BusInv(b') && b'.limit == b.limit && b'.phase == b.phase && b'.history == b.history + [e]
               && |b'.subs| == |b.subs|
            && (forall i | 0 <= i < |b.subs| :: b'.subs[i] == Receive(b.subs[i], e, |b.history|, b.limit))
            && (forall id :: Has(b.subs, id) ==> Has(b'.subs, id))
  {
    hide BusInv;
    DoKeeps(b, BusModel.Publish(e));
    var b' := Do(b, BusModel.Publish(e));
    forall id | Has(b.subs, id)
      ensures Has(b'.subs, id)
    {
      var i :| 0 <= i < |b.subs| && b.subs[i].id == id;
      assert b'.subs[i].id == id;
    }
  }
}
