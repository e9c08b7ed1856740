/** The bounded event log of `mittelwerk/core/events.py`, against the full history of what was appended. */
module EventLogs {
  datatype EventType =
    | WorkOrderSubmitted | WorkOrderAccepted | WorkOrderRejected | WorkOrderCancelled | WorkOrderAssigned
    | WorkOrderPartiallyAssigned | AssignmentExecuted | WorkloadUpdated | TelemetryReading
    | OperationalRiskBreach | DispatchPolicySignal | SystemStatus

  /** An event envelope: its type, and everything else as one opaque id. */
  datatype DomainEvent = DomainEvent(kind: EventType, id: string)

  /** An empty set of types stands for all types. */
  predicate Matches(e: DomainEvent, types: set<EventType>) {
    types == {} || e.kind in types
  }

  function Filter(events: seq<DomainEvent>, types: set<EventType>): seq<DomainEvent> {
    if events == [] then []
    else (if Matches(events[0], types) then [events[0]] else []) + Filter(events[1..], types)
  }

  function Max(a: int, b: int): int {
    if a >= b then a else b
  }

  /** What is left of a history from global sequence number `n` on. */
  function From(history: seq<DomainEvent>, n: int): seq<DomainEvent>
    requires n >= 0
  {
    if n >= |history| then [] else history[n..]
  }

  lemma {:induction false} FilterAll(events: seq<DomainEvent>)
    ensures Filter(events, {}) == events
  {
    if events != [] {
      FilterAll(events[1..]);
    }
  }

  lemma FilterNone(types: set<EventType>)
    ensures Filter([], types) == []
  {
  }

  lemma {:induction false} FilterAppend(events: seq<DomainEvent>, i: nat, types: set<EventType>)
    requires i < |events|
    ensures Filter(events[..i + 1], types) == Filter(events[..i], types) + if Matches(events[i], types) then
            [events[i]] else []
  {
    if i == 0 {
      assert events[..1] == [events[0]];
    } else {
      FilterAppend(events[1..], i - 1, types);
      assert events[..i + 1][1..] == events[1..][..i] && events[..i][1..] == events[1..][..i - 1];
    }
  }

  class EventLog {
    const maxSize: nat
    var events: seq<DomainEvent>
    var base: nat
    var next: nat
    /** Everything ever appended. */
    ghost var history: seq<DomainEvent>

    /** The log holds the last `maxSize` events of the history. */
    ghost predicate Valid()
      reads this
    {
      && maxSize > 0 && next == |history|
      && base == Max(0, |history| - maxSize)
      && events == history[base..]
    }

    constructor (maxSize: nat)
      requires maxSize > 0
      ensures Valid() && history == [] && this.maxSize == maxSize
    {
      this.maxSize := maxSize;
      events, base, next, history := [], 0, 0, [];
    }

    method Append(e: DomainEvent) returns (sequence: nat)
      requires Valid()
      modifies this
      ensures Valid() && history == old(history) + [e] && sequence == |old(history)|
    {
      sequence := next;
      events := events + [e];
      next := next + 1;
      if |events| > maxSize {
        var overflow := |events| - maxSize;
        events := events[overflow..];
        base := base + overflow;
      }
      history := history + [e];
    }

    /** The events still held from a global sequence number on, of the given types. */
    method Replay(from: int, types: set<EventType>) returns (r: seq<DomainEvent>)
      requires Valid()
      ensures r == Filter(From(history, Max(from, base)), types)
    {
      var start := Max(from, base) - base;
      var held := if start >= |events| then [] else events[start..];
      assert held == From(history, Max(from, base));
      hide Filter, From;
      FilterAll(held);
      FilterNone(types);
      if types == {} {
        return held;
      }
      r := [];
      for i := 0 to |held|
        invariant r == Filter(held[..i], types)
      {
        FilterAppend(held, i, types);
        if held[i].kind in types {
          r := r + [held[i]];
        }
      }
      assert held[..|held|] == held;
    }
  }

  lemma {:induction false} FilterConcat(a: seq<DomainEvent>, b: seq<DomainEvent>, types: set<EventType>)
    ensures Filter(a + b, types) == Filter(a, types) + Filter(b, types)
  {
    if a == [] {
      assert a + b == b;
    } else {
      FilterConcat(a[1..], b, types);
      assert (a + b)[1..] == a[1..] + b;
    }
  }

  /** A filter keeps an event as often as it was there if its type is asked for, or if no type is, and drops every
      other; with `FilterConcat`, in the order they came. */
  lemma {:induction false} FilterKeeps(events: seq<DomainEvent>, types: set<EventType>)
    ensures forall e :: multiset(Filter(events, types))[e]
                        == if types == {} || e.kind in types then multiset(events)[e] else 0
  {
    if events != [] {
      FilterKeeps(events[1..], types);
      assert events == [events[0]] + events[1..];
    }
  }

  /** A reader that replays up to `b`, and later goes on from `b`, misses nothing and sees nothing twice,
      however much was appended in between. */
  lemma ReplayResumes(history: seq<DomainEvent>, more: seq<DomainEvent>, a: nat, types: set<EventType>)
    requires a <= |history|
    ensures Filter(From(history + more, a), types)
            == Filter(From(history, a), types) + Filter(From(history + more, |history|), types)
  {
    assert From(history + more, a) == From(history, a) + From(history + more, |history|);
    FilterConcat(From(history, a), From(history + more, |history|), types);
  }
}
