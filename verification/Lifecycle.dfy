/** The published events of each work order, read as a word, and the language they belong to. */
module Lifecycle {
  import opened Orders
  import opened Dispatch

  datatype Phase = Absent | IsSubmitted | IsRejected | IsAccepted | IsPartial | IsAssigned | IsCancelled | Broken

  function Next(p: Phase, kind: Kind): Phase {
    match (p, kind)
    case (Absent, OrderSubmitted) => IsSubmitted
    case (IsSubmitted, OrderRejected) => IsRejected
    case (IsSubmitted, OrderAccepted) => IsAccepted
    case (IsAccepted, OrderPartiallyAssigned) => IsPartial
    case (IsPartial, OrderPartiallyAssigned) => IsPartial
    case (IsAccepted, OrderAssigned) => IsAssigned
    case (IsPartial, OrderAssigned) => IsAssigned
    case (IsAccepted, OrderCancelled) => IsCancelled
    case (IsPartial, OrderCancelled) => IsCancelled
    case _ => Broken
  }

  /** The kinds of the work-order events of one id, in the order they were published. */
  function Word(events: seq<Event>, id: string): seq<Kind> {
    if events == [] then []
    else
      var e := events[|events| - 1];
      Word(events[..|events| - 1], id) + if e.WorkOrderEvent? && e.id == id then [e.kind] else []
  }

  function PhaseOf(word: seq<Kind>): Phase {
    if word == [] then Absent else Next(PhaseOf(word[..|word| - 1]), word[|word| - 1])
  }

  /** The language: SUBMITTED, then REJECTED, or ACCEPTED followed by any number of PARTIALLY_ASSIGNED and
      at most one final ASSIGNED or CANCELLED; or any beginning of that. */
  predicate InLanguage(word: seq<Kind>) {
    && (|word| > 0 ==> word[0] == OrderSubmitted)
    && (|word| > 1 ==> word[1] == OrderAccepted || (word[1] == OrderRejected && |word| == 2))
    && (forall i | 2 <= i < |word| - 1 :: word[i] == OrderPartiallyAssigned)
    && (|word| > 2 ==> word[|word| - 1] in {OrderPartiallyAssigned, OrderAssigned, OrderCancelled})
  }

  /** The phase automaton accepts exactly the language, and the phase tells how a word ends. */
  lemma {:induction false} PhaseMeansLanguage(word: seq<Kind>)
    ensures PhaseOf(word) != Broken <==> InLanguage(word)
    ensures InLanguage(word) && |word| > 2 ==>
      PhaseOf(word) == (match word[|word| - 1]
                        case OrderAssigned => IsAssigned
                        case OrderCancelled => IsCancelled
                        case _ => IsPartial)
    ensures InLanguage(word) && |word| == 2 ==>
              PhaseOf(word) == if word[1] == OrderRejected then IsRejected else IsAccepted
    ensures InLanguage(word) && |word| == 1 ==> PhaseOf(word) == IsSubmitted
  {
    if word != [] {
      var init := word[..|word| - 1];
      PhaseMeansLanguage(init);
      if |word| > 3 && InLanguage(word) {
        assert init[|init| - 1] == word[|word| - 2];
      }
      if PhaseOf(word) != Broken && |word| > 3 {
        assert init[|init| - 1] == word[|word| - 2];
        forall i | 2 <= i < |word| - 1
          ensures word[i] == OrderPartiallyAssigned
        {
          assert init[i] == word[i];
        }
      }
    }
  }

  lemma EmptyWord(word: seq<Kind>)
    ensures word == [] <==> PhaseOf(word) == Absent
  {
  }

  lemma WordAppend(events: seq<Event>, e: Event, id: string)
    ensures Word(events + [e], id) == Word(events, id) + if e.WorkOrderEvent? && e.id == id then [e.kind] else []
  {
    assert (events + [e])[..|events|] == events;
  }

  lemma {:induction false} WordGrows(events: seq<Event>, events': seq<Event>, id: string)
    requires events <= events'
    ensures Word(events, id) <= Word(events', id)
  {
    if |events| < |events'| {
      WordGrows(events, events'[..|events'| - 1], id);
    } else {
      assert events == events';
    }
  }

  /** Nothing follows a word that has ended. */
  lemma {:induction false} WordEnds(word: seq<Kind>, word': seq<Kind>)
    requires word <= word' && PhaseOf(word) in {IsRejected, IsAssigned, IsCancelled} && PhaseOf(word') != Broken
    ensures word' == word
  {
    if |word| < |word'| {
      WordEnds(word, word'[..|word'| - 1]);
    }
  }

  function PhaseAfter(events: seq<Event>, id: string): Phase {
    PhaseOf(Word(events, id))
  }

  lemma PhaseAppend(events: seq<Event>, e: Event, id: string)
    ensures PhaseAfter(events + [e], id)
         == if e.WorkOrderEvent? && e.id == id then Next(PhaseAfter(events, id), e.kind) else PhaseAfter(events, id)
  {
    WordAppend(events, e, id);
    var w := Word(events, id);
    if e.WorkOrderEvent? && e.id == id {
      assert (w + [e.kind])[..|w|] == w;
    } else {
      assert w + [] == w;
    }
  }

  function RestingKind(o: Order): Kind {
    if o.FullyAssigned() then OrderAssigned else OrderPartiallyAssigned
  }

  lemma PhaseFillEvents(events: seq<Event>, taker: string, f: Fill, resting: Order, id: string)
    ensures PhaseAfter(events + FillEvents(taker, f, resting), id)
         == if resting.id == id then Next(PhaseAfter(events, id), RestingKind(resting)) else PhaseAfter(events, id)
  {
    var e := FillEvents(taker, f, resting);
    PhaseAppend(events, e[0], id);
    PhaseAppend(events + [e[0]], e[1], id);
    PhaseAppend(events + [e[0]] + [e[1]], e[2], id);
    assert events + e == events + [e[0]] + [e[1]] + [e[2]];
  }

  /** In one match each touched order publishes one event and no other order publishes any. */
  lemma {:induction false} PhaseMatchEvents(events: seq<Event>, taker: string, fills: seq<Fill>, touched: seq<Order>,
                                            id: string)
    requires |fills| == |touched|
    requires forall i, j | 0 <= i < j < |touched| :: touched[i].id != touched[j].id
    ensures var p := PhaseAfter(events + MatchEvents(taker, fills, touched), id);
            && (forall i | 0 <= i < |touched| && touched[i].id == id ::
                 p == Next(PhaseAfter(events, id), RestingKind(touched[i])))
            && ((forall i | 0 <= i < |touched| :: touched[i].id != id) ==> p == PhaseAfter(events, id))
  {
    if fills == [] {
      assert events + MatchEvents(taker, fills, touched) == events;
    } else {
      var n := |fills| - 1;
      PhaseMatchEvents(events, taker, fills[..n], touched[..n], id);
      PhaseFillEvents(events + MatchEvents(taker, fills[..n], touched[..n]), taker, fills[n], touched[n], id);
      assert events + MatchEvents(taker, fills, touched)
          == events + MatchEvents(taker, fills[..n], touched[..n]) + FillEvents(taker, fills[n], touched[n]);
    }
  }
}
