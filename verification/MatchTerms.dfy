/** What a match does, said of rates, hours and names alone: whom each assignment names, that no order trades beyond
    its own limit, what it does to the resting orders and to both averages, and why it ends. */
module MatchTerms {
  import opened Options
  import opened Orders
  import opened FlatMatch

  /** A request never crosses a rate above its cap, nor an offer one below its ask; an order without a limit crosses
      every rate. The orders it may cross are those before the first that is beyond its limit. */
  lemma CrossableWithin(o: Order, rest: seq<Order>)
    requires o.Validated() && Resting(o.side.Opposite(), rest)
    ensures var k := Crossable(o, rest);
            && (o.mode != RateCapped ==> k == |rest|)
            && (o.mode == RateCapped && o.side == Request ==>
                  && (forall i | 0 <= i < k :: rest[i].cap.value <= o.cap.value)
                  && (k < |rest| ==> rest[k].cap.value > o.cap.value))
            && (o.mode == RateCapped && o.side == Offer ==>
                  && (forall i | 0 <= i < k :: rest[i].cap.value >= o.cap.value)
                  && (k < |rest| ==> rest[k].cap.value < o.cap.value))
  {
    var k := Crossable(o, rest);
    assert forall i | 0 <= i < |rest| :: rest[i].cap == Some(RateOf(rest[i]));
    assert forall i | 0 <= i < k :: o.Accepts(RateOf(rest[i]));
    assert k < |rest| ==> !o.Accepts(RateOf(rest[k]));
  }

  /** Every assignment of a match is within the limit of the order that started it. */
  lemma MatchKeepsLimit(o: Order, rest: seq<Order>)
    requires o.Validated() && Resting(o.side.Opposite(), rest) && o.mode == RateCapped
    ensures forall i | 0 <= i < |Match(o, rest).fills| ::
              if o.side == Request then Match(o, rest).fills[i].rate <= o.cap.value
              else Match(o, rest).fills[i].rate >= o.cap.value
  {
    var m := Match(o, rest);
    MatchClosedForm(o, rest);
    CrossableWithin(o, rest);
    hide Match, Crossable, Resting;
    forall i | 0 <= i < |m.fills|
      ensures if o.side == Request then m.fills[i].rate <= o.cap.value else m.fills[i].rate >= o.cap.value
    {
      assert PositionFilled(o, rest, m, i);
      FillTerms(o, rest, i);
    }
  }

  /** A match that stops with hours to assign and orders left has met a limit: the best rate left is strictly above
      the cap of the request, or strictly below the ask of the offer. */
  lemma MatchStopsAtLimit(o: Order, rest: seq<Order>)
    requires o.Validated() && Resting(o.side.Opposite(), rest)
    ensures var m := Match(o, rest);
            m.incoming.assignedHours < o.requestedHours && m.rest != [] ==>
              && o.mode == RateCapped && m.rest[0].cap.Some?
              && if o.side == Request then m.rest[0].cap.value > o.cap.value else m.rest[0].cap.value < o.cap.value
  {
    MatchStops(o, rest);
    MatchIncoming(o, rest);
    var m := Match(o, rest);
    hide Match;
    assert m.rest != [] ==> m.rest[0].Restable();
  }

  /** The i-th assignment of a match: requester and provider are the two orders by their sides, the rate is the
      resting order's own, and the resting order gives all it has left unless it is the last. It is ASSIGNED when
      nothing is left of it, PARTIALLY_ASSIGNED otherwise, and its average carries the value of what it gave. */
  lemma FillTerms(o: Order, rest: seq<Order>, i: nat)
    requires o.Validated() && Resting(o.side.Opposite(), rest) && i < |Match(o, rest).fills|
    ensures i < |rest| && |Match(o, rest).touched| == |Match(o, rest).fills|
    ensures var m := Match(o, rest);
            var f, r, t := m.fills[i], rest[i], m.touched[i];
            && f.asset == o.asset && f.initiator == o.side && r.cap == Some(f.rate)
            && (o.side == Request ==>
                  && f.requester == o.id && f.requesterOrg == o.org
                  && f.provider == r.id && f.providerOrg == r.org)
            && (o.side == Offer ==>
                  && f.requester == r.id && f.requesterOrg == r.org
                  && f.provider == o.id && f.providerOrg == o.org)
            && 0.0 < f.hours <= r.requestedHours - r.assignedHours
            && (i < |m.fills| - 1 ==> f.hours == r.requestedHours - r.assignedHours)
            && t == r.(assignedHours := r.assignedHours + f.hours, avg := t.avg,
                       status := if f.hours == r.requestedHours - r.assignedHours then Assigned
                                 else PartiallyAssigned)
            && t.avg.Some?
            && t.avg.value * t.assignedHours
               == (if r.avg.Some? then r.avg.value else f.rate) * r.assignedHours + f.rate * f.hours
  {
    hide *;
    PositionIs(o, rest, i);
    var f, r := Match(o, rest).fills[i], rest[i];
    NamedFill(o, r, f.hours);
    Served(r, f.hours, f.rate);
  }

  /** The i-th assignment and the order it touched, by the two functions of one pass. */
  lemma PositionIs(o: Order, rest: seq<Order>, i: nat)
    requires o.Validated() && Resting(o.side.Opposite(), rest) && i < |Match(o, rest).fills|
    ensures var m := Match(o, rest);
            && i < |rest| && |m.touched| == |m.fills| && rest[i].Restable()
            && 0.0 < m.fills[i].hours <= rest[i].requestedHours - rest[i].assignedHours
            && m.fills[i] == FillOf(o, rest[i], m.fills[i].hours, RateOf(rest[i]))
            && m.touched[i] == FilledResting(rest[i], m.fills[i].hours, m.fills[i].rate)
            && (i < |m.fills| - 1 ==> m.fills[i].hours == rest[i].requestedHours - rest[i].assignedHours)
  {
    MatchClosedForm(o, rest);
    var m := Match(o, rest);
    hide Match, Crossable, AverageAfter;
    assert PositionFilled(o, rest, m, i);
    assert i < |m.fills| - 1 ==> m.touched[i].FullyAssigned();
  }

  lemma NamedFill(o: Order, r: Order, hours: real)
    requires r.Restable()
    ensures var f := FillOf(o, r, hours, RateOf(r));
            && f.asset == o.asset && f.initiator == o.side && r.cap == Some(f.rate) && f.hours == hours
            && (o.side == Request ==>
                  && f.requester == o.id && f.requesterOrg == o.org
                  && f.provider == r.id && f.providerOrg == r.org)
            && (o.side == Offer ==>
                  && f.requester == r.id && f.requesterOrg == r.org
                  && f.provider == o.id && f.providerOrg == o.org)
  {
  }

  lemma Served(r: Order, hours: real, rate: real)
    requires r.Restable() && 0.0 < hours <= r.requestedHours - r.assignedHours
    ensures var t := FilledResting(r, hours, rate);
            && t == r.(assignedHours := r.assignedHours + hours, avg := t.avg,
                       status := if hours == r.requestedHours - r.assignedHours then Assigned else PartiallyAssigned)
            && t.avg.Some?
            && t.avg.value * t.assignedHours
               == (if r.avg.Some? then r.avg.value else rate) * r.assignedHours + rate * hours
  {
    AverageIs(r.avg, r.assignedHours, rate, hours);
    hide AverageAfter;
  }

  /** The average times the hours is the value of the hours. */
  lemma AverageIs(avg: Option<real>, before: real, rate: real, hours: real)
    requires before >= 0.0 && hours > 0.0
    ensures AverageAfter(avg, before, rate, hours) * (before + hours)
            == (if avg.Some? then avg.value else rate) * before + rate * hours
  {
    if avg.Some? && before != 0.0 {
      var value := avg.value * before + rate * hours;
      assert value / (before + hours) * (before + hours) == value;
    }
  }

  /** The opposite side afterwards: the orders that were served completely are gone, one that was served in part is
      the first, and behind it nothing changed. */
  lemma RestTerms(o: Order, rest: seq<Order>)
    requires o.Validated() && Resting(o.side.Opposite(), rest)
    ensures var m := Match(o, rest);
            var k := |m.fills|;
            && |m.touched| == k <= |rest|
            && m.rest == (if k > 0 && m.touched[k - 1].assignedHours < m.touched[k - 1].requestedHours
                          then [m.touched[k - 1]] else []) + rest[k..]
  {
    MatchClosedForm(o, rest);
  }

  /** The average of the incoming order carries the value of all it was assigned. */
  lemma {:induction false} IncomingAverage(o: Order, rest: seq<Order>)
    requires o.Validated() && Resting(o.side.Opposite(), rest)
    ensures var m := Match(o, rest);
            if m.fills == [] then m.incoming == o
            else m.incoming.avg.Some?
                 && m.incoming.avg.value * m.incoming.assignedHours
                    == (if o.avg.Some? then o.avg.value else m.fills[0].rate) * o.assignedHours + FillCost(m.fills)
    decreases |rest| + (if o.Remaining() > 0.0 then 1 else 0)
  {
    hide Match, AverageAfter;
    MatchPass(o, rest);
    if Continues(o, rest) {
      var next, rest' := StepIncoming(o, rest[0]), StepRest(o, rest);
      IncomingAverage(next, rest');
      PassedAverage(o, rest[0], Match(next, rest'));
    }
  }

  lemma PassedAverage(o: Order, resting: Order, m: MatchResult)
    requires o.Validated() && o.Remaining() > 0.0 && resting.Restable()
    requires var next := StepIncoming(o, resting);
             if m.fills == [] then m.incoming == next
             else m.incoming.avg.Some?
                  && m.incoming.avg.value * m.incoming.assignedHours
                     == (if next.avg.Some? then next.avg.value else m.fills[0].rate) * next.assignedHours
                        + FillCost(m.fills)
    ensures var p := Passed(o, resting, m);
            p.incoming.avg.Some?
            && p.incoming.avg.value * p.incoming.assignedHours
               == (if o.avg.Some? then o.avg.value else p.fills[0].rate) * o.assignedHours + FillCost(p.fills)
  {
    var hours, rate := StepHours(o, resting), RateOf(resting);
    AverageIs(o.avg, o.assignedHours, rate, hours);
    hide AverageAfter;
    assert ([FillOf(o, resting, hours, rate)] + m.fills)[1..] == m.fills;
    assert FillCost([FillOf(o, resting, hours, rate)] + m.fills) == hours * rate + FillCost(m.fills);
  }
}
