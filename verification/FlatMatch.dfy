/** The reference matcher: the opposite side of the queue seen as one list in priority order.
    `Match` follows the loop of `DispatchEngine._match`; `MatchClosedForm` says what it computes
    without following it. */
module FlatMatch {
  import opened Options
  import opened Orders

  datatype MatchResult = MatchResult(incoming: Order, rest: seq<Order>, fills: seq<Fill>, touched: seq<Order>)

  /** True when a list holds only orders that may stand in a queue on `side`. */
  predicate Resting(side: Side, rest: seq<Order>) {
    forall i | 0 <= i < |rest| :: rest[i].side == side && rest[i].Restable()
  }

  /** A strictly better rate comes first: requests high to low, offers low to high. */
  predicate Better(side: Side, a: real, b: real) {
    if side == Request then a > b else a < b
  }

  /** The rate an order stands at; every resting order has one. */
  function RateOf(o: Order): real {
    if o.cap.Some? then o.cap.value else 0.0
  }

  predicate Sorted(side: Side, rest: seq<Order>)
    requires Resting(side, rest)
  {
    forall i, j | 0 <= i < j < |rest| :: !Better(side, RateOf(rest[j]), RateOf(rest[i]))
  }

  /** The order after `hours` more were assigned to it at `rate`; its status is not touched. */
  function Filled(o: Order, hours: real, rate: real): Order
    requires o.assignedHours >= 0.0 && hours > 0.0
  {
    o.(avg := Some(AverageAfter(o.avg, o.assignedHours, rate, hours)), assignedHours := o.assignedHours + hours)
  }

  /** The resting order after an assignment, with its new status. */
  function FilledResting(o: Order, hours: real, rate: real): Order
    requires o.assignedHours >= 0.0 && hours > 0.0
  {
    var f := Filled(o, hours, rate);
    f.(status := if f.FullyAssigned() then Assigned else PartiallyAssigned)
  }

  function FillOf(incoming: Order, resting: Order, hours: real, rate: real): Fill {
    var (q, p) := if incoming.side == Request then (incoming, resting) else (resting, incoming);
    Fill(incoming.asset, q.id, p.id, rate, hours, q.org, p.org, incoming.side)
  }

  /** Whether the matching loop makes another pass. */
  predicate Continues(incoming: Order, rest: seq<Order>)
    requires Resting(incoming.side.Opposite(), rest)
  {
    incoming.Remaining() > 0.0 && rest != [] && incoming.Accepts(RateOf(rest[0]))
  }

  /** The hours of the next assignment. */
  function StepHours(incoming: Order, resting: Order): real {
    Min(incoming.Remaining(), resting.Remaining())
  }

  /** The opposite side after one pass. */
  function StepRest(incoming: Order, rest: seq<Order>): (rest': seq<Order>)
    requires incoming.Validated() && Resting(incoming.side.Opposite(), rest) && Continues(incoming, rest)
    ensures Resting(incoming.side.Opposite(), rest')
  {
    var r := FilledResting(rest[0], StepHours(incoming, rest[0]), RateOf(rest[0]));
    if r.FullyAssigned() then rest[1..] else [r] + rest[1..]
  }

  function StepIncoming(incoming: Order, resting: Order): Order
    requires incoming.Validated() && incoming.Remaining() > 0.0 && resting.Restable()
  {
    Filled(incoming, StepHours(incoming, resting), RateOf(resting))
  }

  /** The outcome of a match whose first pass hits `resting` and whose later passes give `m`. */
  function Passed(incoming: Order, resting: Order, m: MatchResult): MatchResult
    requires incoming.Validated() && incoming.Remaining() > 0.0 && resting.Restable()
  {
    var hours := StepHours(incoming, resting);
    MatchResult(m.incoming, m.rest,
                [FillOf(incoming, resting, hours, RateOf(resting))] + m.fills,
                [FilledResting(resting, hours, RateOf(resting))] + m.touched)
  }

  /** The matching loop. It ends because every resting order has hours left, so each pass
      either uses one up or satisfies the incoming order. */
  function Match(incoming: Order, rest: seq<Order>): MatchResult
    requires incoming.Validated() && Resting(incoming.side.Opposite(), rest)
    decreases |rest| + (if incoming.Remaining() > 0.0 then 1 else 0)
  {
    if !Continues(incoming, rest) then MatchResult(incoming, rest, [], [])
    else
      Passed(incoming, rest[0], Match(StepIncoming(incoming, rest[0]), StepRest(incoming, rest)))
  }

  /** One pass of the loop, for proofs that follow it. */
  lemma MatchPass(incoming: Order, rest: seq<Order>)
    requires incoming.Validated() && Resting(incoming.side.Opposite(), rest)
    ensures if Continues(incoming, rest)
            then Match(incoming, rest)
                == Passed(incoming, rest[0], Match(StepIncoming(incoming, rest[0]), StepRest(incoming, rest)))
            else Match(incoming, rest) == MatchResult(incoming, rest, [], [])
  {
    hide AverageAfter;
  }

  /** Hours on offer in a list. */
  function HoursIn(rest: seq<Order>): real {
    if rest == [] then 0.0 else rest[0].Remaining() + HoursIn(rest[1..])
  }

  /** The longest prefix whose rates the incoming order accepts. */
  function Crossable(incoming: Order, rest: seq<Order>): (k: nat)
    requires Resting(incoming.side.Opposite(), rest)
    ensures k <= |rest|
    ensures forall i | 0 <= i < k :: incoming.Accepts(RateOf(rest[i]))
    ensures k < |rest| ==> !incoming.Accepts(RateOf(rest[k]))
  {
    if rest == [] || !incoming.Accepts(RateOf(rest[0])) then 0 else 1 + Crossable(incoming, rest[1..])
  }

  function FillHours(fills: seq<Fill>): real {
    if fills == [] then 0.0 else fills[0].hours + FillHours(fills[1..])
  }

  function FillCost(fills: seq<Fill>): real {
    if fills == [] then 0.0 else fills[0].hours * fills[0].rate + FillCost(fills[1..])
  }

  /** The hours that reach position `i`: what the incoming order still needs after everything before it. */
  function Share(incoming: Order, rest: seq<Order>, i: nat): real
    requires i < |rest|
  {
    Min(rest[i].Remaining(), incoming.Remaining() - HoursIn(rest[..i]))
  }

  lemma {:induction false} HoursInPrefix(rest: seq<Order>, i: nat)
    requires 0 < i <= |rest|
    ensures HoursIn(rest[..i]) == rest[0].Remaining() + HoursIn(rest[1..][..i - 1])
  {
    assert rest[..i][1..] == rest[1..][..i - 1];
  }

  lemma {:induction false} HoursInAppend(rest: seq<Order>, i: nat)
    requires i < |rest|
    ensures HoursIn(rest[..i + 1]) == HoursIn(rest[..i]) + rest[i].Remaining()
  {
    HoursInPrefix(rest, i + 1);
    if i > 0 {
      HoursInAppend(rest[1..], i - 1);
      HoursInPrefix(rest, i);
    }
  }

  /** The resting order at `i` gets its share, at its own rate. */
  ghost predicate PositionFilled(incoming: Order, rest: seq<Order>, m: MatchResult, i: nat)
    requires incoming.Validated() && Resting(incoming.side.Opposite(), rest)
    requires i < |rest| && i < |m.fills| == |m.touched|
  {
    && Share(incoming, rest, i) > 0.0
    && m.fills[i] == FillOf(incoming, rest[i], Share(incoming, rest, i), RateOf(rest[i]))
    && m.touched[i] == FilledResting(rest[i], Share(incoming, rest, i), RateOf(rest[i]))
  }

  /** What one match computes, position by position: it consumes a prefix of the crossable orders, each
      at its own rate and at most once, all but the last completely; how far it reaches and how much each
      order gives is fixed by the hours standing before it. */
  ghost predicate ClosedForm(incoming: Order, rest: seq<Order>, m: MatchResult)
    requires incoming.Validated() && Resting(incoming.side.Opposite(), rest)
  {
    var k := |m.fills|;
    && |m.touched| == k <= Crossable(incoming, rest)
    && (forall i | 0 <= i < k :: PositionFilled(incoming, rest, m, i))
    && (forall i | 0 <= i < k - 1 :: m.touched[i].FullyAssigned())
    && (k < Crossable(incoming, rest) ==> HoursIn(rest[..k]) >= incoming.Remaining())
    && m.rest == (if k > 0 && !m.touched[k - 1].FullyAssigned() then [m.touched[k - 1]] else []) + rest[k..]
  }

  lemma {:induction false} MatchClosedForm(incoming: Order, rest: seq<Order>)
    requires incoming.Validated() && Resting(incoming.side.Opposite(), rest)
    ensures ClosedForm(incoming, rest, Match(incoming, rest))
    decreases |rest|
  {
    if Continues(incoming, rest) {
      var next := StepIncoming(incoming, rest[0]);
      var rest' := StepRest(incoming, rest);
      if rest[0].Remaining() <= incoming.Remaining() {
        assert rest' == rest[1..];
        MatchClosedForm(next, rest[1..]);
        ClosedFormExtends(incoming, rest, Match(next, rest[1..]));
      } else {
        assert Match(next, rest') == MatchResult(next, rest', [], []);
        ClosedFormStopsInside(incoming, rest);
      }
    }
  }

  /** A position's share is the same whether counted from the whole list or, after the first order is
      used up, from the rest of it. */
  lemma ShareAfterFirst(incoming: Order, rest: seq<Order>, i: nat)
    requires incoming.Validated() && Resting(incoming.side.Opposite(), rest) && incoming.Remaining() > 0.0
    requires 0 < i < |rest| && rest[0].Remaining() <= incoming.Remaining()
    ensures Share(incoming, rest, i) == Share(StepIncoming(incoming, rest[0]), rest[1..], i - 1)
  {
    HoursInPrefix(rest, i);
  }

  lemma PositionExtends(incoming: Order, rest: seq<Order>, m': MatchResult, i: nat)
    requires incoming.Validated() && Resting(incoming.side.Opposite(), rest) && Continues(incoming, rest)
    requires rest[0].Remaining() <= incoming.Remaining()
    requires 0 < i < |rest| && i <= |m'.fills| == |m'.touched|
    requires PositionFilled(StepIncoming(incoming, rest[0]), rest[1..], m', i - 1)
    ensures PositionFilled(incoming, rest, Passed(incoming, rest[0], m'), i)
  {
    ShareAfterFirst(incoming, rest, i);
  }

  lemma ClosedFormExtends(incoming: Order, rest: seq<Order>, m': MatchResult)
    requires incoming.Validated() && Resting(incoming.side.Opposite(), rest) && Continues(incoming, rest)
    requires rest[0].Remaining() <= incoming.Remaining()
    requires ClosedForm(StepIncoming(incoming, rest[0]), rest[1..], m')
    ensures ClosedForm(incoming, rest, Passed(incoming, rest[0], m'))
  {
    hide AverageAfter;
    var next := StepIncoming(incoming, rest[0]);
    var m := Passed(incoming, rest[0], m');
    var k := |m.fills|;
    CrossableSameTerms(next, incoming, rest[1..]);
    HoursInPrefix(rest, k);
    assert rest[1..][k - 1..] == rest[k..];
    forall i | 0 <= i < k
      ensures PositionFilled(incoming, rest, m, i)
    {
      if i > 0 {
        assert PositionFilled(next, rest[1..], m', i - 1);
        PositionExtends(incoming, rest, m', i);
      } else {
        assert Share(incoming, rest, 0) == StepHours(incoming, rest[0]);
      }
    }
  }

  lemma ClosedFormStopsInside(incoming: Order, rest: seq<Order>)
    requires incoming.Validated() && Resting(incoming.side.Opposite(), rest) && Continues(incoming, rest)
    requires incoming.Remaining() < rest[0].Remaining()
    ensures ClosedForm(incoming, rest,
                       Passed(incoming, rest[0],
                           MatchResult(StepIncoming(incoming, rest[0]), StepRest(incoming, rest), [], [])))
  {
    assert Share(incoming, rest, 0) == incoming.Remaining();
    assert HoursIn(rest[..1]) == rest[0].Remaining();
  }

  lemma {:induction false} CrossableSameTerms(a: Order, b: Order, rest: seq<Order>)
    requires a.side == b.side && a.mode == b.mode && a.cap == b.cap
    requires Resting(a.side.Opposite(), rest)
    ensures Crossable(a, rest) == Crossable(b, rest)
  {
    if rest != [] {
      CrossableSameTerms(a, b, rest[1..]);
    }
  }

  /** The hours of a match: the incoming order receives the smaller of what it needs and what it may cross. */
  lemma {:induction false} MatchHours(incoming: Order, rest: seq<Order>)
    requires incoming.Validated() && Resting(incoming.side.Opposite(), rest)
    ensures FillHours(Match(incoming, rest).fills)
         == Min(incoming.Remaining(), HoursIn(rest[..Crossable(incoming, rest)]))
    decreases |rest| + (if incoming.Remaining() > 0.0 then 1 else 0)
  {
    hide AverageAfter;
    var k := Crossable(incoming, rest);
    HoursInNonNegative(incoming.side.Opposite(), rest[..k]);
    if Continues(incoming, rest) {
      var next := StepIncoming(incoming, rest[0]);
      var rest' := StepRest(incoming, rest);
      var m' := Match(next, rest');
      assert Match(incoming, rest).fills[1..] == m'.fills;
      MatchHours(next, rest');
      HoursInPrefix(rest, k);
      if rest[0].Remaining() <= incoming.Remaining() {
        assert rest' == rest[1..];
        CrossableSameTerms(next, incoming, rest[1..]);
      } else {
        HoursInNonNegative(incoming.side.Opposite(), rest[1..][..k - 1]);
        assert m' == MatchResult(next, rest', [], []);
      }
    }
  }

  /** Nothing about the incoming order changes in a match except its hours and its average. */
  lemma {:induction false} MatchIncoming(incoming: Order, rest: seq<Order>)
    requires incoming.Validated() && Resting(incoming.side.Opposite(), rest)
    ensures var m := Match(incoming, rest);
            && m.incoming
               == incoming.(assignedHours := incoming.assignedHours + FillHours(m.fills), avg := m.incoming.avg)
            && m.incoming.Validated()
            && Resting(incoming.side.Opposite(), m.rest)
    decreases |rest| + (if incoming.Remaining() > 0.0 then 1 else 0)
  {
    hide AverageAfter;
    if Continues(incoming, rest) {
      var next := StepIncoming(incoming, rest[0]);
      var rest' := StepRest(incoming, rest);
      assert Match(incoming, rest).fills[1..] == Match(next, rest').fills;
      MatchIncoming(next, rest');
    }
  }

  /** The loop stops when the order is satisfied, the side is empty, or the best rate is not acceptable. */
  lemma {:induction false} MatchStops(incoming: Order, rest: seq<Order>)
    requires incoming.Validated() && Resting(incoming.side.Opposite(), rest)
    ensures var m := Match(incoming, rest);
            m.incoming.Remaining() == 0.0 || m.rest == [] || !incoming.Accepts(RateOf(m.rest[0]))
    decreases |rest| + (if incoming.Remaining() > 0.0 then 1 else 0)
  {
    hide AverageAfter;
    if Continues(incoming, rest) {
      MatchStops(StepIncoming(incoming, rest[0]), StepRest(incoming, rest));
    }
  }

  lemma {:induction false} HoursInNonNegative(side: Side, rest: seq<Order>)
    requires Resting(side, rest)
    ensures HoursIn(rest) >= 0.0
  {
    if rest != [] {
      HoursInNonNegative(side, rest[1..]);
    }
  }

  /** Along one match the rates never improve for the incoming order. */
  lemma {:induction false} MatchRatesNeverImprove(incoming: Order, rest: seq<Order>)
    requires incoming.Validated() && Resting(incoming.side.Opposite(), rest)
    requires Sorted(incoming.side.Opposite(), rest)
    ensures var fills := Match(incoming, rest).fills;
            forall i, j | 0 <= i < j < |fills| :: !Better(incoming.side.Opposite(), fills[j].rate, fills[i].rate)
  {
    MatchClosedForm(incoming, rest);
    var m := Match(incoming, rest);
    forall i | 0 <= i < |m.fills| ensures m.fills[i].rate == RateOf(rest[i]) {
      assert PositionFilled(incoming, rest, m, i);
    }
  }

  /** The number of passes of the loop: one per fill, and at most one per resting order. */
  lemma {:induction false} MatchPassBound(incoming: Order, rest: seq<Order>)
    requires incoming.Validated() && Resting(incoming.side.Opposite(), rest)
    ensures |Match(incoming, rest).fills| <= |rest|
  {
    MatchClosedForm(incoming, rest);
  }
}
