/** Hours and money of each work order agree with the assignment log. */
module Conservation {
  import opened Orders
  import opened FlatMatch
  import opened Workloads
  import opened Dispatch

  predicate Mentions(f: Fill, id: string) {
    f.requester == id || f.provider == id
  }

  function ValueOf(f: Fill): real { f.hours * f.rate }

  /** The sum of `g` over the assignments in which the order takes part. */
  function OrderSum(log: seq<Fill>, id: string, g: Fill -> real): real {
    if log == [] then 0.0 else (if Mentions(log[0], id) then g(log[0]) else 0.0) + OrderSum(log[1..], id, g)
  }

  lemma {:induction false} OrderSumConcat(a: seq<Fill>, b: seq<Fill>, id: string, g: Fill -> real)
    ensures OrderSum(a + b, id, g) == OrderSum(a, id, g) + OrderSum(b, id, g)
  {
    if a == [] {
      assert a + b == b;
    } else {
      OrderSumConcat(a[1..], b, id, g);
      assert (a + b)[1..] == a[1..] + b;
    }
  }

  lemma {:induction false} OrderSumNone(log: seq<Fill>, id: string, g: Fill -> real)
    requires forall i | 0 <= i < |log| :: !Mentions(log[i], id)
    ensures OrderSum(log, id, g) == 0.0
  {
    if log != [] {
      OrderSumNone(log[1..], id, g);
    }
  }

  lemma {:induction false} OrderSumOne(log: seq<Fill>, id: string, g: Fill -> real, k: nat)
    requires k < |log| && Mentions(log[k], id)
    requires forall i | 0 <= i < |log| && i != k :: !Mentions(log[i], id)
    ensures OrderSum(log, id, g) == g(log[k])
  {
    if k == 0 {
      OrderSumNone(log[1..], id, g);
    } else {
      OrderSumOne(log[1..], id, g, k - 1);
    }
  }

  lemma {:induction false} OrderSumAll(log: seq<Fill>, id: string)
    requires forall i | 0 <= i < |log| :: Mentions(log[i], id)
    ensures OrderSum(log, id, HoursOf) == FillHours(log)
    ensures OrderSum(log, id, ValueOf) == FillCost(log)
  {
    if log != [] {
      OrderSumAll(log[1..], id);
    }
  }

  /** The average rate of the order times its hours is `value`, and that average keeps the order's own limit. */
  ghost predicate Costed(o: Order, value: real) {
    if o.assignedHours == 0.0 then value == 0.0
    else o.avg.Some? && o.avg.value * o.assignedHours == value && o.Accepts(o.avg.value)
  }

  lemma SignOfFactor(p: real, q: real)
    requires q > 0.0 && p * q >= 0.0
    ensures p >= 0.0
  {
  }

  /** A weighted average times its weight is the weighted sum, and it lies on the near side of each rate. */
  lemma AverageBetween(a: real, x: real, b: real, y: real)
    requires x > 0.0 && y > 0.0
    ensures var m := (a * x + b * y) / (x + y);
            m * (x + y) == a * x + b * y && (a <= b ==> a <= m <= b) && (b <= a ==> b <= m <= a)
  {
    var m := (a * x + b * y) / (x + y);
    assert m * (x + y) == a * x + b * y;
    if a <= b {
      DistanceToFirst(a, x, b, y, m);
      DistanceToSecond(a, x, b, y, m);
    } else {
      DistanceToFirst(-a, x, -b, y, -m);
      DistanceToSecond(-a, x, -b, y, -m);
    }
  }

  lemma DistanceToFirst(a: real, x: real, b: real, y: real, m: real)
    requires x > 0.0 && y > 0.0 && a <= b && m * (x + y) == a * x + b * y
    ensures m >= a
  {
    assert (b - a) * y >= 0.0;
    assert a * (x + y) == a * x + a * y;
    assert (m - a) * (x + y) == m * (x + y) - a * (x + y);
    SignOfFactor(m - a, x + y);
  }

  lemma DistanceToSecond(a: real, x: real, b: real, y: real, m: real)
    requires x > 0.0 && y > 0.0 && a <= b && m * (x + y) == a * x + b * y
    ensures m <= b
  {
    assert (b - a) * x >= 0.0;
    assert b * (x + y) == b * x + b * y;
    assert (b - m) * (x + y) == b * (x + y) - m * (x + y);
    SignOfFactor(b - m, x + y);
  }

  /** A further assignment within the limit keeps the average within it, and adds its value. */
  lemma FurtherAverage(o: Order, hours: real, rate: real)
    requires o.assignedHours > 0.0 && hours > 0.0 && o.avg.Some? && o.Accepts(o.avg.value) && o.Accepts(rate)
    ensures var avg := AverageAfter(o.avg, o.assignedHours, rate, hours);
            avg * (o.assignedHours + hours) == o.avg.value * o.assignedHours + rate * hours && o.Accepts(avg)
  {
    AverageBetween(o.avg.value, o.assignedHours, rate, hours);
  }

  lemma FilledCosted(o: Order, value: real, hours: real, rate: real)
    requires o.assignedHours >= 0.0 && hours > 0.0 && Costed(o, value) && o.Accepts(rate)
    ensures Costed(Filled(o, hours, rate), value + hours * rate)
  {
    if o.assignedHours > 0.0 {
      hide AverageAfter;
      FurtherAverage(o, hours, rate);
    }
  }

  /** The incoming order's average absorbs exactly the cost of the match. */
  lemma {:induction false} MatchCosted(o: Order, rest: seq<Order>, value: real)
    requires o.Validated() && Resting(o.side.Opposite(), rest) && Costed(o, value)
    ensures Costed(Match(o, rest).incoming, value + FillCost(Match(o, rest).fills))
    decreases |rest| + (if o.Remaining() > 0.0 then 1 else 0)
  {
    hide Match;
    MatchPass(o, rest);
    if Continues(o, rest) {
      var next, rest' := StepIncoming(o, rest[0]), StepRest(o, rest);
      var fill := FillOf(o, rest[0], StepHours(o, rest[0]), RateOf(rest[0]));
      FilledCosted(o, value, fill.hours, fill.rate);
      assert Costed(next, value + ValueOf(fill));
      hide Costed, AverageAfter, ValueOf;
      MatchCosted(next, rest', value + ValueOf(fill));
      PassedCosted(o, rest[0], value, Match(next, rest'));
    } else {
      assert FillCost([]) == 0.0;
    }
  }

  lemma PassedCosted(o: Order, resting: Order, value: real, m: MatchResult)
    requires o.Validated() && o.Remaining() > 0.0 && resting.Restable()
    requires Costed(m.incoming,
             value + ValueOf(FillOf(o, resting, StepHours(o, resting), RateOf(resting))) + FillCost(m.fills))
    ensures var p := Passed(o, resting, m); Costed(p.incoming, value + FillCost(p.fills))
  {
    hide Costed, AverageAfter, ValueOf;
    CostOfFirst(FillOf(o, resting, StepHours(o, resting), RateOf(resting)), m.fills);
  }

  lemma CostOfFirst(f: Fill, fills: seq<Fill>)
    ensures FillCost([f] + fills) == ValueOf(f) + FillCost(fills)
  {
    assert ([f] + fills)[1..] == fills;
  }

  /** What the log says about one order, in hours always and in money when it arrived unassigned. */
  ghost predicate Accounted(log: seq<Fill>, e: Entry) {
    && e.now.assignedHours == e.first.assignedHours + OrderSum(log, e.first.id, HoursOf)
    && (e.first.assignedHours == 0.0 ==> Costed(e.now, OrderSum(log, e.first.id, ValueOf)))
  }

  ghost predicate Unmentioned(log: seq<Fill>, id: string) {
    forall i | 0 <= i < |log| :: !Mentions(log[i], id)
  }

  ghost predicate AccountsInv(ledger: Ledger, log: seq<Fill>) {
    && (forall id | id in ledger :: ledger[id].first.id == id && Accounted(log, ledger[id]))
    && (forall id | id !in ledger :: Unmentioned(log, id))
  }

  /** Each fill of a match concerns the incoming order and the one resting order at its position. */
  lemma MatchMentions(o: Order, rest: seq<Order>, m: MatchResult)
    requires o.Validated() && Resting(o.side.Opposite(), rest) && ClosedForm(o, rest, m)
    ensures forall i, id | 0 <= i < |m.fills| :: Mentions(m.fills[i], id) <==> id == o.id || id == rest[i].id
  {
    hide AverageAfter;
    forall i, id | 0 <= i < |m.fills|
      ensures Mentions(m.fills[i], id) <==> id == o.id || id == rest[i].id
    {
      assert PositionFilled(o, rest, m, i);
    }
  }

  /** The account of the incoming order after a match. */
  lemma IncomingAccounted(log: seq<Fill>, e: Entry, rest: seq<Order>)
    requires e.now.Validated() && e.now.id == e.first.id && Resting(e.now.side.Opposite(), rest)
    requires Accounted(log, e)
    ensures var m := Match(e.now, rest); Accounted(log + m.fills, e.(now := m.incoming))
  {
    hide Match;
    IncomingSums(log, e.now, rest);
    MatchIncoming(e.now, rest);
    if e.first.assignedHours == 0.0 {
      MatchCosted(e.now, rest, OrderSum(log, e.first.id, ValueOf));
    }
    hide Costed, OrderSum, FillCost, FillHours, Resting, Order.Validated, ValueOf;
  }

  lemma IncomingSums(log: seq<Fill>, o: Order, rest: seq<Order>)
    requires o.Validated() && Resting(o.side.Opposite(), rest)
    ensures var fills := Match(o, rest).fills;
            && OrderSum(log + fills, o.id, HoursOf) == OrderSum(log, o.id, HoursOf) + FillHours(fills)
            && OrderSum(log + fills, o.id, ValueOf) == OrderSum(log, o.id, ValueOf) + FillCost(fills)
  {
    var m := Match(o, rest);
    MatchClosedForm(o, rest);
    MatchMentions(o, rest, m);
    hide Match, ClosedForm;
    OrderSumAll(m.fills, o.id);
    OrderSumConcat(log, m.fills, o.id, HoursOf);
    OrderSumConcat(log, m.fills, o.id, ValueOf);
  }

  /** The account of a touched resting order after a match. */
  lemma TouchedAccounted(log: seq<Fill>, e: Entry, fills: seq<Fill>, k: nat, touched: Order)
    requires k < |fills| && Accounted(log, e) && e.now.Validated() && e.now.cap.Some?
    requires forall i | 0 <= i < |fills| :: Mentions(fills[i], e.first.id) <==> i == k
    requires fills[k].hours > 0.0 && fills[k].rate == RateOf(e.now)
    requires touched == FilledResting(e.now, fills[k].hours, fills[k].rate)
    ensures Accounted(log + fills, e.(now := touched))
  {
    hide OrderSum, Mentions, ValueOf, Costed, AverageAfter;
    var id, f := e.first.id, fills[k];
    TouchedSum(log, fills, id, HoursOf, k);
    TouchedSum(log, fills, id, ValueOf, k);
    if e.first.assignedHours == 0.0 {
      TouchedCosted(e.now, OrderSum(log, id, ValueOf), f);
    }
  }

  lemma TouchedSum(log: seq<Fill>, fills: seq<Fill>, id: string, g: Fill -> real, k: nat)
    requires k < |fills| && forall i | 0 <= i < |fills| :: Mentions(fills[i], id) <==> i == k
    ensures OrderSum(log + fills, id, g) == OrderSum(log, id, g) + g(fills[k])
  {
    OrderSumOne(fills, id, g, k);
    OrderSumConcat(log, fills, id, g);
  }

  lemma TouchedCosted(o: Order, value: real, f: Fill)
    requires o.assignedHours >= 0.0 && f.hours > 0.0 && Costed(o, value) && o.cap.Some? && f.rate == RateOf(o)
    ensures Costed(FilledResting(o, f.hours, f.rate), value + ValueOf(f))
  {
    FilledCosted(o, value, f.hours, f.rate);
    hide AverageAfter;
  }

  lemma OtherAccounted(log: seq<Fill>, e: Entry, fills: seq<Fill>)
    requires Accounted(log, e) && Unmentioned(fills, e.first.id)
    ensures Accounted(log + fills, e)
  {
    OrderSumNone(fills, e.first.id, HoursOf);
    OrderSumNone(fills, e.first.id, ValueOf);
    OrderSumConcat(log, fills, e.first.id, HoursOf);
    OrderSumConcat(log, fills, e.first.id, ValueOf);
  }
}
