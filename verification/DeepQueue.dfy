/** A queue deeper than the complete-or-nothing check looks can be reached, and there the check refuses an order that
    the matcher would assign whole. */
module DeepQueues {
  import opened Options
  import opened Orders
  import opened FlatMatch
  import opened Dispatch
  import opened Invariant
  import opened FillOrKill
  import opened Steps
  import opened Runs

  /** An engine without reference data and without a pre-dispatch check. */
  const PLAIN: Config := Config(map[], None)

  /** Distinct ids, one for each number. */
  function Label(i: nat): string {
    seq(i, _ => 'a')
  }

  lemma LabelsDiffer(i: nat, j: nat)
    requires i != j
    ensures Label(i) != Label(j)
  {
    assert |Label(i)| == i && |Label(j)| == j;
  }

  lemma LabelIsPlain(i: nat)
    ensures Label(i) != "all"
  {
    assert "all"[1] == 'l';
    assert i == 3 ==> Label(i)[1] == 'a';
  }

  /** An offer of one hour at the rate `i + 1`, open until assigned. */
  function Rung(asset: string, i: nat): Order {
    Order(Label(i), "org", asset, Offer, RateCapped, Open, 1.0, Some(i as real + 1.0), None, New, 0.0, None)
  }

  function Ladder(asset: string, n: nat): seq<Action> {
    seq(n, i requires 0 <= i < n => Submitting(Rung(asset, i)))
  }

  /** The offers of the ladder, as they rest. */
  function Rungs(asset: string, n: nat): (r: seq<Order>)
    ensures |r| == n && Resting(Offer, r)
    ensures forall i | 0 <= i < n :: r[i] == Rung(asset, i).(status := Accepted)
  {
    seq(n, i requires 0 <= i < n => Rung(asset, i).(status := Accepted))
  }

  // ----- As many levels as rungs -----------------------------------------------------------------------------

  /** Orders at different rates stand on as many levels. */
  lemma {:induction false} OneLevelEach(side: Side, rest: seq<Order>)
    requires Resting(side, rest) && forall i | 0 <= i < |rest| - 1 :: RateOf(rest[i]) != RateOf(rest[i + 1])
    ensures LevelCount(side, rest) == |rest|
  {
    if rest != [] {
      assert FirstLevel(side, rest) == 1 by {
        if |rest| > 1 {
          assert RateOf(rest[0]) != RateOf(rest[0 + 1]);
        }
      }
      forall i | 0 <= i < |rest[1..]| - 1
        ensures RateOf(rest[1..][i]) != RateOf(rest[1..][i + 1])
      {
        assert RateOf(rest[i + 1]) != RateOf(rest[i + 1 + 1]);
      }
      OneLevelEach(side, rest[1..]);
    }
  }

  lemma LadderLevels(asset: string, n: nat)
    ensures LevelCount(Offer, Rungs(asset, n)) == n
  {
    OneLevelEach(Offer, Rungs(asset, n));
  }

  // ----- Reaching it ---------------------------------------------------------------------------------------

  /** An order that meets nothing rests behind everything at a better or the same rate. */
  lemma NothingToMeet(s: State, o: Order)
    requires Ready(s, o) && Opposite(s, o) == [] && o.status == Accepted && !o.FullyAssigned()
             && o.mode == RateCapped && o.window == Open
    requires s.ledger[o.id].now == o
    ensures Dispatched(s, o).ledger == s.ledger
    ensures Dispatched(s, o).queues
            == s.queues[o.asset := s.queues[o.asset].With(o.side, Insert(o.side, s.queues[o.asset].Of(o.side), o))]
  {
    hide QueuesRest, Insert, Order.Validated;
    MatchPass(o, []);
    MatchFits(s, o);
    var m := Match(o, []);
    SettleReady(s, o, m);
    NothingSettled(s, o, m);
  }

  lemma NothingSettled(s: State, o: Order, m: MatchResult)
    requires Fits(s, o, m) && m == MatchResult(o, [], [], []) && Opposite(s, o) == [] && s.ledger[o.id].now == o
    ensures Settle(s, o, m) == s
  {
    var q := s.queues[o.asset];
    assert q.With(o.side.Opposite(), []) == q;
    assert s.queues[o.asset := q] == s.queues;
    assert s.ledger[o.id := s.ledger[o.id].(now := o)] == s.ledger;
    assert s.log + [] == s.log && s.events + [] == s.events;
  }

  /** The state after `n` rungs, as far as it matters. */
  ghost predicate Climbed(s: State, asset: string, n: nat) {
    && (forall id :: id in s.ledger <==> exists i: nat :: i < n && id == Label(i))
    && s.queues == if n == 0 then map[] else map[asset := Queue([], Rungs(asset, n))]
  }

  lemma {:induction false} InsertLast(side: Side, list: seq<Order>, o: Order)
    requires forall i | 0 <= i < |list| :: !Better(side, RateOf(o), RateOf(list[i]))
    ensures Insert(side, list, o) == list + [o]
  {
    if list != [] {
      assert !Better(side, RateOf(o), RateOf(list[0]));
      InsertLast(side, list[1..], o);
    }
  }

  lemma NewRung(s: State, asset: string, n: nat)
    requires Climbed(s, asset, n)
    ensures Rung(asset, n).id !in s.ledger
  {
    forall i: nat | i < n
      ensures Label(i) != Label(n)
    {
      LabelsDiffer(i, n);
    }
  }

  /** The admitted rung meets no request, and its side is the ladder so far. */
  lemma RungMeetsNothing(s: State, asset: string, n: nat)
    requires Climbed(s, asset, n) && Rung(asset, n).id !in s.ledger
    ensures var s1 := Admitted(s, Rung(asset, n));
            && asset in s1.queues && s1.queues[asset] == Queue([], Rungs(asset, n))
            && s1.queues == map[asset := Queue([], Rungs(asset, n))]
            && s1.ledger.Keys == s.ledger.Keys + {Label(n)}
               && s1.ledger[Label(n)].now == Rung(asset, n).(status := Accepted)
  {
    hide Label;
    AdmittedFields(s, Rung(asset, n));
    assert Rungs(asset, 0) == [];
  }

  lemma RungOnTop(asset: string, n: nat)
    ensures Insert(Offer, Rungs(asset, n), Rung(asset, n).(status := Accepted)) == Rungs(asset, n + 1)
  {
    InsertLast(Offer, Rungs(asset, n), Rung(asset, n).(status := Accepted));
  }

  lemma RungAdmissible(s: State, asset: string, n: nat)
    requires Inv(s) && Rung(asset, n).id !in s.ledger
    ensures Admissible(PLAIN, s, Rung(asset, n)) && Rung(asset, n).Validated()
            && Rung(asset, n).(status := Accepted).Validated()
  {
    hide Inv, Label;
  }

  lemma NextRung(s: State, asset: string, n: nat)
    requires Inv(s) && QueuesRest(s) && Climbed(s, asset, n)
    ensures Climbed(Submit(PLAIN, s, Rung(asset, n)), asset, n + 1)
  {
    hide Inv, QueuesRest, Submit, Dispatched, Admitted, Ready, Insert, Climbed, Admissible, Rungs, Label,
         Order.Validated;
    var o, o' := Rung(asset, n), Rung(asset, n).(status := Accepted);
    NewRung(s, asset, n);
    RungAdmissible(s, asset, n);
    SubmitDispatches(PLAIN, s, o);
    RungMeetsNothing(s, asset, n);
    RungOnTop(asset, n);
    NothingToMeet(Admitted(s, o), o');
    assert Submit(PLAIN, s, o).queues == map[asset := Queue([], Rungs(asset, n + 1))];
    StillClimbed(s, Submit(PLAIN, s, o), asset, n);
  }

  lemma StillClimbed(s: State, s': State, asset: string, n: nat)
    requires Climbed(s, asset, n)
    requires s'.ledger.Keys == s.ledger.Keys + {Label(n)} && s'.queues == map[asset := Queue([], Rungs(asset, n + 1))]
    ensures Climbed(s', asset, n + 1)
  {
    hide Label;
  }

  lemma LadderIsPossible(asset: string, n: nat)
    ensures AllPossible(Ladder(asset, n))
  {
    hide Label;
  }

  lemma LadderNext(asset: string, n: nat)
    ensures Ladder(asset, n + 1)[..n] == Ladder(asset, n) && Ladder(asset, n + 1)[n] == Submitting(Rung(asset, n))
  {
    hide Rung;
  }

  lemma {:induction false} LadderClimbs(asset: string, n: nat)
    ensures Inv(INITIAL) && AllPossible(Ladder(asset, n))
    ensures Climbed(Run(PLAIN, INITIAL, Ladder(asset, n)), asset, n)
  {
    InitialInv();
    LadderIsPossible(asset, n);
    if n == 0 {
      NotClimbed(asset);
    } else {
      hide Inv, Climbed, Submit, AllPossible, Ladder, Rung, QueuesRest, Order.Validated;
      LadderClimbs(asset, n - 1);
      LadderNext(asset, n - 1);
      var s := Run(PLAIN, INITIAL, Ladder(asset, n - 1));
      RungIsValid(asset, n - 1);
      SubmitKeeps(PLAIN, s, Rung(asset, n - 1));
      NextRung(s, asset, n - 1);
    }
  }

  lemma RungIsValid(asset: string, n: nat)
    ensures Rung(asset, n).Validated()
  {
  }

  lemma NotClimbed(asset: string)
    ensures Climbed(INITIAL, asset, 0) && Ladder(asset, 0) == []
  {
  }

  /** The queue the ladder makes. */
  lemma TopOfLadder(asset: string, n: nat)
    requires n > 0
    ensures Inv(INITIAL) && AllPossible(Ladder(asset, n))
    ensures var s := Run(PLAIN, INITIAL, Ladder(asset, n));
            s.queues == map[asset := Queue([], Rungs(asset, n))] && "all" !in s.ledger && Inv(s) && Reachable(PLAIN, s)
  {
    LadderClimbs(asset, n);
    hide Inv, AllPossible, Ladder, Rungs, Label, Climbed;
    var s := Run(PLAIN, INITIAL, Ladder(asset, n));
    ClimbedQueues(s, asset, n);
    TakesUnknown(s, asset, n);
    assert Reachable(PLAIN, s);
  }

  lemma ClimbedQueues(s: State, asset: string, n: nat)
    requires Climbed(s, asset, n) && n > 0
    ensures s.queues == map[asset := Queue([], Rungs(asset, n))]
  {
    hide Label;
  }

  /** After more than a million offers at as many rates, submitted one by one to an engine of its own, a request for
      all of them at any rate, complete or not at all, is cancelled, although the matcher would assign it whole. */
  lemma DeepQueueRefuses(asset: string, n: nat)
    requires n > LEVEL_DEPTH
    ensures Inv(INITIAL) && AllPossible(Ladder(asset, n))
    ensures var s := Run(PLAIN, INITIAL, Ladder(asset, n));
            Reachable(PLAIN, s) && QueuesRest(s) && asset in s.queues && Resting(Offer, s.queues[asset].offers)
            && LevelCount(Offer, s.queues[asset].offers) == n
    ensures var s := Run(PLAIN, INITIAL, Ladder(asset, n));
            var o := TakeAll(asset, Offer, s.queues[asset].offers);
            && o.Validated() && o.id !in s.ledger
            && o.id in Submit(PLAIN, s, o).ledger && Submit(PLAIN, s, o).ledger[o.id].now.status == Cancelled
            && Match(o, s.queues[asset].offers).incoming.FullyAssigned()
  {
    hide Inv, AllPossible, Ladder, Run, Reachable, Match, CanAssignFully, LevelCount, HoursIn, Submit, Admissible,
         QueuesRest;
    TopOfLadder(asset, n);
    LadderLevels(asset, n);
    WrongBeyondDepth(asset, Offer, Rungs(asset, n));
    RefusedAbove(Run(PLAIN, INITIAL, Ladder(asset, n)), asset, Rungs(asset, n));
  }

  /** A request that the check is wrong about, at `Submit`. */
  lemma RefusedAbove(s: State, asset: string, rest: seq<Order>)
    requires Inv(s) && Resting(Offer, rest) && s.queues == map[asset := Queue([], rest)] && "all" !in s.ledger
    requires var o := TakeAll(asset, Offer, rest); o.Validated() && !CanAssignFully(o, rest)
    ensures QueuesRest(s)
    ensures var o := TakeAll(asset, Offer, rest);
            o.id in Submit(PLAIN, s, o).ledger && Submit(PLAIN, s, o).ledger[o.id].now.status == Cancelled
  {
    var o := TakeAll(asset, Offer, rest);
    TakeAllAdmissible(s, asset, rest);
    FacingRests(s, o);
    assert Facing(s, o) == rest;
    hide Inv, Admissible, CanAssignFully, Submit, QueuesRest, Order.Validated, HoursIn, Resting, TakeAll;
    CompleteOrNothing(PLAIN, s, o);
  }

  lemma TakeAllAdmissible(s: State, asset: string, rest: seq<Order>)
    requires Inv(s) && "all" !in s.ledger && Resting(Offer, rest) && TakeAll(asset, Offer, rest).Validated()
    ensures var o := TakeAll(asset, Offer, rest); Admissible(PLAIN, s, o) && o.window == Complete
  {
    hide Inv, Resting, HoursIn;
  }

  lemma TakesUnknown(s: State, asset: string, n: nat)
    requires Climbed(s, asset, n)
    ensures "all" !in s.ledger
  {
    forall i: nat | i < n
      ensures Label(i) != "all"
    {
      LabelIsPlain(i);
    }
  }
}
