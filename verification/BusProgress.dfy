/** What the bus does for its subscribers: what joining and leaving mean, what is handed over for good, and that a stop
    can always come to its end. */
module BusProgress {
  import opened EventLogs
  import opened BusModel

  // ----- Joining and leaving ---------------------------------------------------------------------------

  /** A subscriber with a new id joins behind the others with its own types, from the next event on; it is served at
      once if it has a callback and the bus runs. A taken id changes nothing. */
  lemma Joins(b: Bus, id: string, types: set<EventType>, callback: bool)
    ensures var b' := Do(b, if callback then Subscribe(id, types) else OpenStream(id, types));
            if exists i :: 0 <= i < |b.subs| && b.subs[i].id == id then b' == b
            else
              && b' == b.(subs := b'.subs) && |b'.subs| == |b.subs| + 1 && b'.subs[..|b.subs|] == b.subs
              && var sub := b'.subs[|b.subs|];
                 && sub.id == id && sub.types == types && sub.callback == callback
                 && sub.since == |b.history| && sub.queue == [] && sub.delivered == [] && sub.dropped == {}
                 && sub.task == if callback && b.phase == Running then Looping else NoTask
  {
    hide Receive, TurnOf, Without, CanEndStop;
  }

  /** Who unsubscribes, or closes its stream, leaves; the others stay as they are. */
  lemma Leaves(b: Bus, id: string, a: Action)
    requires BusInv(b) && (a == Unsubscribe(id) || (a == CloseStream(id) && !HasCallback(b.subs, id)))
    ensures var b' := Do(b, a);
            b' == b.(subs := b'.subs) && forall sub :: sub in b'.subs <==> sub in b.subs && sub.id != id
  {
    hide Receive, TurnOf, Without, CanEndStop, SubInv;
    WithoutIs(b.subs, id);
  }

  /** A later value of the same subscription: its terms are the same, and what it was handed stays handed. */
  predicate Continues(sub: Sub, sub': Sub) {
    && sub'.id == sub.id && sub'.types == sub.types && sub'.callback == sub.callback && sub'.since == sub.since
    && sub.delivered <= sub'.delivered
  }

  lemma ChangedContinues(b: Bus, a: Action, sub: Sub)
    ensures Continues(sub, Changed(b, a, sub))
  {
  }

  /** Every subscriber after an action is one from before it, or the one that joins by it. */
  lemma StaysOrJoins(b: Bus, a: Action, sub': Sub)
    requires BusInv(b) && sub' in Do(b, a).subs
    ensures (exists sub :: sub in b.subs && Continues(sub, sub'))
            || ((a.Subscribe? || a.OpenStream?) && a.id == sub'.id && sub'.since == |b.history|)
  {
    hide Receive, TurnOf, Without, CanEndStop, SubInv, Changed;
    if !Possible(b, a) {
      assert Continues(sub', sub');
    } else if a.Unsubscribe? || a.CloseStream? {
      WithoutIs(b.subs, a.id);
      assert Continues(sub', sub');
    } else if a.Subscribe? || a.OpenStream? {
      assert sub' in b.subs ==> Continues(sub', sub');
    } else {
      var i :| 0 <= i < |Do(b, a).subs| && Do(b, a).subs[i] == sub';
      ChangedContinues(b, a, b.subs[i]);
      assert b.subs[i] in b.subs;
    }
  }

  // ----- Handing over ----------------------------------------------------------------------------------

  /** An action of one subscriber leaves the others, and everything else of the bus, as it is. */
  lemma OnlyOne(b: Bus, i: nat, a: Action)
    requires BusInv(b) && i < |b.subs|
    requires a == Turn(b.subs[i].id) || a == CallbackReturns(b.subs[i].id) || a == NextFromStream(b.subs[i].id)
    ensures Do(b, a) == b.(subs := b.subs[i := Changed(b, a, b.subs[i])])
  {
    hide Receive, TurnOf, Without, CanEndStop, SubInv;
    forall j | 0 <= j < |b.subs| && j != i
      ensures b.subs[j].id != b.subs[i].id
    {
    }
    assert Do(b, a).subs == b.subs[i := Changed(b, a, b.subs[i])];
  }

  /** A loop with a queued event hands over the oldest one, and when its callback is back it is ready for the next. A
      stream does the same in one step. */
  lemma HandsOver(b: Bus, i: nat)
    requires BusInv(b) && i < |b.subs| && b.subs[i].queue != []
    ensures var sub := b.subs[i];
            var served := sub.(queue := sub.queue[1..], delivered := sub.delivered + [sub.queue[0]]);
            && (sub.callback && sub.task == Looping ==>
                  && Do(b, Turn(sub.id)) == b.(subs := b.subs[i := served.(task := Calling)])
                  && Do(Do(b, Turn(sub.id)), CallbackReturns(sub.id)) == b.(subs := b.subs[i := served]))
            && (!sub.callback ==> Do(b, NextFromStream(sub.id)) == b.(subs := b.subs[i := served]))
  {
    hide Do, SubInv;
    var sub := b.subs[i];
    var served := sub.(queue := sub.queue[1..], delivered := sub.delivered + [sub.queue[0]]);
    OnlyOne(b, i, NextFromStream(sub.id));
    if sub.callback && sub.task == Looping {
      OnlyOne(b, i, Turn(sub.id));
      DoKeeps(b, Turn(sub.id));
      var b' := b.(subs := b.subs[i := served.(task := Calling)]);
      OnlyOne(b', i, CallbackReturns(sub.id));
      assert b.subs[i := served.(task := Calling)][i := served] == b.subs[i := served];
    }
  }

  /** In every run, while the bus runs every callback subscriber has its loop, and no stream ever has one. */
  lemma RunningServes(limit: nat, actions: seq<Action>, i: nat)
    requires limit > 0 && i < |Run(Initial(limit), actions).subs|
    ensures var b := Run(Initial(limit), actions);
            && (b.phase == Running && b.subs[i].callback ==> b.subs[i].task == Looping || b.subs[i].task == Calling)
            && (!b.subs[i].callback ==> b.subs[i].task == NoTask)
  {
    RunKeeps(limit, actions);
    assert SubInv(Run(Initial(limit), actions), Run(Initial(limit), actions).subs[i]);
  }

  // ----- A stop can end --------------------------------------------------------------------------------

  /** Turns of the loops and returns of their callbacks. */
  predicate LoopsOnly(actions: seq<Action>) {
    forall i | 0 <= i < |actions| :: actions[i].Turn? || actions[i].CallbackReturns?
  }

  lemma {:induction false} RunFirst(b: Bus, a: Action, actions: seq<Action>)
    ensures Run(b, [a] + actions) == Run(Do(b, a), actions)
  {
    hide Do;
    if actions == [] {
      assert ([a] + [])[..0] == [];
    } else {
      var init := actions[..|actions| - 1];
      RunFirst(b, a, init);
      assert ([a] + actions)[..|actions|] == [a] + init;
    }
  }

  lemma {:induction false} RunJoin(b: Bus, first: seq<Action>, second: seq<Action>)
    ensures Run(b, first + second) == Run(Run(b, first), second)
  {
    hide Do;
    if second == [] {
      assert first + [] == first;
    } else {
      var init := second[..|second| - 1];
      RunJoin(b, first, init);
      assert (first + second)[..|first + second| - 1] == first + init;
    }
  }

  /** What a drained subscriber is: its loop has ended, and what was queued was handed over. */
  function Drained(sub: Sub, now: nat): Sub {
    if sub.task == Looping || sub.task == Calling
    then sub.(task := Ended, queue := [], delivered := sub.delivered + sub.queue, idle := now)
    else sub
  }

  lemma {:induction false} DrainOne(b: Bus, i: nat) returns (actions: seq<Action>)
    requires BusInv(b) && b.phase == Stopping && i < |b.subs|
    ensures LoopsOnly(actions)
    ensures Run(b, actions) == b.(subs := b.subs[i := Drained(b.subs[i], |b.history|)])
    decreases |b.subs[i].queue|, if b.subs[i].task == Calling then 2 else if b.subs[i].task == Looping then 1 else 0
  {
    hide Do, SubInv;
    var sub := b.subs[i];
    if sub.task != Looping && sub.task != Calling {
      actions := [];
      assert b.subs[i := sub] == b.subs;
    } else {
      var a := if sub.task == Calling then CallbackReturns(sub.id) else Turn(sub.id);
      OnlyOne(b, i, a);
      DoKeeps(b, a);
      var next := Changed(b, a, sub);
      var b' := b.(subs := b.subs[i := next]);
      var rest := DrainOne(b', i);
      actions := [a] + rest;
      RunFirst(b, a, rest);
      assert b.subs[i := next][i := Drained(next, |b.history|)] == b.subs[i := Drained(next, |b.history|)];
      assert Drained(next, |b.history|) == Drained(sub, |b.history|);
    }
  }

  /** However many events are queued and callbacks are under way when a stop begins, turns and returns of the loops
      alone bring it to its end; every event that was queued for a loop is handed over, in order. */
  lemma {:induction false} StopCanEnd(b: Bus, n: nat) returns (actions: seq<Action>)
    requires BusInv(b) && b.phase == Stopping && n <= |b.subs|
    ensures LoopsOnly(actions)
    ensures var b' := Run(b, actions);
            && b' == b.(subs := b'.subs) && |b'.subs| == |b.subs|
            && (forall i | 0 <= i < n :: b'.subs[i] == Drained(b.subs[i], |b.history|))
            && (forall i | n <= i < |b.subs| :: b'.subs[i] == b.subs[i])
            && (n == |b.subs| ==> CanEndStop(b') && Do(b', EndStop).phase == Stopped)
  {
    hide Do, SubInv;
    if n == 0 {
      actions := [];
    } else {
      var first := StopCanEnd(b, n - 1);
      var b1 := Run(b, first);
      KeptFrom(b, first);
      var second := DrainOne(b1, n - 1);
      actions := first + second;
      RunJoin(b, first, second);
    }
    if n == |b.subs| {
      EndsNow(Run(b, actions));
    }
  }

  lemma {:induction false} KeptFrom(b: Bus, actions: seq<Action>)
    requires BusInv(b)
    ensures BusInv(Run(b, actions))
  {
    if actions != [] {
      KeptFrom(b, actions[..|actions| - 1]);
      DoKeeps(Run(b, actions[..|actions| - 1]), actions[|actions| - 1]);
    }
  }

  lemma EndsNow(b: Bus)
    requires b.phase == Stopping
    requires forall i | 0 <= i < |b.subs| :: b.subs[i].task != Looping && b.subs[i].task != Calling
    ensures CanEndStop(b) && Do(b, EndStop).phase == Stopped
  {
    hide Subs;
    forall i | 0 <= i < |b.subs|
      ensures b.subs[i].task == NoTask || b.subs[i].task == Ended
    {
    }
  }
}
