/** The token bucket of `mittelwerk/utils/decorators.py`. A call of `acquire`, and each pass of the loop in `wait`, is
    one attempt under the lock: refill up to now, then take the tokens if they are there. */
module RateLimits {
  import opened Options
  import opened Orders

  datatype Bucket = Bucket(rate: real, burst: nat, tokens: real, last: real) {
    predicate Valid() {
      rate > 0.0 && burst > 0 && 0.0 <= tokens <= burst as real
    }

    /** The level at `now`, if nothing is taken before. */
    function LevelAt(now: real): real {
      Min(burst as real, tokens + (if now > last then now - last else 0.0) * rate)
    }

    function Refilled(now: real): Bucket {
      this.(tokens := LevelAt(now), last := now)
    }
  }

  predicate Acceptable(b: Bucket, requested: real) {
    0.0 < requested <= b.burst as real
  }

  /** One attempt at a time `now`. */
  datatype Attempt = Attempt(now: real, requested: real)

  function Grant(b: Bucket, a: Attempt): real {
    if b.LevelAt(a.now) >= a.requested then a.requested else 0.0
  }

  function Try(b: Bucket, a: Attempt): Bucket {
    var r := b.Refilled(a.now);
    r.(tokens := r.tokens - Grant(b, a))
  }

  /** Attempts in the order in which they get the lock: the clock never runs back, and each asks for an amount
      the bucket accepts. */
  predicate Schedule(b: Bucket, run: seq<Attempt>) {
    && (forall i | 0 <= i < |run| :: b.last <= run[i].now && Acceptable(b, run[i].requested))
    && (forall i, j | 0 <= i < j < |run| :: run[i].now <= run[j].now)
  }

  function Run(b: Bucket, run: seq<Attempt>): Bucket {
    if run == [] then b else Try(Run(b, run[..|run| - 1]), run[|run| - 1])
  }

  /** Tokens granted from the `i`-th attempt on. */
  function Granted(b: Bucket, run: seq<Attempt>, i: nat): real {
    if |run| <= i then 0.0
    else Granted(b, run[..|run| - 1], i) + Grant(Run(b, run[..|run| - 1]), run[|run| - 1])
  }

  /** What a bucket gains in a span of time, when it does not overflow. */
  function Gain(rate: real, from: real, to: real): real {
    rate * (to - from)
  }

  lemma GainAdds(rate: real, a: real, b: real, c: real)
    ensures Gain(rate, a, c) == Gain(rate, a, b) + Gain(rate, b, c) && Gain(rate, a, a) == 0.0
  {
  }

  lemma TryKeeps(b: Bucket, a: Attempt)
    requires b.Valid() && Acceptable(b, a.requested)
    ensures var b' := Try(b, a);
            b'.Valid() && b'.last == a.now && b'.rate == b.rate && b'.burst == b.burst
            && (a.now >= b.last ==> b'.tokens + Grant(b, a) <= b.tokens + Gain(b.rate, b.last, a.now))
            && b'.tokens + Grant(b, a) <= b.burst as real
  {
    var elapsed := if a.now > b.last then a.now - b.last else 0.0;
    assert elapsed * b.rate >= 0.0;
  }

  /** The level stays between nothing and the burst, in every run. */
  lemma {:induction false} RunKeeps(b: Bucket, run: seq<Attempt>)
    requires b.Valid() && Schedule(b, run)
    ensures var b' := Run(b, run);
            b'.Valid() && b'.rate == b.rate && b'.burst == b.burst && b'.last == if run == [] then b.last
                else run[|run| - 1].now
  {
    if run != [] {
      RunKeeps(b, run[..|run| - 1]);
      TryKeeps(Run(b, run[..|run| - 1]), run[|run| - 1]);
    }
  }

  /** What was granted in a window, together with what is left, is at most a full bucket and the refill of the
      window. */
  lemma {:induction false} WindowBalance(b: Bucket, run: seq<Attempt>, i: nat)
    requires b.Valid() && Schedule(b, run) && i < |run|
    ensures Run(b, run).tokens + Granted(b, run, i) <= b.burst as real + Gain(b.rate, run[i].now, run[|run| - 1].now)
  {
    hide Gain, Try, Grant, Bucket.LevelAt;
    var init, a := run[..|run| - 1], run[|run| - 1];
    var before := Run(b, init);
    RunKeeps(b, init);
    TryKeeps(before, a);
    GainAdds(b.rate, run[i].now, before.last, a.now);
    if i < |init| {
      WindowBalance(b, init, i);
      assert init[i] == run[i] && init[|init| - 1].now <= a.now && before.last == init[|init| - 1].now;
    } else {
      assert Granted(b, init, i) == 0.0;
    }
  }

  /** In any window of any run, tokens granted are at most the burst and the rate times the length of the window. */
  lemma WindowBound(b: Bucket, run: seq<Attempt>, i: nat, j: nat)
    requires b.Valid() && Schedule(b, run) && i < j <= |run|
    ensures Granted(b, run[..j], i) <= b.burst as real + b.rate * (run[j - 1].now - run[i].now)
  {
    hide Run, Granted, Bucket.LevelAt;
    WindowBalance(b, run[..j], i);
    RunKeeps(b, run[..j]);
  }

  /** The level at a time no earlier than the last refill. */
  lemma LevelIs(b: Bucket, now: real)
    requires b.Valid() && now >= b.last
    ensures var filled := b.tokens + b.rate * (now - b.last);
            b.LevelAt(now) == if filled < b.burst as real then filled else b.burst as real
  {
  }

  lemma TryIs(b: Bucket, a: Attempt)
    ensures Grant(b, a) == (if b.LevelAt(a.now) >= a.requested then a.requested else 0.0)
    ensures Try(b, a).tokens == b.LevelAt(a.now) - Grant(b, a) && Try(b, a).last == a.now
  {
    hide Bucket.LevelAt;
  }

  lemma RunExtends(b: Bucket, run: seq<Attempt>, a: Attempt)
    ensures Run(b, run + [a]) == Try(Run(b, run), a)
    ensures Granted(b, run + [a], |run|) == Grant(Run(b, run), a)
  {
    hide Try, Grant;
    assert (run + [a])[..|run|] == run;
  }

  lemma ScheduleSplits(b: Bucket, run: seq<Attempt>, a: Attempt)
    requires Schedule(b, run + [a])
    ensures Schedule(b, run) && b.last <= a.now && (run != [] ==> run[|run| - 1].now <= a.now)
  {
    var all := run + [a];
    assert all[|run|] == a;
    assert forall i | 0 <= i < |run| :: run[i] == all[i];
  }

  /** Nothing but grants takes tokens: the level after one more attempt and what that attempt was granted together are
      the level before it with the refill since, as far as the bucket holds it. And it is granted, whole, exactly when
      that suffices. */
  lemma AttemptBalance(b: Bucket, run: seq<Attempt>, a: Attempt)
    requires b.Valid() && Schedule(b, run + [a])
    ensures var before, after := Run(b, run), Run(b, run + [a]);
            var filled := before.tokens + b.rate * (a.now - before.last);
            var level := if filled < b.burst as real then filled else b.burst as real;
            && Granted(b, run + [a], |run|) == (if level >= a.requested then a.requested else 0.0)
            && after.tokens == level - Granted(b, run + [a], |run|) && after.last == a.now
  {
    hide Run, Granted, Grant, Try, Schedule, Bucket.LevelAt;
    ScheduleSplits(b, run, a);
    RunKeeps(b, run);
    RunExtends(b, run, a);
    TryIs(Run(b, run), a);
    LevelIs(Run(b, run), a.now);
  }

  function Requested(run: seq<Attempt>): real {
    if run == [] then 0.0 else Requested(run[..|run| - 1]) + run[|run| - 1].requested
  }

  /** Attempts at one time that together ask for no more than there is are all granted, and leave the rest. */
  lemma EnoughForAll(b: Bucket, run: seq<Attempt>, now: real)
    requires b.Valid() && Schedule(b, run) && now >= b.last && (forall i | 0 <= i < |run| :: run[i].now == now)
    requires var filled := b.tokens + b.rate * (now - b.last);
             Requested(run) <= if filled < b.burst as real then filled else b.burst as real
    ensures forall i | 0 <= i < |run| :: Granted(b, run[..i + 1], i) == run[i].requested
    ensures var filled := b.tokens + b.rate * (now - b.last);
            run != [] ==>
              Run(b, run).tokens == (if filled < b.burst as real then filled else b.burst as real) - Requested(run)
  {
    hide Run, Granted, Schedule, Bucket.LevelAt, Requested;
    LevelIs(b, now);
    EnoughAtLevel(b, run, now);
  }

  lemma {:induction false} EnoughAtLevel(b: Bucket, run: seq<Attempt>, now: real)
    requires b.Valid() && Schedule(b, run) && now >= b.last && (forall i | 0 <= i < |run| :: run[i].now == now)
    requires Requested(run) <= b.LevelAt(now)
    ensures forall i | 0 <= i < |run| :: Granted(b, run[..i + 1], i) == run[i].requested
    ensures run != [] ==> Run(b, run).tokens == b.LevelAt(now) - Requested(run)
  {
    if run != [] {
      assert Run(b, []) == b;
      assert run[|run| - 1].requested > 0.0;
      hide Granted, Grant, Try, Run, Schedule, Bucket.LevelAt;
      var init, a := run[..|run| - 1], run[|run| - 1];
      assert run == init + [a];
      ScheduleSplits(b, init, a);
      EnoughAtLevel(b, init, now);
      RunKeeps(b, init);
      RunExtends(b, init, a);
      TryIs(Run(b, init), a);
      LevelNow(Run(b, init));
      forall i | 0 <= i < |run|
        ensures Granted(b, run[..i + 1], i) == run[i].requested
      {
        assert i < |init| ==> run[..i + 1] == init[..i + 1];
        assert i == |init| ==> run[..i + 1] == run;
      }
    }
  }

  lemma LevelNow(b: Bucket)
    requires b.Valid()
    ensures b.LevelAt(b.last) == b.tokens
  {
  }

  /** What a lone waiter gets. Enough there: its tokens at once. Otherwise it waits as long as the shortage takes to
      fill, and leaves what came in while its sleep ran late, as far as the bucket holds it. */
  ghost predicate Waits(b: Bucket, requested: real, start: real, late: real, waited: real, b': Bucket) {
    var filled := b.tokens + b.rate * (start - b.last);
    var level := if filled < b.burst as real then filled else b.burst as real;
    if level >= requested then waited == 0.0 && b'.last == start && b'.tokens == level - requested
    else
      && waited * b.rate == requested - level && b'.last == start + waited + late
      && b'.tokens == if requested + late * b.rate < b.burst as real then late * b.rate
                      else b.burst as real - requested
  }

  lemma OnePass(b: Bucket, requested: real, start: real, late: real)
    requires b.Valid() && start >= b.last && b.LevelAt(start) >= requested
    ensures Waits(b, requested, start, late, 0.0, Try(b, Attempt(start, requested)))
  {
    hide Try, Grant, Bucket.LevelAt;
    TryIs(b, Attempt(start, requested));
    LevelIs(b, start);
  }

  lemma TwoPasses(b: Bucket, requested: real, start: real, late: real)
    requires b.Valid() && Acceptable(b, requested) && start >= b.last && late >= 0.0 && b.LevelAt(start) < requested
    ensures var waited := (requested - b.LevelAt(start)) / b.rate;
            Waits(b, requested, start, late, waited,
                  Try(Try(b, Attempt(start, requested)), Attempt(start + waited + late, requested)))
  {
    hide Try, Grant, Bucket.LevelAt;
    var b1 := Try(b, Attempt(start, requested));
    var waited := (requested - b.LevelAt(start)) / b.rate;
    TryIs(b, Attempt(start, requested));
    LevelIs(b, start);
    TryKeeps(b, Attempt(start, requested));
    assert waited * b.rate == requested - b.LevelAt(start);
    LateLevel(b1, requested, waited, late);
    TryIs(b1, Attempt(start + waited + late, requested));
  }

  lemma LateLevel(b: Bucket, requested: real, waited: real, late: real)
    requires b.Valid() && Acceptable(b, requested) && b.tokens < requested && late >= 0.0
    requires waited * b.rate == requested - b.tokens
    ensures b.LevelAt(b.last + waited + late)
            == (if requested + late * b.rate < b.burst as real then requested + late * b.rate else b.burst as real)
            >= requested
  {
    assert late * b.rate >= 0.0;
    assert waited > 0.0;
    assert (waited + late) * b.rate == waited * b.rate + late * b.rate;
  }

  /** The wait is just long enough: undisturbed, the level then suffices. */
  lemma EnoughAfterWait(b: Bucket, requested: real, now: real)
    requires b.Valid() && Acceptable(b, requested) && b.tokens < requested
    requires now >= b.last + (requested - b.tokens) / b.rate
    ensures b.LevelAt(now) >= requested
  {
    var needed := (requested - b.tokens) / b.rate;
    assert needed * b.rate == requested - b.tokens;
    assert needed > 0.0;
    assert (now - b.last) * b.rate >= needed * b.rate;
  }

  /** Taking is all or nothing, and an attempt that fails changes nothing but the refill. */
  class RateLimiter {
    const rate: real
    const burst: nat
    var tokens: real
    var last: real

    function View(): Bucket
      reads this
    {
      Bucket(rate, burst, tokens, last)
    }

    constructor (rate: real, burst: nat, now: real)
      requires rate > 0.0 && burst > 0
      ensures View().Valid() && View() == Bucket(rate, burst, burst as real, now)
    {
      this.rate, this.burst := rate, burst;
      tokens, last := burst as real, now;
    }

    method Refill(now: real)
      modifies this
      ensures View() == old(View()).Refilled(now)
    {
      var elapsed := if now > last then now - last else 0.0;
      tokens := Min(burst as real, tokens + elapsed * rate);
      last := now;
    }

    /** Nothing when the request is refused as invalid; otherwise whether the tokens were taken. */
    method Acquire(requested: real, now: real) returns (ok: Option<bool>)
      requires View().Valid()
      modifies this
      ensures ok.None? ==> View() == old(View())
      ensures ok.Some? ==> View() == Try(old(View()), Attempt(now, requested)) && View().Valid()
      ensures ok.None? <==> !(0.0 < requested <= burst as real)
      ensures ok.Some? ==>
                var filled := old(tokens) + rate * (if now > old(last) then now - old(last) else 0.0);
                var level := if filled < burst as real then filled else burst as real;
                && (ok.value <==> level >= requested)
                && tokens == (if ok.value then level - requested else level) && last == now
    {
      if !(0.0 < requested <= burst as real) {
        return None;
      }
      TryKeeps(View(), Attempt(now, requested));
      Refill(now);
      if tokens < requested {
        return Some(false);
      }
      tokens := tokens - requested;
      return Some(true);
    }

    /** Waits alone: `late` is how long beyond the asked time the sleep lasts. The second pass succeeds. */
    method Wait(requested: real, start: real, late: real) returns (waited: real, passes: nat)
      requires View().Valid() && Acceptable(View(), requested) && start >= last && late >= 0.0
      modifies this
      ensures View().Valid() && 1 <= passes <= 2
      ensures var level := old(View()).LevelAt(start);
              if level >= requested then
                  passes == 1 && waited == 0.0 && View() == Try(old(View()), Attempt(start, requested))
              else passes == 2 && waited == (requested - level) / rate
                   && View() == Try(Try(old(View()), Attempt(start, requested)),
                      Attempt(start + waited + late, requested))
      ensures Waits(old(View()), requested, start, late, waited, View())
    {
      waited, passes := 0.0, 0;
      var now := start;
      hide Waits;
      ghost var first := View();
      TryKeeps(first, Attempt(start, requested));
      if first.LevelAt(start) >= requested {
        OnePass(first, requested, start, late);
      } else {
        TwoPasses(first, requested, start, late);
      }
      while true
        invariant passes <= 1
        invariant passes == 0 ==> View() == first && waited == 0.0 && now == start
        invariant passes == 1 ==>
          && first.LevelAt(start) < requested && waited == (requested - first.LevelAt(start)) / rate
          && now == start + waited + late && View() == Try(first, Attempt(start, requested))
        decreases 1 - passes
      {
        ghost var before := View();
        if passes == 1 {
          EnoughAfterWait(before, requested, now);
        }
        TryKeeps(before, Attempt(now, requested));
        Refill(now);
        passes := passes + 1;
        if tokens >= requested {
          tokens := tokens - requested;
          return;
        }
        var sleepFor := (requested - tokens) / rate;
        now := now + sleepFor + late;
        waited := waited + sleepFor;
      }
    }
  }
}
