/** When the average rate of an asset does not depend on the order in which its holdings are aggregated
    (`mittelwerk/analytics/operations.py`). */
module NettingOrder {
  import opened Workloads
  import opened OperationsModel

  // ----- Lists of holdings -------------------------------------------------------------------------------

  function Pick(ws: seq<Holding>, p: Holding -> bool): seq<Holding> {
    if ws == [] then []
    else Pick(ws[..|ws| - 1], p) + if p(ws[|ws| - 1]) then [ws[|ws| - 1]] else []
  }

  lemma {:induction false} PickIs(ws: seq<Holding>, p: Holding -> bool, h: Holding)
    ensures h in Pick(ws, p) <==> h in ws && p(h)
  {
    if ws != [] {
      PickIs(ws[..|ws| - 1], p, h);
      assert ws == ws[..|ws| - 1] + [ws[|ws| - 1]];
    }
  }

  lemma {:induction false} PickConcat(ws: seq<Holding>, vs: seq<Holding>, p: Holding -> bool)
    ensures Pick(ws + vs, p) == Pick(ws, p) + Pick(vs, p)
  {
    if vs == [] {
      assert ws + vs == ws;
    } else {
      PickConcat(ws, vs[..|vs| - 1], p);
      assert (ws + vs)[..|ws + vs| - 1] == ws + vs[..|vs| - 1];
    }
  }

  lemma {:induction false} PickAll(ws: seq<Holding>, p: Holding -> bool)
    requires forall i | 0 <= i < |ws| :: p(ws[i])
    ensures Pick(ws, p) == ws
  {
    if ws != [] {
      PickAll(ws[..|ws| - 1], p);
      assert ws == ws[..|ws| - 1] + [ws[|ws| - 1]];
    }
  }

  lemma {:induction false} PickNone(ws: seq<Holding>, p: Holding -> bool)
    requires forall i | 0 <= i < |ws| :: !p(ws[i])
    ensures Pick(ws, p) == []
  {
    if ws != [] {
      PickNone(ws[..|ws| - 1], p);
    }
  }

  function Not(p: Holding -> bool): Holding -> bool {
    (h: Holding) => !p(h)
  }

  lemma MultisetLast(ws: seq<Holding>)
    requires ws != []
    ensures multiset(ws) == multiset(ws[..|ws| - 1]) + multiset{ws[|ws| - 1]}
  {
    assert ws == ws[..|ws| - 1] + [ws[|ws| - 1]];
  }

  lemma MultisetSplit(a: seq<Holding>, b: seq<Holding>)
    ensures multiset(a + b) == multiset(a) + multiset(b)
  {
  }

  lemma {:induction false} PickSplits(ws: seq<Holding>, p: Holding -> bool)
    ensures multiset(ws) == multiset(Pick(ws, p)) + multiset(Pick(ws, Not(p)))
  {
    if ws != [] {
      var w := ws[|ws| - 1];
      PickSplits(ws[..|ws| - 1], p);
      MultisetLast(ws);
      MultisetSplit(Pick(ws[..|ws| - 1], p), if p(w) then [w] else []);
      MultisetSplit(Pick(ws[..|ws| - 1], Not(p)), if Not(p)(w) then [w] else []);
    }
  }

  lemma {:induction false} PickSame(ws: seq<Holding>, vs: seq<Holding>, p: Holding -> bool)
    requires multiset(ws) == multiset(vs)
    ensures multiset(Pick(ws, p)) == multiset(Pick(vs, p))
  {
    forall h
      ensures multiset(Pick(ws, p))[h] == multiset(Pick(vs, p))[h]
    {
      PickCount(ws, p, h);
      PickCount(vs, p, h);
    }
  }

  lemma {:induction false} PickCount(ws: seq<Holding>, p: Holding -> bool, h: Holding)
    ensures multiset(Pick(ws, p))[h] == if p(h) then multiset(ws)[h] else 0
  {
    if ws != [] {
      var w := ws[|ws| - 1];
      PickCount(ws[..|ws| - 1], p, h);
      MultisetLast(ws);
      MultisetSplit(Pick(ws[..|ws| - 1], p), if p(w) then [w] else []);
    }
  }

  function Sum(ws: seq<Holding>, f: Holding -> real): real {
    if ws == [] then 0.0 else Sum(ws[..|ws| - 1], f) + f(ws[|ws| - 1])
  }

  lemma {:induction false} SumConcat(ws: seq<Holding>, vs: seq<Holding>, f: Holding -> real)
    ensures Sum(ws + vs, f) == Sum(ws, f) + Sum(vs, f)
  {
    if vs == [] {
      assert ws + vs == ws;
    } else {
      SumConcat(ws, vs[..|vs| - 1], f);
      assert (ws + vs)[..|ws + vs| - 1] == ws + vs[..|vs| - 1];
    }
  }

  lemma SumOne(w: Holding, f: Holding -> real)
    ensures Sum([w], f) == f(w)
  {
    assert [w][..0] == [];
  }

  lemma {:induction false} SumAnyOrder(ws: seq<Holding>, vs: seq<Holding>, f: Holding -> real)
    requires multiset(ws) == multiset(vs)
    ensures Sum(ws, f) == Sum(vs, f)
  {
    if ws == [] {
      assert |multiset(vs)| == 0;
    } else {
      var i := TakeOne(ws, vs);
      var w := ws[|ws| - 1];
      SumAnyOrder(ws[..|ws| - 1], vs[..i] + vs[i + 1..], f);
      SumConcat(vs[..i], vs[i + 1..], f);
      assert vs == vs[..i] + ([w] + vs[i + 1..]);
      SumConcat(vs[..i], [w] + vs[i + 1..], f);
      SumConcat([w], vs[i + 1..], f);
      SumOne(w, f);
    }
  }

  function NetOf(h: Holding): real {
    h.load.net
  }

  /** What the hours of a holding cost at its average. */
  function ValueOf(h: Holding): real {
    Times(h.load.avg, h.load.net)
  }

  function Hours(hs: seq<Holding>): real {
    Sum(hs, NetOf)
  }

  function Value(hs: seq<Holding>): real {
    Sum(hs, ValueOf)
  }

  // ----- The fold of one asset ---------------------------------------------------------------------------

  function IsOf(asset: string): Holding -> bool {
    (h: Holding) => h.asset == asset
  }

  /** The holdings of one asset, in their order. */
  function Of(ws: seq<Holding>, asset: string): seq<Holding> {
    Pick(ws, IsOf(asset))
  }

  function Together(hs: seq<Holding>): Holding
    requires hs != []
  {
    if |hs| == 1 then hs[0] else Netted(Together(hs[..|hs| - 1]), hs[|hs| - 1])
  }

  /** An asset ends with its own holdings, taken together in their order. */
  lemma {:induction false} FoldIsTogether(ws: seq<Holding>, asset: string)
    ensures asset in Fold(map[], ws) <==> Of(ws, asset) != []
    ensures Of(ws, asset) != [] ==> Fold(map[], ws)[asset] == Together(Of(ws, asset))
  {
    hide Netted;
    if ws != [] {
      var w := ws[|ws| - 1];
      var before := Of(ws[..|ws| - 1], asset);
      FoldIsTogether(ws[..|ws| - 1], asset);
      assert Of(ws, asset) == before + if w.asset == asset then [w] else [];
      if w.asset == asset {
        if before == [] {
          assert Of(ws, asset) == [w];
        } else {
          TogetherNext(before, w);
        }
      } else {
        assert Of(ws, asset) == before;
      }
    }
  }

  lemma TogetherNext(hs: seq<Holding>, h: Holding)
    requires hs != []
    ensures Together(hs + [h]) == Netted(Together(hs), h)
  {
    assert (hs + [h])[..|hs|] == hs;
  }

  lemma {:induction false} TogetherHours(hs: seq<Holding>)
    requires hs != []
    ensures Together(hs).load.net == Hours(hs)
  {
    hide Netted;
    if |hs| == 1 {
      assert hs == [hs[0]];
      SumOne(hs[0], NetOf);
    } else {
      TogetherHours(hs[..|hs| - 1]);
      NettedHours(Together(hs[..|hs| - 1]), hs[|hs| - 1]);
    }
  }

  // ----- The condition -----------------------------------------------------------------------------------

  /** Hours on the same side as `s`. */
  predicate Along(x: real, s: real) {
    (x > 0.0 && s > 0.0) || (x < 0.0 && s < 0.0)
  }

  predicate Against(x: real, s: real) {
    (x > 0.0 && s < 0.0) || (x < 0.0 && s > 0.0)
  }

  predicate AllAlong(hs: seq<Holding>, s: real) {
    forall h | h in hs :: Along(h.load.net, s)
  }

  predicate NoneAlong(hs: seq<Holding>, s: real) {
    forall h | h in hs :: !Along(h.load.net, s)
  }

  /** No holding stands opposite `s`. */
  predicate NoneAgainst(hs: seq<Holding>, s: real) {
    forall h | h in hs :: !Against(h.load.net, s)
  }

  /** All holdings on the side of `s` have one average. */
  predicate OneRate(hs: seq<Holding>, s: real) {
    forall g, h | g in hs && h in hs && Along(g.load.net, s) && Along(h.load.net, s) :: g.load.avg == h.load.avg
  }

  /** Nothing is left, or nothing was netted, or everything on the side that is left has one rate. */
  predicate RateSettled(hs: seq<Holding>) {
    var s := Hours(hs);
    s == 0.0 || NoneAgainst(hs, s) || OneRate(hs, s)
  }

  // ----- It suffices -------------------------------------------------------------------------------------

  lemma NothingLeft(hs: seq<Holding>)
    requires |hs| > 1 && Hours(hs) == 0.0
    ensures Together(hs).load.avg == 0.0
  {
    hide Hours;
    TogetherHours(hs);
    NettedHours(Together(hs[..|hs| - 1]), hs[|hs| - 1]);
  }

  /** Netting nothing, or holdings on one side, keeps the value. */
  lemma NettedValue(x: Holding, y: Holding, s: real)
    requires s != 0.0 && !Against(x.load.net, s) && !Against(y.load.net, s)
    ensures ValueOf(Netted(x, y)) == ValueOf(x) + ValueOf(y) && !Against(Netted(x, y).load.net, s)
  {
    if x.load.net + y.load.net == 0.0 {
      assert x.load.net == 0.0 && y.load.net == 0.0;
    } else {
      assert SameSide(x.load.net, y.load.net);
      OneSideKeepsCost(x, y);
    }
  }

  lemma {:induction false} TogetherValue(hs: seq<Holding>, s: real)
    requires hs != [] && s != 0.0 && NoneAgainst(hs, s)
    ensures ValueOf(Together(hs)) == Value(hs) && !Against(Together(hs).load.net, s)
  {
    hide Netted, ValueOf, Against;
    if |hs| == 1 {
      assert hs == [hs[0]];
      SumOne(hs[0], ValueOf);
    } else {
      TogetherValue(hs[..|hs| - 1], s);
      NettedValue(Together(hs[..|hs| - 1]), hs[|hs| - 1], s);
    }
  }

  lemma NettedRate(x: Holding, y: Holding, s: real, rate: real)
    requires Along(x.load.net, s) ==> x.load.avg == rate
    requires Along(y.load.net, s) ==> y.load.avg == rate
    ensures Along(Netted(x, y).load.net, s) ==> Netted(x, y).load.avg == rate
  {
    if Along(x.load.net + y.load.net, s) {
      if SameSide(x.load.net, y.load.net) {
        OneSideKeepsCost(x, y);
        OneRateAverage(Netted(x, y).load.avg, x.load, y.load, s, rate);
      } else {
        LargerSurvives(x, y);
      }
    }
  }

  lemma OneRateAverage(avg: real, x: Load, y: Load, s: real, rate: real)
    requires avg * (x.net + y.net) == x.avg * x.net + y.avg * y.net && Along(x.net + y.net, s) && SameSide(x.net, y.net)
    requires (Along(x.net, s) ==> x.avg == rate) && (Along(y.net, s) ==> y.avg == rate)
    ensures avg == rate
  {
    assert x.avg * x.net == rate * x.net && y.avg * y.net == rate * y.net;
    assert rate * (x.net + y.net) == rate * x.net + rate * y.net;
    CancelFactor(avg, rate, x.net + y.net);
  }

  lemma CancelFactor(a: real, b: real, c: real)
    requires c != 0.0 && a * c == b * c
    ensures a == b
  {
    assert a == a * c / c && b == b * c / c;
  }

  lemma {:induction false} TogetherRate(hs: seq<Holding>, s: real, rate: real)
    requires hs != [] && forall h | h in hs && Along(h.load.net, s) :: h.load.avg == rate
    ensures Along(Together(hs).load.net, s) ==> Together(hs).load.avg == rate
  {
    hide Netted, Along;
    if |hs| > 1 {
      assert forall h | h in hs[..|hs| - 1] :: h in hs;
      TogetherRate(hs[..|hs| - 1], s, rate);
      NettedRate(Together(hs[..|hs| - 1]), hs[|hs| - 1], s, rate);
    }
  }

  lemma {:induction false} SomeAlong(hs: seq<Holding>, s: real) returns (h: Holding)
    requires Along(Hours(hs), s)
    ensures h in hs && Along(h.load.net, s)
  {
    h := hs[|hs| - 1];
    if !Along(h.load.net, s) {
      h := SomeAlong(hs[..|hs| - 1], s);
    }
  }

  lemma SameElements(hs: seq<Holding>, gs: seq<Holding>, h: Holding)
    requires multiset(hs) == multiset(gs)
    ensures h in hs <==> h in gs
  {
    assert h in hs <==> h in multiset(hs);
    assert h in gs <==> h in multiset(gs);
  }

  lemma SameLength(hs: seq<Holding>, gs: seq<Holding>)
    requires multiset(hs) == multiset(gs)
    ensures |hs| == |gs| && (|hs| == 1 ==> hs == gs)
  {
    assert |hs| == |multiset(hs)| == |multiset(gs)| == |gs|;
    if |hs| == 1 {
      SameElements(hs, gs, hs[0]);
    }
  }

  lemma SettledRate(hs: seq<Holding>, gs: seq<Holding>)
    requires hs != [] && multiset(hs) == multiset(gs) && RateSettled(hs)
    ensures gs != [] && Together(gs).load.avg == Together(hs).load.avg
  {
    hide Against, Along, Together;
    SameLength(hs, gs);
    SumAnyOrder(hs, gs, NetOf);
    var s := Hours(hs);
    if |hs| == 1 {
    } else if s == 0.0 {
      NothingLeft(hs);
      NothingLeft(gs);
    } else {
      TogetherHours(hs);
      TogetherHours(gs);
      forall h
        ensures h in hs <==> h in gs
      {
        SameElements(hs, gs, h);
      }
      if NoneAgainst(hs, s) {
        TogetherValue(hs, s);
        TogetherValue(gs, s);
        SumAnyOrder(hs, gs, ValueOf);
        CancelFactor(Together(hs).load.avg, Together(gs).load.avg, s);
      } else {
        AlongItself(s);
        var h := SomeAlong(hs, s);
        TogetherRate(hs, s, h.load.avg);
        TogetherRate(gs, s, h.load.avg);
      }
    }
  }

  lemma AlongItself(s: real)
    requires s != 0.0
    ensures Along(s, s)
  {
  }

  // ----- It is needed ------------------------------------------------------------------------------------

  function IsAlong(s: real): Holding -> bool {
    (h: Holding) => Along(h.load.net, s)
  }

  /** Holdings that are not on the side of what stays leave its rate alone. */
  lemma NettedAwayRate(x: Holding, y: Holding, s: real)
    requires !Along(y.load.net, s) && Along(x.load.net + y.load.net, s)
    ensures Along(x.load.net, s) && Netted(x, y).load.avg == x.load.avg
  {
    if y.load.net == 0.0 {
      OneSideKeepsCost(x, y);
      CancelFactor(Netted(x, y).load.avg, x.load.avg, x.load.net);
    } else {
      LargerSurvives(x, y);
    }
  }

  lemma {:induction false} ReducedRate(ps: seq<Holding>, zs: seq<Holding>, s: real)
    requires ps != [] && NoneAlong(zs, s) && Along(Hours(ps + zs), s)
    ensures Along(Hours(ps), s) && Together(ps + zs).load.avg == Together(ps).load.avg
    decreases |zs|
  {
    hide Netted, Along;
    if zs == [] {
      assert ps + zs == ps;
    } else {
      var init, z := zs[..|zs| - 1], zs[|zs| - 1];
      assert ps + zs == ps + init + [z];
      SumConcat(ps + init, [z], NetOf);
      SumOne(z, NetOf);
      TogetherHours(ps + init);
      TogetherNext(ps + init, z);
      NettedAwayRate(Together(ps + init), z, s);
      ReducedRate(ps, init, s);
    }
  }

  /** The last holding `y` is on the side that stays, and the others do not reach its rate. */
  lemma LastOnItsOwn(w: Holding, y: Holding, s: real)
    requires Along(y.load.net, s) && Along(w.load.net + y.load.net, s) && !Along(w.load.net, s)
    ensures Netted(w, y).load.avg == y.load.avg
  {
    if w.load.net == 0.0 {
      OneSideKeepsCost(w, y);
      CancelFactor(Netted(w, y).load.avg, y.load.avg, y.load.net);
    } else {
      LargerSurvives(w, y);
    }
  }

  /** Two averages over `y` and different hours at another rate agree only when the rates do. */
  lemma DifferentWeights(a: real, q: real, rate: real, l: real, z: real, y: real)
    requires z != 0.0 && y != 0.0
    requires a * (l + y) == q * l + rate * y
    requires a * (l + z + y) == q * (l + z) + rate * y
    ensures a == rate
  {
    assert a * (l + z + y) == a * (l + y) + a * z && q * (l + z) == q * l + q * z;
    CancelFactor(a, q, z);
    assert a * (l + y) == a * l + a * y;
    CancelFactor(a, rate, y);
  }

  lemma AlongNotAgainst(hs: seq<Holding>, s: real)
    requires AllAlong(hs, s)
    ensures NoneAgainst(hs, s)
  {
  }

  lemma AlongWith(ls: seq<Holding>, y: Holding, s: real)
    requires AllAlong(ls, s) && Along(y.load.net, s)
    ensures AllAlong(ls + [y], s) && s != 0.0
  {
  }

  /** What the hours of one side come to, with the others netted away afterwards. */
  lemma EarlyRate(ps: seq<Holding>, zs: seq<Holding>, s: real)
    requires ps != [] && AllAlong(ps, s) && NoneAlong(zs, s) && s != 0.0 && Along(Hours(ps + zs), s)
    ensures Times(Together(ps + zs).load.avg, Hours(ps)) == Value(ps) && Hours(ps) != 0.0
  {
    hide Together, NoneAgainst, AllAlong, NoneAlong, Hours, Value;
    AlongNotAgainst(ps, s);
    ReducedRate(ps, zs, s);
    TogetherValue(ps, s);
    TogetherHours(ps);
  }

  /** With `y` after what is netted away. */
  lemma LateRate(ls: seq<Holding>, y: Holding, zs: seq<Holding>, s: real)
    requires ls != [] && AllAlong(ls, s) && Along(y.load.net, s)
    requires NoneAlong(zs, s) && Along(Hours(ls + zs), s)
    ensures Along(Hours(ls), s)
    ensures var late := Together(ls + zs + [y]).load;
            && late.net == Hours(ls) + Hours(zs) + y.load.net
            && Times(late.avg, late.net) == Times(Together(ls).load.avg, Hours(ls) + Hours(zs)) + ValueOf(y)
  {
    hide Netted, Together;
    var w := Together(ls + zs);
    TogetherNext(ls + zs, y);
    NettedHours(w, y);
    TogetherHours(ls + zs);
    SumConcat(ls, zs, NetOf);
    ReducedRate(ls, zs, s);
    assert SameSide(w.load.net, y.load.net) && w.load.net + y.load.net != 0.0;
    hide Along, SameSide;
    OneSideKeepsCost(w, y);
  }

  lemma SideValue(ls: seq<Holding>, s: real)
    requires ls != [] && s != 0.0 && AllAlong(ls, s)
    ensures Value(ls) == Times(Together(ls).load.avg, Hours(ls))
  {
    hide Together, NoneAgainst, AllAlong, Hours, Value;
    AlongNotAgainst(ls, s);
    TogetherValue(ls, s);
    TogetherHours(ls);
  }

  lemma LateDiffers(a: real, ls: seq<Holding>, zs: seq<Holding>, y: Holding, s: real)
    requires ls != [] && AllAlong(ls, s) && Along(y.load.net, s) && NoneAlong(zs, s)
    requires Hours(zs) != 0.0 && Along(Hours(ls + zs), s) && a != y.load.avg
    requires Times(a, Hours(ls) + y.load.net) == Value(ls) + ValueOf(y)
    ensures Together(ls + zs + [y]).load.avg != a
  {
    LateRate(ls, y, zs, s);
    SideValue(ls, s);
    assert ValueOf(y) == Times(y.load.avg, y.load.net) && y.load.net != 0.0;
    hide Together, Hours, Value, ValueOf, AllAlong, NoneAlong, Times, Along;
    var late := Together(ls + zs + [y]).load;
    WeightsShow(a, late.avg, late.net, Together(ls).load.avg, y.load.avg, Hours(ls), Hours(zs), y.load.net, Value(ls));
  }

  lemma WeightsShow(a: real, b: real, net: real, q: real, rate: real, l: real, z: real, y: real, value: real)
    requires z != 0.0 && y != 0.0 && a != rate && value == Times(q, l) && net == l + z + y
    requires Times(a, l + y) == value + Times(rate, y) && Times(b, net) == Times(q, l + z) + Times(rate, y)
    ensures b != a
  {
    if b == a {
      DifferentWeights(a, q, rate, l, z, y);
    }
  }

  /** Taking `y` before or after what is netted away gives two rates, unless `y` has the rate of its side. */
  lemma TwoOrders(ls: seq<Holding>, zs: seq<Holding>, y: Holding, s: real)
    requires ls != [] && AllAlong(ls, s) && Along(y.load.net, s)
    requires NoneAlong(zs, s) && Hours(zs) != 0.0 && Along(Hours(ls + [y] + zs), s)
    requires Value(ls + [y]) != Times(y.load.avg, Hours(ls + [y]))
    ensures Together(ls + [y] + zs).load.avg != Together(ls + zs + [y]).load.avg
  {
    hide Netted, Together, Hours, Value, ValueOf, AllAlong, NoneAlong, Times;
    var a := Together(ls + [y] + zs).load.avg;
    AlongWith(ls, y, s);
    EarlyRate(ls + [y], zs, s);
    SideHours(ls, y, zs);
    if Along(Hours(ls + zs), s) {
      LateDiffers(a, ls, zs, y, s);
    } else {
      TogetherHours(ls + zs);
      TogetherNext(ls + zs, y);
      LastOnItsOwn(Together(ls + zs), y, s);
    }
  }

  lemma SideHours(ls: seq<Holding>, y: Holding, zs: seq<Holding>)
    ensures Hours(ls + [y]) == Hours(ls) + y.load.net && Value(ls + [y]) == Value(ls) + ValueOf(y)
    ensures Hours(ls + zs) == Hours(ls) + Hours(zs) && Hours(ls + [y] + zs) == Hours(ls + zs) + y.load.net
  {
    SumConcat(ls, [y], NetOf);
    SumConcat(ls, [y], ValueOf);
    SumOne(y, NetOf);
    SumOne(y, ValueOf);
    SumConcat(ls, zs, NetOf);
    SumConcat(ls + [y], zs, NetOf);
  }

  /** Of two holdings with different rates at least one is off the average of its side. */
  lemma OffAverage(ps: seq<Holding>, s: real) returns (i: nat)
    requires !OneRate(ps, s) && Hours(ps) != 0.0
    ensures i < |ps| && |ps| > 1 && Value(ps) != Times(ps[i].load.avg, Hours(ps))
  {
    var g, h :| g in ps && h in ps && Along(g.load.net, s) && Along(h.load.net, s) && g.load.avg != h.load.avg;
    var j :| 0 <= j < |ps| && ps[j] == g;
    var k :| 0 <= k < |ps| && ps[k] == h;
    i := if Value(ps) == Times(g.load.avg, Hours(ps)) then k else j;
    hide Hours, Value;
    if Times(g.load.avg, Hours(ps)) == Times(h.load.avg, Hours(ps)) {
      CancelFactor(g.load.avg, h.load.avg, Hours(ps));
    }
  }

  lemma {:induction false} HoursAgainst(zs: seq<Holding>, s: real)
    requires s != 0.0 && NoneAlong(zs, s)
    ensures Hours(zs) == 0.0 || Against(Hours(zs), s)
    ensures (exists z :: z in zs && Against(z.load.net, s)) ==> Hours(zs) != 0.0
  {
    if zs != [] {
      HoursAgainst(zs[..|zs| - 1], s);
      assert zs == zs[..|zs| - 1] + [zs[|zs| - 1]];
    }
  }

  /** The side of `s` and the rest of a list. */
  lemma Sides(hs: seq<Holding>, s: real)
    ensures var ps, zs := Pick(hs, IsAlong(s)), Pick(hs, Not(IsAlong(s)));
            && multiset(ps + zs) == multiset(hs)
            && (forall h :: h in ps <==> h in hs && Along(h.load.net, s))
            && (forall h :: h in zs <==> h in hs && !Along(h.load.net, s))
  {
    var ps, zs := Pick(hs, IsAlong(s)), Pick(hs, Not(IsAlong(s)));
    PickSplits(hs, IsAlong(s));
    MultisetSplit(ps, zs);
    forall h
      ensures h in ps <==> h in hs && Along(h.load.net, s)
      ensures h in zs <==> h in hs && !Along(h.load.net, s)
    {
      PickIs(hs, IsAlong(s), h);
      PickIs(hs, Not(IsAlong(s)), h);
    }
  }

  lemma SidesHours(hs: seq<Holding>, ps: seq<Holding>, zs: seq<Holding>)
    requires Hours(hs) != 0.0 && !NoneAgainst(hs, Hours(hs)) && multiset(ps + zs) == multiset(hs)
    requires forall h :: h in ps <==> h in hs && Along(h.load.net, Hours(hs))
    requires forall h :: h in zs <==> h in hs && !Along(h.load.net, Hours(hs))
    ensures Hours(zs) != 0.0 && Along(Hours(ps), Hours(hs))
  {
    SumAnyOrder(ps + zs, hs, NetOf);
    SumConcat(ps, zs, NetOf);
    var z :| z in hs && Against(z.load.net, Hours(hs));
    assert z in zs;
    HoursAgainst(zs, Hours(hs));
  }

  lemma MovedOut(ps: seq<Holding>, zs: seq<Holding>, i: nat)
    requires i < |ps|
    ensures var ls := ps[..i] + ps[i + 1..];
            && multiset(ls + [ps[i]]) == multiset(ps)
            && multiset(ls + [ps[i]] + zs) == multiset(ps + zs) && multiset(ls + zs + [ps[i]]) == multiset(ps + zs)
            && forall h | h in ls :: h in ps
  {
    var ls := ps[..i] + ps[i + 1..];
    MultisetWithout(ps, i);
    MultisetSplit(ls, [ps[i]]);
    MultisetSplit(ls + [ps[i]], zs);
    MultisetSplit(ls + zs, [ps[i]]);
    MultisetSplit(ls, zs);
    MultisetSplit(ps, zs);
  }

  /** The holdings of the side that remains, one of them apart, and the others. */
  lemma Parts(hs: seq<Holding>) returns (ls: seq<Holding>, y: Holding, zs: seq<Holding>)
    requires !RateSettled(hs)
    ensures var s := Hours(hs);
            && ls != [] && AllAlong(ls, s) && Along(y.load.net, s) && NoneAlong(zs, s)
            && Hours(zs) != 0.0 && Value(ls + [y]) != Times(y.load.avg, Hours(ls + [y]))
            && multiset(ls + [y] + zs) == multiset(hs) && multiset(ls + zs + [y]) == multiset(hs)
  {
    hide Hours, Value, Times;
    var s := Hours(hs);
    var ps := Pick(hs, IsAlong(s));
    zs := Pick(hs, Not(IsAlong(s)));
    Sides(hs, s);
    hide Pick;
    SidesHours(hs, ps, zs);
    assert !OneRate(ps, s);
    hide Along, NoneAgainst, RateSettled;
    AlongItself(s);
    NotNothing(Hours(ps), s);
    var i := OffAverage(ps, s);
    hide OneRate;
    MovedOut(ps, zs, i);
    ls, y := ps[..i] + ps[i + 1..], ps[i];
    SameSums(ls + [y], ps);
  }

  lemma SameSums(hs: seq<Holding>, gs: seq<Holding>)
    requires multiset(hs) == multiset(gs)
    ensures Hours(hs) == Hours(gs) && Value(hs) == Value(gs)
  {
    SumAnyOrder(hs, gs, NetOf);
    SumAnyOrder(hs, gs, ValueOf);
  }

  lemma NotNothing(x: real, s: real)
    requires Along(x, s)
    ensures x != 0.0
  {
  }

  /** Holdings whose rate is not settled, in two orders with two rates. */
  lemma Unsettled(hs: seq<Holding>) returns (early: seq<Holding>, late: seq<Holding>)
    requires !RateSettled(hs)
    ensures multiset(early) == multiset(hs) && multiset(late) == multiset(hs) && early != [] && late != []
    ensures Together(early).load.avg != Together(late).load.avg
  {
    hide Together, AllAlong, NoneAlong, Along, Times;
    var ls, y, zs := Parts(hs);
    early, late := ls + [y] + zs, ls + zs + [y];
    SameSums(early, hs);
    AlongItself(Hours(hs));
    hide RateSettled, Hours, Value;
    TwoOrders(ls, zs, y, Hours(hs));
  }

  // ----- The theorem -------------------------------------------------------------------------------------

  /** The average of an asset after the workloads were aggregated in this order. */
  function RateOf(ws: seq<Holding>, asset: string): real {
    if asset in Fold(map[], ws) then Fold(map[], ws)[asset].load.avg else 0.0
  }

  /** Every order of the workloads leaves the asset at one average. */
  ghost predicate AnyOrderSameRate(ws: seq<Holding>, asset: string) {
    forall vs: seq<Holding> | multiset(vs) == multiset(ws) :: RateOf(vs, asset) == RateOf(ws, asset)
  }

  /** The average does not depend on the order if and only if the hours of the asset cancel out, or all stand on one
      side, or all on the side that remains have one average. */
  lemma RateNeedsNoOrder(ws: seq<Holding>, asset: string)
    ensures AnyOrderSameRate(ws, asset) <==> RateSettled(Of(ws, asset))
  {
    if RateSettled(Of(ws, asset)) {
      forall vs: seq<Holding> | multiset(vs) == multiset(ws)
        ensures RateOf(vs, asset) == RateOf(ws, asset)
      {
        SettledAnyOrder(ws, vs, asset);
      }
    } else {
      UnsettledOrders(ws, asset);
    }
  }

  lemma SettledAnyOrder(ws: seq<Holding>, vs: seq<Holding>, asset: string)
    requires multiset(vs) == multiset(ws) && RateSettled(Of(ws, asset))
    ensures RateOf(vs, asset) == RateOf(ws, asset)
  {
    hide RateSettled, Together, Fold, Pick;
    PickSame(ws, vs, IsOf(asset));
    FoldIsTogether(ws, asset);
    FoldIsTogether(vs, asset);
    SameLength(Of(ws, asset), Of(vs, asset));
    if Of(ws, asset) != [] {
      SettledRate(Of(ws, asset), Of(vs, asset));
    }
  }

  /** The same workloads with those of the asset last, in a given order. */
  lemma AssetLast(ws: seq<Holding>, asset: string, hs: seq<Holding>)
    requires multiset(hs) == multiset(Of(ws, asset)) && hs != []
    ensures var vs := Pick(ws, Not(IsOf(asset))) + hs;
            multiset(vs) == multiset(ws) && RateOf(vs, asset) == Together(hs).load.avg
  {
    hide Together, Fold;
    var rest := Pick(ws, Not(IsOf(asset)));
    PickSplits(ws, IsOf(asset));
    MultisetSplit(rest, hs);
    OfAppended(ws, asset, hs);
    hide Pick, IsOf;
    FoldIsTogether(rest + hs, asset);
  }

  lemma OfAppended(ws: seq<Holding>, asset: string, hs: seq<Holding>)
    requires multiset(hs) == multiset(Of(ws, asset))
    ensures Of(Pick(ws, Not(IsOf(asset))) + hs, asset) == hs
  {
    hide Pick;
    var rest := Pick(ws, Not(IsOf(asset)));
    forall i | 0 <= i < |rest|
      ensures !IsOf(asset)(rest[i])
    {
      PickIs(ws, Not(IsOf(asset)), rest[i]);
    }
    forall i | 0 <= i < |hs|
      ensures IsOf(asset)(hs[i])
    {
      PickIs(ws, IsOf(asset), hs[i]);
      SameElements(hs, Of(ws, asset), hs[i]);
    }
    PickConcat(rest, hs, IsOf(asset));
    PickNone(rest, IsOf(asset));
    PickAll(hs, IsOf(asset));
    assert [] + hs == hs;
  }

  lemma UnsettledOrders(ws: seq<Holding>, asset: string)
    requires !RateSettled(Of(ws, asset))
    ensures !AnyOrderSameRate(ws, asset)
  {
    hide Together, RateSettled, Fold, RateOf;
    var early, late := Unsettled(Of(ws, asset));
    AssetLast(ws, asset, early);
    AssetLast(ws, asset, late);
    var rest := Pick(ws, Not(IsOf(asset)));
    assert RateOf(rest + early, asset) != RateOf(rest + late, asset);
  }
}
