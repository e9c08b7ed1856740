/** The algebra of organization units (`mittelwerk/analytics/operations.py`): workloads aggregated by asset, units
    added, subtracted and scaled. A unit's value and cost are sums over its holdings, whatever order they are kept in.
        */
module OperationsModel {
  import opened Options
  import opened Orders
  import opened Workloads
  import Backlogs

  datatype Holding = Holding(org: string, asset: string, load: Load, updated: int)

  datatype Capacity = Capacity(backlog: real, crew: real, rate: real, hoursPerDay: real)

  datatype Weighted = Weighted(model: Capacity, weight: real)

  datatype Unit = Unit(org: string, budget: real, holdings: map<string, Holding>,
                       history: map<string, seq<real>>, models: map<string, Weighted>)

  function Times(x: real, k: real): real {
    x * k
  }

  lemma Spread(x: real, y: real, k: real)
    ensures Times(x, k) + Times(y, k) == Times(x + y, k)
  {
  }

  // ----- Holdings ----------------------------------------------------------------------------------------

  /** The rate a holding is valued at. */
  function Mark(w: Load): real {
    if w.last.Some? then w.last.value else w.avg
  }

  function Exposure(w: Load): real {
    w.net * Mark(w)
  }

  predicate SameSide(x: real, y: real) {
    x == 0.0 || y == 0.0 || (x > 0.0) == (y > 0.0)
  }

  function WeightedAverage(x: Load, y: Load): real
    requires Abs(x.net) + Abs(y.net) != 0.0
  {
    (Abs(x.net) * x.avg + Abs(y.net) * y.avg) / (Abs(x.net) + Abs(y.net))
  }

  /** The holding updated last; of two equally old ones, the first. */
  function Latest(existing: Holding, candidate: Holding): Holding {
    if existing.updated >= candidate.updated then existing else candidate
  }

  /** Two holdings of one asset in one: nothing is left, both are on one side, or the larger survives. */
  function Netted(existing: Holding, candidate: Holding): Holding {
    var x, y := existing.load, candidate.load;
    var net := x.net + y.net;
    var latest := Latest(existing, candidate);
    var larger := if Abs(x.net) > Abs(y.net) then existing else candidate;
    var realized, unrealized := x.realized + y.realized, x.unrealized + y.unrealized;
    if net == 0.0 then
      Holding(existing.org, existing.asset, Load(0.0, 0.0, realized, unrealized, None), latest.updated)
    else if SameSide(x.net, y.net) then
      Holding(existing.org, existing.asset, Load(net, WeightedAverage(x, y), realized, unrealized, latest.load.last),
          latest.updated)
    else
      Holding(existing.org, existing.asset, Load(net, larger.load.avg, realized, unrealized, larger.load.last),
          larger.updated)
  }

  /** Holdings on one side together cost what they cost apart. */
  lemma OneSideKeepsCost(x: Holding, y: Holding)
    requires SameSide(x.load.net, y.load.net) && x.load.net + y.load.net != 0.0
    ensures var w := Netted(x, y).load;
            w.avg * w.net == x.load.avg * x.load.net + y.load.avg * y.load.net
  {
    var a, b := x.load, y.load;
    var total, value := Abs(a.net) + Abs(b.net), Abs(a.net) * a.avg + Abs(b.net) * b.avg;
    assert value / total * total == value;
  }

  /** Of holdings on opposite sides the larger keeps its side, its rate and its mark. */
  lemma LargerSurvives(x: Holding, y: Holding)
    requires !SameSide(x.load.net, y.load.net) && x.load.net + y.load.net != 0.0
    ensures var w := Netted(x, y).load;
            var z := if Abs(x.load.net) > Abs(y.load.net) then x else y;
            && (w.net > 0.0 <==> z.load.net > 0.0) && Abs(w.net) < Abs(z.load.net)
            && w.avg == z.load.avg && w.last == z.load.last && Netted(x, y).updated == z.updated
  {
  }

  /** The order of two holdings matters only for the mark, and only if they are on one side, equally old and
      marked differently. */
  lemma NettedEitherWay(x: Holding, y: Holding)
    ensures Netted(x, y).updated == Netted(y, x).updated
    ensures Netted(x, y).load == Netted(y, x).load
       <==> !(SameSide(x.load.net, y.load.net) && x.load.net + y.load.net != 0.0
              && x.updated == y.updated && x.load.last != y.load.last)
  {
    var a, b := x.load, y.load;
    assert Abs(a.net) * a.avg + Abs(b.net) * b.avg == Abs(b.net) * b.avg + Abs(a.net) * a.avg;
  }

  function Aggregated(m: map<string, Holding>, w: Holding): map<string, Holding> {
    m[w.asset := if w.asset in m then Netted(m[w.asset], w) else w]
  }

  function Fold(m: map<string, Holding>, ws: seq<Holding>): map<string, Holding> {
    if ws == [] then m else Aggregated(Fold(m, ws[..|ws| - 1]), ws[|ws| - 1])
  }

  /** Every holding is kept under its own asset. */
  predicate Keyed(m: map<string, Holding>) {
    forall k | k in m :: m[k].asset == k
  }

  /** The signed hours of one asset, none when it is not held. */
  function HoursOf(m: map<string, Holding>, asset: string): real {
    if asset in m then m[asset].load.net else 0.0
  }

  function CostOf(m: map<string, Holding>, asset: string): real {
    if asset in m then m[asset].load.Total() else 0.0
  }

  function HoursIn(ws: seq<Holding>, asset: string): real {
    if ws == [] then 0.0
        else HoursIn(ws[..|ws| - 1], asset) + (if ws[|ws| - 1].asset == asset then ws[|ws| - 1].load.net else 0.0)
  }

  function CostIn(ws: seq<Holding>, asset: string): real {
    if ws == [] then 0.0
        else CostIn(ws[..|ws| - 1], asset) + (if ws[|ws| - 1].asset == asset then ws[|ws| - 1].load.Total() else 0.0)
  }

  /** However the workloads are listed, each asset ends with the sum of their hours and of their costs. */
  lemma {:induction false} FoldAddsUp(m: map<string, Holding>, ws: seq<Holding>, asset: string)
    ensures HoursOf(Fold(m, ws), asset) == HoursOf(m, asset) + HoursIn(ws, asset)
    ensures CostOf(Fold(m, ws), asset) == CostOf(m, asset) + CostIn(ws, asset)
  {
    if ws != [] {
      FoldAddsUp(m, ws[..|ws| - 1], asset);
    }
  }

  lemma {:induction false} HoursOfRest(ws: seq<Holding>, i: nat, asset: string)
    requires i < |ws|
    ensures HoursIn(ws, asset)
            == HoursIn(ws[..i] + ws[i + 1..], asset) + (if ws[i].asset == asset then ws[i].load.net else 0.0)
  {
    var n := |ws| - 1;
    if i < n {
      var rest := ws[..i] + ws[i + 1..];
      HoursOfRest(ws[..n], i, asset);
      assert rest[..n - 1] == ws[..n][..i] + ws[..n][i + 1..];
      assert rest[n - 1] == ws[n];
    } else {
      assert ws[..i] + ws[i + 1..] == ws[..n];
    }
  }

  /** The order of the fold does not change the net hours of any asset. */
  lemma {:induction false} AnyOrder(ws: seq<Holding>, vs: seq<Holding>, asset: string)
    requires multiset(ws) == multiset(vs)
    ensures HoursOf(Fold(map[], ws), asset) == HoursOf(Fold(map[], vs), asset)
  {
    FoldAddsUp(map[], ws, asset);
    FoldAddsUp(map[], vs, asset);
    SameHours(ws, vs, asset);
  }

  lemma MultisetWithout(vs: seq<Holding>, i: nat)
    requires i < |vs|
    ensures multiset(vs[..i] + vs[i + 1..]) == multiset(vs) - multiset{vs[i]}
  {
    var x, y := vs[..i], vs[i + 1..];
    assert vs == x + ([vs[i]] + y);
    assert multiset(vs) == multiset(x) + multiset([vs[i]] + y);
    assert multiset([vs[i]] + y) == multiset([vs[i]]) + multiset(y);
    assert multiset([vs[i]]) == multiset{vs[i]};
  }

  lemma TakeOne(ws: seq<Holding>, vs: seq<Holding>) returns (i: nat)
    requires ws != [] && multiset(ws) == multiset(vs)
    ensures i < |vs| && vs[i] == ws[|ws| - 1]
    ensures multiset(ws[..|ws| - 1]) == multiset(vs[..i] + vs[i + 1..])
  {
    var n := |ws| - 1;
    assert ws[n] in multiset(ws);
    assert ws[n] in multiset(vs);
    i :| 0 <= i < |vs| && vs[i] == ws[n];
    MultisetWithout(vs, i);
    MultisetWithout(ws, n);
    assert ws[..n] + ws[n + 1..] == ws[..n];
  }

  lemma {:induction false} SameHours(ws: seq<Holding>, vs: seq<Holding>, asset: string)
    requires multiset(ws) == multiset(vs)
    ensures HoursIn(ws, asset) == HoursIn(vs, asset)
  {
    if ws == [] {
      assert |multiset(vs)| == 0;
    } else {
      var i := TakeOne(ws, vs);
      SameHours(ws[..|ws| - 1], vs[..i] + vs[i + 1..], asset);
      HoursOfRest(vs, i, asset);
    }
  }

  function Plain(net: real, rate: real): Holding {
    Holding("o", "a", Load(net, rate, 0.0, 0.0, None), 0)
  }

  /** The rates do depend on the order: a request of one hour at 10, an offer of one at 20 and a request of one at 30
      end at 30 or at 20. */
  lemma RatesDependOnOrder()
    ensures var x, y, z := Plain(1.0, 10.0), Plain(-1.0, 20.0), Plain(1.0, 30.0);
            Fold(map[], [x, y, z])["a"].load.avg == 30.0 && Fold(map[], [x, z, y])["a"].load.avg == 20.0
  {
    var x, y, z := Plain(1.0, 10.0), Plain(-1.0, 20.0), Plain(1.0, 30.0);
    Fold3(x, y, z);
    Fold3(x, z, y);
  }

  lemma Fold3(x: Holding, y: Holding, z: Holding)
    ensures Fold(map[], [x, y, z]) == Aggregated(Aggregated(Aggregated(map[], x), y), z)
  {
    assert [x, y, z][..2] == [x, y] && [x, y][..1] == [x] && [x][..0] == [];
    assert Fold(map[], [x]) == Aggregated(map[], x);
    assert Fold(map[], [x, y]) == Aggregated(Fold(map[], [x]), y);
  }

  // ----- Listings ----------------------------------------------------------------------------------------

  /** All holdings, each once, in some order. */
  predicate Lists(m: map<string, Holding>, ws: seq<Holding>) {
    && (forall i | 0 <= i < |ws| :: ws[i].asset in m && m[ws[i].asset] == ws[i])
    && (forall i, j | 0 <= i < j < |ws| :: ws[i].asset != ws[j].asset)
    && (forall k | k in m :: m[k] in ws)
  }

  function Merge(m: map<string, Holding>, n: map<string, Holding>): map<string, Holding> {
    map k | k in m.Keys + n.Keys :: if k !in n then m[k] else if k !in m then n[k] else Netted(m[k], n[k])
  }

  lemma MergeNext(m: map<string, Holding>, n: map<string, Holding>, k: string)
    requires k in n && n[k].asset == k
    ensures Aggregated(Merge(m, n - {k}), n[k]) == Merge(m, n)
  {
    hide Netted;
  }

  lemma MergeNothing(m: map<string, Holding>, n: map<string, Holding>)
    requires Lists(n, [])
    ensures Merge(m, n) == m
  {
    assert forall k | k in n :: n[k] in [];
  }

  /** Folding in the holdings of another map, in any order, merges the maps asset by asset. */
  lemma {:induction false} FoldMerges(m: map<string, Holding>, n: map<string, Holding>, ws: seq<Holding>)
    requires Keyed(n) && Lists(n, ws)
    ensures Fold(m, ws) == Merge(m, n)
  {
    hide Merge, Aggregated;
    if ws == [] {
      MergeNothing(m, n);
    } else {
      var w := ws[|ws| - 1];
      assert w.asset in n && n[w.asset] == w;
      ListsFront(n, ws);
      FoldMerges(m, n - {w.asset}, ws[..|ws| - 1]);
      MergeNext(m, n, w.asset);
    }
  }

  lemma ListsFront(n: map<string, Holding>, ws: seq<Holding>)
    requires Keyed(n) && Lists(n, ws) && ws != []
    ensures Keyed(n - {ws[|ws| - 1].asset}) && Lists(n - {ws[|ws| - 1].asset}, ws[..|ws| - 1])
  {
    var w := ws[|ws| - 1];
    forall k | k in n - {w.asset}
      ensures n[k] in ws[..|ws| - 1]
    {
      var i :| 0 <= i < |ws| && ws[i] == n[k];
      assert ws[..|ws| - 1][i] == n[k];
    }
  }

  lemma {:induction false} FoldConcat(m: map<string, Holding>, ws: seq<Holding>, vs: seq<Holding>)
    ensures Fold(m, ws + vs) == Fold(Fold(m, ws), vs)
  {
    if vs == [] {
      assert ws + vs == ws;
    } else {
      FoldConcat(m, ws, vs[..|vs| - 1]);
      assert (ws + vs)[..|ws + vs| - 1] == ws + vs[..|vs| - 1];
    }
  }

  // ----- Sums ----------------------------------------------------------------------------------------------

  ghost function SumOver(m: map<string, real>): real {
    if m == map[] then 0.0
    else
      var k :| k in m;
      m[k] + SumOver(m - {k})
  }

  lemma {:induction false} SumWithout(m: map<string, real>, k: string)
    requires k in m
    ensures SumOver(m) == m[k] + SumOver(m - {k})
    decreases |m|
  {
    var j :| j in m && SumOver(m) == m[j] + SumOver(m - {j});
    if j != k {
      SumWithout(m - {j}, k);
      SumWithout(m - {k}, j);
      assert m - {j} - {k} == m - {k} - {j};
    }
  }

  function At(m: map<string, real>, k: string): real {
    if k in m then m[k] else 0.0
  }

  lemma SumOfRest(m: map<string, real>, k: string)
    ensures SumOver(m) == At(m, k) + SumOver(m - {k})
  {
    if k in m {
      SumWithout(m, k);
    } else {
      assert m - {k} == m;
    }
  }

  ghost predicate AddUp(f: map<string, real>, g: map<string, real>, h: map<string, real>) {
    h.Keys == f.Keys + g.Keys && forall k | k in h :: h[k] == At(f, k) + At(g, k)
  }

  lemma AddUpRest(f: map<string, real>, g: map<string, real>, h: map<string, real>, k: string)
    requires AddUp(f, g, h)
    ensures AddUp(f - {k}, g - {k}, h - {k}) && At(h, k) == At(f, k) + At(g, k)
  {
  }

  lemma {:induction false} SumAdds(f: map<string, real>, g: map<string, real>, h: map<string, real>)
    requires AddUp(f, g, h)
    ensures SumOver(h) == SumOver(f) + SumOver(g)
    decreases |h|
  {
    if h == map[] {
      assert f == map[] && g == map[];
    } else {
      hide SumOver, AddUp, At;
      var k :| k in h;
      SumOfRest(f, k);
      SumOfRest(g, k);
      SumOfRest(h, k);
      AddUpRest(f, g, h, k);
      SumAdds(f - {k}, g - {k}, h - {k});
    }
  }

  ghost predicate Multiplied(f: map<string, real>, h: map<string, real>, c: real) {
    h.Keys == f.Keys && forall k | k in h :: h[k] == Times(f[k], c)
  }

  lemma MultipliedRest(f: map<string, real>, h: map<string, real>, c: real, k: string)
    requires Multiplied(f, h, c) && k in h
    ensures Multiplied(f - {k}, h - {k}, c) && k in f && h[k] == Times(f[k], c)
  {
    hide Times;
  }

  lemma NothingToScale(f: map<string, real>, h: map<string, real>, c: real)
    requires Multiplied(f, h, c) && h == map[]
    ensures SumOver(f) == SumOver(h) == Times(0.0, c) == 0.0
  {
    assert f == map[];
  }

  lemma {:induction false} SumScales(f: map<string, real>, h: map<string, real>, c: real)
    requires Multiplied(f, h, c)
    ensures SumOver(h) == Times(SumOver(f), c)
    decreases |h|
  {
    hide SumOver, Multiplied, Times;
    if h == map[] {
      NothingToScale(f, h, c);
    } else {
      var k :| k in h;
      MultipliedRest(f, h, c, k);
      SumWithout(f, k);
      SumWithout(h, k);
      SumScales(f - {k}, h - {k}, c);
      Spread(f[k], SumOver(f - {k}), c);
    }
  }

  function Exposures(m: map<string, Holding>): map<string, real> {
    map k | k in m :: Exposure(m[k].load)
  }

  function Costs(m: map<string, Holding>): map<string, real> {
    map k | k in m :: m[k].load.Total()
  }

  ghost function ExposureValue(m: map<string, Holding>): real {
    SumOver(Exposures(m))
  }

  /** Exposure at current marks, with the budget. */
  ghost function TotalExposure(u: Unit): real {
    ExposureValue(u.holdings) + u.budget
  }

  ghost function TotalCost(u: Unit): real {
    SumOver(Costs(u.holdings))
  }

  // ----- Adding, scaling, subtracting ----------------------------------------------------------------------

  predicate Aligned(a: map<string, seq<real>>, b: map<string, seq<real>>) {
    forall k | k in a && k in b :: |a[k]| == |b[k]|
  }

  predicate SameModels(a: map<string, Weighted>, b: map<string, Weighted>) {
    forall k | k in a && k in b :: a[k].model == b[k].model
  }

  predicate Compatible(a: Unit, b: Unit) {
    Aligned(a.history, b.history) && SameModels(a.models, b.models)
  }

  function AddedHistory(a: map<string, seq<real>>, b: map<string, seq<real>>): map<string, seq<real>>
    requires Aligned(a, b)
  {
    map k | k in a.Keys + b.Keys :: if k !in b then a[k] else if k !in a then b[k] else Backlogs.Added(a[k], b[k])
  }

  function AddedModels(a: map<string, Weighted>, b: map<string, Weighted>): map<string, Weighted> {
    map k | k in a.Keys + b.Keys ::
          if k !in b then a[k] else if k !in a then b[k] else Weighted(a[k].model, a[k].weight + b[k].weight)
  }

  /** What netting takes out of the exposure. */
  ghost function NettedAway(m: map<string, Holding>, n: map<string, Holding>): real {
    ExposureValue(m) + ExposureValue(n) - ExposureValue(Merge(m, n))
  }

  /** Two units as one; nothing when their histories do not align or their capacity models differ. */
  ghost function Sum(a: Unit, b: Unit): Option<Unit> {
    if !Compatible(a, b) then None
    else Some(Unit(a.org, a.budget + b.budget + NettedAway(a.holdings, b.holdings), Merge(a.holdings, b.holdings),
                   AddedHistory(a.history, b.history), AddedModels(a.models, b.models)))
  }

  function ScaledLoad(w: Load, k: real): Load {
    Load(Times(w.net, k), w.avg, Times(w.realized, k), Times(w.unrealized, k), w.last)
  }

  function ScaledHolding(h: Holding, k: real): Holding {
    h.(load := ScaledLoad(h.load, k))
  }

  function ScaledHoldings(m: map<string, Holding>, k: real): map<string, Holding> {
    map a | a in m :: ScaledHolding(m[a], k)
  }

  function ScaledDays(x: seq<real>, k: real): seq<real> {
    seq(|x|, i requires 0 <= i < |x| => Times(x[i], k))
  }

  function ScaledHistory(h: map<string, seq<real>>, k: real): map<string, seq<real>> {
    map a | a in h :: ScaledDays(h[a], k)
  }

  function ScaledModels(m: map<string, Weighted>, k: real): map<string, Weighted> {
    map a | a in m :: Weighted(m[a].model, Times(m[a].weight, k))
  }

  function Scale(u: Unit, k: real): Unit {
    Unit(u.org, Times(u.budget, k), ScaledHoldings(u.holdings, k), ScaledHistory(u.history, k),
        ScaledModels(u.models, k))
  }

  ghost function Difference(a: Unit, b: Unit): Option<Unit> {
    Sum(a, Scale(b, -1.0))
  }

  lemma MergeAddsCosts(m: map<string, Holding>, n: map<string, Holding>)
    ensures SumOver(Costs(Merge(m, n))) == SumOver(Costs(m)) + SumOver(Costs(n))
  {
    var h := Costs(Merge(m, n));
    forall k | k in h
      ensures h[k] == At(Costs(m), k) + At(Costs(n), k)
    {
    }
    SumAdds(Costs(m), Costs(n), h);
  }

  lemma ScaledRate(w: Load, k: real)
    ensures Exposure(ScaledLoad(w, k)) == Times(Exposure(w), k)
    ensures ScaledLoad(w, k).Total() == Times(w.Total(), k)
  {
    assert w.net * k * Mark(w) == w.net * Mark(w) * k;
    Spread(w.realized, w.unrealized, k);
  }

  lemma ScaledExposure(m: map<string, Holding>, k: real)
    ensures ExposureValue(ScaledHoldings(m, k)) == Times(ExposureValue(m), k)
  {
    hide Exposure, ScaledLoad, Times;
    var f, h := Exposures(m), Exposures(ScaledHoldings(m, k));
    forall a | a in h
      ensures h[a] == Times(f[a], k)
    {
      ScaledRate(m[a].load, k);
    }
    SumScales(f, h, k);
  }

  lemma ScaledCost(m: map<string, Holding>, k: real)
    ensures SumOver(Costs(ScaledHoldings(m, k))) == Times(SumOver(Costs(m)), k)
  {
    hide ScaledLoad, Times;
    var f, h := Costs(m), Costs(ScaledHoldings(m, k));
    forall a | a in h
      ensures h[a] == Times(f[a], k)
    {
      ScaledRate(m[a].load, k);
    }
    SumScales(f, h, k);
  }

  lemma SumIsAdditive(a: Unit, b: Unit, asset: string)
    requires Compatible(a, b)
    ensures var s := Sum(a, b).value;
            && TotalExposure(s) == TotalExposure(a) + TotalExposure(b)
            && TotalCost(s) == TotalCost(a) + TotalCost(b)
            && HoursOf(s.holdings, asset) == HoursOf(a.holdings, asset) + HoursOf(b.holdings, asset)
  {
    MergeAddsCosts(a.holdings, b.holdings);
  }

  lemma ScaleMultiplies(u: Unit, k: real, asset: string)
    ensures TotalExposure(Scale(u, k)) == TotalExposure(u) * k
    ensures TotalCost(Scale(u, k)) == TotalCost(u) * k
    ensures HoursOf(Scale(u, k).holdings, asset) == HoursOf(u.holdings, asset) * k
  {
    hide ExposureValue, SumOver, Costs;
    ScaledExposure(u.holdings, k);
    ScaledCost(u.holdings, k);
    Spread(ExposureValue(u.holdings), u.budget, k);
  }

  lemma ScaleKeepsCompatible(a: Unit, b: Unit, j: real, k: real)
    ensures Compatible(Scale(a, j), Scale(b, k)) <==> Compatible(a, b)
  {
    var x, y := Scale(a, j), Scale(b, k);
    forall s | s in a.history && s in b.history
      ensures s in x.history && s in y.history && |x.history[s]| == |a.history[s]| && |y.history[s]| == |b.history[s]|
    {
    }
    forall s | s in a.models && s in b.models
      ensures s in x.models && s in y.models && x.models[s].model == a.models[s].model
              && y.models[s].model == b.models[s].model
    {
    }
  }

  lemma DifferenceSubtracts(a: Unit, b: Unit, asset: string)
    ensures Difference(a, b).Some? <==> Compatible(a, b)
    ensures Compatible(a, b) ==>
              var d := Difference(a, b).value;
              && TotalExposure(d) == TotalExposure(a) - TotalExposure(b)
              && TotalCost(d) == TotalCost(a) - TotalCost(b)
              && HoursOf(d.holdings, asset) == HoursOf(a.holdings, asset) - HoursOf(b.holdings, asset)
  {
    ScaleKeepsCompatible(a, b, 1.0, -1.0);
    ScaleKeepsCompatible(a, b, 1.0, 1.0);
    ScaleKeepsCompatible(a, Scale(b, -1.0), 1.0, 1.0);
    if Compatible(a, b) {
      SumIsAdditive(a, Scale(b, -1.0), asset);
      ScaleMultiplies(b, -1.0, asset);
    }
  }

  // ----- Scaling a sum ---------------------------------------------------------------------------------------

  lemma ScaledSides(x: real, y: real, k: real)
    requires k != 0.0
    ensures Times(x, k) + Times(y, k) == Times(x + y, k)
    ensures Times(x, k) + Times(y, k) == 0.0 <==> x + y == 0.0
    ensures SameSide(Times(x, k), Times(y, k)) <==> SameSide(x, y)
    ensures Abs(Times(x, k)) > Abs(Times(y, k)) <==> Abs(x) > Abs(y)
  {
    hide Times;
    Spread(x, y, k);
    ScaleSigns(x, k);
    ScaleSigns(y, k);
    ScaleSigns(x + y, k);
    AbsOrder(x, y, k);
  }

  /** Netting the scaled holdings is scaling the netted ones, unless the factor is 0. */
  lemma ScaleNetted(x: Holding, y: Holding, k: real)
    requires k != 0.0
    ensures Netted(ScaledHolding(x, k), ScaledHolding(y, k)) == ScaledHolding(Netted(x, y), k)
  {
    hide WeightedAverage, Abs, SameSide, Times;
    var a, b := x.load, y.load;
    ScaledSides(a.net, b.net, k);
    Spread(a.realized, b.realized, k);
    Spread(a.unrealized, b.unrealized, k);
    TimesZero(k);
    if a.net + b.net != 0.0 {
      SomethingLeft(a.net, b.net);
      ScaleAverage(a, b, k);
    }
  }

  lemma TimesZero(k: real)
    ensures Times(0.0, k) == 0.0
  {
  }

  lemma SomethingLeft(x: real, y: real)
    requires x + y != 0.0
    ensures Abs(x) + Abs(y) != 0.0
  {
  }

  lemma ScaleSigns(x: real, k: real)
    requires k != 0.0
    ensures Times(x, k) == 0.0 <==> x == 0.0
    ensures k > 0.0 ==> (Times(x, k) > 0.0 <==> x > 0.0)
    ensures k < 0.0 ==> (Times(x, k) > 0.0 <==> x < 0.0)
    ensures Abs(Times(x, k)) == Times(Abs(x), Abs(k)) && Abs(k) > 0.0
  {
    if x > 0.0 && k > 0.0 { assert x * k > 0.0; }
    if x < 0.0 && k > 0.0 { assert (-x) * k > 0.0; }
    if x > 0.0 && k < 0.0 { assert x * (-k) > 0.0; }
    if x < 0.0 && k < 0.0 { assert (-x) * (-k) > 0.0; }
  }

  lemma AbsOrder(x: real, y: real, k: real)
    requires k != 0.0
    ensures Abs(Times(x, k)) > Abs(Times(y, k)) <==> Abs(x) > Abs(y)
  {
    hide Times;
    ScaleSigns(x, k);
    ScaleSigns(y, k);
    ScaleSigns(Abs(x) - Abs(y), Abs(k));
    Spread(Abs(x) - Abs(y), Abs(y), Abs(k));
  }

  lemma ScaleAverage(a: Load, b: Load, k: real)
    requires k != 0.0 && Abs(a.net) + Abs(b.net) != 0.0
    ensures Abs(Times(a.net, k)) + Abs(Times(b.net, k)) != 0.0
    ensures WeightedAverage(ScaledLoad(a, k), ScaledLoad(b, k)) == WeightedAverage(a, b)
  {
    hide Abs, Times;
    ScaleSigns(a.net, k);
    ScaleSigns(b.net, k);
    ScaleRatio(Abs(a.net), Abs(b.net), a.avg, b.avg, Abs(k));
  }

  lemma ScaleRatio(p: real, q: real, x: real, y: real, c: real)
    requires p + q != 0.0 && c > 0.0
    ensures Times(p, c) + Times(q, c) != 0.0
    ensures (Times(p, c) * x + Times(q, c) * y) / (Times(p, c) + Times(q, c)) == (p * x + q * y) / (p + q)
  {
    ScaleSigns(p + q, c);
    assert p * c * x + q * c * y == (p * x + q * y) * c;
    Cancel(p * x + q * y, p + q, c);
  }

  lemma Cancel(x: real, y: real, c: real)
    requires y != 0.0 && c != 0.0 && y * c != 0.0
    ensures (x * c) / (y * c) == x / y
  {
    var q := x / y;
    assert q * y == x;
    assert q * (y * c) == x * c;
  }

  /** Whether nothing is left of the netted holding but its hours and costs, as if they had cancelled out. */
  predicate Blank(x: Holding, y: Holding) {
    var w := Netted(x, y);
    w.load.avg == 0.0 && w.load.last.None? && w.updated == Latest(x, y).updated
  }

  /** Scaled by 0, holdings cancel out. */
  lemma ScaleToZero(x: Holding, y: Holding)
    ensures Netted(ScaledHolding(x, 0.0), ScaledHolding(y, 0.0)) == ScaledHolding(Netted(x, y), 0.0) <==> Blank(x, y)
  {
    hide WeightedAverage, Abs, SameSide;
    var l, r := Netted(ScaledHolding(x, 0.0), ScaledHolding(y, 0.0)), ScaledHolding(Netted(x, y), 0.0);
    assert l.load == Load(0.0, 0.0, 0.0, 0.0, None) && l.updated == Latest(x, y).updated;
    assert r.load == Load(0.0, Netted(x, y).load.avg, 0.0, 0.0, Netted(x, y).load.last);
  }

  /** Whether netting before scaling is netting after it. */
  predicate ScalesThrough(m: map<string, Holding>, n: map<string, Holding>, k: real) {
    k != 0.0 || forall a | a in m && a in n :: Blank(m[a], n[a])
  }

  lemma ScaleOne(x: Holding, y: Holding, k: real)
    ensures Netted(ScaledHolding(x, k), ScaledHolding(y, k)) == ScaledHolding(Netted(x, y), k)
            <==> k != 0.0 || Blank(x, y)
  {
    hide Netted, ScaledHolding, Blank;
    if k == 0.0 {
      ScaleToZero(x, y);
    } else {
      ScaleNetted(x, y, k);
    }
  }

  lemma ScaleMerge(m: map<string, Holding>, n: map<string, Holding>, k: real)
    ensures Merge(ScaledHoldings(m, k), ScaledHoldings(n, k)) == ScaledHoldings(Merge(m, n), k)
            <==> ScalesThrough(m, n, k)
  {
    var l, r := Merge(ScaledHoldings(m, k), ScaledHoldings(n, k)), ScaledHoldings(Merge(m, n), k);
    hide Netted, ScaledHolding, Times, Blank;
    assert l.Keys == r.Keys;
    forall a | a in m && a in n
      ensures l[a] == r[a] <==> k != 0.0 || Blank(m[a], n[a])
    {
      ScaleOne(m[a], n[a], k);
    }
    if ScalesThrough(m, n, k) {
      forall a | a in l
        ensures l[a] == r[a]
      {
        if a in m && a in n {
          assert k != 0.0 || Blank(m[a], n[a]);
        }
      }
    } else {
      var a :| a in m && a in n && !Blank(m[a], n[a]);
      assert a in l && l[a] != r[a];
    }
  }

  lemma ScaleAddedDays(x: seq<real>, y: seq<real>, k: real)
    requires |x| == |y|
    ensures Backlogs.Added(ScaledDays(x, k), ScaledDays(y, k)) == ScaledDays(Backlogs.Added(x, y), k)
  {
    var l, r := Backlogs.Added(ScaledDays(x, k), ScaledDays(y, k)), ScaledDays(Backlogs.Added(x, y), k);
    forall i | 0 <= i < |x|
      ensures l[i] == r[i]
    {
      Spread(x[i], y[i], k);
    }
  }

  lemma ScaleAddedHistory(a: map<string, seq<real>>, b: map<string, seq<real>>, k: real)
    requires Aligned(a, b) && Aligned(ScaledHistory(a, k), ScaledHistory(b, k))
    ensures AddedHistory(ScaledHistory(a, k), ScaledHistory(b, k)) == ScaledHistory(AddedHistory(a, b), k)
  {
    var l, r := AddedHistory(ScaledHistory(a, k), ScaledHistory(b, k)), ScaledHistory(AddedHistory(a, b), k);
    assert l.Keys == r.Keys;
    forall s | s in l
      ensures l[s] == r[s]
    {
      if s in a && s in b {
        ScaleAddedDays(a[s], b[s], k);
      }
    }
  }

  lemma ScaleAddedModels(a: map<string, Weighted>, b: map<string, Weighted>, k: real)
    ensures AddedModels(ScaledModels(a, k), ScaledModels(b, k)) == ScaledModels(AddedModels(a, b), k)
  {
    var l, r := AddedModels(ScaledModels(a, k), ScaledModels(b, k)), ScaledModels(AddedModels(a, b), k);
    assert l.Keys == r.Keys;
    forall s | s in l
      ensures l[s] == r[s]
    {
      if s in a && s in b {
        Spread(a[s].weight, b[s].weight, k);
      }
    }
  }

  /** k * (a + b) is k * a + k * b, rates and budget included, exactly when k is not 0 or nothing but hours and costs
      is left of every asset that both hold. */
  lemma ScaleDistributes(a: Unit, b: Unit, k: real)
    requires Compatible(a, b)
    ensures Sum(Scale(a, k), Scale(b, k)) == Some(Scale(Sum(a, b).value, k))
            <==> ScalesThrough(a.holdings, b.holdings, k)
  {
    hide Merge, ScaledHoldings, ScaledHistory, ScaledModels, AddedHistory, AddedModels, ExposureValue, Times,
         ScalesThrough;
    ScaleKeepsCompatible(a, b, k, k);
    ScaleMerge(a.holdings, b.holdings, k);
    ScaleAddedHistory(a.history, b.history, k);
    ScaleAddedModels(a.models, b.models, k);
    if ScalesThrough(a.holdings, b.holdings, k) {
      ScaleNettedAway(a.holdings, b.holdings, k);
      Spread(a.budget, b.budget, k);
      Spread(a.budget + b.budget, NettedAway(a.holdings, b.holdings), k);
    }
  }

  lemma ScaleNettedAway(m: map<string, Holding>, n: map<string, Holding>, k: real)
    requires Merge(ScaledHoldings(m, k), ScaledHoldings(n, k)) == ScaledHoldings(Merge(m, n), k)
    ensures NettedAway(ScaledHoldings(m, k), ScaledHoldings(n, k)) == Times(NettedAway(m, n), k)
  {
    hide Merge, ScaledHoldings, ExposureValue, Times;
    ScaledExposure(m, k);
    ScaledExposure(n, k);
    ScaledExposure(Merge(m, n), k);
    Spread(ExposureValue(m), ExposureValue(n), k);
    Spread(NettedAway(m, n), ExposureValue(Merge(m, n)), k);
  }

  /** A unit that 0 does not scale through: added to itself its rate stays, added to itself after scaling it goes. */
  lemma ZeroClearsRates()
    ensures var u := Unit("o", 0.0, map["a" := Plain(1.0, 10.0)], map[], map[]);
            Compatible(u, u) && Sum(Scale(u, 0.0), Scale(u, 0.0)) != Some(Scale(Sum(u, u).value, 0.0))
  {
    hide Sum, Scale;
    var u := Unit("o", 0.0, map["a" := Plain(1.0, 10.0)], map[], map[]);
    PlainIsNotBlank();
    assert "a" in u.holdings && !Blank(u.holdings["a"], u.holdings["a"]);
    hide Blank;
    ScaleDistributes(u, u, 0.0);
  }

  lemma PlainIsNotBlank()
    ensures !Blank(Plain(1.0, 10.0), Plain(1.0, 10.0))
  {
    var x := Plain(1.0, 10.0);
    OneSideKeepsCost(x, x);
    hide WeightedAverage, Netted;
    assert Netted(x, x).load.avg * Netted(x, x).load.net == 20.0;
  }

  // ----- What netting moves into the budget ------------------------------------------------------------------

  /** What netting two holdings takes out of the exposure. */
  function MovedBy(x: Holding, y: Holding): real {
    Exposure(x.load) + Exposure(y.load) - Exposure(Netted(x, y).load)
  }

  function Moved(m: map<string, Holding>, n: map<string, Holding>): map<string, real> {
    map k | k in m && k in n :: MovedBy(m[k], n[k])
  }

  /** Both sides' exposures, asset by asset. */
  function Apart(m: map<string, Holding>, n: map<string, Holding>): map<string, real> {
    map k | k in m.Keys + n.Keys :: At(Exposures(m), k) + At(Exposures(n), k)
  }

  /** The budget takes up what netting moves, asset by asset. */
  lemma NettedAwayIs(m: map<string, Holding>, n: map<string, Holding>)
    ensures NettedAway(m, n) == SumOver(Moved(m, n))
  {
    hide Netted, Exposure, SumOver;
    SumAdds(Exposures(m), Exposures(n), Apart(m, n));
    SumAdds(Exposures(Merge(m, n)), Moved(m, n), Apart(m, n));
  }

  /** The holding whose mark the netted one takes, and the other. */
  function Marking(x: Holding, y: Holding): (Holding, Holding) {
    var z := if SameSide(x.load.net, y.load.net) then Latest(x, y) else if Abs(x.load.net) > Abs(y.load.net) then x
        else y;
    if z == x then (x, y) else (y, x)
  }

  /** Nothing is held by the other, or it is valued as the netted holding values its hours: at the same mark, or, when
      an average without a last rate results, at its own average. */
  predicate ValuedAlike(x: Holding, y: Holding) {
    var (z, other) := Marking(x, y);
    || other.load.net == 0.0
    || (if SameSide(x.load.net, y.load.net) && z.load.last.None? then Mark(other.load) == other.load.avg
        else Mark(other.load) == Mark(z.load))
  }

  lemma Factor(b: real, p: real, q: real)
    ensures Times(b, q) - Times(b, p) == 0.0 <==> b == 0.0 || q == p
  {
    var d := q - p;
    assert b * q - b * p == b * d;
    assert b != 0.0 ==> b * d / b == d;
  }

  lemma CancelledOut(x: Holding, y: Holding)
    requires x.load.net + y.load.net == 0.0
    ensures MovedBy(x, y) == 0.0 <==> ValuedAlike(x, y)
  {
  }

  /** The netted holding takes the mark of `z`. */
  lemma TakesMark(x: Holding, y: Holding)
    requires x.load.net + y.load.net != 0.0
    requires var (z, other) := Marking(x, y); SameSide(x.load.net, y.load.net) ==> z.load.last.Some?
    ensures var (z, other) := Marking(x, y);
            Mark(Netted(x, y).load) == Mark(z.load) && x.load.net + y.load.net == z.load.net + other.load.net
  {
    hide WeightedAverage;
  }

  lemma MovesAtMark(x: Holding, y: Holding)
    requires x.load.net + y.load.net != 0.0
    requires var (z, other) := Marking(x, y); SameSide(x.load.net, y.load.net) ==> z.load.last.Some?
    ensures MovedBy(x, y) == 0.0 <==> ValuedAlike(x, y)
  {
    var (z, other) := Marking(x, y);
    TakesMark(x, y);
    NettedHours(x, y);
    hide Netted, Exposure, Mark, WeightedAverage, SameSide, Times;
    var p, q := Mark(z.load), Mark(other.load);
    ExposureAt(Netted(x, y).load);
    ExposureAt(z.load);
    ExposureAt(other.load);
    Spread(z.load.net, other.load.net, p);
    Factor(other.load.net, p, q);
  }

  lemma ExposureAt(w: Load)
    ensures Exposure(w) == Times(w.net, Mark(w))
  {
  }

  lemma NettedHours(x: Holding, y: Holding)
    ensures Netted(x, y).load.net == x.load.net + y.load.net
  {
  }

  lemma MovesAtAverage(x: Holding, y: Holding)
    requires x.load.net + y.load.net != 0.0 && SameSide(x.load.net, y.load.net) && Latest(x, y).load.last.None?
    ensures MovedBy(x, y) == 0.0 <==> ValuedAlike(x, y)
  {
    var (z, other) := Marking(x, y);
    var w := Netted(x, y).load;
    OneSideKeepsCost(x, y);
    assert w.last.None? && Exposure(w) == w.avg * w.net by {
      hide WeightedAverage;
    }
    hide Netted, WeightedAverage, SameSide;
    assert Exposure(z.load) == z.load.net * z.load.avg;
    Factor(other.load.net, other.load.avg, Mark(other.load));
  }

  /** Netting two holdings moves nothing into the budget exactly when they are valued alike. */
  lemma MovesNothing(x: Holding, y: Holding)
    ensures MovedBy(x, y) == 0.0 <==> ValuedAlike(x, y)
  {
    if x.load.net + y.load.net == 0.0 {
      CancelledOut(x, y);
    } else if SameSide(x.load.net, y.load.net) && Latest(x, y).load.last.None? {
      MovesAtAverage(x, y);
    } else {
      MovesAtMark(x, y);
    }
  }

  /** Both units mark each shared asset at one rate, as a match leaves the workloads of its asset. */
  predicate OneMark(m: map<string, Holding>, n: map<string, Holding>) {
    forall k | k in m && k in n :: m[k].load.last.Some? && m[k].load.last == n[k].load.last
  }

  /** Then netting moves nothing into the budget. */
  lemma OneMarkMovesNothing(m: map<string, Holding>, n: map<string, Holding>)
    requires OneMark(m, n)
    ensures NettedAway(m, n) == 0.0
  {
    hide Netted, Exposure;
    NettedAwayIs(m, n);
    forall k | k in m && k in n
      ensures MovedBy(m[k], n[k]) == 0.0
    {
      MovesNothing(m[k], n[k]);
    }
    hide MovedBy;
    AllZero(Moved(m, n));
  }

  lemma {:induction false} AllZero(f: map<string, real>)
    requires forall k | k in f :: f[k] == 0.0
    ensures SumOver(f) == 0.0
    decreases |f|
  {
    if f != map[] {
      var k :| k in f;
      SumWithout(f, k);
      AllZero(f - {k});
    }
  }
}
