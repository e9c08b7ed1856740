/** The class behind the algebra (`mittelwerk/analytics/operations.py`): its methods mutate maps and fill fresh
    objects; the value of what they leave or return is that of the model. */
module Operations {
  import opened Options
  import opened OperationsModel
  import Backlogs

  lemma FacetsWithout(m: map<string, Holding>, k: string)
    requires k in m
    ensures SumOver(Exposures(m)) == Exposure(m[k].load) + SumOver(Exposures(m - {k}))
    ensures SumOver(Costs(m)) == m[k].load.Total() + SumOver(Costs(m - {k}))
  {
    hide SumOver;
    SumWithout(Exposures(m), k);
    SumWithout(Costs(m), k);
    assert Exposures(m) - {k} == Exposures(m - {k});
    assert Costs(m) - {k} == Costs(m - {k});
  }

  lemma NothingListed(m: map<string, Holding>)
    requires Lists(m, [])
    ensures SumOver(Exposures(m)) == 0.0 && SumOver(Costs(m)) == 0.0
  {
    assert forall k | k in m :: m[k] in [];
    assert m == map[];
  }

  lemma {:induction false} ListedSum(m: map<string, Holding>, ws: seq<Holding>)
    requires Keyed(m) && Lists(m, ws)
    ensures ListExposure(ws) == SumOver(Exposures(m)) && ListCost(ws) == SumOver(Costs(m))
  {
    hide SumOver, Exposures, Costs, Exposure;
    if ws == [] {
      NothingListed(m);
    } else {
      var w := ws[|ws| - 1];
      assert w.asset in m && m[w.asset] == w;
      ListsFront(m, ws);
      ListedSum(m - {w.asset}, ws[..|ws| - 1]);
      FacetsWithout(m, w.asset);
    }
  }

  function ListExposure(ws: seq<Holding>): real {
    if ws == [] then 0.0 else ListExposure(ws[..|ws| - 1]) + Exposure(ws[|ws| - 1].load)
  }

  function ListCost(ws: seq<Holding>): real {
    if ws == [] then 0.0 else ListCost(ws[..|ws| - 1]) + ws[|ws| - 1].load.Total()
  }

  method ExposureOf(ws: seq<Holding>) returns (r: real)
    ensures r == ListExposure(ws)
  {
    r := 0.0;
    for n := 0 to |ws|
      invariant r == ListExposure(ws[..n])
    {
      assert ws[..n + 1][..n] == ws[..n];
      r := r + Exposure(ws[n].load);
    }
    assert ws[..|ws|] == ws;
  }

  /** The values of a dictionary, in any order. */
  method Values(m: map<string, Holding>) returns (ws: seq<Holding>)
    requires Keyed(m)
    ensures Lists(m, ws)
  {
    ws := [];
    var left := m.Keys;
    assert m - left == map[];
    while left != {}
      invariant left <= m.Keys && Lists(m - left, ws)
    {
      var k :| k in left;
      ListsNext(m, left, ws, k);
      ws := ws + [m[k]];
      left := left - {k};
    }
    assert m - left == m;
  }

  lemma ListsNext(m: map<string, Holding>, left: set<string>, ws: seq<Holding>, k: string)
    requires Keyed(m) && left <= m.Keys && k in left && Lists(m - left, ws)
    ensures Lists(m - (left - {k}), ws + [m[k]])
  {
    var n := m - (left - {k});
    var ws' := ws + [m[k]];
    forall j | j in n
      ensures n[j] in ws'
    {
      if j != k {
        assert j in m - left && (m - left)[j] in ws;
      } else {
        assert ws'[|ws|] == m[k];
      }
    }
  }

  method CombineDays(x: seq<real>, y: seq<real>) returns (r: seq<real>)
    requires |x| == |y|
    ensures r == Backlogs.Added(x, y)
  {
    r := [];
    for i := 0 to |x|
      invariant |r| == i && forall j | 0 <= j < i :: r[j] == x[j] + y[j]
    {
      r := r + [x[i] + y[i]];
    }
  }

  lemma HistoryNext(a: map<string, seq<real>>, b: map<string, seq<real>>, left: set<string>, k: string)
    requires Aligned(a, b - left) && k in left && left <= b.Keys && (k in a ==> |a[k]| == |b[k]|)
    ensures Aligned(a, b - (left - {k}))
    ensures AddedHistory(a, b - (left - {k}))
         == AddedHistory(a, b - left)[k := if k in a then Backlogs.Added(a[k], b[k]) else b[k]]
  {
  }

  /** The other unit's histories, one by one; refused at the first that does not align. */
  method CombineHistories(a: map<string, seq<real>>, b: map<string, seq<real>>)
                          returns (r: Option<map<string, seq<real>>>)
    ensures r.Some? <==> Aligned(a, b)
    ensures r.Some? ==> r.value == AddedHistory(a, b)
  {
    var merged := a;
    var left := b.Keys;
    assert b - left == map[];
    while left != {}
      invariant left <= b.Keys && Aligned(a, b - left) && merged == AddedHistory(a, b - left)
    {
      var k :| k in left;
      if k in merged && |merged[k]| != |b[k]| {
        return None;
      }
      HistoryNext(a, b, left, k);
      if k in merged {
        var days := CombineDays(merged[k], b[k]);
        merged := merged[k := days];
      } else {
        merged := merged[k := b[k]];
      }
      left := left - {k};
    }
    assert b - left == b;
    return Some(merged);
  }

  lemma ModelsNext(a: map<string, Weighted>, b: map<string, Weighted>, left: set<string>, k: string)
    requires k in left && left <= b.Keys
    ensures AddedModels(a, b - (left - {k}))
         == AddedModels(a, b - left)[k := if k in a then Weighted(a[k].model, a[k].weight + b[k].weight) else b[k]]
  {
  }

  /** The other unit's capacity models, one by one; refused at the first that differs. */
  method CombineModels(a: map<string, Weighted>, b: map<string, Weighted>) returns (r: Option<map<string, Weighted>>)
    ensures r.Some? <==> SameModels(a, b)
    ensures r.Some? ==> r.value == AddedModels(a, b)
  {
    var merged := a;
    var left := b.Keys;
    assert b - left == map[];
    while left != {}
      invariant left <= b.Keys && SameModels(a, b - left) && merged == AddedModels(a, b - left)
    {
      var k :| k in left;
      if k in merged && merged[k].model != b[k].model {
        return None;
      }
      ModelsNext(a, b, left, k);
      merged := merged[k := if k in merged then Weighted(merged[k].model, merged[k].weight + b[k].weight) else b[k]];
      left := left - {k};
    }
    assert b - left == b;
    return Some(merged);
  }

  lemma MergeIntoEmpty(m: map<string, Holding>)
    ensures Merge(map[], m) == m
  {
  }

  class OperationsAnalytics {
    const org: string
    var budget: real
    var holdings: map<string, Holding>
    var history: map<string, seq<real>>
    var models: map<string, Weighted>

    ghost predicate Valid()
      reads this
    {
      Keyed(holdings)
    }

    ghost function Value(): Unit
      reads this
    {
      Unit(org, budget, holdings, history, models)
    }

    constructor (org: string, budget: real)
      ensures Valid() && Value() == Unit(org, budget, map[], map[], map[])
    {
      this.org := org;
      this.budget := budget;
      holdings := map[];
      history := map[];
      models := map[];
    }

    method AggregateWorkload(w: Holding)
      requires Valid()
      modifies this
      ensures Valid() && Value() == old(Value()).(holdings := Aggregated(old(holdings), w))
    {
      holdings := holdings[w.asset := if w.asset in holdings then Netted(holdings[w.asset], w) else w];
    }

    method ReplaceWorkloads(ws: seq<Holding>)
      requires Valid()
      modifies this
      ensures Valid() && Value() == old(Value()).(holdings := Fold(map[], ws))
    {
      holdings := map[];
      for n := 0 to |ws|
        invariant Valid() && Value() == old(Value()).(holdings := Fold(map[], ws[..n]))
      {
        assert ws[..n + 1][..n] == ws[..n];
        AggregateWorkload(ws[n]);
      }
      assert ws[..|ws|] == ws;
    }

    /** Replaces the model of one asset; an asset without a name is refused. */
    method RegisterCapacity(asset: string, model: Capacity, weight: real) returns (ok: bool)
      modifies this
      ensures ok <==> asset != ""
      ensures ok ==> asset in models && models[asset].model == model && models[asset].weight == weight
      ensures models.Keys == old(models).Keys + (if ok then {asset} else {})
      ensures forall other | other in old(models) && (ok ==> other != asset) :: models[other] == old(models)[other]
      ensures Value().(models := old(models)) == old(Value())
    {
      ok := asset != "";
      if ok {
        models := models[asset := Weighted(model, weight)];
      }
    }

    /** One more day of one asset, the last of its history; what any run of earlier days sums to stays. */
    method RecordDailyBacklog(asset: string, delta: real) returns (ok: bool)
      modifies this
      ensures ok <==> asset != ""
      ensures var before := if asset in old(history) then old(history)[asset] else [];
              ok ==>
                && asset in history && |history[asset]| == |before| + 1
                && before <= history[asset] && history[asset][|before|] == delta
      ensures history.Keys == old(history).Keys + (if ok then {asset} else {})
      ensures forall other | other in old(history) && (ok ==> other != asset) :: history[other] == old(history)[other]
      ensures Value().(history := old(history)) == old(Value())
    {
      ok := asset != "";
      if ok {
        history := history[asset := (if asset in history then history[asset] else []) + [delta]];
      }
    }

    method TotalExposureValue() returns (r: real)
      requires Valid()
      ensures r == TotalExposure(Value())
    {
      var ws := Values(holdings);
      ListedSum(holdings, ws);
      r := ExposureOf(ws);
      r := r + budget;
    }

    method CostTotal() returns (r: real)
      requires Valid()
      ensures r == TotalCost(Value())
    {
      var ws := Values(holdings);
      ListedSum(holdings, ws);
      r := 0.0;
      for n := 0 to |ws|
        invariant r == ListCost(ws[..n])
      {
        assert ws[..n + 1][..n] == ws[..n];
        r := r + ws[n].load.Total();
      }
      assert ws[..|ws|] == ws;
    }

    /** A fresh unit with the merged holdings, and the value netting took out of them in its budget. */
    method MergeHoldings(other: OperationsAnalytics) returns (r: OperationsAnalytics)
      requires Valid() && other.Valid()
      ensures fresh(r) && r.Valid() && r.org == org
      ensures r.holdings == Merge(holdings, other.holdings)
      ensures r.budget == budget + other.budget + NettedAway(holdings, other.holdings)
    {
      var ls := Values(holdings);
      var rs := Values(other.holdings);
      FoldMerges(map[], holdings, ls);
      FoldMerges(holdings, other.holdings, rs);
      MergeIntoEmpty(holdings);
      FoldConcat(map[], ls, rs);
      ListedSum(holdings, ls);
      ListedSum(other.holdings, rs);
      r := new OperationsAnalytics(org, budget + other.budget);
      r.ReplaceWorkloads(ls + rs);
      var l := ExposureOf(ls);
      var s := ExposureOf(rs);
      var ms := Values(r.holdings);
      ListedSum(r.holdings, ms);
      var merged := ExposureOf(ms);
      r.budget := r.budget + (l + s - merged);
    }

    /** a + b, refused when the histories do not align or the capacity models differ. */
    method Add(other: OperationsAnalytics) returns (r: Option<OperationsAnalytics>)
      requires Valid() && other.Valid()
      ensures r.Some? <==> Compatible(Value(), other.Value())
      ensures r.Some? ==> fresh(r.value) && r.value.Valid() && Sum(Value(), other.Value()) == Some(r.value.Value())
    {
      var merged := MergeHoldings(other);
      var days := CombineHistories(history, other.history);
      if days.None? {
        return None;
      }
      var capacity := CombineModels(models, other.models);
      if capacity.None? {
        return None;
      }
      merged.history := days.value;
      merged.models := capacity.value;
      return Some(merged);
    }

    /** k * a. */
    method Multiply(k: real) returns (r: OperationsAnalytics)
      requires Valid()
      ensures fresh(r) && r.Valid() && r.Value() == Scale(Value(), k)
    {
      var ws := Values(holdings);
      var scaled: seq<Holding> := [];
      for n := 0 to |ws|
        invariant |scaled| == n && forall i | 0 <= i < n :: scaled[i] == ScaledHolding(ws[i], k)
      {
        scaled := scaled + [ScaledHolding(ws[n], k)];
      }
      ScaledListing(holdings, ws, scaled, k);
      FoldMerges(map[], ScaledHoldings(holdings, k), scaled);
      MergeIntoEmpty(ScaledHoldings(holdings, k));
      r := new OperationsAnalytics(org, Times(budget, k));
      r.ReplaceWorkloads(scaled);
      r.history := ScaledHistory(history, k);
      r.models := ScaledModels(models, k);
    }

    /** a - b. */
    method Subtract(other: OperationsAnalytics) returns (r: Option<OperationsAnalytics>)
      requires Valid() && other.Valid()
      ensures r.Some? <==> Compatible(Value(), other.Value())
      ensures r.Some? ==>
                fresh(r.value) && r.value.Valid() && Difference(Value(), other.Value()) == Some(r.value.Value())
    {
      DifferenceSubtracts(Value(), other.Value(), "");
      var negative := other.Multiply(-1.0);
      r := Add(negative);
    }

    /** The days recorded for the organization itself. */
    ghost function Days(): seq<real>
      reads this
    {
      if ORGANIZATION in history then history[ORGANIZATION] else []
    }

    /** The largest sum over any run of consecutive days, nothing before the first day. */
    method MaxBacklogOverrun() returns (r: Option<real>)
      ensures r.None? <==> Days() == []
      ensures r.Some? ==> exists i, j :: 0 <= i <= j <= |Days()| && Backlogs.Total(Days()[i..j]) == r.value
      ensures r.Some? ==> forall i, j | 0 <= i <= j <= |Days()| :: Backlogs.Total(Days()[i..j]) <= r.value
    {
      r := if ORGANIZATION in history then Backlogs.MaxOverrun(history[ORGANIZATION]) else None;
      if r.Some? {
        ghost var i, j := Backlogs.SomeRunReaches(Days());
        forall i, j | 0 <= i <= j <= |Days()|
          ensures Backlogs.Total(Days()[i..j]) <= r.value
        {
          Backlogs.NoRunIsLarger(Days(), i, j);
        }
      }
    }
  }

  const ORGANIZATION := "__organization__"

  lemma ScaledListing(m: map<string, Holding>, ws: seq<Holding>, scaled: seq<Holding>, k: real)
    requires Keyed(m) && Lists(m, ws) && |scaled| == |ws| && forall i | 0 <= i < |ws| ::
               scaled[i] == ScaledHolding(ws[i], k)
    ensures Keyed(ScaledHoldings(m, k)) && Lists(ScaledHoldings(m, k), scaled)
  {
    hide ScaledLoad;
    forall a | a in ScaledHoldings(m, k)
      ensures ScaledHoldings(m, k)[a] in scaled
    {
      var i :| 0 <= i < |ws| && ws[i] == m[a];
      assert scaled[i] == ScaledHoldings(m, k)[a];
    }
  }
}
