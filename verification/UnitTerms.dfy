/** The unit algebra said field by field, in plain sums and products: what netting leaves of two holdings, and what
    a sum, a multiple and a difference of units hold. */
module UnitTerms {
  import opened Options
  import opened OperationsModel

  /** Of two holdings, one has hours to receive and one hours to give. */
  predicate Opposed(x: Holding, y: Holding) {
    (x.load.net > 0.0 && y.load.net < 0.0) || (x.load.net < 0.0 && y.load.net > 0.0)
  }

  /** Hours and both kinds of cost add up. Hours that cancel out leave no rate and no mark. On one side the rate is
      weighted by hours, with the mark of the holding updated last; of opposed holdings the larger, whose sign the sum
      has, keeps its rate, its mark and its date. */
  lemma NettedTerms(x: Holding, y: Holding)
    ensures var w, net := Netted(x, y), x.load.net + y.load.net;
            var later := if x.updated >= y.updated then x else y;
            var larger := if (net > 0.0) == (x.load.net > 0.0) then x else y;
            && w.org == x.org && w.asset == x.asset && w.load.net == net
            && w.load.realized == x.load.realized + y.load.realized
            && w.load.unrealized == x.load.unrealized + y.load.unrealized
            && w.updated == (if net != 0.0 && Opposed(x, y) then larger.updated else later.updated)
            && w.load.last == (if net == 0.0 then None else if Opposed(x, y) then larger.load.last else later.load.last)
            && (net == 0.0 ==> w.load.avg == 0.0)
            && (net != 0.0 && Opposed(x, y) ==> w.load.avg == larger.load.avg)
            && (!Opposed(x, y) ==> w.load.avg * net == x.load.avg * x.load.net + y.load.avg * y.load.net)
  {
    if x.load.net + y.load.net != 0.0 {
      if SameSide(x.load.net, y.load.net) {
        OneSideKeepsCost(x, y);
      } else {
        LargerSurvives(x, y);
      }
    }
    hide WeightedAverage;
  }

  /** What a holding is worth: its hours at the rate it was last marked with, or at its average when it never was. */
  lemma WorthAt(m: map<string, Holding>, asset: string)
    requires asset in m
    ensures var w := m[asset].load;
            ExposureValue(m) == w.net * (if w.last.Some? then w.last.value else w.avg) + ExposureValue(m - {asset})
    ensures var w := m[asset].load;
            SumOver(Costs(m)) == w.realized + w.unrealized + SumOver(Costs(m - {asset}))
    ensures ExposureValue(map[]) == 0.0 && SumOver(Costs(map[])) == 0.0
  {
    hide SumOver, Exposure;
    assert Exposures(m) - {asset} == Exposures(m - {asset});
    assert Costs(m) - {asset} == Costs(m - {asset});
    hide Exposures, Costs;
    FacetAt(m, asset);
    SumWithout(Exposures(m), asset);
    SumWithout(Costs(m), asset);
    NothingWorth();
  }

  lemma FacetAt(m: map<string, Holding>, asset: string)
    requires asset in m
    ensures asset in Exposures(m) && asset in Costs(m)
    ensures var w := m[asset].load;
            && Exposures(m)[asset] == w.net * (if w.last.Some? then w.last.value else w.avg)
            && Costs(m)[asset] == w.realized + w.unrealized
  {
  }

  lemma NothingWorth()
    ensures ExposureValue(map[]) == 0.0 && SumOver(Costs(map[])) == 0.0
  {
    assert Exposures(map[]) == map[] && Costs(map[]) == map[];
  }

  /** Two histories of one asset are added day by day, two weights of one model added, and what only one unit has is
      taken as it is. */
  predicate AddedUp(a: Unit, b: Unit, s: Unit) {
    && s.history.Keys == a.history.Keys + b.history.Keys && s.models.Keys == a.models.Keys + b.models.Keys
    && (forall k | k in s.history ::
          var x, y := if k in a.history then a.history[k] else [], if k in b.history then b.history[k] else [];
          && |s.history[k]| == (if |x| >= |y| then |x| else |y|)
          && forall i | 0 <= i < |s.history[k]| ::
               s.history[k][i] == (if i < |x| then x[i] else 0.0) + (if i < |y| then y[i] else 0.0))
    && (forall k | k in s.models ::
          && s.models[k].model == (if k in a.models then a.models[k].model else b.models[k].model)
          && s.models[k].weight == (if k in a.models then a.models[k].weight else 0.0)
                                   + (if k in b.models then b.models[k].weight else 0.0))
  }

  /** A sum exists exactly when histories of one asset are equally long and models of one asset are the same. It is of
      the first unit's organization, nets the holdings both have and keeps every other, and its budget takes up what
      netting moves, so that nothing of the exposure is lost. */
  lemma SumTerms(a: Unit, b: Unit)
    ensures Sum(a, b).Some?
            <==> (forall k | k in a.history && k in b.history :: |a.history[k]| == |b.history[k]|)
                 && (forall k | k in a.models && k in b.models :: a.models[k].model == b.models[k].model)
    ensures Sum(a, b).Some? ==>
              var s := Sum(a, b).value;
              && s.org == a.org && s.holdings.Keys == a.holdings.Keys + b.holdings.Keys
              && (forall k | k in s.holdings ::
                    s.holdings[k] == if k !in b.holdings then a.holdings[k] else if k !in a.holdings then b.holdings[k]
                                     else Netted(a.holdings[k], b.holdings[k]))
              && s.budget + ExposureValue(s.holdings)
                 == a.budget + ExposureValue(a.holdings) + b.budget + ExposureValue(b.holdings)
              && AddedUp(a, b, s)
  {
    hide Netted, SumOver, Exposures, AddedHistory, AddedModels, AddedUp;
    if Compatible(a, b) {
      SumsAddUp(a, b);
    }
  }

  lemma SumsAddUp(a: Unit, b: Unit)
    requires Compatible(a, b)
    ensures AddedUp(a, b, Sum(a, b).value)
  {
    hide Merge, NettedAway;
  }

  /** A multiple has every amount multiplied, and organizations, rates, marks, dates and models as they were. */
  lemma ScaleTerms(u: Unit, k: real)
    ensures var s := Scale(u, k);
            && s.org == u.org && s.budget == u.budget * k
            && s.holdings.Keys == u.holdings.Keys && s.history.Keys == u.history.Keys && s.models.Keys == u.models.Keys
            && (forall a | a in u.holdings ::
                  var x, y := u.holdings[a], s.holdings[a];
                  && y.org == x.org && y.asset == x.asset && y.updated == x.updated
                  && y.load.avg == x.load.avg && y.load.last == x.load.last && y.load.net == x.load.net * k
                  && y.load.realized == x.load.realized * k && y.load.unrealized == x.load.unrealized * k)
            && (forall a | a in u.history ::
                  |s.history[a]| == |u.history[a]|
                  && forall i | 0 <= i < |u.history[a]| :: s.history[a][i] == u.history[a][i] * k)
            && (forall a | a in u.models ::
                  s.models[a].model == u.models[a].model && s.models[a].weight == u.models[a].weight * k)
  {
  }
}
