/** Signed workloads and their cost accounting: `Workload` of `mittelwerk/core/models.py` and
    `WorkloadManager` of `mittelwerk/core/engine.py`. */
module Workloads {
  import opened Options
  import opened Orders

  /** The value of one workload. */
  datatype Load = Load(net: real, avg: real, realized: real, unrealized: real, last: Option<real>) {
    function Total(): real {
      realized + unrealized
    }
  }

  const IDLE: Load := Load(0.0, 0.0, 0.0, 0.0, None)

  function Unrealized(net: real, avg: real, mark: real): real {
    if net == 0.0 then 0.0 else (mark - avg) * net
  }

  /** The average rate after adding hours on the side already open. */
  function SameSideAverage(w: Load, side: Side, hours: real, rate: real): real
    requires w.net + side.Signed(hours) != 0.0
  {
    (w.avg * Abs(w.net) + rate * hours) / Abs(w.net + side.Signed(hours))
  }

  /** The realised cost of closing up to `hours` of what is open. */
  function ClosingCost(w: Load, hours: real, rate: real): real {
    (rate - w.avg) * Min(hours, Abs(w.net)) * (if w.net > 0.0 then 1.0 else -1.0)
  }

  /** The workload after `hours` at `rate`: opening, increasing, reducing, closing or flipping it. */
  function Assign(w: Load, side: Side, hours: real, rate: real): Load
    requires hours > 0.0
  {
    var delta := side.Signed(hours);
    var net := w.net + delta;
    if w.net == 0.0 then
      Load(delta, rate, w.realized, Unrealized(delta, rate, rate), Some(rate))
    else if (w.net > 0.0) == (delta > 0.0) then
      var avg := SameSideAverage(w, side, hours, rate);
      Load(net, avg, w.realized, Unrealized(net, avg, rate), Some(rate))
    else
      var realized := w.realized + ClosingCost(w, hours, rate);
      var avg := if net == 0.0 then 0.0 else if (net > 0.0) == (w.net > 0.0) then w.avg else rate;
      Load(net, avg, realized, Unrealized(net, avg, rate), Some(rate))
  }

  function Reprice(w: Load, mark: real): Load {
    w.(last := Some(mark), unrealized := Unrealized(w.net, w.avg, mark))
  }

  /** Realised cost with the cost of what is still open taken out. */
  function Basis(w: Load): real {
    w.realized - w.avg * w.net
  }

  /** The unrealised cost is the open hours against the last rate seen. */
  predicate Marked(w: Load) {
    if w.net == 0.0 then w.unrealized == 0.0
    else w.last.Some? && w.unrealized == (w.last.value - w.avg) * w.net
  }

  /** Opening a workload, or adding to the side already open, adds the value of the new hours. */
  lemma IncreaseValue(w: Load, side: Side, hours: real, rate: real)
    requires hours > 0.0 && (w.net == 0.0 || (w.net > 0.0) == (side.Signed(hours) > 0.0))
    ensures var w' := Assign(w, side, hours, rate);
            w'.avg * w'.net == w.avg * w.net + side.Signed(hours * rate) && w'.realized == w.realized
  {
    if w.net != 0.0 {
      var cost := w.avg * Abs(w.net) + rate * hours;
      var total := Abs(w.net + side.Signed(hours));
      assert cost / total * total == cost;
    }
  }

  /** Closing hours realises exactly the value that leaves the open part. */
  lemma ClosingValue(w: Load, side: Side, hours: real, rate: real)
    requires hours > 0.0 && w.net != 0.0 && (w.net > 0.0) != (side.Signed(hours) > 0.0)
    ensures var w' := Assign(w, side, hours, rate);
            w'.realized - w'.avg * w'.net == w.realized - w.avg * w.net - side.Signed(hours * rate)
  {
  }

  lemma AssignIsMarked(w: Load, side: Side, hours: real, rate: real)
    requires hours > 0.0
    ensures var w' := Assign(w, side, hours, rate);
            w'.net == w.net + side.Signed(hours) && Marked(w') && w'.last == Some(rate)
  {
    hide SameSideAverage, ClosingCost;
  }

  /** One assignment moves the net hours by its signed hours and the basis by its signed value,
      whichever branch it takes. */
  lemma AssignMovesBasis(w: Load, side: Side, hours: real, rate: real)
    requires hours > 0.0
    ensures var w' := Assign(w, side, hours, rate);
            && w'.net == w.net + side.Signed(hours)
            && Basis(w') == Basis(w) - side.Signed(hours * rate)
            && Marked(w') && w'.last == Some(rate)
  {
    hide Assign, Marked;
    AssignIsMarked(w, side, hours, rate);
    if w.net == 0.0 || (w.net > 0.0) == (side.Signed(hours) > 0.0) {
      IncreaseValue(w, side, hours, rate);
    } else {
      ClosingValue(w, side, hours, rate);
    }
  }

  /** What an assignment does to the average and to what is realised. On an idle workload it opens at the rate;
      on the open side it weights the average by hours and realises nothing. Against the open side, fewer hours than
      are open keep the average and realise the rate less the average on those hours alone, with the sign of the open
      side; as many leave nothing open; more realise all that was open and open the other side at the rate. */
  ghost predicate Accounts(w: Load, side: Side, hours: real, rate: real, w': Load) {
    && w'.net == (if side == Request then w.net + hours else w.net - hours)
    && w'.last == Some(rate) && w'.unrealized == (rate - w'.avg) * w'.net
    && (w.net == 0.0 ==> w'.avg == rate && w'.realized == w.realized)
    && ((if side == Request then w.net > 0.0 else w.net < 0.0) ==>
          && w'.avg * w'.net == w.avg * w.net + (if side == Request then hours * rate else -(hours * rate))
          && w'.realized == w.realized)
    && ((if side == Request then w.net < w'.net < 0.0 else w.net > w'.net > 0.0) ==>
          && w'.avg == w.avg
          && w'.realized == w.realized + (rate - w.avg) * (if w.net > 0.0 then hours else -hours))
    && ((if side == Request then w.net < 0.0 <= w'.net else w.net > 0.0 >= w'.net) ==>
          && w'.avg == (if w'.net == 0.0 then 0.0 else rate)
          && w'.realized == w.realized + (rate - w.avg) * w.net)
  }

  lemma AddingAccounts(w: Load, side: Side, hours: real, rate: real)
    requires hours > 0.0 && (w.net == 0.0 || if side == Request then w.net > 0.0 else w.net < 0.0)
    ensures Accounts(w, side, hours, rate, Assign(w, side, hours, rate))
  {
    hide SameSideAverage;
    IncreaseValue(w, side, hours, rate);
  }

  lemma ClosingCostIs(w: Load, hours: real, rate: real)
    requires hours > 0.0 && w.net != 0.0
    ensures ClosingCost(w, hours, rate)
            == (rate - w.avg) * (if hours < Abs(w.net) then (if w.net > 0.0 then hours else -hours) else w.net)
  {
  }

  lemma ClosingAccounts(w: Load, side: Side, hours: real, rate: real)
    requires hours > 0.0 && if side == Request then w.net < 0.0 else w.net > 0.0
    ensures Accounts(w, side, hours, rate, Assign(w, side, hours, rate))
  {
    hide ClosingCost, SameSideAverage;
    ClosingCostIs(w, hours, rate);
  }

  lemma AssignAccounts(w: Load, side: Side, hours: real, rate: real)
    requires hours > 0.0
    ensures Accounts(w, side, hours, rate, Assign(w, side, hours, rate))
  {
    hide Assign, Accounts;
    if w.net == 0.0 || if side == Request then w.net > 0.0 else w.net < 0.0 {
      AddingAccounts(w, side, hours, rate);
    } else {
      ClosingAccounts(w, side, hours, rate);
    }
  }

  /** What a workload can be asked to do. */
  datatype Op = Assigning(side: Side, hours: real, rate: real) | Repricing(mark: real)

  /** An assignment of no hours is refused and leaves the workload as it was. */
  function Apply(w: Load, op: Op): Load {
    match op
    case Assigning(side, hours, rate) => if hours > 0.0 then Assign(w, side, hours, rate) else w
    case Repricing(mark) => Reprice(w, mark)
  }

  function Run(w: Load, ops: seq<Op>): Load {
    if ops == [] then w else Apply(Run(w, ops[..|ops| - 1]), ops[|ops| - 1])
  }

  /** The signed hours an operation adds. */
  function OpHours(op: Op): real {
    if op.Assigning? && op.hours > 0.0 then op.side.Signed(op.hours) else 0.0
  }

  /** The signed value of those hours at their rate. */
  function OpValue(op: Op): real {
    if op.Assigning? && op.hours > 0.0 then op.side.Signed(op.hours * op.rate) else 0.0
  }

  function SignedHours(ops: seq<Op>): real {
    if ops == [] then 0.0 else SignedHours(ops[..|ops| - 1]) + OpHours(ops[|ops| - 1])
  }

  function SignedValue(ops: seq<Op>): real {
    if ops == [] then 0.0 else SignedValue(ops[..|ops| - 1]) + OpValue(ops[|ops| - 1])
  }

  lemma ApplyMovesBasis(w: Load, op: Op)
    requires Marked(w)
    ensures var w' := Apply(w, op);
            && w'.net == w.net + OpHours(op)
            && Basis(w') == Basis(w) - OpValue(op)
            && Marked(w')
            && (w.last.Some? ==> w'.last.Some?)
  {
    if op.Assigning? && op.hours > 0.0 {
      AssignMovesBasis(w, op.side, op.hours, op.rate);
    }
  }

  /** The total cost of a marked workload is its hours at the mark on top of its basis. */
  lemma TotalAtMark(w: Load, mark: real)
    requires Marked(w) && (w.net != 0.0 ==> w.last == Some(mark))
    ensures TotalCost(w) == mark * Net(w) + Basis(w)
  {
    assert w.net != 0.0 ==> (mark - w.avg) * w.net == mark * w.net - w.avg * w.net;
  }

  /** Realised and total cost, from the basis. */
  lemma CostFromBasis(w: Load, basis: real)
    requires Marked(w) && Basis(w) == basis
    ensures w.realized == w.avg * w.net + basis
    ensures w.last.Some? ==> w.Total() == w.last.value * w.net + basis
  {
    if w.last.Some? {
      TotalAtMark(w, w.last.value);
    }
  }

  lemma {:induction false} RunKeepsBasis(ops: seq<Op>)
    ensures var w := Run(IDLE, ops);
            w.net == SignedHours(ops) && Basis(w) == -SignedValue(ops) && Marked(w)
  {
    if ops != [] {
      hide Basis, Marked, Apply, OpHours, OpValue;
      var before := Run(IDLE, ops[..|ops| - 1]);
      RunKeepsBasis(ops[..|ops| - 1]);
      ApplyMovesBasis(before, ops[|ops| - 1]);
    }
  }

  /** The cost of a workload does not depend on the path: only on what was assigned and on the mark. */
  lemma CostIsPathIndependent(ops: seq<Op>)
    ensures var w := Run(IDLE, ops);
            && w.net == SignedHours(ops)
            && w.realized == w.avg * w.net - SignedValue(ops)
            && (w.last.Some? ==> w.Total() == w.last.value * w.net - SignedValue(ops))
  {
    hide Run, Basis, Marked, Load.Total, SignedHours, SignedValue;
    RunKeepsBasis(ops);
    CostFromBasis(Run(IDLE, ops), -SignedValue(ops));
  }

  /** The mutable workload of one organization on one asset. */
  class Workload {
    const org: string
    const asset: string
    var net: real
    var avg: real
    var realized: real
    var unrealized: real
    var last: Option<real>

    function View(): Load
      reads this
    {
      Load(net, avg, realized, unrealized, last)
    }

    constructor (org: string, asset: string)
      ensures this.org == org && this.asset == asset && View() == IDLE
    {
      this.org, this.asset := org, asset;
      net, avg, realized, unrealized, last := 0.0, 0.0, 0.0, 0.0, None;
    }

    /** Returns the realised cost, or nothing when the hours are not positive. */
    method ApplyAssignment(side: Side, hours: real, rate: real) returns (result: Option<real>)
      modifies this
      ensures View() == if hours > 0.0 then Assign(old(View()), side, hours, rate) else old(View())
      ensures result == if hours > 0.0 then Some(View().realized - old(View().realized)) else None
      ensures hours > 0.0 ==> Accounts(old(View()), side, hours, rate, View())
    {
      hide Accounts;
      if hours <= 0.0 {
        return None;
      }
      AssignAccounts(View(), side, hours, rate);
      var delta := side.Signed(hours);
      var realised := 0.0;
      if net == 0.0 {
        net := delta;
        avg := rate;
      } else if (net > 0.0) == (delta > 0.0) {
        avg := SameSideAverage(View(), side, hours, rate);
        net := net + delta;
      } else {
        realised := ClosingCost(View(), hours, rate);
        realized := realized + realised;
        var newNet := net + delta;
        if newNet == 0.0 {
          net := 0.0;
          avg := 0.0;
        } else if (newNet > 0.0) == (net > 0.0) {
          net := newNet;
        } else {
          net := newNet;
          avg := rate;
        }
      }
      last := Some(rate);
      RecomputeUnrealized(rate);
      return Some(realised);
    }

    method RepriceAt(mark: real) returns (result: real)
      modifies this
      ensures View() == Reprice(old(View()), mark)
      ensures result == View().unrealized
    {
      last := Some(mark);
      RecomputeUnrealized(mark);
      return unrealized;
    }

    method RecomputeUnrealized(mark: real)
      modifies this`unrealized
      ensures View() == old(View()).(unrealized := Unrealized(net, avg, mark))
    {
      if net == 0.0 {
        unrealized := 0.0;
      } else {
        unrealized := (mark - avg) * net;
      }
    }
  }

  /** Workloads are keyed by organization and asset. */
  datatype Key = Key(org: string, asset: string)

  predicate Distinct(keys: seq<Key>) {
    keys == [] || (keys[|keys| - 1] !in keys[..|keys| - 1] && Distinct(keys[..|keys| - 1]))
  }

  /** The value of a workload manager: its keys in the order they were first used, and their workloads. */
  datatype Book = Book(keys: seq<Key>, loads: map<Key, Load>) {
    ghost predicate Valid() {
      && Distinct(keys)
      && (forall k :: k in keys <==> k in loads)
    }

    function Peek(key: Key): Option<Load> {
      if key in loads then Some(loads[key]) else None
    }

    /** The book with a workload for `key`, created idle if there was none. */
    function WithKey(key: Key): (b: Book)
      ensures key in b.loads
      ensures Valid() ==> b.Valid()
    {
      if key in loads then this
      else
        assert (keys + [key])[..|keys|] == keys;
        Book(keys + [key], loads[key := IDLE])
    }

    function AssignTo(key: Key, side: Side, hours: real, rate: real): (b: Book)
      requires hours > 0.0
      ensures Valid() ==> b.Valid()
    {
      var b := WithKey(key);
      b.(loads := b.loads[key := Assign(b.loads[key], side, hours, rate)])
    }

    /** Both sides of an executed assignment. */
    function ApplyFill(f: Fill): (b: Book)
      requires f.hours > 0.0
      ensures Valid() ==> b.Valid()
    {
      AssignTo(Key(f.requesterOrg, f.asset), Request, f.hours, f.rate)
      .AssignTo(Key(f.providerOrg, f.asset), Offer, f.hours, f.rate)
    }

    /** Every workload of the asset that is not idle is marked at `mark`. */
    function RepriceAsset(asset: string, mark: real): (b: Book)
      ensures Valid() ==> b.Valid()
    {
      this.(loads := map k | k in loads ::
        if k.asset == asset && loads[k].net != 0.0 then Reprice(loads[k], mark) else loads[k])
    }
  }

  predicate Positive(fills: seq<Fill>) {
    forall i | 0 <= i < |fills| :: fills[i].hours > 0.0
  }

  function ApplyFills(b: Book, fills: seq<Fill>): (b': Book)
    requires Positive(fills)
    ensures b.Valid() ==> b'.Valid()
  {
    if fills == [] then b else ApplyFills(b, fills[..|fills| - 1]).ApplyFill(fills[|fills| - 1])
  }

  /** The sum of `f` over the workloads of one asset. */
  function Sum(keys: seq<Key>, loads: map<Key, Load>, asset: string, f: Load -> real): real {
    if keys == [] then 0.0
    else
      var k := keys[|keys| - 1];
      Sum(keys[..|keys| - 1], loads, asset, f) + if k.asset == asset && k in loads then f(loads[k]) else 0.0
  }

  function Net(w: Load): real { w.net }
  function TotalCost(w: Load): real { w.Total() }

  function NetSum(b: Book, asset: string): real {
    Sum(b.keys, b.loads, asset, Net)
  }

  function BasisSum(b: Book, asset: string): real {
    Sum(b.keys, b.loads, asset, Basis)
  }

  /** Realised plus unrealised cost of one asset over all organizations. */
  function CostSum(b: Book, asset: string): real {
    Sum(b.keys, b.loads, asset, TotalCost)
  }

  lemma {:induction false} SumUpdate(keys: seq<Key>, loads: map<Key, Load>, key: Key, w: Load, asset: string,
                                     f: Load -> real)
    requires Distinct(keys)
    requires key in loads
    ensures Sum(keys, loads[key := w], asset, f)
         == Sum(keys, loads, asset, f) + if key in keys && key.asset == asset then f(w) - f(loads[key]) else 0.0
  {
    if keys != [] {
      SumUpdate(keys[..|keys| - 1], loads, key, w, asset, f);
      assert keys == keys[..|keys| - 1] + [keys[|keys| - 1]];
    }
  }

  lemma {:induction false} SumSame(keys: seq<Key>, loads: map<Key, Load>, loads': map<Key, Load>, asset: string,
                                   f: Load -> real)
    requires forall k | k in keys :: k in loads && k in loads' && (k.asset == asset ==> f(loads[k]) == f(loads'[k]))
    ensures Sum(keys, loads, asset, f) == Sum(keys, loads', asset, f)
  {
    if keys != [] {
      SumSame(keys[..|keys| - 1], loads, loads', asset, f);
    }
  }

  lemma WithKeySum(b: Book, key: Key, asset: string, f: Load -> real)
    requires b.Valid() && f(IDLE) == 0.0
    ensures Sum(b.WithKey(key).keys, b.WithKey(key).loads, asset, f) == Sum(b.keys, b.loads, asset, f)
  {
    var b' := b.WithKey(key);
    if key !in b.loads {
      assert b'.keys[..|b'.keys| - 1] == b.keys;
      SumSame(b.keys, b.loads, b'.loads, asset, f);
    }
  }

  lemma AssignToSum(b: Book, key: Key, side: Side, hours: real, rate: real, asset: string, f: Load -> real,
                    change: real)
    requires b.Valid() && hours > 0.0 && f(IDLE) == 0.0
    requires var w := b.WithKey(key).loads[key]; f(Assign(w, side, hours, rate)) == f(w) + change
    ensures var b' := b.AssignTo(key, side, hours, rate);
            Sum(b'.keys, b'.loads, asset, f)
            == Sum(b.keys, b.loads, asset, f) + if key.asset == asset then change else 0.0
  {
    var b1 := b.WithKey(key);
    WithKeySum(b, key, asset, f);
    SumUpdate(b1.keys, b1.loads, key, Assign(b1.loads[key], side, hours, rate), asset, f);
  }

  function HoursOf(f: Fill): real { f.hours }
  function CostOf(f: Fill): real { -(f.hours * f.rate) }

  /** The two sides of an assignment move the net hours, and the basis, by opposite amounts. */
  lemma FillMovesNet(f: Fill)
    requires f.hours > 0.0
    ensures forall w :: Net(Assign(w, Request, f.hours, f.rate)) == Net(w) + HoursOf(f)
    ensures forall w :: Net(Assign(w, Offer, f.hours, f.rate)) == Net(w) - HoursOf(f)
  {
  }

  lemma IdleIsZero()
    ensures Net(IDLE) == 0.0 && Basis(IDLE) == 0.0
  {
  }

  lemma FillMovesBasis(f: Fill)
    requires f.hours > 0.0
    ensures forall w :: Basis(Assign(w, Request, f.hours, f.rate)) == Basis(w) + CostOf(f)
    ensures forall w :: Basis(Assign(w, Offer, f.hours, f.rate)) == Basis(w) - CostOf(f)
  {
    hide Assign, Basis;
    forall w
      ensures Basis(Assign(w, Request, f.hours, f.rate)) == Basis(w) + CostOf(f)
    {
      AssignMovesBasis(w, Request, f.hours, f.rate);
    }
    forall w
      ensures Basis(Assign(w, Offer, f.hours, f.rate)) == Basis(w) - CostOf(f)
    {
      AssignMovesBasis(w, Offer, f.hours, f.rate);
    }
  }

  lemma ApplyFillSum(b: Book, f: Fill, asset: string, g: Load -> real, change: real)
    requires b.Valid() && f.hours > 0.0 && g(IDLE) == 0.0
    requires forall w :: g(Assign(w, Request, f.hours, f.rate)) == g(w) + change
    requires forall w :: g(Assign(w, Offer, f.hours, f.rate)) == g(w) - change
    ensures var b' := b.ApplyFill(f); Sum(b'.keys, b'.loads, asset, g) == Sum(b.keys, b.loads, asset, g)
  {
    var b1 := b.AssignTo(Key(f.requesterOrg, f.asset), Request, f.hours, f.rate);
    AssignToSum(b, Key(f.requesterOrg, f.asset), Request, f.hours, f.rate, asset, g, change);
    AssignToSum(b1, Key(f.providerOrg, f.asset), Offer, f.hours, f.rate, asset, g, -change);
  }

  /** An executed assignment adds as many hours on one side as on the other ... */
  lemma ApplyFillNetSum(b: Book, f: Fill, asset: string)
    requires b.Valid() && f.hours > 0.0
    ensures NetSum(b.ApplyFill(f), asset) == NetSum(b, asset)
  {
    FillMovesNet(f);
    ApplyFillSum(b, f, asset, Net, HoursOf(f));
  }

  /** ... and as much value. */
  lemma ApplyFillBasisSum(b: Book, f: Fill, asset: string)
    requires b.Valid() && f.hours > 0.0
    ensures BasisSum(b.ApplyFill(f), asset) == BasisSum(b, asset)
  {
    hide Assign, Basis, CostOf, Book.ApplyFill, Book.AssignTo, Sum;
    IdleIsZero();
    FillMovesBasis(f);
    ApplyFillSum(b, f, asset, Basis, CostOf(f));
  }

  lemma {:induction false} ApplyFillsSums(b: Book, fills: seq<Fill>, asset: string)
    requires b.Valid() && Positive(fills)
    ensures NetSum(ApplyFills(b, fills), asset) == NetSum(b, asset)
    ensures BasisSum(ApplyFills(b, fills), asset) == BasisSum(b, asset)
  {
    if fills != [] {
      ApplyFillsSums(b, fills[..|fills| - 1], asset);
      ApplyFillNetSum(ApplyFills(b, fills[..|fills| - 1]), fills[|fills| - 1], asset);
      ApplyFillBasisSum(ApplyFills(b, fills[..|fills| - 1]), fills[|fills| - 1], asset);
    }
  }

  /** All workloads of an asset that are not idle were last marked at the same rate. */
  ghost predicate OneMark(b: Book, asset: string) {
    forall k, k' | k in b.loads && k' in b.loads && k.asset == asset && k'.asset == asset
                   && b.loads[k].net != 0.0 && b.loads[k'].net != 0.0 :: b.loads[k].last == b.loads[k'].last
  }

  ghost predicate AllMarked(b: Book) {
    forall k | k in b.loads :: Marked(b.loads[k])
  }

  lemma Distribute(a: real, x: real, y: real)
    ensures a * (x + y) == a * x + a * y
  {
  }

  /** When all open workloads of an asset share one mark, its total cost is that mark on its net hours
      on top of its basis. */
  lemma {:induction false} CostAtOneMark(keys: seq<Key>, loads: map<Key, Load>, asset: string, mark: real)
    requires forall k | k in keys :: k in loads && Marked(loads[k])
    requires forall k | k in keys && k.asset == asset && loads[k].net != 0.0 :: loads[k].last == Some(mark)
    ensures Sum(keys, loads, asset, TotalCost)
         == mark * Sum(keys, loads, asset, Net) + Sum(keys, loads, asset, Basis)
  {
    hide Basis, TotalCost, Net;
    if keys != [] {
      var k := keys[|keys| - 1];
      var init := keys[..|keys| - 1];
      CostAtOneMark(init, loads, asset, mark);
      if k.asset == asset {
        TotalAtMark(loads[k], mark);
        Distribute(mark, Sum(init, loads, asset, Net), Net(loads[k]));
      }
    }
  }

  /** Zero net hours and zero basis give zero cost as soon as the open workloads share one mark. */
  lemma ZeroCost(b: Book, asset: string)
    requires b.Valid() && AllMarked(b) && OneMark(b, asset)
    requires NetSum(b, asset) == 0.0 && BasisSum(b, asset) == 0.0
    ensures CostSum(b, asset) == 0.0
  {
    var mark := 0.0;
    if k :| k in b.loads && k.asset == asset && b.loads[k].net != 0.0 {
      mark := b.loads[k].last.value;
    }
    CostAtOneMark(b.keys, b.loads, asset, mark);
  }

  /** Repricing an asset puts its open workloads on one mark and moves neither hours nor basis. */
  lemma RepriceAssetSums(b: Book, asset: string, mark: real, other: string)
    requires b.Valid() && AllMarked(b)
    ensures var b' := b.RepriceAsset(asset, mark);
            && NetSum(b', other) == NetSum(b, other)
            && BasisSum(b', other) == BasisSum(b, other)
            && AllMarked(b')
            && OneMark(b', asset)
            && (OneMark(b, other) ==> OneMark(b', other))
  {
    var b' := b.RepriceAsset(asset, mark);
    SumSame(b.keys, b.loads, b'.loads, other, Net);
    SumSame(b.keys, b.loads, b'.loads, other, Basis);
  }

  lemma {:induction false} ApplyFillsMarked(b: Book, fills: seq<Fill>, asset: string)
    requires Positive(fills) && (forall i | 0 <= i < |fills| :: fills[i].asset == asset)
    requires AllMarked(b)
    ensures AllMarked(ApplyFills(b, fills))
    ensures forall other | other != asset && OneMark(b, other) :: OneMark(ApplyFills(b, fills), other)
  {
    if fills != [] {
      var init, f := fills[..|fills| - 1], fills[|fills| - 1];
      ApplyFillsMarked(b, init, asset);
      var b0 := ApplyFills(b, init);
      var b1 := b0.AssignTo(Key(f.requesterOrg, f.asset), Request, f.hours, f.rate);
      AssignMovesBasis(b0.WithKey(Key(f.requesterOrg, f.asset)).loads[Key(f.requesterOrg, f.asset)], Request,
          f.hours, f.rate);
      AssignMovesBasis(b1.WithKey(Key(f.providerOrg, f.asset)).loads[Key(f.providerOrg, f.asset)], Offer, f.hours,
          f.rate);
    }
  }

  /** What an assignment contributes to a key: `g` of it to the requester, as much off the provider. */
  function Contribution(f: Fill, key: Key, g: Fill -> real): real {
    (if Key(f.requesterOrg, f.asset) == key then g(f) else 0.0) - (if Key(f.providerOrg, f.asset) == key then g(f)
        else 0.0)
  }

  function LogSum(log: seq<Fill>, key: Key, g: Fill -> real): real {
    if log == [] then 0.0 else LogSum(log[..|log| - 1], key, g) + Contribution(log[|log| - 1], key, g)
  }

  function At(b: Book, key: Key, g: Load -> real): real {
    if key in b.loads then g(b.loads[key]) else 0.0
  }

  /** The workload of `key` is what the assignment log says: its net hours are the log's signed hours, and
      its realised cost is its average times those hours less the log's signed value. */
  ghost predicate FollowsLog(b: Book, log: seq<Fill>, key: Key) {
    && At(b, key, Net) == LogSum(log, key, HoursOf)
    && At(b, key, Basis) == LogSum(log, key, CostOf)
  }

  /** A workload that follows the log: its net hours, and its cost on top of its average and its mark. */
  lemma FollowedLoad(b: Book, log: seq<Fill>, key: Key)
    requires FollowsLog(b, log, key) && AllMarked(b)
    ensures key !in b.loads ==> LogSum(log, key, HoursOf) == 0.0
    ensures key in b.loads ==>
              var w := b.loads[key];
              && w.net == LogSum(log, key, HoursOf)
              && w.realized == w.avg * w.net + LogSum(log, key, CostOf)
              && (w.last.Some? ==> w.Total() == w.last.value * w.net + LogSum(log, key, CostOf))
  {
    hide LogSum, Marked, Basis, Load.Total;
    if key in b.loads {
      CostFromBasis(b.loads[key], LogSum(log, key, CostOf));
    }
  }

  lemma ApplyFillAt(b: Book, log: seq<Fill>, f: Fill, key: Key, g: Load -> real, h: Fill -> real)
    requires f.hours > 0.0 && g(IDLE) == 0.0
    requires forall w :: g(Assign(w, Request, f.hours, f.rate)) == g(w) + h(f)
    requires forall w :: g(Assign(w, Offer, f.hours, f.rate)) == g(w) - h(f)
    requires At(b, key, g) == LogSum(log, key, h)
    ensures At(b.ApplyFill(f), key, g) == LogSum(log + [f], key, h)
  {
    hide Assign;
    assert (log + [f])[..|log|] == log;
  }

  lemma ApplyFillFollowsHours(b: Book, log: seq<Fill>, f: Fill, key: Key)
    requires f.hours > 0.0 && At(b, key, Net) == LogSum(log, key, HoursOf)
    ensures At(b.ApplyFill(f), key, Net) == LogSum(log + [f], key, HoursOf)
  {
    hide Assign, At, LogSum, Book.ApplyFill;
    FillMovesNet(f);
    ApplyFillAt(b, log, f, key, Net, HoursOf);
  }

  lemma ApplyFillFollowsCost(b: Book, log: seq<Fill>, f: Fill, key: Key)
    requires f.hours > 0.0 && At(b, key, Basis) == LogSum(log, key, CostOf)
    ensures At(b.ApplyFill(f), key, Basis) == LogSum(log + [f], key, CostOf)
  {
    hide Assign, At, LogSum, Book.ApplyFill, Basis, CostOf;
    IdleIsZero();
    FillMovesBasis(f);
    ApplyFillAt(b, log, f, key, Basis, CostOf);
  }

  lemma ApplyFillFollowsLog(b: Book, log: seq<Fill>, f: Fill, key: Key)
    requires f.hours > 0.0 && FollowsLog(b, log, key)
    ensures FollowsLog(b.ApplyFill(f), log + [f], key)
  {
    hide At, LogSum, Book.ApplyFill;
    ApplyFillFollowsHours(b, log, f, key);
    ApplyFillFollowsCost(b, log, f, key);
  }

  lemma {:induction false} ApplyFillsFollowLog(b: Book, log: seq<Fill>, fills: seq<Fill>, key: Key)
    requires Positive(fills) && FollowsLog(b, log, key)
    ensures FollowsLog(ApplyFills(b, fills), log + fills, key)
  {
    if fills == [] {
      assert log + fills == log;
    } else {
      var init := fills[..|fills| - 1];
      ApplyFillsFollowLog(b, log, init, key);
      ApplyFillFollowsLog(ApplyFills(b, init), log + init, fills[|fills| - 1], key);
      assert log + init + [fills[|fills| - 1]] == log + fills;
    }
  }

  /** The workload of `key`, idle when it has not been used. */
  function LoadAt(b: Book, key: Key): Load {
    if key in b.loads then b.loads[key] else Load(0.0, 0.0, 0.0, 0.0, None)
  }

  /** One assignment opens or changes the workload of its key, and no other. */
  lemma AssignedAt(b: Book, key: Key, side: Side, hours: real, rate: real)
    requires hours > 0.0
    ensures var b' := b.AssignTo(key, side, hours, rate);
            && b'.loads.Keys == b.loads.Keys + {key}
            && (forall k | k in b.loads && k != key :: b'.loads[k] == b.loads[k])
            && Accounts(LoadAt(b, key), side, hours, rate, b'.loads[key])
  {
    hide Assign, Accounts;
    AssignAccounts(LoadAt(b, key), side, hours, rate);
  }

  /** An executed assignment is a request of the one organization and then an offer of the other; no workload but
      those two is opened or changed. */
  lemma FillBooksBoth(b: Book, f: Fill)
    requires f.hours > 0.0
    ensures var b', q, p := b.ApplyFill(f), Key(f.requesterOrg, f.asset), Key(f.providerOrg, f.asset);
            && b'.loads.Keys == b.loads.Keys + {q, p}
            && (forall k | k in b.loads && k != q && k != p :: b'.loads[k] == b.loads[k])
            && if q == p then
                 exists w :: Accounts(LoadAt(b, q), Request, f.hours, f.rate, w)
                    && Accounts(w, Offer, f.hours, f.rate, b'.loads[q])
               else
                 && Accounts(LoadAt(b, q), Request, f.hours, f.rate, b'.loads[q])
                 && Accounts(LoadAt(b, p), Offer, f.hours, f.rate, b'.loads[p])
  {
    hide Book.AssignTo, Accounts;
    var q, p := Key(f.requesterOrg, f.asset), Key(f.providerOrg, f.asset);
    var b1 := b.AssignTo(q, Request, f.hours, f.rate);
    AssignedAt(b, q, Request, f.hours, f.rate);
    AssignedAt(b1, p, Offer, f.hours, f.rate);
  }

  /** A mark is taken by every workload of the asset with open hours, which it values, and by no other; it moves
      neither hours, nor averages, nor what was realised. */
  lemma RepriceMarks(b: Book, asset: string, mark: real)
    ensures var b' := b.RepriceAsset(asset, mark);
            && b'.keys == b.keys && b'.loads.Keys == b.loads.Keys
            && forall k | k in b.loads ::
                 b'.loads[k] == var w := b.loads[k];
                                if k.asset != asset || w.net == 0.0 then w
                                else w.(last := Some(mark), unrealized := (mark - w.avg) * w.net)
  {
  }

  /** The manager: one mutable workload per key, created on first use and never replaced. */
  class WorkloadManager {
    var keys: seq<Key>
    var loads: map<Key, Workload>
    ghost var contents: map<Key, Load>
    ghost var objects: set<object>

    ghost predicate Valid()
      reads this, objects
    {
      && this in objects
      && View().Valid()
      && loads.Keys == contents.Keys
      && (forall k | k in loads :: Holds(k, contents[k]))
    }

    /** The workload object of `k` is one of this manager's and has the value `w`. */
    ghost predicate Holds(k: Key, w: Load)
      requires k in loads
      reads this, objects
    {
      && loads[k] in objects && loads[k] as object != this
      && loads[k].org == k.org && loads[k].asset == k.asset
      && loads[k].View() == w
    }

    ghost function View(): Book
      reads this
    {
      Book(keys, contents)
    }

    constructor ()
      ensures Valid() && View() == Book([], map[]) && fresh(objects)
    {
      keys, loads, contents, objects := [], map[], map[], {this};
    }

    method PeekWorkload(key: Key) returns (w: Option<Load>)
      requires Valid()
      ensures w == View().Peek(key)
    {
      if key in loads {
        assert Holds(key, contents[key]);
        w := Some(loads[key].View());
      } else {
        w := None;
      }
    }

    method GetWorkload(org: string, asset: string) returns (w: Workload)
      requires Valid()
      modifies this
      ensures Valid() && fresh(objects - old(objects))
      ensures View() == old(View()).WithKey(Key(org, asset))
      ensures Key(org, asset) in loads && w == loads[Key(org, asset)]
    {
      hide Distinct;
      var key := Key(org, asset);
      if key !in loads {
        w := new Workload(org, asset);
        contents := View().WithKey(key).loads;
        keys := keys + [key];
        loads := loads[key := w];
        objects := objects + {w};
        assert forall k | k in loads :: Holds(k, contents[k]);
      }
      w := loads[key];
    }

    /** Hours that are not positive are refused, but the workload they were meant for is there afterwards. */
    method ApplyAssignment(org: string, asset: string, side: Side, hours: real, rate: real) returns (ok: bool)
      requires Valid()
      modifies objects
      ensures Valid() && fresh(objects - old(objects)) && ok == (hours > 0.0)
      ensures View() == if ok then old(View()).AssignTo(Key(org, asset), side, hours, rate)
              else old(View()).WithKey(Key(org, asset))
    {
      hide Assign, Distinct, Book.Valid;
      var w := GetWorkload(org, asset);
      var r := w.ApplyAssignment(side, hours, rate);
      ok := r.Some?;
      if !ok {
        return;
      }
      contents := contents[Key(org, asset) := w.View()];
      forall k | k in loads
        ensures Holds(k, contents[k])
      {
        assert k != Key(org, asset) ==> loads[k] != w;
      }
      assert View() == old(View()).AssignTo(Key(org, asset), side, hours, rate);
    }

    method RepriceAsset(asset: string, mark: real)
      requires Valid()
      modifies objects
      ensures Valid() && objects == old(objects)
      ensures View() == old(View()).RepriceAsset(asset, mark)
    {
      ghost var marked := View().RepriceAsset(asset, mark).loads;
      for i := 0 to |keys|
        invariant keys == old(keys) && loads == old(loads) && objects == old(objects) && contents == old(contents)
        invariant forall k | k in loads :: Holds(k, if k in keys[..i] then marked[k] else contents[k])
      {
        var w := loads[keys[i]];
        if keys[i].asset == asset && w.net != 0.0 {
          var u := w.RepriceAt(mark);
        }
        forall k | k in loads
          ensures Holds(k, if k in keys[..i + 1] then marked[k] else contents[k])
        {
          assert k != keys[i] ==> loads[k] != w;
        }
      }
      contents := marked;
    }
  }
}
