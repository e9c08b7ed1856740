/** The dispatch engine on its mutable objects (`mittelwerk/core/engine.py`): every operation, with all it
    does to orders, queues, workloads, log and published events, is the step of the value model. */
module Engines {
  import opened Options
  import opened Orders
  import opened FlatMatch
  import opened Workloads
  import opened Dispatch
  import D = Dispatch
  import opened Queues
  import opened QueueModel
  import opened QueueInvariant
  import I = Invariant
  import opened Lifecycle
  import Steps
  import opened Matchers
  import FK = FillOrKill
  import R = Runs
  import Out = Outcomes

  /** Which order objects stand in a queue, best first. */
  datatype Lineup = Lineup(requests: seq<WorkOrder>, offers: seq<WorkOrder>) {
    function Of(side: Side): seq<WorkOrder> {
      if side == Request then requests else offers
    }

    function With(side: Side, list: seq<WorkOrder>): Lineup {
      if side == Request then this.(requests := list) else this.(offers := list)
    }
  }

  /** The queue object, made of the memory `mem`, holds the lineup. */
  ghost predicate Stands(q: DispatchQueue, mem: set<object>, l: Lineup)
    requires Housed(q, mem)
    reads mem
  {
    q.Objects() == mem && q.Valid() && q.Orders(Request) == l.requests && q.Orders(Offer) == l.offers
  }

  ghost predicate Housed(q: DispatchQueue, mem: set<object>) {
    q in mem && q.requests in mem && q.offers in mem
  }

  /** Each queue has its own part of the memory `store`. */
  ghost predicate AllHoused(queues: map<string, DispatchQueue>, shelf: map<string, set<object>>, store: set<object>) {
    && queues.Keys == shelf.Keys
    && (forall a | a in queues :: Housed(queues[a], shelf[a]) && shelf[a] <= store)
    && (forall a, b | a in shelf && b in shelf && a != b :: shelf[a] !! shelf[b])
  }

  ghost predicate AllStand(queues: map<string, DispatchQueue>, shelf: map<string, set<object>>, store: set<object>,
                           lineups: map<string, Lineup>)
    requires AllHoused(queues, shelf, store)
    reads store
  {
    lineups.Keys == queues.Keys && forall a | a in queues :: Stands(queues[a], shelf[a], lineups[a])
  }

  /** The workloads, the queues and the orders share no memory. */
  ghost predicate Separate(objects: set<object>, books: set<object>, store: set<object>,
                           orders: map<string, WorkOrder>) {
    && store !! books
    && forall id | id in orders :: orders[id] in objects && orders[id] !in books && orders[id] !in store
  }

  /** Every order object is as the ledger says. */
  ghost predicate Recorded(orders: map<string, WorkOrder>, ledger: Ledger)
    reads set id | id in orders :: orders[id]
  {
    orders.Keys == ledger.Keys && forall id | id in orders :: orders[id].id == id && orders[id].View() == ledger[id].now
  }

  /** The lineup is made of registered orders of the asset. */
  ghost predicate Lined(asset: string, list: seq<WorkOrder>, orders: map<string, WorkOrder>) {
    forall i | 0 <= i < |list| :: list[i].id in orders && orders[list[i].id] == list[i] && list[i].asset == asset
  }

  /** The list of values names the orders of the list. */
  ghost predicate Names(list: seq<WorkOrder>, values: seq<Order>) {
    |list| == |values| && forall i | 0 <= i < |list| :: list[i].id == values[i].id
  }

  ghost predicate Agrees(asset: string, l: Lineup, q: Queue, orders: map<string, WorkOrder>) {
    && Lined(asset, l.requests, orders) && Names(l.requests, q.requests)
    && Lined(asset, l.offers, orders) && Names(l.offers, q.offers)
  }

  ghost predicate AllAgree(lineups: map<string, Lineup>, queues: map<string, Queue>, orders: map<string, WorkOrder>) {
    lineups.Keys == queues.Keys && forall a | a in lineups :: Agrees(a, lineups[a], queues[a], orders)
  }

  /** The values of a side are the values of its orders. */
  lemma AgreedViews(asset: string, l: Lineup, q: Queue, orders: map<string, WorkOrder>, ledger: Ledger, side: Side)
    requires Agrees(asset, l, q, orders) && Recorded(orders, ledger) && QueueInv(ledger, asset, q)
    ensures Views(l.Of(side)) == q.Of(side)
  {
    hide Views;
    assert SideInv(ledger, asset, side, q.Of(side));
    hide SideInv;
    forall i | 0 <= i < |l.Of(side)|
      ensures l.Of(side)[i].View() == q.Of(side)[i]
    {
      KnownAt(ledger, asset, side, q.Of(side), i);
      assert l.Of(side)[i].id == q.Of(side)[i].id;
    }
  }

  lemma KnownAt(ledger: Ledger, asset: string, side: Side, list: seq<Order>, i: nat)
    requires SideInv(ledger, asset, side, list) && i < |list|
    ensures list[i].id in ledger && ledger[list[i].id].now == list[i]
  {
    assert Known(ledger, asset, list[i]);
  }

  /** A new order does not concern the lineups. */
  lemma AgreeGrown(lineups: map<string, Lineup>, queues: map<string, Queue>, orders: map<string, WorkOrder>,
                   w: WorkOrder)
    requires AllAgree(lineups, queues, orders) && w.id !in orders
    ensures AllAgree(lineups, queues, orders[w.id := w])
  {
    forall a | a in lineups
      ensures Agrees(a, lineups[a], queues[a], orders[w.id := w])
    {
      assert Agrees(a, lineups[a], queues[a], orders);
    }
  }

  /** An empty queue may be added. */
  lemma AgreeOpened(lineups: map<string, Lineup>, queues: map<string, Queue>, orders: map<string, WorkOrder>,
                    asset: string)
    requires AllAgree(lineups, queues, orders) && asset !in queues
    ensures AllAgree(lineups[asset := Lineup([], [])], queues[asset := Queue([], [])], orders)
  {
    hide Agrees;
    assert Agrees(asset, Lineup([], []), Queue([], []), orders) by {
      NoAgreement(asset, orders);
    }
  }

  lemma NoAgreement(asset: string, orders: map<string, WorkOrder>)
    ensures Agrees(asset, Lineup([], []), Queue([], []), orders)
  {
  }

  lemma Grown(objects: set<object>, books: set<object>, store: set<object>, orders: map<string, WorkOrder>,
              ledger: Ledger, w: WorkOrder, at: nat)
    requires Separate(objects, books, store, orders) && Recorded(orders, ledger)
    requires w !in objects && books <= objects && store <= objects && w.id !in ledger
    ensures Separate(objects + {w}, books, store, orders[w.id := w])
    ensures Recorded(orders[w.id := w], ledger[w.id := Entry(w.View(), at, w.View())])
    ensures ledger[w.id := Entry(w.View(), at, w.View())].Keys == ledger.Keys + {w.id} && orders.Keys == ledger.Keys
  {
  }

  lemma Opened(objects: set<object>, books: set<object>, store: set<object>, orders: map<string, WorkOrder>,
               mem: set<object>)
    requires Separate(objects, books, store, orders) && mem !! objects && books <= objects
    ensures Separate(objects + mem, books, store + mem, orders)
  {
  }

  /** One queue more. */
  lemma HousedGrown(queues: map<string, DispatchQueue>, shelf: map<string, set<object>>, store: set<object>,
                    asset: string, q: DispatchQueue, mem: set<object>)
    requires AllHoused(queues, shelf, store) && asset !in queues && Housed(q, mem) && mem !! store
    ensures AllHoused(queues[asset := q], shelf[asset := mem], store + mem)
  {
  }

  lemma StandGrown(queues: map<string, DispatchQueue>, shelf: map<string, set<object>>, store: set<object>,
                   lineups: map<string, Lineup>,
                   asset: string, q: DispatchQueue, mem: set<object>, l: Lineup)
    requires AllHoused(queues, shelf, store) && AllStand(queues, shelf, store, lineups)
    requires asset !in queues && Housed(q, mem) && Stands(q, mem, l)
    requires AllHoused(queues[asset := q], shelf[asset := mem], store + mem)
    ensures AllStand(queues[asset := q], shelf[asset := mem], store + mem, lineups[asset := l])
  {
    hide Stands;
  }

  lemma Housing(q: DispatchQueue)
    requires q.Valid()
    ensures Housed(q, q.Objects()) && Stands(q, q.Objects(), Lineup(q.Orders(Request), q.Orders(Offer)))
  {
  }

  lemma OpenQueueIs(s: State, asset: string)
    ensures OpenQueue(s, asset) == if asset in s.queues then s else s.(queues := s.queues[asset := Queue([], [])])
  {
  }

  /** The orders of a lineup are registered, and none of them is an order that no queue names. */
  lemma LinedApart(asset: string, l: Lineup, q: Queue, orders: map<string, WorkOrder>, side: Side, w: WorkOrder)
    requires Agrees(asset, l, q, orders) && NotIn(q, w.id)
    ensures forall v | v in l.Of(side) :: v != w && v.id in orders && orders[v.id] == v && v.asset == asset
  {
    assert q.Of(Request) == q.requests && q.Of(Offer) == q.offers;
    forall v | v in l.Of(side)
      ensures v != w && v.id in orders && orders[v.id] == v && v.asset == asset
    {
      var i :| 0 <= i < |l.Of(side)| && l.Of(side)[i] == v;
      assert q.Of(side)[i].id == v.id;
    }
  }

  /** A match leaves the lineup a tail of what it was. */
  lemma AgreeMatched(lineups: map<string, Lineup>, queues: map<string, Queue>, orders: map<string, WorkOrder>,
                     asset: string, side: Side, n: nat, rest: seq<Order>)
    requires AllAgree(lineups, queues, orders) && asset in queues
    requires var ws := lineups[asset].Of(side); n <= |ws| && Views(ws[n..]) == rest
    ensures AllAgree(lineups[asset := lineups[asset].With(side, lineups[asset].Of(side)[n..])],
                     queues[asset := queues[asset].With(side, rest)], orders)
  {
    hide Views;
    var l, q := lineups[asset], queues[asset];
    assert Agrees(asset, l, q, orders);
    var l', q' := l.With(side, l.Of(side)[n..]), q.With(side, rest);
    assert Agrees(asset, l', q', orders) by {
      hide Agrees;
      AgreeTail(asset, l, q, orders, side, n, rest);
    }
    hide Agrees;
  }

  lemma AgreeTail(asset: string, l: Lineup, q: Queue, orders: map<string, WorkOrder>, side: Side, n: nat,
                  rest: seq<Order>)
    requires Agrees(asset, l, q, orders)
    requires n <= |l.Of(side)| && Views(l.Of(side)[n..]) == rest
    ensures Agrees(asset, l.With(side, l.Of(side)[n..]), q.With(side, rest), orders)
  {
    hide Views;
    assert forall i | 0 <= i < |rest| :: rest[i] == l.Of(side)[n..][i].View();
  }

  lemma StandsOne(queues: map<string, DispatchQueue>, shelf: map<string, set<object>>, store: set<object>,
                  lineups: map<string, Lineup>, asset: string)
    requires AllHoused(queues, shelf, store) && AllStand(queues, shelf, store, lineups) && asset in queues
    ensures asset in shelf && asset in lineups && shelf[asset] <= store
    ensures Housed(queues[asset], shelf[asset]) && Stands(queues[asset], shelf[asset], lineups[asset])
  {
  }

  lemma StandsOrders(q: DispatchQueue, mem: set<object>, l: Lineup, side: Side)
    requires Housed(q, mem) && Stands(q, mem, l)
    ensures q.Valid() && q.Objects() == mem && q.Orders(side) == l.Of(side) && DistinctIds(l.Of(side))
  {
  }

  lemma AgreesOne(lineups: map<string, Lineup>, queues: map<string, Queue>, orders: map<string, WorkOrder>,
                  asset: string)
    requires AllAgree(lineups, queues, orders) && asset in queues
    ensures asset in lineups && Agrees(asset, lineups[asset], queues[asset], orders)
  {
  }

  lemma RestsOne(s: State, ledger: Ledger, asset: string, side: Side)
    requires QueuesInv(ledger, s.queues) && asset in s.queues
    ensures QueueInv(ledger, asset, s.queues[asset]) && Resting(side, s.queues[asset].Of(side))
  {
    assert QueueInv(ledger, asset, s.queues[asset]);
  }

  lemma ViewIds(ws: seq<WorkOrder>, values: seq<Order>)
    requires Views(ws) == values && DistinctIds(ws)
    ensures |ws| == |values| && forall i | 0 <= i < |ws| :: values[i].id == ws[i].id && values[i] == ws[i].View()
    ensures forall i, j | 0 <= i < j < |values| :: values[i].id != values[j].id
  {
    hide Views;
    forall i, j | 0 <= i < j < |ws|
      ensures values[i].id != values[j].id
    {
      assert ws[i].id != ws[j].id;
    }
  }

  /** What touching does to the record of one order object. */
  lemma TouchedIs(orders: map<string, WorkOrder>, ledger: Ledger, touched: seq<WorkOrder>, values: seq<Order>,
                  id: string)
    requires orders.Keys == ledger.Keys && Views(touched) == values && DistinctIds(touched)
    requires forall v | v in touched :: v.id in orders && orders[v.id] == v
    requires id in orders && orders[id].id == id
    ensures forall i | 0 <= i < |values| :: values[i].id in ledger
    ensures Touch(ledger, values)[id].now == if orders[id] in touched then orders[id].View() else ledger[id].now
  {
    hide Views, Touch, DistinctIds;
    ViewIds(touched, values);
    forall i | 0 <= i < |values|
      ensures values[i].id in ledger
    {
      assert touched[i] in touched;
    }
    TouchAt(ledger, values);
    if orders[id] in touched {
      var i :| 0 <= i < |touched| && touched[i] == orders[id];
      assert Touch(ledger, values)[values[i].id] == ledger[values[i].id].(now := values[i]);
    } else {
      forall i | 0 <= i < |values|
        ensures values[i].id != id
      {
        assert touched[i] in touched && touched[i] != orders[id];
      }
    }
  }

  /** The records after a match, read off the order objects. */
  lemma RecordedMatched(orders: map<string, WorkOrder>, ledger: Ledger, touched: seq<WorkOrder>, w: WorkOrder,
                        m: MatchResult)
    requires orders.Keys == ledger.Keys && w.id in orders && orders[w.id] == w && DistinctIds(touched)
    requires forall v | v in touched :: v != w && v.id in orders && orders[v.id] == v
    requires Views(touched) == m.touched && w.View() == m.incoming
    requires forall id | id in orders ::
      orders[id].id == id && (orders[id] == w || orders[id] in touched || orders[id].View() == ledger[id].now)
    ensures forall i | 0 <= i < |m.touched| :: m.touched[i].id in ledger
    ensures var l := Touch(ledger, m.touched); w.id in l && Recorded(orders, l[w.id := l[w.id].(now := m.incoming)])
  {
    hide Views, Touch, DistinctIds;
    TouchedIs(orders, ledger, touched, m.touched, w.id);
    forall id | id in orders && id != w.id
      ensures orders[id].View() == Touch(ledger, m.touched)[id].now
    {
      TouchedIs(orders, ledger, touched, m.touched, id);
    }
  }

  /** All queues but one hold their lineups. */
  ghost predicate OthersStand(queues: map<string, DispatchQueue>, shelf: map<string, set<object>>,
                              store: set<object>, lineups: map<string, Lineup>, asset: string)
    requires AllHoused(queues, shelf, store)
    reads store
  {
    lineups.Keys == queues.Keys && forall a | a in queues && a != asset :: Stands(queues[a], shelf[a], lineups[a])
  }

  lemma StandsApart(queues: map<string, DispatchQueue>, shelf: map<string, set<object>>, store: set<object>,
                    lineups: map<string, Lineup>, asset: string)
    requires AllHoused(queues, shelf, store) && AllStand(queues, shelf, store, lineups) && asset in queues
    ensures lineups.Keys == queues.Keys == shelf.Keys
    ensures forall a | a in queues && a != asset ::
      Housed(queues[a], shelf[a]) && Stands(queues[a], shelf[a], lineups[a]) && shelf[a] <= store
          && shelf[a] !! shelf[asset]
  {
    hide Housed, Stands;
  }

  /** Nothing a match writes is in the memory of another queue. */
  lemma OthersApart(objects: set<object>, books: set<object>, store: set<object>, orders: map<string, WorkOrder>,
                    shelf: map<string, set<object>>, asset: string, ws: seq<WorkOrder>, w: WorkOrder)
    requires Separate(objects, books, store, orders) && asset in shelf
    requires forall a | a in shelf && a != asset :: shelf[a] <= store && shelf[a] !! shelf[asset]
    requires forall v | v in ws + [w] :: v.id in orders && orders[v.id] == v
    ensures forall a, x | a in shelf && a != asset && x in shelf[a] ::
              x != w && x !in ws && x !in shelf[asset] && x !in books
  {
    assert forall v | v in ws :: v in ws + [w];
    assert w in ws + [w];
  }

  lemma StandsWith(q: DispatchQueue, mem: set<object>, l: Lineup, side: Side, n: nat)
    requires Housed(q, mem) && q.Objects() == mem && q.Valid() && n <= |l.Of(side)|
    requires q.Orders(side) == l.Of(side)[n..] && q.Orders(side.Opposite()) == l.Of(side.Opposite())
    ensures Stands(q, mem, l.With(side, l.Of(side)[n..]))
  {
  }

  lemma RecordedNow(orders: map<string, WorkOrder>, ledger: Ledger)
    requires Recorded(orders, ledger)
    ensures orders.Keys == ledger.Keys && forall id | id in orders ::
              orders[id].id == id && orders[id].View() == ledger[id].now
  {
  }

  lemma TouchedRegistered(lineups: map<string, Lineup>, queues: map<string, Queue>, orders: map<string, WorkOrder>,
                          asset: string, side: Side, w: WorkOrder, touched: seq<WorkOrder>)
    requires AllAgree(lineups, queues, orders) && asset in queues && NotQueued(queues, w.id) && asset in lineups
    requires |touched| <= |lineups[asset].Of(side)| && touched == lineups[asset].Of(side)[..|touched|]
             && DistinctIds(lineups[asset].Of(side))
    ensures forall v | v in touched :: v != w && v.id in orders && orders[v.id] == v
    ensures DistinctIds(touched)
  {
    hide Agrees, NotIn;
    LinedApart(asset, lineups[asset], queues[asset], orders, side, w);
  }

  lemma NotQueuedIn(queues: map<string, Queue>, asset: string, id: string)
    requires NotQueued(queues, id) && asset in queues
    ensures NotIn(queues[asset], id)
  {
  }

  lemma OthersStay(queues: map<string, DispatchQueue>, shelf: map<string, set<object>>, store: set<object>,
                   lineups: map<string, Lineup>, asset: string)
    requires AllHoused(queues, shelf, store) && lineups.Keys == queues.Keys
    requires forall a | a in queues && a != asset :: Stands(queues[a], shelf[a], lineups[a])
    ensures OthersStand(queues, shelf, store, lineups, asset)
  {
  }

  lemma StandsInserted(q: DispatchQueue, l: Lineup, w: WorkOrder, n: nat)
    requires q.Valid() && n <= |l.Of(w.side)|
    requires q.Orders(w.side) == l.Of(w.side)[..n] + [w] + l.Of(w.side)[n..]
             && q.Orders(w.side.Opposite()) == l.Of(w.side.Opposite())
    ensures Housed(q, q.Objects())
            && Stands(q, q.Objects(), l.With(w.side, l.Of(w.side)[..n] + [w] + l.Of(w.side)[n..]))
  {
  }

  /** A queue may grow by memory that nothing else is made of. */
  lemma HousedAnew(queues: map<string, DispatchQueue>, shelf: map<string, set<object>>, store: set<object>,
                   objects: set<object>, asset: string, mem: set<object>)
    requires AllHoused(queues, shelf, store) && asset in queues && Housed(queues[asset], mem)
    requires store <= objects && mem * objects <= shelf[asset]
    ensures AllHoused(queues, shelf[asset := mem], store + mem)
  {
    forall b | b in shelf && b != asset
      ensures shelf[b] !! mem
    {
      assert shelf[b] <= objects && shelf[b] !! shelf[asset];
    }
  }

  lemma StandAnew(queues: map<string, DispatchQueue>, shelf: map<string, set<object>>, store: set<object>,
                  lineups: map<string, Lineup>,
                  asset: string, mem: set<object>, l: Lineup)
    requires AllHoused(queues, shelf, store) && OthersStand(queues, shelf, store, lineups, asset) && asset in queues
    requires Housed(queues[asset], mem) && Stands(queues[asset], mem, l)
             && AllHoused(queues, shelf[asset := mem], store + mem)
    ensures AllStand(queues, shelf[asset := mem], store + mem, lineups[asset := l])
  {
    hide Stands, Housed;
  }

  lemma SeparateStore(objects: set<object>, books: set<object>, store: set<object>, orders: map<string, WorkOrder>,
                      mem: set<object>)
    requires Separate(objects, books, store, orders) && mem * objects <= store && books <= objects
    ensures Separate(objects + mem, books, store + mem, orders)
  {
  }

  lemma AgreeInserted(lineups: map<string, Lineup>, queues: map<string, Queue>, orders: map<string, WorkOrder>,
                      w: WorkOrder, n: nat, values: seq<Order>)
    requires AllAgree(lineups, queues, orders) && w.asset in queues && w.asset in lineups && w.id in orders
             && orders[w.id] == w
    requires var ws := lineups[w.asset].Of(w.side); n <= |ws| && Views(ws[..n] + [w] + ws[n..]) == values
    ensures var ws := lineups[w.asset].Of(w.side);
            AllAgree(lineups[w.asset := lineups[w.asset].With(w.side, ws[..n] + [w] + ws[n..])],
                     queues[w.asset := queues[w.asset].With(w.side, values)], orders)
  {
    hide Views, Agrees;
    AgreesOne(lineups, queues, orders, w.asset);
    AgreeWith(w.asset, lineups[w.asset], queues[w.asset], orders, w, n, values);
  }

  lemma AgreeWith(asset: string, l: Lineup, q: Queue, orders: map<string, WorkOrder>, w: WorkOrder, n: nat,
                  values: seq<Order>)
    requires Agrees(asset, l, q, orders) && w.id in orders && orders[w.id] == w && w.asset == asset
    requires var ws := l.Of(w.side); n <= |ws| && Views(ws[..n] + [w] + ws[n..]) == values
    ensures var ws := l.Of(w.side);
            Agrees(asset, l.With(w.side, ws[..n] + [w] + ws[n..]), q.With(w.side, values), orders)
  {
    hide Views, Lined, Names;
    ListWith(asset, l.Of(w.side), orders, w, n, values);
  }

  lemma ListWith(asset: string, list: seq<WorkOrder>, orders: map<string, WorkOrder>, w: WorkOrder, n: nat,
                 values: seq<Order>)
    requires Lined(asset, list, orders) && w.id in orders && orders[w.id] == w && w.asset == asset
    requires n <= |list| && Views(list[..n] + [w] + list[n..]) == values
    ensures Lined(asset, list[..n] + [w] + list[n..], orders) && Names(list[..n] + [w] + list[n..], values)
  {
    hide Views;
    var ws := list[..n] + [w] + list[n..];
    forall i | 0 <= i < |ws|
      ensures ws[i].id in orders && orders[ws[i].id] == ws[i] && ws[i].asset == asset
    {
      assert ws[i] == w || ws[i] == list[if i < n then i else i - 1];
    }
  }

  lemma StandsRemoved(q: DispatchQueue, mem: set<object>, l: Lineup, side: Side, n: nat)
    requires Housed(q, mem) && q.Objects() == mem && q.Valid() && n < |l.Of(side)|
    requires q.Orders(side) == l.Of(side)[..n] + l.Of(side)[n + 1..]
             && q.Orders(side.Opposite()) == l.Of(side.Opposite())
    ensures Stands(q, mem, l.With(side, l.Of(side)[..n] + l.Of(side)[n + 1..]))
  {
  }

  lemma StandsSame(q: DispatchQueue, mem: set<object>, l: Lineup)
    requires Housed(q, mem) && q.Objects() == mem && q.Valid() && q.Orders(Request) == l.requests
             && q.Orders(Offer) == l.offers
    ensures Stands(q, mem, l)
  {
  }

  lemma NoneNamed(asset: string, l: Lineup, v: Queue, orders: map<string, WorkOrder>, id: string)
    requires Agrees(asset, l, v, orders)
    requires (forall w | w in l.requests :: w.id != id) && (forall w | w in l.offers :: w.id != id)
    ensures NotIn(v, id)
  {
    forall side: Side, i | 0 <= i < |v.Of(side)|
      ensures v.Of(side)[i].id != id
    {
      assert v.Of(side)[i].id == l.Of(side)[i].id && l.Of(side)[i] in l.Of(side);
    }
  }

  /** A list without one of its orders. */
  lemma ListWithout(asset: string, list: seq<WorkOrder>, orders: map<string, WorkOrder>, n: nat, values: seq<Order>)
    requires Lined(asset, list, orders) && n < |list| && Views(list[..n] + list[n + 1..]) == values
    ensures Lined(asset, list[..n] + list[n + 1..], orders) && Names(list[..n] + list[n + 1..], values)
  {
    hide Views;
    var ws := list[..n] + list[n + 1..];
    forall i | 0 <= i < |ws|
      ensures ws[i].id in orders && orders[ws[i].id] == ws[i] && ws[i].asset == asset
    {
      assert ws[i] == list[if i < n then i else i + 1];
    }
  }

  lemma AgreeWithout(lineups: map<string, Lineup>, queues: map<string, Queue>, orders: map<string, WorkOrder>,
                     asset: string, side: Side, n: nat, values: seq<Order>)
    requires AllAgree(lineups, queues, orders) && asset in queues && asset in lineups
    requires var ws := lineups[asset].Of(side); n < |ws| && Views(ws[..n] + ws[n + 1..]) == values
    ensures var ws := lineups[asset].Of(side);
            AllAgree(lineups[asset := lineups[asset].With(side, ws[..n] + ws[n + 1..])],
                queues[asset := queues[asset].With(side, values)], orders)
  {
    hide Views, Lined, Names;
    assert Agrees(asset, lineups[asset], queues[asset], orders);
    ListWithout(asset, lineups[asset].Of(side), orders, n, values);
    assert Agrees(asset, lineups[asset].With(side, lineups[asset].Of(side)[..n] + lineups[asset].Of(side)[n + 1..]),
           queues[asset].With(side, values), orders);
    hide Agrees;
  }

  /** Where the order found stands: the ledger says the same. */
  lemma FoundOrder(asset: string, l: Lineup, q: Queue, orders: map<string, WorkOrder>, ledger: Ledger, side: Side,
                   n: nat)
    requires Agrees(asset, l, q, orders) && Recorded(orders, ledger) && QueueInv(ledger, asset, q)
    requires n < |l.Of(side)| && DistinctIds(l.Of(side))
    ensures var w := l.Of(side)[n];
            && w.id in ledger && w.id in orders && orders[w.id] == w && w.asset == asset && w.side == side
            && ledger[w.id].now == w.View() && Contains(q.Of(side), w.id)
            && Views(l.Of(side)[..n] + l.Of(side)[n + 1..]) == Without(q.Of(side), w.id)
  {
    hide Views, Without, DistinctIds;
    AgreedViews(asset, l, q, orders, ledger, side);
    RemoveViews(l.Of(side), n);
    assert q.Of(side)[n] == l.Of(side)[n].View();
    assert Lined(asset, l.Of(side), orders);
    assert SideInv(ledger, asset, side, q.Of(side));
  }

  lemma NewOrder(q: DispatchQueue, mem: set<object>, l: Lineup, asset: string, v: Queue,
                 orders: map<string, WorkOrder>, id: string)
    requires Housed(q, mem) && Stands(q, mem, l) && Agrees(asset, l, v, orders) && NotIn(v, id)
    ensures id !in q.index
  {
    assert v.Of(Request) == v.requests && v.Of(Offer) == v.offers;
    assert Indexed(q.index, q.requests.Orders(), q.offers.Orders());
    IndexedFinds(q.index, q.Orders(Request), q.Orders(Offer), id);
    assert forall i | 0 <= i < |l.requests| :: v.Of(Request)[i].id == l.requests[i].id;
    assert forall i | 0 <= i < |l.offers| :: v.Of(Offer)[i].id == l.offers[i].id;
  }

  lemma StandAll(queues: map<string, DispatchQueue>, shelf: map<string, set<object>>, store: set<object>,
                 lineups: map<string, Lineup>, asset: string, l: Lineup)
    requires AllHoused(queues, shelf, store) && OthersStand(queues, shelf, store, lineups, asset) && asset in queues
    requires Stands(queues[asset], shelf[asset], l)
    ensures AllStand(queues, shelf, store, lineups[asset := l])
  {
  }

  lemma SeparateMore(objects: set<object>, books: set<object>, store: set<object>, orders: map<string, WorkOrder>,
                     more: set<object>)
    requires Separate(objects, books, store, orders) && store <= objects && more * objects <= books
    ensures Separate(objects + more, more, store, orders)
  {
  }

  lemma NothingYet()
    ensures AllHoused(map[], map[], {}) && AllStand(map[], map[], {}, map[])
    ensures AllAgree(map[], map[], map[]) && Recorded(map[], map[])
  {
  }

  /** What the engine's memory is meant to be: the registered orders, what stands in each queue and the memory
      it is made of, the memory of all queues, and all memory but the engine object's own. */
  datatype Plan = Plan(orders: map<string, WorkOrder>, lineups: map<string, Lineup>, shelf: map<string, set<object>>,
                       store: set<object>, objects: set<object>)

  /** What a caller learns of a submission. */
  datatype Outcome = Duplicate | Refusal | Done(fills: seq<Fill>)

  /** What a match of the order must give. */
  ghost predicate Expected(s: State, o: Order, m: MatchResult) {
    Ready(s, o) && m == FlatMatch.Match(o, Opposite(s, o)) && Fits(s, o, m)
  }

  /** The complete-or-nothing check stands the order down. */
  ghost predicate Refused(s: State, o: Order)
    requires Ready(s, o)
  {
    o.window == Complete && !D.CanAssignFully(o, Opposite(s, o))
  }

  /** What a registered order within the boundary leads to. */
  ghost predicate Examined(cfg: Config, s: State, o: Order, s': State) {
    var s1 := OpenQueue(s, o.asset);
    var accepted := o.(status := Accepted);
    && o.id in s.ledger
    && if Allowed(cfg, s1, o) then
         var next := Record(s1, OrderAccepted, accepted);
         Ready(next, accepted) && s' == Dispatched(next, accepted)
       else
         s' == Reject(s1, o)
  }

  lemma ExpectedIs(s: State, o: Order, m: MatchResult)
    requires Expected(s, o, m)
    ensures Ready(s, o) && m == FlatMatch.Match(o, Opposite(s, o)) && Fits(s, o, m) && o.asset in s.queues
  {
    hide Order.Validated, QueuesRest;
  }

  lemma SettleIs(s: State, o: Order, m: MatchResult)
    requires Expected(s, o, m)
    ensures Fits(s, o, m) && |m.touched| == |m.fills| && Positive(m.fills)
    ensures var s' := Settle(s, o, m);
            && s'.count == s.count && s'.ledger.Keys == s.ledger.Keys && s'.log == s.log + m.fills
            && s'.events == s.events + MatchEvents(o.id, m.fills, m.touched)
            && s'.book == if m.fills == [] then ApplyFills(s.book, m.fills)
                          else ApplyFills(s.book, m.fills).RepriceAsset(o.asset, m.fills[|m.fills| - 1].rate)
  {
    hide ApplyFills, Touch, Book.RepriceAsset, MatchEvents, Order.Validated, QueuesRest;
  }

  /** What the engine counted, logged and published is what the state says. */
  ghost predicate Reported(known: set<string>, count: nat, log: seq<Fill>, published: seq<Event>, s: State) {
    known == s.ledger.Keys && count == s.count && log == s.log && published == s.events
  }

  lemma ReportedSettled(known: set<string>, count: nat, log: seq<Fill>, published: seq<Event>, s: State, o: Order,
                        m: MatchResult)
    requires Reported(known, count, log, published, s) && Expected(s, o, m)
    ensures Fits(s, o, m) && |m.touched| == |m.fills| && Positive(m.fills)
    ensures Settle(s, o, m).book == if m.fills == [] then ApplyFills(s.book, m.fills)
                                    else ApplyFills(s.book, m.fills).RepriceAsset(o.asset, m.fills[|m.fills| - 1].rate)
    ensures Reported(known, count, log + m.fills, published + MatchEvents(o.id, m.fills, m.touched), Settle(s, o, m))
  {
    hide Expected, Settle, Fits, ApplyFills, MatchEvents, Book.RepriceAsset;
    SettleIs(s, o, m);
  }

  method SetStatus(w: WorkOrder, status: Status, ghost orders: map<string, WorkOrder>, ghost ledger: Ledger)
    requires Recorded(orders, ledger) && w.id in orders && orders[w.id] == w
    modifies w`status
    ensures w.View() == old(w.View()).(status := status)
    ensures Recorded(orders, ledger[w.id := ledger[w.id].(now := w.View())])
  {
    w.status := status;
  }

  class DispatchEngine {
    const cfg: Config
    const matcher: Matcher
    var queues: map<string, DispatchQueue>
    var log: seq<Fill>
    var count: nat
    var known: set<string>
    var published: seq<Event>

    ghost var model: State
    ghost var plan: Plan

    /** The memory of the engine: what stands in the queues, and nothing is shared that should not be. */
    ghost predicate Laid()
      reads this`plan, this`queues, plan.objects
    {
      && this !in plan.objects && plan.store <= plan.objects
      && matcher.manager in plan.objects && matcher.manager in matcher.manager.objects
         && matcher.manager.objects <= plan.objects
      && Separate(plan.objects, matcher.manager.objects, plan.store, plan.orders)
      && AllHoused(queues, plan.shelf, plan.store)
      && matcher.manager.Valid()
      && AllStand(queues, plan.shelf, plan.store, plan.lineups)
    }

    /** Orders, queues and workloads have the given values. */
    ghost predicate Built(ledger: Ledger, values: map<string, Queue>, book: Book)
      reads this`plan, this`queues, plan.objects
    {
      Laid() && Recorded(plan.orders, ledger) && AllAgree(plan.lineups, values, plan.orders)
          && matcher.manager.View() == book
    }

    /** The objects stand for the state `model`. */
    ghost predicate Coupled()
      reads this, plan.objects
    {
      Built(model.ledger, model.queues, model.book) && Reported(known, count, log, published, model)
    }

    /** The engine between operations: its objects stand for a state that some sequence of operations leads to. */
    ghost predicate Valid()
      reads this, plan.objects
    {
      cfg.Valid() && Coupled() && R.Reachable(cfg, model)
    }

    lemma Inv()
      requires Valid()
      ensures I.Inv(model)
    {
      hide I.Inv, R.Reachable, Coupled;
      R.ReachableInv(cfg, model);
    }

    /** The order is one the engine works on, and stands in no queue. */
    ghost predicate Holds(w: WorkOrder)
      reads this
    {
      w.id in plan.orders && plan.orders[w.id] == w && NotQueued(model.queues, w.id)
    }

    constructor (cfg: Config)
      requires cfg.Valid()
      ensures Valid() && model == INITIAL && fresh(plan.objects) && this.cfg == cfg
    {
      hide R.Reachable, WorkloadManager.Valid, AllHoused, AllStand, AllAgree, Recorded;
      this.cfg := cfg;
      matcher := new Matcher();
      queues, log, count, known, published := map[], [], 0, {}, [];
      new;
      model, plan := INITIAL, Plan(map[], map[], map[], {}, matcher.manager.objects);
      OwnsItself(matcher.manager);
      R.InitialReachable(cfg);
      NothingYet();
    }

    /** What it takes to be built, with nothing of it opened. */
    lemma Open(ledger: Ledger, values: map<string, Queue>, book: Book)
      requires Built(ledger, values, book)
      ensures this !in plan.objects && plan.store <= plan.objects && matcher.manager in plan.objects
              && matcher.manager in matcher.manager.objects
      ensures matcher.manager.objects <= plan.objects
              && Separate(plan.objects, matcher.manager.objects, plan.store, plan.orders)
      ensures AllHoused(queues, plan.shelf, plan.store) && matcher.manager.Valid()
              && AllStand(queues, plan.shelf, plan.store, plan.lineups)
      ensures Recorded(plan.orders, ledger) && AllAgree(plan.lineups, values, plan.orders)
              && matcher.manager.View() == book
      ensures queues.Keys == values.Keys == plan.lineups.Keys == plan.shelf.Keys && plan.orders.Keys == ledger.Keys
    {
      hide WorkloadManager.Valid, Stands, Agrees, Housed;
    }

    lemma Build(ledger: Ledger, values: map<string, Queue>, book: Book)
      requires this !in plan.objects && plan.store <= plan.objects && matcher.manager in plan.objects
               && matcher.manager in matcher.manager.objects
      requires matcher.manager.objects <= plan.objects
               && Separate(plan.objects, matcher.manager.objects, plan.store, plan.orders)
      requires AllHoused(queues, plan.shelf, plan.store) && matcher.manager.Valid()
               && AllStand(queues, plan.shelf, plan.store, plan.lineups)
      requires Recorded(plan.orders, ledger) && AllAgree(plan.lineups, values, plan.orders)
               && matcher.manager.View() == book
      ensures Built(ledger, values, book)
    {
      hide WorkloadManager.Valid, AllHoused, AllStand, AllAgree, Separate, Recorded;
    }

    /** Sets the status of an order and publishes the event that tells so. */
    method Announce(w: WorkOrder, kind: Kind, status: Status)
      requires Coupled() && Holds(w)
      modifies this`published, this`model, w`status
      ensures Coupled() && Holds(w) && w.View() == old(w.View()).(status := status)
      ensures model == Record(old(model), kind, w.View())
    {
      hide Built, WorkloadManager.Valid, AllHoused, AllStand, AllAgree, NotQueued, Recorded;
      Open(model.ledger, model.queues, model.book);
      SetStatus(w, status, plan.orders, model.ledger);
      published := published + [WorkOrderEvent(kind, w.id, w.status, w.assignedHours)];
      model := Record(model, kind, w.View());
      Build(model.ledger, model.queues, model.book);
    }

    /** Takes the id of a new order for ever, counts it and publishes its submission. */
    method Register(w: WorkOrder)
      requires Coupled() && w.id !in known && w !in plan.objects
      modifies this`known, this`count, this`published, this`model, this`plan
      ensures Coupled() && model == D.Enter(old(model), w.View())
      ensures plan.orders == old(plan.orders)[w.id := w] && plan.objects == old(plan.objects) + {w}
    {
      hide Built, AllHoused, AllStand, AllAgree, Separate, Recorded, WorkloadManager.Valid;
      Open(model.ledger, model.queues, model.book);
      Grown(plan.objects, matcher.manager.objects, plan.store, plan.orders, model.ledger, w, model.count);
      known := known + {w.id};
      count := count + 1;
      published := published + [WorkOrderEvent(OrderSubmitted, w.id, w.status, w.assignedHours)];
      AgreeGrown(plan.lineups, model.queues, plan.orders, w);
      model, plan := D.Enter(model, w.View()), plan.(orders := plan.orders[w.id := w], objects := plan.objects + {w});
      Build(model.ledger, model.queues, model.book);
    }

    /** The queue of the asset, opened on first use. */
    method GetOrCreateQueue(asset: string) returns (q: DispatchQueue)
      requires Coupled()
      modifies this`queues, this`plan, this`model
      ensures Coupled() && model == OpenQueue(old(model), asset)
      ensures asset in queues && q == queues[asset] && fresh(plan.objects - old(plan.objects))
              && plan.orders == old(plan.orders)
    {
      hide Built, AllHoused, AllStand, AllAgree, Stands, Separate, Recorded, WorkloadManager.Valid,
           DispatchQueue.Valid, DispatchQueue.Objects, OpenQueue;
      Open(model.ledger, model.queues, model.book);
      OpenQueueIs(model, asset);
      if asset !in queues {
        q := new DispatchQueue(asset);
        Shelve(asset, q);
      }
      q := queues[asset];
    }

    /** A new, empty queue takes its place. */
    method Shelve(asset: string, q: DispatchQueue)
      requires Coupled() && asset !in queues && q.Valid() && q.Objects() !! plan.objects && this !in q.Objects()
      requires q.Orders(Request) == [] && q.Orders(Offer) == []
      modifies this`queues, this`plan, this`model
      ensures Coupled() && model == OpenQueue(old(model), asset) && queues == old(queues)[asset := q]
      ensures plan.orders == old(plan.orders) && plan.objects == old(plan.objects) + q.Objects()
    {
      hide Built, AllHoused, AllStand, AllAgree, Stands, Separate, Recorded, WorkloadManager.Valid,
           DispatchQueue.Valid, DispatchQueue.Objects, OpenQueue;
      Open(model.ledger, model.queues, model.book);
      OpenQueueIs(model, asset);
      Housing(q);
      AgreeOpened(plan.lineups, model.queues, plan.orders, asset);
      Opened(plan.objects, matcher.manager.objects, plan.store, plan.orders, q.Objects());
      HousedGrown(queues, plan.shelf, plan.store, asset, q, q.Objects());
      StandGrown(queues, plan.shelf, plan.store, plan.lineups, asset, q, q.Objects(), Lineup([], []));
      queues := queues[asset := q];
      plan := Plan(plan.orders, plan.lineups[asset := Lineup([], [])], plan.shelf[asset := q.Objects()],
                   plan.store + q.Objects(), plan.objects + q.Objects());
      model := OpenQueue(model, asset);
      Build(model.ledger, model.queues, model.book);
    }

    /** What matching asks of the memory. */
    lemma MatchApart(w: WorkOrder, o: Order)
      requires Coupled() && Holds(w) && o == w.View() && Ready(model, o) && QueuesInv(model.ledger, model.queues)
      ensures o.asset in queues && o.asset in plan.lineups
      ensures var q := queues[o.asset]; var ws := plan.lineups[o.asset].Of(o.side.Opposite());
              && q.Valid() && q.Orders(o.side.Opposite()) == ws && DistinctIds(ws)
              && matcher.Apart(w, q, ws) && Views(ws) == Opposite(model, o) && Resting(o.side.Opposite(), Views(ws))
    {
      hide Built, Recorded, AllHoused, AllStand, AllAgree, Stands, Agrees, Lineup.Of, QueuesInv, QueueInv, Resting,
           NotIn, Views;
      hide WorkloadManager.Valid, DispatchQueue.Valid, DispatchQueue.Objects, DispatchQueue.Orders, QueuesRest,
           DistinctIds, Order.Validated;
      Open(model.ledger, model.queues, model.book);
      var side := o.side.Opposite();
      StandsOne(queues, plan.shelf, plan.store, plan.lineups, o.asset);
      StandsOrders(queues[o.asset], plan.shelf[o.asset], plan.lineups[o.asset], side);
      AgreesOne(plan.lineups, model.queues, plan.orders, o.asset);
      LinedApart(o.asset, plan.lineups[o.asset], model.queues[o.asset], plan.orders, side, w);
      RestsOne(model, model.ledger, o.asset, side);
      AgreedViews(o.asset, plan.lineups[o.asset], model.queues[o.asset], plan.orders, model.ledger, side);
    }

    /** All that a match relies on, and all that it must leave alone. */
    lemma MatchStage(w: WorkOrder, q: DispatchQueue, o: Order, m: MatchResult)
      requires Coupled() && Holds(w) && o == w.View() && Expected(model, o, m) && QueuesInv(model.ledger, model.queues)
      requires o.asset in queues && q == queues[o.asset] && o.asset in plan.lineups
      ensures var l := plan.lineups[o.asset]; var ws := l.Of(o.side.Opposite());
              && matcher.manager.Valid() && matcher.manager.View() == model.book && q.Valid()
                 && matcher.Apart(w, q, ws) && DistinctIds(ws)
              && o.Validated() && ws == q.Orders(o.side.Opposite()) && q.Orders(o.side) == l.Of(o.side)
              && Resting(o.side.Opposite(), Views(ws)) && m == FlatMatch.Match(o, Views(ws))
              && (forall v | v in ws :: v in plan.objects && v.id in plan.orders && plan.orders[v.id] == v)
      ensures this !in plan.objects && queues.Keys == plan.shelf.Keys == plan.lineups.Keys
              && AllHoused(queues, plan.shelf, plan.store)
      ensures Housed(q, plan.shelf[o.asset]) && q.Objects() == plan.shelf[o.asset]
              && plan.shelf[o.asset] <= plan.objects
      ensures w in plan.objects && w.id in plan.orders && plan.orders[w.id] == w
              && matcher.manager.objects <= plan.objects
      ensures forall a | a in queues && a != o.asset ::
                Housed(queues[a], plan.shelf[a]) && Stands(queues[a], plan.shelf[a], plan.lineups[a])
      ensures forall a, x | a in queues && a != o.asset && x in plan.shelf[a] ::
                x != w && x !in plan.lineups[o.asset].Of(o.side.Opposite()) && x !in plan.shelf[o.asset]
                    && x !in matcher.manager.objects
      ensures forall id | id in plan.orders ::
                && plan.orders[id].id == id && plan.orders[id].View() == model.ledger[id].now
                && plan.orders[id] !in matcher.manager.objects && plan.orders[id] !in plan.store
      ensures plan.shelf[o.asset] <= plan.store && plan.orders.Keys == model.ledger.Keys
    {
      hide Expected, Built, Recorded, AllHoused, AllStand, AllAgree, Stands, Agrees, QueuesInv, Resting, NotIn,
           Views, QueuesRest;
      hide WorkloadManager.Valid, DispatchQueue.Valid, DistinctIds, Order.Validated, ApplyFills, FlatMatch.Match;
      ExpectedIs(model, o, m);
      MatchApart(w, o);
      Open(model.ledger, model.queues, model.book);
      var l := plan.lineups[o.asset];
      var side := o.side.Opposite();
      StandsOne(queues, plan.shelf, plan.store, plan.lineups, o.asset);
      StandsOrders(q, plan.shelf[o.asset], l, o.side);
      assert forall v | v in l.Of(side) :: v in plan.objects && v.id in plan.orders && plan.orders[v.id] == v by {
        AgreesOne(plan.lineups, model.queues, plan.orders, o.asset);
        LinedApart(o.asset, l, model.queues[o.asset], plan.orders, side, w);
      }
      StandsApart(queues, plan.shelf, plan.store, plan.lineups, o.asset);
      RecordedNow(plan.orders, model.ledger);
      OthersApart(plan.objects, matcher.manager.objects, plan.store, plan.orders, plan.shelf, o.asset, l.Of(side), w);
    }

    /** The matching loop, and what it leaves of the engine's objects. */
    method MatchObjects(w: WorkOrder, q: DispatchQueue, ghost o: Order, ghost m: MatchResult)
                        returns (fills: seq<Fill>, touched: seq<WorkOrder>, ghost n: nat)
      requires Coupled() && Holds(w) && o == w.View() && Expected(model, o, m) && QueuesInv(model.ledger, model.queues)
      requires o.asset in queues && q == queues[o.asset] && o.asset in plan.lineups
      modifies plan.objects
      ensures && fills == m.fills && |touched| == |fills| && Views(touched) == m.touched && w.View() == m.incoming
              && n <= |plan.lineups[o.asset].Of(o.side.Opposite())|
                 && Views(plan.lineups[o.asset].Of(o.side.Opposite())[n..]) == m.rest
      ensures |touched| <= |plan.lineups[o.asset].Of(o.side.Opposite())|
              && touched == plan.lineups[o.asset].Of(o.side.Opposite())[..|touched|]
      ensures Positive(fills) && matcher.manager.Valid() && matcher.manager.View() == ApplyFills(model.book, fills)
      ensures fresh(matcher.manager.objects - old(matcher.manager.objects))
      ensures AllHoused(queues, plan.shelf, plan.store)
              && OthersStand(queues, plan.shelf, plan.store, plan.lineups, o.asset)
      ensures Stands(q, plan.shelf[o.asset],
              plan.lineups[o.asset].With(o.side.Opposite(), plan.lineups[o.asset].Of(o.side.Opposite())[n..]))
      ensures forall id | id in plan.orders ::
        plan.orders[id].id == id
            && (plan.orders[id] == w || plan.orders[id] in touched || plan.orders[id].View() == model.ledger[id].now)
    {
      hide Coupled, Holds, Expected, AllHoused, Stands, Housed, QueuesInv, Resting, Views, DistinctIds, Matcher.Apart;
      hide WorkloadManager.Valid, DispatchQueue.Valid, DispatchQueue.Orders, Order.Validated, ApplyFills,
           FlatMatch.Match;
      MatchStage(w, q, o, m);
      ghost var l := plan.lineups[o.asset];
      ghost var side := o.side.Opposite();
      fills, touched := matcher.Match(w, q, o, l.Of(side));
      forall id | id in plan.orders
        ensures plan.orders[id].id == id
                && (plan.orders[id] == w || plan.orders[id] in touched
                || plan.orders[id].View() == model.ledger[id].now)
      {
        if plan.orders[id] in l.Of(side) {
          var i :| 0 <= i < |l.Of(side)| && l.Of(side)[i] == plan.orders[id];
          assert i < |touched| ==> touched[i] == plan.orders[id];
        }
      }
      assert forall a | a in queues && a != o.asset :: Stands(queues[a], plan.shelf[a], plan.lineups[a]);
      n := |l.Of(side)| - |q.Orders(side)|;
      StandsWith(q, plan.shelf[o.asset], l, side, n);
    }

    /** After a match the objects fit the settled state and a new plan. */
    lemma MatchedPlan(w: WorkOrder, o: Order, m: MatchResult, settled: State, touched: seq<WorkOrder>, n: nat)
      requires Expected(model, o, m) && settled == Settle(model, o, m) && Holds(w) && o.id == w.id
      requires AllAgree(plan.lineups, model.queues, plan.orders) && plan.orders.Keys == model.ledger.Keys
      requires o.asset in plan.lineups && o.asset in queues && plan.lineups.Keys == queues.Keys
      requires var ws := plan.lineups[o.asset].Of(o.side.Opposite());
               && DistinctIds(ws) && |touched| <= |ws| && touched == ws[..|touched|] && n <= |ws|
                  && Views(ws[n..]) == m.rest
      requires Views(touched) == m.touched && w.View() == m.incoming
      requires forall id | id in plan.orders ::
        plan.orders[id].id == id
            && (plan.orders[id] == w || plan.orders[id] in touched || plan.orders[id].View() == model.ledger[id].now)
      requires AllHoused(queues, plan.shelf, plan.store)
               && OthersStand(queues, plan.shelf, plan.store, plan.lineups, o.asset)
      requires Stands(queues[o.asset], plan.shelf[o.asset],
               plan.lineups[o.asset].With(o.side.Opposite(), plan.lineups[o.asset].Of(o.side.Opposite())[n..]))
      ensures Recorded(plan.orders, settled.ledger)
      ensures var lineups := plan.lineups[o.asset := plan.lineups[o.asset].With(o.side.Opposite(),
              plan.lineups[o.asset].Of(o.side.Opposite())[n..])];
              AllAgree(lineups, settled.queues, plan.orders) && AllStand(queues, plan.shelf, plan.store, lineups)
    {
      hide Expected, Recorded, AllHoused, AllStand, OthersStand, AllAgree, Stands, NotQueued, Views, DistinctIds,
           ApplyFills, Touch, MatchEvents;
      ExpectedIs(model, o, m);
      var side := o.side.Opposite();
      var l := plan.lineups[o.asset];
      TouchedRegistered(plan.lineups, model.queues, plan.orders, o.asset, side, w, touched);
      RecordedMatched(plan.orders, model.ledger, touched, w, m);
      AgreeMatched(plan.lineups, model.queues, plan.orders, o.asset, side, n, m.rest);
      StandAll(queues, plan.shelf, plan.store, plan.lineups, o.asset, l.With(side, l.Of(side)[n..]));
    }

    /** The matching loop, seen from the whole engine. */
    method RunMatch(w: WorkOrder, q: DispatchQueue, ghost o: Order, ghost m: MatchResult, ghost settled: State)
                    returns (fills: seq<Fill>, touched: seq<WorkOrder>)
      requires Coupled() && Holds(w) && o == w.View() && Expected(model, o, m) && QueuesInv(model.ledger, model.queues)
      requires o.asset in queues && q == queues[o.asset] && settled == Settle(model, o, m)
      modifies this`plan, plan.objects
      ensures fills == m.fills && |touched| == |fills| && Views(touched) == m.touched && w.View() == m.incoming
      ensures Positive(fills) && Built(settled.ledger, settled.queues, ApplyFills(model.book, fills))
      ensures model == old(model) && known == old(known) && count == old(count) && log == old(log)
              && published == old(published)
      ensures plan.orders == old(plan.orders) && fresh(plan.objects - old(plan.objects))
    {
      hide Expected, Built, Recorded, AllHoused, AllStand, OthersStand, AllAgree, Stands, Agrees, Separate,
           QueuesInv, Resting, NotQueued, Views, QueuesRest;
      hide WorkloadManager.Valid, DispatchQueue.Valid, DispatchQueue.Objects, DispatchQueue.Orders, DistinctIds,
           Order.Validated, ApplyFills, Settle, FlatMatch.Match;
      ExpectedIs(model, o, m);
      Open(model.ledger, model.queues, model.book);
      ghost var books := matcher.manager.objects;
      StandsOne(queues, plan.shelf, plan.store, plan.lineups, o.asset);
      StandsOrders(q, plan.shelf[o.asset], plan.lineups[o.asset], o.side.Opposite());
      ghost var n;
      fills, touched, n := MatchObjects(w, q, o, m);
      MatchedPlan(w, o, m, settled, touched, n);
      Replan(o, settled, n, books, ApplyFills(model.book, fills));
    }

    /** The plan catches up with what the match did to the objects. */
    ghost method Replan(o: Order, settled: State, n: nat, books: set<object>, book: Book)
      requires this !in plan.objects && plan.store <= plan.objects && matcher.manager in plan.objects
      requires Separate(plan.objects, books, plan.store, plan.orders) && matcher.manager.objects * plan.objects <= books
      requires o.asset in plan.lineups && n <= |plan.lineups[o.asset].Of(o.side.Opposite())|
      requires AllHoused(queues, plan.shelf, plan.store) && matcher.manager.Valid() && matcher.manager.View() == book
      requires this !in matcher.manager.objects && Recorded(plan.orders, settled.ledger)
      requires var lineups := plan.lineups[o.asset := plan.lineups[o.asset].With(o.side.Opposite(),
               plan.lineups[o.asset].Of(o.side.Opposite())[n..])];
               AllAgree(lineups, settled.queues, plan.orders) && AllStand(queues, plan.shelf, plan.store, lineups)
      modifies this`plan
      ensures Built(settled.ledger, settled.queues, book)
      ensures plan.orders == old(plan.orders) && plan.objects == old(plan.objects) + matcher.manager.objects
    {
      hide Built, Recorded, AllHoused, AllStand, AllAgree, Separate, WorkloadManager.Valid;
      var l := plan.lineups[o.asset];
      SeparateMore(plan.objects, books, plan.store, plan.orders, matcher.manager.objects);
      plan := plan.(lineups := plan.lineups[o.asset := l.With(o.side.Opposite(), l.Of(o.side.Opposite())[n..])],
                    objects := plan.objects + matcher.manager.objects);
      OwnsItself(matcher.manager);
      Build(settled.ledger, settled.queues, book);
    }

    lemma NoEvents(id: string)
      ensures MatchEvents(id, [], []) == []
    {
    }

    lemma NextEvents(id: string, fills: seq<Fill>, touched: seq<Order>, i: nat)
      requires i < |fills| == |touched|
      ensures MatchEvents(id, fills[..i + 1], touched[..i + 1])
              == MatchEvents(id, fills[..i], touched[..i]) + FillEvents(id, fills[i], touched[i])
    {
      assert fills[..i + 1][..i] == fills[..i] && touched[..i + 1][..i] == touched[..i];
    }

    /** Logs each assignment and publishes it, with the event of the resting order it touched. */
    method LogAndPublish(id: string, fills: seq<Fill>, touched: seq<WorkOrder>, ghost settled: State, ghost book: Book)
      requires |fills| == |touched| && Built(settled.ledger, settled.queues, book)
      modifies this`log, this`published, this`model
      ensures log == old(log) + fills && published == old(published) + MatchEvents(id, fills, old(Views(touched)))
      ensures Built(settled.ledger, settled.queues, book) && model == settled && this !in plan.objects
    {
      hide Views, Built, Recorded, AllHoused, AllStand, AllAgree, Separate, WorkloadManager.Valid, MatchEvents;
      NoEvents(id);
      Open(settled.ledger, settled.queues, book);
      model := settled;
      for i := 0 to |fills|
        invariant log == old(log) + fills[..i] && model == settled
        invariant published == old(published) + MatchEvents(id, fills[..i], Views(touched)[..i])
      {
        var kind := if touched[i].assignedHours >= touched[i].requestedHours then OrderAssigned
            else OrderPartiallyAssigned;
        log := log + [fills[i]];
        published := published + [AssignmentExecuted(id, fills[i]), WorkloadUpdated(id, fills[i]),
                                  WorkOrderEvent(kind, touched[i].id, touched[i].status, touched[i].assignedHours)];
        NextEvents(id, fills, Views(touched), i);
        assert fills[..i + 1] == fills[..i] + [fills[i]];
      }
      assert fills[..|fills|] == fills && Views(touched)[..|fills|] == Views(touched);
      Build(settled.ledger, settled.queues, book);
    }

    /** Marks the workloads of an asset at the rate of the last assignment, if there was one. */
    method MarkLast(asset: string, fills: seq<Fill>, ghost settled: State, ghost book: Book)
      requires Built(settled.ledger, settled.queues, book) && model == settled
      requires settled.book == if fills == [] then book else book.RepriceAsset(asset, fills[|fills| - 1].rate)
      modifies plan.objects
      ensures Built(model.ledger, model.queues, model.book)
      ensures model == settled && plan == old(plan) && known == old(known) && count == old(count) && log == old(log)
              && published == old(published)
    {
      hide Built, Recorded, AllHoused, AllStand, AllAgree, WorkloadManager.Valid, Book.RepriceAsset;
      Open(settled.ledger, settled.queues, book);
      if fills == [] {
        return;
      }
      matcher.manager.RepriceAsset(asset, fills[|fills| - 1].rate);
      OwnsItself(matcher.manager);
      Build(settled.ledger, settled.queues, settled.book);
    }

    /** The match, its place in the log, its events and the new mark. */
    method MatchAndBook(w: WorkOrder, q: DispatchQueue, ghost o: Order, ghost m: MatchResult, ghost settled: State)
                        returns (fills: seq<Fill>)
      requires Coupled() && Holds(w) && o == w.View() && Expected(model, o, m) && QueuesInv(model.ledger, model.queues)
      requires o.asset in queues && q == queues[o.asset] && settled == Settle(model, o, m)
      modifies this`plan, this`log, this`published, this`model, plan.objects
      ensures Coupled() && model == settled && fills == m.fills && log == old(log) + fills
      ensures plan.orders == old(plan.orders) && fresh(plan.objects - old(plan.objects))
    {
      hide Expected, Settle, Fits, Built, Reported, NotQueued, QueuesInv, Views, ApplyFills, Book.RepriceAsset,
           FlatMatch.Match, MatchEvents, Positive, Holds;
      ReportedSettled(known, count, log, published, model, o, m);
      var touched;
      fills, touched := RunMatch(w, q, o, m, settled);
      ghost var book := ApplyFills(model.book, fills);
      LogAndPublish(w.id, fills, touched, settled, book);
      MarkLast(w.asset, fills, settled, book);
    }

    /** A residual takes its place in the queue, and what that leaves of the engine's objects. */
    method RestObjects(w: WorkOrder, q: DispatchQueue) returns (ghost n: nat)
      requires Coupled() && Holds(w) && w.cap.Some? && QueuesInv(model.ledger, model.queues)
      requires w.asset in queues && q == queues[w.asset] && w.asset in plan.lineups && w.asset in model.queues
      modifies q.Objects()
      ensures fresh(q.Objects() - old(q.Objects())) && old(q.Objects()) == plan.shelf[w.asset]
      ensures AllHoused(queues, plan.shelf, plan.store)
              && OthersStand(queues, plan.shelf, plan.store, plan.lineups, w.asset)
      ensures Recorded(plan.orders, model.ledger) && matcher.manager.Valid()
              && matcher.manager.objects == old(matcher.manager.objects)
      ensures matcher.manager.View() == model.book
      ensures n <= |plan.lineups[w.asset].Of(w.side)| && Housed(q, q.Objects())
      ensures var ws := plan.lineups[w.asset].Of(w.side);
              && Stands(q, q.Objects(), plan.lineups[w.asset].With(w.side, ws[..n] + [w] + ws[n..]))
              && Views(ws[..n] + [w] + ws[n..]) == Insert(w.side, model.queues[w.asset].Of(w.side), w.View())
    {
      hide Built, Recorded, AllHoused, AllStand, AllAgree, Stands, Agrees, QueuesInv, NotIn, Views;
      hide WorkloadManager.Valid, DispatchQueue.Valid, DistinctIds, Insert, OthersStand, NotQueued, QueueInv;
      Open(model.ledger, model.queues, model.book);
      ghost var l := plan.lineups[w.asset];
      StandsOne(queues, plan.shelf, plan.store, plan.lineups, w.asset);
      AgreesOne(plan.lineups, model.queues, plan.orders, w.asset);
      StandsOrders(q, plan.shelf[w.asset], l, w.side);
      StandsOrders(q, plan.shelf[w.asset], l, w.side.Opposite());
      StandsApart(queues, plan.shelf, plan.store, plan.lineups, w.asset);
      RestsOne(model, model.ledger, w.asset, w.side);
      AgreedViews(w.asset, l, model.queues[w.asset], plan.orders, model.ledger, w.side);
      ghost var before := Views(l.Of(w.side));
      assert NotIn(model.queues[w.asset], w.id) by {
        NotQueuedIn(model.queues, w.asset, w.id);
      }
      NewOrder(q, plan.shelf[w.asset], l, w.asset, model.queues[w.asset], plan.orders, w.id);
      LinedApart(w.asset, l, model.queues[w.asset], plan.orders, w.side, w);
      assert forall v | v in l.Of(w.side) :: v !in q.Objects();
      var ok;
      ok, n := q.AddWorkOrder(w);
      assert Views(l.Of(w.side)) == before;
      OthersStay(queues, plan.shelf, plan.store, plan.lineups, w.asset);
      InsertViews(w.side, l.Of(w.side), w, n);
      StandsInserted(q, l, w, n);
    }

    /** The residual joins the queue. */
    method JoinQueue(w: WorkOrder, q: DispatchQueue, ghost o: Order)
      requires Coupled() && Holds(w) && o == w.View() && w.cap.Some? && QueuesInv(model.ledger, model.queues)
      requires w.asset in queues && q == queues[w.asset] && w.asset in model.queues
      modifies this`plan, this`model, plan.objects
      ensures Coupled() && model == Steps.Rest(old(model), o) && log == old(log)
      ensures plan.orders == old(plan.orders) && fresh(plan.objects - old(plan.objects))
    {
      hide Built, Recorded, AllHoused, AllStand, OthersStand, AllAgree, Stands, Separate, QueuesInv, NotQueued,
           Views, Insert;
      hide WorkloadManager.Valid, DispatchQueue.Valid, DispatchQueue.Objects;
      Open(model.ledger, model.queues, model.book);
      ghost var asset, side := w.asset, w.side;
      ghost var l := plan.lineups[asset];
      StandsOne(queues, plan.shelf, plan.store, plan.lineups, asset);
      StandsOrders(q, plan.shelf[asset], l, side);
      ghost var n := RestObjects(w, q);
      ghost var mem, ws := q.Objects(), l.Of(side)[..n] + [w] + l.Of(side)[n..];
      HousedAnew(queues, plan.shelf, plan.store, plan.objects, asset, mem);
      StandAnew(queues, plan.shelf, plan.store, plan.lineups, asset, mem, l.With(side, ws));
      SeparateStore(plan.objects, matcher.manager.objects, plan.store, plan.orders, mem);
      AgreeInserted(plan.lineups, model.queues, plan.orders, w, n, Views(ws));
      plan := Plan(plan.orders, plan.lineups[asset := l.With(side, ws)], plan.shelf[asset := mem], plan.store + mem,
          plan.objects + mem);
      model := Steps.Rest(model, o);
      Build(model.ledger, model.queues, model.book);
    }

    /** `_finalise`: what becomes of the order after the match. */
    method Finalise(w: WorkOrder, q: DispatchQueue, ghost o: Order, matched: bool)
      requires Coupled() && Holds(w) && o == w.View() && Ready(model, o) && QueuesInv(model.ledger, model.queues)
      requires w.asset in queues && q == queues[w.asset]
      modifies this`plan, this`published, this`model, w, plan.objects
      ensures Coupled() && model == D.Finalise(old(model), o, matched) && log == old(log)
      ensures plan.orders == old(plan.orders) && fresh(plan.objects - old(plan.objects))
      ensures w.View() == o.(status := if o.assignedHours == o.requestedHours then Assigned
                                       else if o.mode != RateCapped || o.window != Window.Open then Cancelled
                                       else if matched then PartiallyAssigned else o.status)
    {
      hide Coupled, QueuesInv, NotQueued, QueuesRest, Insert;
      if w.assignedHours >= w.requestedHours {
        Announce(w, OrderAssigned, Assigned);
        return;
      }
      if matched {
        I.RecordQueues(model.ledger, model.queues, o.(status := PartiallyAssigned));
        Announce(w, OrderPartiallyAssigned, PartiallyAssigned);
      }
      if w.mode == RateCapped && w.window == Window.Open {
        RecordedAs(w);
        JoinQueue(w, q, w.View());
        RecordedAs(w);
      } else {
        Announce(w, OrderCancelled, Cancelled);
      }
    }

    lemma AtWorkFacts(o: Order)
      requires Steps.AtWork(model, o, IsAccepted)
      ensures Ready(model, o) && QueuesInv(model.ledger, model.queues) && NotQueued(model.queues, o.id)
    {
      Steps.AtWorkReady(model, o, IsAccepted);
    }

    /** What a match must give, and the state it leads to. */
    lemma Expecting(o: Order) returns (m: MatchResult, settled: State)
      requires Steps.AtWork(model, o, IsAccepted)
      ensures Ready(model, o) && Expected(model, o, m) && settled == Settle(model, o, m)
      ensures Ready(settled, m.incoming) && m.incoming.id == o.id && m.incoming.asset == o.asset
      ensures QueuesInv(settled.ledger, settled.queues) && NotQueued(settled.queues, o.id)
              && settled.ledger[o.id].now == m.incoming
      ensures !Refused(model, o) ==> Dispatched(model, o) == D.Finalise(settled, m.incoming, m.fills != [])
    {
      hide Settle, Match, I.Core, QueuesRest, D.Finalise, D.CanAssignFully, Order.Validated;
      AtWorkFacts(o);
      MatchFits(model, o);
      m := Match(o, Opposite(model, o));
      settled := Settle(model, o, m);
      Steps.SettleWorks(model, o, IsAccepted);
      SettleReady(model, o, m);
      AtWorkSettled(settled, m.incoming);
    }

    lemma AtWorkSettled(s: State, o: Order)
      requires Steps.AtWork(s, o, IsAccepted)
      ensures QueuesInv(s.ledger, s.queues) && NotQueued(s.queues, o.id) && o.id in s.ledger && s.ledger[o.id].now == o
    {
    }

    /** A complete-or-nothing order goes on only if it can be assigned completely. */
    method MayDispatch(w: WorkOrder, q: DispatchQueue, ghost o: Order) returns (yes: bool)
      requires Coupled() && Holds(w) && o == w.View() && Ready(model, o) && QueuesInv(model.ledger, model.queues)
      requires w.asset in queues && q == queues[w.asset]
      ensures yes == !Refused(model, o)
    {
      hide Coupled, Holds, QueuesInv, QueuesRest, Order.Validated, D.CanAssignFully, Dispatched, Resting;
      MatchApart(w, o);
      yes := true;
      if w.window == Complete {
        yes := matcher.CanAssignFully(w, q);
      }
    }

    /** The fields of an order the engine knows are those of its record. */
    lemma RecordedAs(w: WorkOrder)
      requires Coupled() && w.id in plan.orders && plan.orders[w.id] == w
      ensures w.id in model.ledger && w.View() == model.ledger[w.id].now
    {
      hide Stands, WorkloadManager.Valid, Agrees, Housed, AllHoused, AllStand, AllAgree, Separate;
    }

    lemma HeldIn(w: WorkOrder)
      requires Coupled() && Holds(w)
      ensures w in plan.objects && this !in plan.objects && queues.Keys == model.queues.Keys
      ensures w.id in model.ledger && w.View() == model.ledger[w.id].now
    {
      hide Stands, WorkloadManager.Valid, Housed, Agrees, QueueInv, NotQueued;
    }

    /** The complete-or-nothing check, the match and the residual of an admitted order. */
    method Dispatch(w: WorkOrder, q: DispatchQueue, ghost o: Order) returns (fills: seq<Fill>)
      requires Coupled() && Holds(w) && o == w.View() && Steps.AtWork(model, o, IsAccepted) && Ready(model, o)
      requires w.asset in queues && q == queues[w.asset]
      modifies this`plan, this`log, this`published, this`model, plan.objects
      ensures Coupled() && model == Dispatched(old(model), o)
      ensures log == old(log) + fills
      ensures plan.orders == old(plan.orders) && fresh(plan.objects - old(plan.objects))
    {
      hide Coupled, QueuesInv, NotQueued, Ready, Expected, Dispatched, D.Finalise, Settle, Steps.AtWork, Record;
      AtWorkFacts(o);
      HeldIn(w);
      var yes := MayDispatch(w, q, o);
      if !yes {
        FK.RefusedWhole(model, o);
        Announce(w, OrderCancelled, Cancelled);
        return [];
      }
      ghost var m, settled := Expecting(o);
      fills := MatchAndBook(w, q, o, m, settled);
      HeldIn(w);
      Finalise(w, q, m.incoming, fills != []);
    }

    /** An order that passed every check is accepted and dispatched. */
    method Admit(w: WorkOrder, q: DispatchQueue, ghost o: Order, ghost next: State) returns (fills: seq<Fill>)
      requires Coupled() && Holds(w) && o == w.View() && w.asset in queues && q == queues[w.asset]
      requires next == Record(model, OrderAccepted, o.(status := Accepted))
      requires Steps.AtWork(next, o.(status := Accepted), IsAccepted) && Ready(next, o.(status := Accepted))
      modifies this`plan, this`log, this`published, this`model, plan.objects
      ensures Coupled() && model == Dispatched(next, o.(status := Accepted)) && log == old(log) + fills
      ensures plan.orders == old(plan.orders) && fresh(plan.objects - old(plan.objects))
    {
      hide Coupled, Steps.AtWork, Ready, Dispatched, Record, NotQueued;
      HeldIn(w);
      Announce(w, OrderAccepted, Accepted);
      fills := Dispatch(w, q, o.(status := Accepted));
    }

    /** The order the engine works on after it was registered. */
    lemma Registered(w: WorkOrder, s: State, o: Order)
      requires I.Inv(s) && o.Validated() && o.id !in s.ledger && model == D.Enter(s, o) && o.id == w.id
      requires w.id in plan.orders && plan.orders[w.id] == w
      ensures Holds(w) && I.Working(model, o.id, IsSubmitted) && I.Latest(model.ledger, o.id)
              && model.ledger[o.id].now == o
    {
      hide I.Inv, I.Core, I.OthersSettled;
      I.EnterWorks(s, o);
    }

    lemma KnownIs()
      requires Coupled()
      ensures known == model.ledger.Keys && this !in plan.objects && queues.Keys == model.queues.Keys
      ensures matcher.manager.Valid() && matcher.manager.View() == model.book
    {
      hide Recorded, Stands, WorkloadManager.Valid, Agrees, Housed;
    }

    /** The optional pre-dispatch check, on the order and on its organization's workload if there is one. */
    method IsAllowed(w: WorkOrder, ghost o: Order) returns (yes: bool)
      requires Coupled() && o == w.View()
      ensures yes == Allowed(cfg, model, o)
    {
      hide Coupled, WorkloadManager.Valid;
      KnownIs();
      yes := true;
      if cfg.check.Some? {
        var load := matcher.manager.PeekWorkload(Key(w.org, w.asset));
        yes := cfg.check.value(w.View(), load);
      }
    }

    /** The queue of a registered order, and what it means for the order. */
    lemma QueueOpened(w: WorkOrder, s: State, o: Order)
      requires I.Working(s, o.id, IsSubmitted) && I.Latest(s.ledger, o.id) && s.ledger[o.id].now == o && o.id == w.id
      requires model == OpenQueue(s, o.asset) && w.id in plan.orders && plan.orders[w.id] == w
      ensures Holds(w) && o.asset in model.queues
      ensures var accepted := o.(status := Accepted); var next := Record(model, OrderAccepted, accepted);
              Steps.AtWork(next, accepted, IsAccepted) && Ready(next, accepted)
    {
      hide I.Core, I.OthersSettled, Steps.AtWork, Ready;
      I.OpenQueueWorks(s, o.asset, o.id, IsSubmitted);
      R.AdmittedAtWork(model, o);
    }

    /** A registered order that is within the boundary: check, acceptance, dispatch. */
    method Examine(w: WorkOrder, ghost s: State, ghost o: Order) returns (r: Outcome)
      requires Coupled() && w.id in plan.orders && plan.orders[w.id] == w && o == w.View() && model == s
      requires I.Working(s, o.id, IsSubmitted) && I.Latest(s.ledger, o.id) && s.ledger[o.id].now == o
      modifies this`queues, this`plan, this`log, this`published, this`model, plan.objects
      ensures Coupled() && fresh(plan.objects - old(plan.objects)) && r != Duplicate
      ensures log == old(log) + (if r.Done? then r.fills else [])
      ensures Examined(cfg, s, o, model) && plan.orders == old(plan.orders)
      ensures r == Refusal <==> !Allowed(cfg, OpenQueue(s, o.asset), o)
    {
      hide Coupled, I.Working, I.Latest, Dispatched, Record, Ready, Steps.AtWork, NotQueued, Allowed;
      var q := GetOrCreateQueue(w.asset);
      QueueOpened(w, s, o);
      KnownIs();
      HeldIn(w);
      var yes := IsAllowed(w, o);
      if !yes {
        Announce(w, OrderRejected, Rejected);
        return Refusal;
      }
      var fills := Admit(w, q, o, Record(model, OrderAccepted, o.(status := Accepted)));
      return Done(fills);
    }

    /** How the submission of a new order will end. */
    lemma Ends(s: State, o: Order)
      requires cfg.Valid() && I.Inv(s) && o.Validated() && o.id !in s.ledger
      ensures QueuesRest(s) && o.id in Submit(cfg, s, o).ledger
      ensures Out.Refusable(cfg, s, o)
              <==> (o.status != New || !WithinBoundary(cfg, o)
                    || !Allowed(cfg, OpenQueue(D.Enter(s, o), o.asset), o))
      ensures if Out.Refusable(cfg, s, o) then Submit(cfg, s, o).ledger[o.id].now == o.(status := Rejected)
              else Out.Ended(o, Submit(cfg, s, o).ledger[o.id].now)
    {
      hide I.Inv, Submit, WithinBoundary, Allowed, QueuesRest, Out.Refusable, Out.Ended, Out.SameQueues;
      Out.RefusableIs(cfg, s, o);
      Out.AllowedEarly(cfg, s, o);
      Out.RefusedOutcome(cfg, s, o);
      if !Out.Refusable(cfg, s, o) {
        Out.NewcomerEnds(cfg, s, o);
      }
    }

    /** Submits an order. A known id is refused without any change. */
    method SubmitWorkOrder(w: WorkOrder) returns (r: Outcome)
      requires Valid() && w.View().Validated() && (w.id in known || w !in plan.objects)
      modifies this, w, plan.objects
      ensures Valid() && fresh(plan.objects - old(plan.objects) - {w})
      ensures QueuesRest(old(model)) && model == Submit(cfg, old(model), old(w.View()))
      ensures r == Duplicate <==> old(w.id in known)
      ensures r == Refusal <==> old(w.id !in known) && Out.Refusable(cfg, old(model), old(w.View()))
      ensures r != Duplicate ==> w.id in model.ledger && w.View() == model.ledger[w.id].now
      ensures r == Refusal ==> w.View() == old(w.View()).(status := Rejected)
      ensures r.Done? ==> Out.Ended(old(w.View()), w.View())
      ensures log == old(log) + (if r.Done? then r.fills else [])
    {
      hide Out.Refusable, Out.Ended, Out.SameQueues;
      hide Coupled, R.Reachable, I.Inv, I.Working, I.Latest, QueuesRest, WithinBoundary, Allowed, Dispatched, Record,
           Ready, Steps.AtWork, Order.Validated;
      Inv();
      ghost var s, o := model, w.View();
      KnownIs();
      Steps.SubmitKeeps(cfg, s, o);
      R.ReachableStep(cfg, s, R.Submitting(o));
      if w.id in known {
        return Duplicate;
      }
      Ends(s, o);
      Register(w);
      Registered(w, s, o);
      if w.status != New || !WithinBoundary(cfg, w.View()) {
        Announce(w, OrderRejected, Rejected);
        return Refusal;
      }
      r := Examine(w, model, o);
      RecordedAs(w);
    }

    /** Looks for an order in one queue and takes it out, and what that leaves of the engine's objects. */
    method WithdrawObjects(asset: string, id: string) returns (w: WorkOrder?, ghost side: Side, ghost n: nat)
      requires Coupled() && asset in queues && asset in plan.lineups && asset in model.queues && asset in plan.shelf
      modifies queues[asset].Objects()
      ensures AllHoused(queues, plan.shelf, plan.store)
              && OthersStand(queues, plan.shelf, plan.store, plan.lineups, asset)
      ensures Recorded(plan.orders, model.ledger) && matcher.manager.Valid()
              && matcher.manager.objects == old(matcher.manager.objects)
      ensures matcher.manager.View() == model.book
      ensures w == null ==>
                Stands(queues[asset], plan.shelf[asset], plan.lineups[asset]) && NotIn(model.queues[asset], id)
      ensures w != null ==>
                var ws := plan.lineups[asset].Of(side);
                && n < |ws| && w == ws[n] && w.id == id && DistinctIds(ws)
                && Stands(queues[asset], plan.shelf[asset], plan.lineups[asset].With(side, ws[..n] + ws[n + 1..]))
    {
      hide Built, Recorded, AllHoused, AllStand, OthersStand, AllAgree, Stands, Agrees, NotIn, DistinctIds;
      hide WorkloadManager.Valid, DispatchQueue.Valid;
      Open(model.ledger, model.queues, model.book);
      ghost var l := plan.lineups[asset];
      ghost var q, mem := queues[asset], plan.shelf[asset];
      StandsOne(queues, plan.shelf, plan.store, plan.lineups, asset);
      StandsOrders(q, mem, l, Request);
      StandsOrders(q, mem, l, Offer);
      AgreesOne(plan.lineups, model.queues, plan.orders, asset);
      StandsApart(queues, plan.shelf, plan.store, plan.lineups, asset);
      w, side, n := queues[asset].CancelWorkOrder(id);
      OthersStay(queues, plan.shelf, plan.store, plan.lineups, asset);
      if w == null {
        StandsSame(q, mem, l);
        NoneNamed(asset, l, model.queues[asset], plan.orders, id);
      } else {
        StandsRemoved(q, mem, l, side, n);
      }
    }

    /** Looks for an order in one queue and takes it out. */
    method Withdraw(asset: string, id: string) returns (w: WorkOrder?)
      requires Coupled() && I.Inv(model) && asset in queues && asset in model.queues
      modifies this`plan, this`model, plan.objects
      ensures Coupled() && plan.orders == old(plan.orders) && plan.objects == old(plan.objects)
      ensures w == null ==> model == old(model) && NotIn(model.queues[asset], id)
      ensures w != null ==>
                && w.id == id && w.asset == asset && w.id in plan.orders && plan.orders[w.id] == w
                && Cancellable(old(model), id, Some(asset)) && w.View() == old(model).ledger[id].now
                && model == old(model).(queues := Withdrawn(old(model).queues, w.View()))
    {
      hide Built, Recorded, AllHoused, AllStand, OthersStand, AllAgree, Stands, Agrees, Separate, QueuesInv,
           QueueInv, NotIn, Views, DistinctIds;
      hide WorkloadManager.Valid, DispatchQueue.Valid, DispatchQueue.Objects, I.Inv, Without, Contains;
      Open(model.ledger, model.queues, model.book);
      ghost var l := plan.lineups[asset];
      StandsOne(queues, plan.shelf, plan.store, plan.lineups, asset);
      StandsOrders(queues[asset], plan.shelf[asset], l, Request);
      AgreesOne(plan.lineups, model.queues, plan.orders, asset);
      InvQueue(asset);
      ghost var side, n;
      w, side, n := WithdrawObjects(asset, id);
      if w == null {
        StandAll(queues, plan.shelf, plan.store, plan.lineups, asset, l);
        assert plan.lineups[asset := l] == plan.lineups;
        Build(model.ledger, model.queues, model.book);
        return;
      }
      FoundOrder(asset, l, model.queues[asset], plan.orders, model.ledger, side, n);
      ghost var ws := l.Of(side)[..n] + l.Of(side)[n + 1..];
      AgreeWithout(plan.lineups, model.queues, plan.orders, asset, side, n, Views(ws));
      StandAll(queues, plan.shelf, plan.store, plan.lineups, asset, l.With(side, ws));
      plan := plan.(lineups := plan.lineups[asset := l.With(side, ws)]);
      model := model.(queues := Withdrawn(model.queues, w.View()));
      Build(model.ledger, model.queues, model.book);
    }

    lemma InvQueue(asset: string)
      requires I.Inv(model) && asset in model.queues
      ensures QueueInv(model.ledger, asset, model.queues[asset])
    {
    }

    /** After a cancellation the record is brought up to date. */
    lemma Unqueued(s: State, id: string)
      requires I.Inv(s) && Cancellable(s, id, None)
      requires model == s.(queues := Withdrawn(s.queues, s.ledger[id].now))
      ensures NotQueued(model.queues, id)
    {
      hide I.Inv, I.Core, Withdrawn, Contains, I.OthersSettled;
      Steps.WithdrawnWorks(s, id);
    }

    /** An order that no queue in scope names is not there to cancel. */
    lemma Nowhere(s: State, id: string, asset: Option<string>)
      requires forall a | a in s.queues && (asset == None || asset == Some(a)) :: NotIn(s.queues[a], id)
      ensures !Cancellable(s, id, asset)
    {
    }

    lemma AnyScope(s: State, id: string, asset: string, scope: Option<string>)
      requires Cancellable(s, id, Some(asset)) && (scope.Some? ==> scope.value == asset)
      ensures Cancellable(s, id, None) && Cancellable(s, id, scope)
    {
    }

    /** Takes an order out of its queue, looking at one asset's queue or at all of them. */
    method CancelWorkOrder(id: string, asset: Option<string>) returns (w: WorkOrder?)
      requires Valid()
      modifies this`plan, this`published, this`model, plan.objects
      ensures Valid() && plan.objects == old(plan.objects)
      ensures model == Cancel(old(model), id, asset)
      ensures w != null <==> Cancellable(old(model), id, asset)
      ensures w != null ==> w.id == id && w.id in plan.orders && plan.orders[w.id] == w && w.status == Cancelled
    {
      hide Coupled, R.Reachable, I.Inv, NotIn, Withdrawn, NotQueued, Cancellable;
      Inv();
      ghost var s := model;
      R.ReachableStep(cfg, s, R.Cancelling(id, asset));
      KnownIs();
      var left := if asset.None? then queues.Keys else if asset.value in queues then {asset.value} else {};
      while left != {}
        invariant Coupled() && model == s && plan.objects == old(plan.objects) && left <= queues.Keys == s.queues.Keys
        invariant asset.Some? ==> left <= {asset.value}
        invariant forall a | a in s.queues && a !in left && (asset == None || asset == Some(a)) ::
                    NotIn(s.queues[a], id)
      {
        var a :| a in left;
        left := left - {a};
        w := Withdraw(a, id);
        if w != null {
          AnyScope(s, id, a, asset);
          Unqueued(s, id);
          HeldIn(w);
          Announce(w, OrderCancelled, Cancelled);
          return;
        }
      }
      Nowhere(s, id, asset);
      w := null;
    }

    /** A new mark for an asset's workloads. */
    method RepriceAsset(asset: string, mark: real)
      requires Valid()
      modifies this`model, plan.objects
      ensures Valid() && model == RepriceStep(old(model), asset, mark) && plan == old(plan)
    {
      hide Built, Recorded, AllHoused, AllStand, AllAgree, WorkloadManager.Valid, Book.RepriceAsset, I.Inv, R.Reachable;
      Inv();
      ghost var s := model;
      Open(model.ledger, model.queues, model.book);
      matcher.manager.RepriceAsset(asset, mark);
      OwnsItself(matcher.manager);
      model := RepriceStep(model, asset, mark);
      Build(model.ledger, model.queues, model.book);
      R.ReachableStep(cfg, s, R.Marking(asset, mark));
    }
  }
}
