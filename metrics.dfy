/** The read-only indicators computed over the agents' inventories and the global one:
    cumulative idling capacity, and the concentration, distribution and decentralization
    indices of one resource. Ratios are exact; the rounding to two decimals is not modelled. */
module Metrics {
  import opened Economy
  import opened Distribution

  /** A ratio, or the division by zero that aborts its computation. */
  datatype Result<T> = Ok(value: T) | DivisionByZero

  /** Every entry of every inventory has its idle portion between zero and its quantity. */
  predicate AllWellFormed(stocks: seq<Stock>)
  {
    forall i, id :: 0 <= i < |stocks| && id in stocks[i] ==> WellFormed(stocks[i][id])
  }

  /** A ratio of two counts between which nothing negative or excessive lies is a fraction. */
  lemma RatioBounds(part: int, whole: int)
    requires 0 <= part <= whole && whole != 0
    ensures 0.0 <= part as real / whole as real <= 1.0
  {
    var r := part as real / whole as real;
    assert r * whole as real == part as real;
  }

  /** Such a fraction is 0 exactly when the part is empty and 1 exactly when it is whole. */
  lemma RatioExtremes(part: int, whole: int)
    requires 0 <= part <= whole && whole != 0
    ensures part as real / whole as real == 0.0 <==> part == 0
    ensures part as real / whole as real == 1.0 <==> part == whole
  {
    var r := part as real / whole as real;
    assert r * whole as real == part as real;
  }

  /** Dividing by the same positive count keeps the order. */
  lemma DivideMonotone(a: int, b: int, whole: int)
    requires a <= b && whole > 0
    ensures a as real / whole as real <= b as real / whole as real
  {
    var x, y := a as real / whole as real, b as real / whole as real;
    assert x * whole as real == a as real && y * whole as real == b as real;
  }

  // ---------------------------------------------------------------------------------------
  // Cumulative idling capacity

  /** The (idle, quantity) totals over every entry of every inventory in `stocks`. */
  ghost function Totals(stocks: seq<Stock>): (int, int)
  {
    if stocks == [] then (0, 0)
    else
      var rest := Totals(stocks[..|stocks| - 1]);
      var last := StockTotals(stocks[|stocks| - 1]);
      (rest.0 + last.0, rest.1 + last.1)
  }

  /** The overall idle-to-total ratio, and the ratio for each resource of the global inventory. */
  datatype IdlingCapacity = IdlingCapacity(overall: real, byResource: map<string, real>)

  /** Idle stock over total stock, summed over the agents' inventories and the global one,
      overall and for each resource the global inventory lists. Dividing by a zero total,
      overall or for one of those resources, is an error. */
  ghost function CumulativeIdlingCapacity(global: Stock, agents: seq<Stock>): (r: Result<IdlingCapacity>)
    ensures r.Ok? ==> r.value.byResource.Keys == global.Keys
  {
    var all := agents + [global];
    var t := Totals(all);
    if t.1 == 0 || exists id :: id in global && HeldQuantity(all, id) == 0 then DivisionByZero
    else
      Ok(IdlingCapacity(t.0 as real / t.1 as real,
                        map id | id in global :: HeldIdle(all, id) as real / HeldQuantity(all, id) as real))
  }

  /** The ratio reported for one resource. */
  lemma IdlingOfResource(global: Stock, agents: seq<Stock>, id: string)
    requires CumulativeIdlingCapacity(global, agents).Ok? && id in global
    ensures var all := agents + [global];
      CumulativeIdlingCapacity(global, agents).value.byResource[id] ==
        HeldIdle(all, id) as real / HeldQuantity(all, id) as real
  {
  }

  /** The global inventory, counted after the agents, adds its own entry to the totals held. */
  lemma HeldWithGlobal(agents: seq<Stock>, global: Stock, id: string)
    ensures HeldQuantity(agents + [global], id) == HeldQuantity(agents, id) + Qty(global, id)
    ensures HeldIdle(agents + [global], id) == HeldIdle(agents, id) + Idle(global, id)
  {
    assert (agents + [global])[..|agents|] == agents;
  }

  /** With well-formed entries, the idle total held of a resource lies between zero and its
      quantity total. */
  lemma {:induction false} HeldBounds(stocks: seq<Stock>, id: string)
    requires AllWellFormed(stocks)
    ensures 0 <= HeldIdle(stocks, id) <= HeldQuantity(stocks, id)
  {
    if stocks != [] {
      HeldBounds(stocks[..|stocks| - 1], id);
    }
  }

  /** With well-formed entries, the overall idle total lies between zero and the overall
      quantity total. */
  lemma {:induction false} TotalsBounds(stocks: seq<Stock>)
    requires AllWellFormed(stocks)
    ensures 0 <= Totals(stocks).0 <= Totals(stocks).1
  {
    if stocks != [] {
      TotalsBounds(stocks[..|stocks| - 1]);
      StockTotalsBounds(stocks[|stocks| - 1]);
    }
  }

  /** With well-formed entries, one entry's quantity is at most its inventory's quantity total. */
  lemma {:induction false} StockTotalsCovers(s: Stock, id: string)
    requires forall k :: k in s ==> WellFormed(s[k])
    requires id in s
    ensures s[id].quantity <= StockTotals(s).1
    decreases s.Keys
  {
    var k :| k in s && StockTotals(s) ==
      (StockTotals(s - {k}).0 + s[k].idleStock, StockTotals(s - {k}).1 + s[k].quantity);
    StockTotalsBounds(s - {k});
    if k != id {
      StockTotalsCovers(s - {k}, id);
    }
  }

  /** With well-formed entries, the quantity of one resource held across the inventories is
      at most the overall quantity total. */
  lemma {:induction false} TotalsCoverHeld(stocks: seq<Stock>, id: string)
    requires AllWellFormed(stocks)
    ensures HeldQuantity(stocks, id) <= Totals(stocks).1
  {
    if stocks != [] {
      var last := stocks[|stocks| - 1];
      TotalsCoverHeld(stocks[..|stocks| - 1], id);
      StockTotalsBounds(last);
      if id in last {
        StockTotalsCovers(last, id);
      }
    }
  }

  /** With well-formed entries every ratio of the cumulative idling capacity is a fraction. */
  lemma IdlingCapacityBounds(global: Stock, agents: seq<Stock>)
    requires AllWellFormed(agents + [global])
    ensures var r := CumulativeIdlingCapacity(global, agents);
      r.Ok? ==>
        && 0.0 <= r.value.overall <= 1.0
        && forall id :: id in r.value.byResource ==> 0.0 <= r.value.byResource[id] <= 1.0
  {
    var all := agents + [global];
    var r := CumulativeIdlingCapacity(global, agents);
    if r.Ok? {
      TotalsBounds(all);
      RatioBounds(Totals(all).0, Totals(all).1);
      forall id | id in r.value.byResource
        ensures 0.0 <= r.value.byResource[id] <= 1.0
      {
        HeldBounds(all, id);
        RatioBounds(HeldIdle(all, id), HeldQuantity(all, id));
      }
    }
  }

  /** With well-formed entries and a non-empty global inventory, the cumulative idling
      capacity is defined exactly when every resource of the global inventory is held in a
      positive total quantity. */
  lemma IdlingCapacityDefined(global: Stock, agents: seq<Stock>)
    requires AllWellFormed(agents + [global])
    requires global != map[]
    ensures CumulativeIdlingCapacity(global, agents).Ok? <==>
      forall id :: id in global ==> HeldQuantity(agents + [global], id) > 0
  {
    var all := agents + [global];
    if forall id :: id in global ==> HeldQuantity(all, id) > 0 {
      var id :| id in global;
      TotalsCoverHeld(all, id);
    } else {
      var id :| id in global && HeldQuantity(all, id) <= 0;
      HeldBounds(all, id);
    }
  }

  /** After the initial distribution from empty agent inventories, every resource of the
      global inventory is held in total in exactly its original quantity, and its idle total
      has not grown: the global idle counter drops by each amount handed out while the
      agent declares at most that amount idle. */
  lemma HeldAfterDistribution(g: Stock, agents: seq<Stock>, draws: seq<AgentDraw>, id: string)
    requires |draws| == |agents|
    requires SamplesFrom(draws, g.Keys)
    requires forall i :: 0 <= i < |agents| ==> agents[i] == map[]
    requires id in g
    ensures var r := Distribute(g, agents, draws, |draws|);
      && HeldQuantity(r.agents + [r.global], id) == g[id].quantity
      && HeldIdle(r.agents + [r.global], id) <= g[id].idleStock
  {
    DistributedHeldBounds(g, agents, draws, id);
    DistributeConserves(g, agents, draws, |draws|, id);
    HeldWithConservedGlobal(Distribute(g, agents, draws, |draws|), id, g[id]);
  }

  /** When the global entry for `id` lost exactly what the agents hold, and the agents
      declare no more idle than they hold, the totals over the agents and the global
      inventory are the original quantity and at most the original idle stock. */
  lemma HeldWithConservedGlobal(r: Outcome, id: string, original: StockRecord)
    requires Conserved(original, id, r)
    requires HeldIdle(r.agents, id) <= HeldQuantity(r.agents, id)
    ensures HeldQuantity(r.agents + [r.global], id) == original.quantity
    ensures HeldIdle(r.agents + [r.global], id) <= original.idleStock
  {
    HeldWithGlobal(r.agents, r.global, id);
  }

  /** After the initial distribution, the agents together declare no more of a resource
      idle than they hold of it, and no negative idle amount. */
  lemma DistributedHeldBounds(g: Stock, agents: seq<Stock>, draws: seq<AgentDraw>, id: string)
    requires |draws| == |agents|
    requires SamplesFrom(draws, g.Keys)
    requires forall i :: 0 <= i < |agents| ==> agents[i] == map[]
    ensures 0 <= HeldIdle(Distribute(g, agents, draws, |draws|).agents, id)
      <= HeldQuantity(Distribute(g, agents, draws, |draws|).agents, id)
  {
    DistributedWellFormed(g, agents, draws);
    HeldBounds(Distribute(g, agents, draws, |draws|).agents, id);
  }

  /** Every entry the agents receive in the initial distribution is well formed. */
  lemma DistributedWellFormed(g: Stock, agents: seq<Stock>, draws: seq<AgentDraw>)
    requires |draws| == |agents|
    requires SamplesFrom(draws, g.Keys)
    requires forall i :: 0 <= i < |agents| ==> agents[i] == map[]
    ensures AllWellFormed(Distribute(g, agents, draws, |draws|).agents)
  {
    var r := Distribute(g, agents, draws, |draws|);
    DistributeShape(g, agents, draws, |draws|);
    forall i, k | 0 <= i < |r.agents| && k in r.agents[i]
      ensures WellFormed(r.agents[i][k])
    {
      assert EntriesFrom(r.agents[i], draws[i].keys, g);
    }
  }

  /** Hence, after the initial distribution, the idling capacity of each resource is at most
      the ratio the global inventory had for it at the start. */
  lemma IdlingAfterDistribution(g: Stock, agents: seq<Stock>, draws: seq<AgentDraw>)
    requires |draws| == |agents|
    requires SamplesFrom(draws, g.Keys)
    requires forall i :: 0 <= i < |agents| ==> agents[i] == map[]
    ensures var r := Distribute(g, agents, draws, |draws|);
      var c := CumulativeIdlingCapacity(r.global, r.agents);
      c.Ok? ==> forall id :: id in g && g[id].quantity > 0 ==>
        c.value.byResource[id] <= g[id].idleStock as real / g[id].quantity as real
  {
    var r := Distribute(g, agents, draws, |draws|);
    var all := r.agents + [r.global];
    var c := CumulativeIdlingCapacity(r.global, r.agents);
    if c.Ok? {
      forall id | id in g && g[id].quantity > 0
        ensures c.value.byResource[id] <= g[id].idleStock as real / g[id].quantity as real
      {
        HeldAfterDistribution(g, agents, draws, id);
        IdlingOfResource(r.global, r.agents, id);
        DivideMonotone(HeldIdle(all, id), g[id].idleStock, g[id].quantity);
      }
    }
  }

  // ---------------------------------------------------------------------------------------
  // Concentration index

  /** The sum of a sequence of integers. */
  function Sum(xs: seq<int>): int
  {
    if xs == [] then 0 else Sum(xs[..|xs| - 1]) + xs[|xs| - 1]
  }

  /** Appending a number adds it to the sum. */
  lemma SumAppend(xs: seq<int>, x: int)
    ensures Sum(xs + [x]) == Sum(xs) + x
  {
    assert (xs + [x])[..|xs|] == xs;
  }

  /** The quantities of `id` held by the inventories that have an entry for it, in order. */
  function Holdings(id: string, stocks: seq<Stock>): (h: seq<int>)
  {
    if stocks == [] then []
    else
      var last := stocks[|stocks| - 1];
      Holdings(id, stocks[..|stocks| - 1]) + if id in last then [last[id].quantity] else []
  }

  /** The holdings add up to the total quantity held. */
  lemma {:induction false} HoldingsTotal(id: string, stocks: seq<Stock>)
    ensures Sum(Holdings(id, stocks)) == HeldQuantity(stocks, id)
  {
    if stocks != [] {
      var last := stocks[|stocks| - 1];
      HoldingsTotal(id, stocks[..|stocks| - 1]);
      if id in last {
        SumAppend(Holdings(id, stocks[..|stocks| - 1]), last[id].quantity);
      } else {
        var front := Holdings(id, stocks[..|stocks| - 1]);
        assert Holdings(id, stocks) == front + [] == front;
      }
    }
  }

  /** A property every holder's quantity has, every holding has. */
  lemma {:induction false} HoldingsAll(id: string, stocks: seq<Stock>, P: int -> bool)
    requires forall i :: 0 <= i < |stocks| && id in stocks[i] ==> P(stocks[i][id].quantity)
    ensures forall k :: 0 <= k < |Holdings(id, stocks)| ==> P(Holdings(id, stocks)[k])
  {
    if stocks != [] {
      var init := stocks[..|stocks| - 1];
      assert forall i :: 0 <= i < |init| ==> init[i] == stocks[i];
      HoldingsAll(id, init, P);
    }
  }

  /** Each share of a total. */
  function Shares(h: seq<int>, total: int): (f: seq<real>)
    requires total != 0
    ensures |f| == |h|
  {
    seq(|h|, k requires 0 <= k < |h| => h[k] as real / total as real)
  }

  /** The largest element. */
  function Max(xs: seq<real>): (m: real)
    requires |xs| > 0
    ensures m in xs && forall k :: 0 <= k < |xs| ==> xs[k] <= m
  {
    if |xs| == 1 then xs[0]
    else
      var rest := Max(xs[..|xs| - 1]);
      if xs[|xs| - 1] > rest then xs[|xs| - 1] else rest
  }

  /** The smallest element. */
  function Min(xs: seq<real>): (m: real)
    requires |xs| > 0
    ensures m in xs && forall k :: 0 <= k < |xs| ==> m <= xs[k]
  {
    if |xs| == 1 then xs[0]
    else
      var rest := Min(xs[..|xs| - 1]);
      if xs[|xs| - 1] < rest then xs[|xs| - 1] else rest
  }

  /** The concentration of a resource: no stock at all, or one minus the spread between the
      largest and the smallest share of the holders, with those two shares. */
  datatype Concentration = NoStock | Concentrated(index: real, minShare: real, maxShare: real)

  /** The concentration index of `id` over the inventories `stocks`. An inventory counts as
      a holder when it has an entry for `id`, whatever its quantity. */
  function ConcentrationIndex(id: string, stocks: seq<Stock>): (r: Concentration)
    ensures r.NoStock? <==> HeldQuantity(stocks, id) == 0
  {
    HoldingsTotal(id, stocks);
    var h := Holdings(id, stocks);
    var total := Sum(h);
    if total == 0 then NoStock
    else
      var f := Shares(h, total);
      Concentrated(1.0 - (Max(f) - Min(f)), Min(f), Max(f))
  }

  /** The value of the index: the bare 0.0 when there is no stock. */
  function IndexValue(c: Concentration): real
  {
    if c.NoStock? then 0.0 else c.index
  }

  /** A sum of non-negative numbers is at least each of them. */
  lemma {:induction false} ElementAtMostSum(xs: seq<int>, k: nat)
    requires forall j :: 0 <= j < |xs| ==> xs[j] >= 0
    requires k < |xs|
    ensures 0 <= xs[k] <= Sum(xs)
  {
    var init := xs[..|xs| - 1];
    if k < |xs| - 1 {
      ElementAtMostSum(init, k);
    } else if init != [] {
      ElementAtMostSum(init, 0);
    }
  }

  /** When no holder has a negative quantity, the shares, the smallest and the largest share
      and the index are all fractions. */
  lemma ConcentrationBounds(id: string, stocks: seq<Stock>)
    requires forall i :: 0 <= i < |stocks| && id in stocks[i] ==> stocks[i][id].quantity >= 0
    ensures var r := ConcentrationIndex(id, stocks);
      r.Concentrated? ==>
        0.0 <= r.minShare <= r.maxShare <= 1.0 && 0.0 <= r.index <= 1.0
  {
    var r := ConcentrationIndex(id, stocks);
    if r.Concentrated? {
      var h := Holdings(id, stocks);
      var total := Sum(h);
      HoldingsAll(id, stocks, x => x >= 0);
      var f := Shares(h, total);
      forall k | 0 <= k < |f| ensures 0.0 <= f[k] <= 1.0 {
        ElementAtMostSum(h, k);
        RatioBounds(h[k], total);
      }
      assert f[0] <= Max(f);
    }
  }

  /** The sum of `n` copies of `q`. */
  lemma {:induction false} SumConstant(xs: seq<int>, q: int)
    requires forall k :: 0 <= k < |xs| ==> xs[k] == q
    ensures Sum(xs) as real == |xs| as real * q as real
  {
    if xs != [] {
      var init := xs[..|xs| - 1];
      SumConstant(init, q);
      assert |xs| as real == |init| as real + 1.0;
    }
  }

  /** When every holder holds the same quantity (and that is not zero), each holds the
      same share, one over the number of holders, and the index is 1. */
  lemma ConcentrationEqualHoldings(id: string, stocks: seq<Stock>, q: int)
    requires forall i :: 0 <= i < |stocks| && id in stocks[i] ==> stocks[i][id].quantity == q
    requires HeldQuantity(stocks, id) != 0
    ensures var r := ConcentrationIndex(id, stocks);
      && r.Concentrated?
      && r.index == 1.0
      && r.minShare == r.maxShare == 1.0 / |Holdings(id, stocks)| as real
  {
    var h := Holdings(id, stocks);
    HoldingsAll(id, stocks, x => x == q);
    HoldingsTotal(id, stocks);
    var total := Sum(h);
    var f := Shares(h, total);
    var share := q as real / total as real;
    assert forall k :: 0 <= k < |f| ==> f[k] == share;
    ConstantExtremes(f, share);
    EqualShare(h, q);
  }

  /** In a sequence of equal elements the smallest and the largest are that element. */
  lemma ConstantExtremes(xs: seq<real>, v: real)
    requires |xs| > 0 && forall k :: 0 <= k < |xs| ==> xs[k] == v
    ensures Min(xs) == v && Max(xs) == v
  {
  }

  /** Each of `n` equal non-zero parts is one `n`-th of their sum. */
  lemma EqualShare(h: seq<int>, q: int)
    requires forall k :: 0 <= k < |h| ==> h[k] == q
    requires Sum(h) != 0
    ensures |h| > 0 && q != 0
    ensures q as real / Sum(h) as real == 1.0 / |h| as real
  {
    SumConstant(h, q);
    assert |h| as real != 0.0 && q as real != 0.0;
    DivideCancel(q as real, |h| as real, Sum(h) as real);
  }

  /** A non-zero amount over `n` copies of itself is one `n`-th. */
  lemma DivideCancel(q: real, n: real, t: real)
    requires q != 0.0 && n != 0.0 && t == n * q
    ensures q / t == 1.0 / n
  {
    assert (1.0 / n) * t == q;
  }

  /** Only the holders' quantities matter: two collections of inventories with the same
      holders holding the same quantities (the idle stock and other entries aside) have the
      same concentration. */
  lemma {:induction false} ConcentrationIgnoresIdle(id: string, stocks: seq<Stock>, others: seq<Stock>)
    requires |stocks| == |others|
    requires forall i :: 0 <= i < |stocks| ==> (id in stocks[i] <==> id in others[i])
    requires forall i :: 0 <= i < |stocks| && id in stocks[i] ==>
      stocks[i][id].quantity == others[i][id].quantity
    ensures ConcentrationIndex(id, stocks) == ConcentrationIndex(id, others)
    ensures Holdings(id, stocks) == Holdings(id, others)
  {
    if stocks != [] {
      ConcentrationIgnoresIdle(id, stocks[..|stocks| - 1], others[..|others| - 1]);
    }
  }

  // ---------------------------------------------------------------------------------------
  // Distribution index

  /** How many of the inventories have an entry for `id`, whatever its quantity. */
  function Holders(id: string, stocks: seq<Stock>): (n: nat)
  {
    if stocks == [] then 0
    else Holders(id, stocks[..|stocks| - 1]) + if id in stocks[|stocks| - 1] then 1 else 0
  }

  /** The holders are counted one per holding; nobody is a holder exactly when no inventory
      has an entry, everybody exactly when every inventory has one. */
  lemma {:induction false} HoldersCount(id: string, stocks: seq<Stock>)
    ensures Holders(id, stocks) == |Holdings(id, stocks)| <= |stocks|
    ensures Holders(id, stocks) == 0 <==> forall i :: 0 <= i < |stocks| ==> id !in stocks[i]
    ensures Holders(id, stocks) == |stocks| <==> forall i :: 0 <= i < |stocks| ==> id in stocks[i]
  {
    if stocks != [] {
      var init := stocks[..|stocks| - 1];
      HoldersCount(id, init);
      assert forall i :: 0 <= i < |init| ==> init[i] == stocks[i];
    }
  }

  /** The share of the agents that hold `id`; a zero agent count is an error. */
  function DistributionIndex(id: string, stocks: seq<Stock>, numAgents: int): (r: Result<real>)
    ensures r.DivisionByZero? <==> numAgents == 0
  {
    if numAgents == 0 then DivisionByZero
    else Ok(Holders(id, stocks) as real / numAgents as real)
  }

  /** Over all the agents, the distribution index is a fraction: 0 exactly when nobody holds
      the resource and 1 exactly when everybody does. */
  lemma DistributionIndexBounds(id: string, stocks: seq<Stock>)
    requires stocks != []
    ensures var r := DistributionIndex(id, stocks, |stocks|);
      && r.Ok?
      && 0.0 <= r.value <= 1.0
      && (r.value == 0.0 <==> forall i :: 0 <= i < |stocks| ==> id !in stocks[i])
      && (r.value == 1.0 <==> forall i :: 0 <= i < |stocks| ==> id in stocks[i])
  {
    HoldersCount(id, stocks);
    var h, n := Holders(id, stocks), |stocks|;
    RatioBounds(h, n);
    RatioExtremes(h, n);
  }

  // ---------------------------------------------------------------------------------------
  // Decentralization index

  /** The mean of the distribution and concentration indices: it lies between the two. */
  function DecentralizationIndex(di: real, ci: real): (r: real)
    ensures di <= ci ==> di <= r <= ci
    ensures ci <= di ==> ci <= r <= di
    ensures r - di == ci - r
  {
    (di + ci) / 2.0
  }

  /** Of two fractions, the decentralization index is a fraction, 1 exactly when both are 1
      and 0 exactly when both are 0. */
  lemma DecentralizationBounds(di: real, ci: real)
    requires 0.0 <= di <= 1.0 && 0.0 <= ci <= 1.0
    ensures 0.0 <= DecentralizationIndex(di, ci) <= 1.0
    ensures DecentralizationIndex(di, ci) == 1.0 <==> di == 1.0 && ci == 1.0
    ensures DecentralizationIndex(di, ci) == 0.0 <==> di == 0.0 && ci == 0.0
  {
  }

  /** The decentralization index of a resource among all the agents, from its distribution
      index and its concentration index, is a fraction when no agent holds a negative
      quantity of it. */
  lemma ResourceDecentralizationBounds(id: string, stocks: seq<Stock>)
    requires stocks != []
    requires forall i :: 0 <= i < |stocks| && id in stocks[i] ==> stocks[i][id].quantity >= 0
    ensures var di := DistributionIndex(id, stocks, |stocks|);
      di.Ok? && 0.0 <= DecentralizationIndex(di.value, IndexValue(ConcentrationIndex(id, stocks))) <= 1.0
  {
    DistributionIndexBounds(id, stocks);
    ConcentrationBounds(id, stocks);
    var di := DistributionIndex(id, stocks, |stocks|).value;
    DecentralizationBounds(di, IndexValue(ConcentrationIndex(id, stocks)));
  }

}
