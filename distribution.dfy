/** The distribution engine: hands each agent a random selection of the global inventory,
    moving the chosen quantities out of the global pool.

    The random source is explicit. The number of resources an agent draws and the ids it
    samples are given with each agent's draw; the transfer quantity and the idle portion,
    whose ranges depend on the global quantity left at that moment, are given as raw
    outputs of the source (seeds) that `Randint` maps into the range. */
module Distribution {
  import opened Economy

  /** The value a uniform draw from `lo..hi` (both inclusive) yields for the raw output `seed`. */
  function Randint(lo: int, hi: int, seed: nat): (r: int)
    requires lo <= hi
    ensures lo <= r <= hi
  {
    lo + seed % (hi - lo + 1)
  }

  /** Every value of the range is the draw of some seed, so no outcome of the source is lost. */
  lemma RandintCovers(lo: int, hi: int, v: int)
    requires lo <= v <= hi
    ensures Randint(lo, hi, v - lo) == v
  {
  }

  /** What the random source produced for one agent: the resource count, the sampled ids,
      and one raw quantity draw and one raw idle draw per sampled id. */
  datatype AgentDraw = AgentDraw(count: int, keys: seq<string>, quantitySeeds: seq<nat>, idleSeeds: seq<nat>)

  predicate Distinct(keys: seq<string>)
  {
    forall i, j :: 0 <= i < j < |keys| ==> keys[i] != keys[j]
  }

  /** Sampling `count` ids out of `available` fails (a sample larger than the population,
      or negative). */
  predicate SampleFails(d: AgentDraw, available: nat)
  {
    d.count < 0 || d.count > available
  }

  /** A sample of `count` distinct ids of `ids`, with one quantity and one idle draw for each. */
  predicate WellFormedDraw(d: AgentDraw, ids: set<string>)
  {
    && |d.keys| == d.count
    && Distinct(d.keys)
    && (forall k :: k in d.keys ==> k in ids)
    && |d.quantitySeeds| == |d.keys|
    && |d.idleSeeds| == |d.keys|
  }

  /** Every draw whose sample can be taken is a sample of the global inventory's ids. */
  predicate SamplesFrom(draws: seq<AgentDraw>, ids: set<string>)
  {
    forall i :: 0 <= i < |draws| ==> !SampleFails(draws[i], |ids|) ==> WellFormedDraw(draws[i], ids)
  }

  /** One sampled resource `id`: when the global pool holds more than 2 units, the agent
      receives between 1 and all but one of them, declares between none and all of them
      idle, and the global quantity and idle counter both drop by the amount moved; with 2
      units or fewer nothing happens. The result is the new (global, agent) pair. */
  function Transfer(g: Stock, a: Stock, id: string, quantitySeed: nat, idleSeed: nat): (r: (Stock, Stock))
    requires id in g
    ensures r.0.Keys == g.Keys
  {
    var q := g[id].quantity;
    if q > 2 then
      var qty := Randint(1, q - 1, quantitySeed);
      var idle := Randint(0, qty, idleSeed);
      (g[id := g[id].(quantity := q - qty, idleStock := g[id].idleStock - qty)],
       a[id := StockRecord(g[id].resource, qty, idle, 0)])
    else
      (g, a)
  }

  /** What one transfer does: nothing when the pool holds 2 units or fewer of `id`;
      otherwise the agent's entry for `id` becomes a new one of at least 1 unit and at most
      all but one of the pool's, with an idle portion within it and nothing locked, and the
      pool's quantity and idle counter both drop by the quantity moved. */
  lemma TransferEffect(g: Stock, a: Stock, id: string, quantitySeed: nat, idleSeed: nat)
    requires id in g
    ensures var r := Transfer(g, a, id, quantitySeed, idleSeed);
      && (g[id].quantity <= 2 ==> r == (g, a))
      && (g[id].quantity > 2 ==>
        && id in r.1
        && var moved := r.1[id];
        && 1 <= moved.quantity <= g[id].quantity - 1
        && 0 <= moved.idleStock <= moved.quantity
        && moved.locked == 0
        && moved.resource == g[id].resource
        && r.1 == a[id := moved]
        && r.0 == g[id := g[id].(quantity := g[id].quantity - moved.quantity,
                                 idleStock := g[id].idleStock - moved.quantity)])
  {
  }

  /** The first `j` sampled resources of one agent's draw, transferred in order. */
  function Give(g: Stock, a: Stock, d: AgentDraw, j: nat): (r: (Stock, Stock))
    requires WellFormedDraw(d, g.Keys) && j <= |d.keys|
    ensures r.0.Keys == g.Keys
    decreases j
  {
    if j == 0 then (g, a)
    else
      var prev := Give(g, a, d, j - 1);
      Transfer(prev.0, prev.1, d.keys[j - 1], d.quantitySeeds[j - 1], d.idleSeeds[j - 1])
  }

  /** The state after distributing to the first `n` agents: whether every sample could be
      taken, the global inventory and every agent's inventory. */
  datatype Outcome = Outcome(ok: bool, global: Stock, agents: seq<Stock>)

  /** The turn of agent `i` with draw `d`: nothing happens once a sample has failed; a
      sample that cannot be taken fails; otherwise the agent's sampled resources are
      transferred in order. */
  function Serve(prev: Outcome, d: AgentDraw, i: nat): (r: Outcome)
    requires i < |prev.agents|
    requires !SampleFails(d, |prev.global.Keys|) ==> WellFormedDraw(d, prev.global.Keys)
    ensures r.global.Keys == prev.global.Keys && |r.agents| == |prev.agents|
    ensures r.ok ==> prev.ok && !SampleFails(d, |prev.global.Keys|)
  {
    if !prev.ok then prev
    else if SampleFails(d, |prev.global.Keys|) then prev.(ok := false)
    else
      var given := Give(prev.global, prev.agents[i], d, |d.keys|);
      Outcome(true, given.0, prev.agents[i := given.1])
  }

  /** Distribution to the first `n` agents in order. It stops at the first agent whose
      sample cannot be taken, leaving the transfers already made in place. */
  function Distribute(g: Stock, agents: seq<Stock>, draws: seq<AgentDraw>, n: nat): (r: Outcome)
    requires n <= |draws| == |agents|
    requires SamplesFrom(draws, g.Keys)
    ensures r.global.Keys == g.Keys && |r.agents| == |agents|
    decreases n
  {
    if n == 0 then Outcome(true, g, agents)
    else Serve(Distribute(g, agents, draws, n - 1), draws[n - 1], n - 1)
  }

  /** Once a sample has failed, later agents receive nothing. */
  lemma {:induction false} FailureSticks(g: Stock, agents: seq<Stock>, draws: seq<AgentDraw>, m: nat, n: nat)
    requires m <= n <= |draws| == |agents|
    requires SamplesFrom(draws, g.Keys)
    requires !Distribute(g, agents, draws, m).ok
    ensures Distribute(g, agents, draws, n) == Distribute(g, agents, draws, m)
    decreases n
  {
    if m < n {
      FailureSticks(g, agents, draws, m, n - 1);
    }
  }

  /** When the first `i` agents have been served and agent `i` cannot take its sample, the
      distribution ends failed in the state it had after the first `i` agents. */
  lemma DistributeStops(g: Stock, agents: seq<Stock>, draws: seq<AgentDraw>, i: nat)
    requires i < |draws| == |agents|
    requires SamplesFrom(draws, g.Keys)
    requires SampleFails(draws[i], |g.Keys|)
    ensures Distribute(g, agents, draws, |draws|) == Distribute(g, agents, draws, i).(ok := false)
  {
    FailureSticks(g, agents, draws, i + 1, |draws|);
  }

  // ---------------------------------------------------------------------------------------
  // The global pool

  /** How one global entry may change while the pool is distributed: only by withdrawals
      that drop its quantity and its idle counter by the same amount, never touching an
      entry with 2 units or fewer, and never emptying an entry that held at least 1 unit. */
  predicate Withdrawn(before: StockRecord, after: StockRecord)
  {
    && after.resource == before.resource
    && after.locked == before.locked
    && after.quantity <= before.quantity
    && before.idleStock - after.idleStock == before.quantity - after.quantity
    && (before.quantity <= 2 ==> after == before)
    && (1 <= before.quantity ==> 1 <= after.quantity)
  }

  /** Every entry of `before` changed into the entry of `after` only by withdrawals. */
  predicate WithdrawnAll(before: Stock, after: Stock)
  {
    && after.Keys == before.Keys
    && forall id :: id in before ==> Withdrawn(before[id], after[id])
  }

  lemma WithdrawnAllTransitive(a: Stock, b: Stock, c: Stock)
    requires WithdrawnAll(a, b) && WithdrawnAll(b, c)
    ensures WithdrawnAll(a, c)
  {
    forall id | id in a ensures Withdrawn(a[id], c[id]) {
      assert Withdrawn(a[id], b[id]) && Withdrawn(b[id], c[id]);
    }
  }

  /** One transfer only withdraws from the pool. */
  lemma TransferWithdraws(pool: Stock, a: Stock, k: string, quantitySeed: nat, idleSeed: nat,
                          next: (Stock, Stock))
    requires k in pool
    requires next == Transfer(pool, a, k, quantitySeed, idleSeed)
    ensures WithdrawnAll(pool, next.0)
  {
    TransferEffect(pool, a, k, quantitySeed, idleSeed);
  }

  /** One agent's transfers only withdraw from the pool. */
  lemma {:induction false} GiveWithdraws(g: Stock, a: Stock, d: AgentDraw, j: nat)
    requires WellFormedDraw(d, g.Keys) && j <= |d.keys|
    ensures WithdrawnAll(g, Give(g, a, d, j).0)
    decreases j
  {
    if j == 0 {
      assert WithdrawnAll(g, g);
    } else {
      GiveWithdraws(g, a, d, j - 1);
      var prev := Give(g, a, d, j - 1);
      var k := d.keys[j - 1];
      assert prev.0.Keys == g.Keys && k in g;
      TransferWithdrawsFrom(g, prev, k, d.quantitySeeds[j - 1], d.idleSeeds[j - 1], Give(g, a, d, j));
    }
  }

  /** A transfer out of a pool that so far has only been withdrawn from keeps it so. */
  lemma TransferWithdrawsFrom(g: Stock, prev: (Stock, Stock), k: string, quantitySeed: nat, idleSeed: nat,
                              next: (Stock, Stock))
    requires WithdrawnAll(g, prev.0) && k in prev.0
    requires next == Transfer(prev.0, prev.1, k, quantitySeed, idleSeed)
    ensures WithdrawnAll(g, next.0)
  {
    TransferWithdraws(prev.0, prev.1, k, quantitySeed, idleSeed, next);
    WithdrawnAllTransitive(g, prev.0, next.0);
  }

  /** One agent's turn only withdraws from the pool. */
  lemma ServeWithdraws(prev: Outcome, d: AgentDraw, i: nat, next: Outcome)
    requires i < |prev.agents|
    requires !SampleFails(d, |prev.global.Keys|) ==> WellFormedDraw(d, prev.global.Keys)
    requires next == Serve(prev, d, i)
    ensures WithdrawnAll(prev.global, next.global)
  {
    if prev.ok && !SampleFails(d, |prev.global.Keys|) {
      GiveWithdraws(prev.global, prev.agents[i], d, |d.keys|);
    } else {
      assert WithdrawnAll(prev.global, prev.global);
    }
  }

  // ---------------------------------------------------------------------------------------
  // What the agents receive

  /** An entry created for an agent out of the global entry `source`: at least 1 unit and
      fewer than the source held, an idle portion within the quantity, nothing locked. */
  predicate NewEntry(e: StockRecord, source: StockRecord)
  {
    && 1 <= e.quantity < source.quantity
    && 0 <= e.idleStock <= e.quantity
    && e.locked == 0
    && e.resource == source.resource
  }

  /** Every entry of an agent's inventory is for one of the ids `keys` and was made out of
      the global entry `g` had for that id. */
  predicate EntriesFrom(a: Stock, keys: seq<string>, g: Stock)
  {
    forall id :: id in a ==> id in keys && id in g && NewEntry(a[id], g[id])
  }

  /** Every agent's entries are for ids its draw sampled, made out of `g`. */
  predicate AllEntriesFrom(stocks: seq<Stock>, draws: seq<AgentDraw>, g: Stock)
  {
    && |stocks| == |draws|
    && forall i :: 0 <= i < |stocks| ==> EntriesFrom(stocks[i], draws[i].keys, g)
  }

  /** Entries made out of a later state of the global pool were made out of an earlier one too. */
  lemma EntriesFromEarlier(a: Stock, keys: seq<string>, g: Stock, later: Stock)
    requires WithdrawnAll(g, later)
    requires EntriesFrom(a, keys, later)
    ensures EntriesFrom(a, keys, g)
  {
    forall id | id in a ensures id in keys && id in g && NewEntry(a[id], g[id]) {
      assert Withdrawn(g[id], later[id]);
    }
  }

  /** One transfer adds at most an entry for the id transferred, made out of the pool. */
  lemma TransferEntries(g: Stock, pool: Stock, a: Stock, keys: seq<string>, k: string,
                        quantitySeed: nat, idleSeed: nat, next: (Stock, Stock))
    requires WithdrawnAll(g, pool) && k in pool
    requires EntriesFrom(a, keys, g)
    requires next == Transfer(pool, a, k, quantitySeed, idleSeed)
    ensures EntriesFrom(next.1, keys + [k], g)
  {
    TransferEffect(pool, a, k, quantitySeed, idleSeed);
    assert Withdrawn(g[k], pool[k]);
    forall id | id in next.1 ensures id in keys + [k] && id in g && NewEntry(next.1[id], g[id]) {
      if id != k {
        assert id in a;
      }
    }
  }

  /** Starting from an empty inventory, an agent ends up with entries only for ids it
      sampled, each a new entry made out of the global one. */
  lemma {:induction false} GiveEntries(g: Stock, d: AgentDraw, j: nat)
    requires WellFormedDraw(d, g.Keys) && j <= |d.keys|
    ensures EntriesFrom(Give(g, map[], d, j).1, d.keys[..j], g)
    decreases j
  {
    if j > 0 {
      GiveEntries(g, d, j - 1);
      GiveWithdraws(g, map[], d, j - 1);
      var prev := Give(g, map[], d, j - 1);
      var next := Give(g, map[], d, j);
      assert next == Transfer(prev.0, prev.1, d.keys[j - 1], d.quantitySeeds[j - 1], d.idleSeeds[j - 1]);
      GiveEntriesStep(g, d, j, prev, next);
    }
  }

  /** The `j`-th transfer of an agent's turn keeps its entries made out of the original pool `g`. */
  lemma GiveEntriesStep(g: Stock, d: AgentDraw, j: nat, prev: (Stock, Stock), next: (Stock, Stock))
    requires WellFormedDraw(d, g.Keys) && 0 < j <= |d.keys|
    requires WithdrawnAll(g, prev.0) && EntriesFrom(prev.1, d.keys[..j - 1], g)
    requires next == Transfer(prev.0, prev.1, d.keys[j - 1], d.quantitySeeds[j - 1], d.idleSeeds[j - 1])
    ensures EntriesFrom(next.1, d.keys[..j], g)
  {
    var k := d.keys[j - 1];
    TransferEntries(g, prev.0, prev.1, d.keys[..j - 1], k, d.quantitySeeds[j - 1], d.idleSeeds[j - 1], next);
    assert d.keys[..j] == d.keys[..j - 1] + [k];
  }

  /** A transfer of `id` leaves every other id's pool entry and agent entry as they were. */
  lemma TransferOther(pool: Stock, a: Stock, id: string, quantitySeed: nat, idleSeed: nat,
                      k: string, next: (Stock, Stock))
    requires id in pool && k != id
    requires next == Transfer(pool, a, id, quantitySeed, idleSeed)
    ensures (k in next.0 <==> k in pool) && (k in pool ==> next.0[k] == pool[k])
    ensures (k in next.1 <==> k in a) && (k in a ==> next.1[k] == a[k])
  {
    TransferEffect(pool, a, id, quantitySeed, idleSeed);
  }

  /** Before an id's own transfer, its pool entry is the one the turn started with. */
  lemma {:induction false} GivePoolUntouched(g: Stock, a: Stock, d: AgentDraw, n: nat, k: string)
    requires WellFormedDraw(d, g.Keys) && n <= |d.keys|
    requires k in g && k !in d.keys[..n]
    ensures k in Give(g, a, d, n).0 && Give(g, a, d, n).0[k] == g[k]
    decreases n
  {
    if n > 0 {
      assert d.keys[..n] == d.keys[..n - 1] + [d.keys[n - 1]];
      GivePoolUntouched(g, a, d, n - 1, k);
      var prev := Give(g, a, d, n - 1);
      TransferOther(prev.0, prev.1, d.keys[n - 1], d.quantitySeeds[n - 1], d.idleSeeds[n - 1], k, Give(g, a, d, n));
    }
  }

  /** After its own transfer, whether the agent holds a sampled id no longer changes: the
      later transfers are for other ids. */
  lemma {:induction false} GiveKeepsHolding(g: Stock, a: Stock, d: AgentDraw, j: nat, n: nat)
    requires WellFormedDraw(d, g.Keys) && j < n <= |d.keys|
    ensures d.keys[j] in Give(g, a, d, n).1 <==> d.keys[j] in Give(g, a, d, j + 1).1
    decreases n
  {
    if n > j + 1 {
      GiveKeepsHolding(g, a, d, j, n - 1);
      var prev := Give(g, a, d, n - 1);
      assert d.keys[n - 1] in g && d.keys[j] != d.keys[n - 1];
      TransferOther(prev.0, prev.1, d.keys[n - 1], d.quantitySeeds[n - 1], d.idleSeeds[n - 1], d.keys[j],
                    Give(g, a, d, n));
    }
  }

  /** An agent that starts empty ends its turn holding a sampled id exactly when the pool
      held more than 2 units of it: the low-stock skip is the only way to miss one. */
  lemma GiveHolds(g: Stock, d: AgentDraw, j: nat)
    requires WellFormedDraw(d, g.Keys) && j < |d.keys|
    ensures d.keys[j] in g
    ensures d.keys[j] in Give(g, map[], d, |d.keys|).1 <==> g[d.keys[j]].quantity > 2
  {
    var k := d.keys[j];
    assert k in g;
    assert forall m :: 0 <= m < j ==> d.keys[..j][m] != k;
    GivePoolUntouched(g, map[], d, j, k);
    GiveEntries(g, d, j);
    var prev := Give(g, map[], d, j);
    assert k !in prev.1;
    TransferEffect(prev.0, prev.1, k, d.quantitySeeds[j], d.idleSeeds[j]);
    GiveKeepsHolding(g, map[], d, j, |d.keys|);
  }

  /** An agent that starts empty ends its turn holding exactly the sampled ids of which the
      pool held more than 2 units. */
  lemma GiveHoldsExactly(g: Stock, d: AgentDraw)
    requires WellFormedDraw(d, g.Keys)
    ensures forall k :: k in Give(g, map[], d, |d.keys|).1 <==> k in d.keys && Qty(g, k) > 2
  {
    var held := Give(g, map[], d, |d.keys|).1;
    GiveEntries(g, d, |d.keys|);
    assert d.keys[..|d.keys|] == d.keys;
    forall k ensures k in held <==> k in d.keys && Qty(g, k) > 2 {
      if k in d.keys {
        var j :| 0 <= j < |d.keys| && d.keys[j] == k;
        GiveHolds(g, d, j);
      }
    }
  }

  /** One transfer keeps the pool's entry for `id` plus what the agent holds of it
      unchanged, provided the agent had no entry for the id transferred. */
  lemma TransferConserves(pool: Stock, a: Stock, k: string, quantitySeed: nat, idleSeed: nat,
                          id: string, original: StockRecord, next: (Stock, Stock))
    requires k in pool && id in pool
    requires k == id ==> id !in a
    requires pool[id].quantity + Qty(a, id) == original.quantity
    requires pool[id].idleStock + Qty(a, id) == original.idleStock
    requires next == Transfer(pool, a, k, quantitySeed, idleSeed)
    ensures next.0[id].quantity + Qty(next.1, id) == original.quantity
    ensures next.0[id].idleStock + Qty(next.1, id) == original.idleStock
  {
    TransferEffect(pool, a, k, quantitySeed, idleSeed);
  }

  /** One agent's transfers, starting from an empty agent inventory, move units without
      creating or losing any: for every global id, what is left globally plus what the agent
      now holds is what the global pool held before. */
  lemma {:induction false} GiveConserves(g: Stock, d: AgentDraw, j: nat, id: string)
    requires WellFormedDraw(d, g.Keys) && j <= |d.keys|
    requires id in g
    ensures var r := Give(g, map[], d, j);
      r.0[id].quantity + Qty(r.1, id) == g[id].quantity &&
      r.0[id].idleStock + Qty(r.1, id) == g[id].idleStock
    decreases j
  {
    if j > 0 {
      GiveConserves(g, d, j - 1, id);
      var prev := Give(g, map[], d, j - 1);
      var k := d.keys[j - 1];
      assert prev.0.Keys == g.Keys && k in g;
      if k == id {
        GiveEntries(g, d, j - 1);
        assert id !in d.keys[..j - 1];
      }
      var next := Transfer(prev.0, prev.1, k, d.quantitySeeds[j - 1], d.idleSeeds[j - 1]);
      TransferConserves(prev.0, prev.1, k, d.quantitySeeds[j - 1], d.idleSeeds[j - 1], id, g[id], next);
    }
  }

  /** One agent's turn changes no other agent's inventory, nor its own when its sample
      cannot be taken. */
  lemma ServeUntouched(prev: Outcome, d: AgentDraw, i: nat, next: Outcome, m: nat)
    requires i < |prev.agents| && m < |prev.agents|
    requires !SampleFails(d, |prev.global.Keys|) ==> WellFormedDraw(d, prev.global.Keys)
    requires next == Serve(prev, d, i)
    requires m != i || SampleFails(d, |prev.global.Keys|)
    ensures next.agents[m] == prev.agents[m]
  {
  }

  /** Distribution to the first `n` agents leaves alone the inventory of agent `i` when it
      is not among them or when its sample cannot be taken. */
  lemma {:induction false} DistributeUntouched(g: Stock, agents: seq<Stock>, draws: seq<AgentDraw>, n: nat, i: nat)
    requires n <= |draws| == |agents|
    requires SamplesFrom(draws, g.Keys)
    requires i < |agents| && (n <= i || SampleFails(draws[i], |g.Keys|))
    ensures Distribute(g, agents, draws, n).agents[i] == agents[i]
    decreases n
  {
    if n > 0 {
      DistributeUntouched(g, agents, draws, n - 1, i);
      var prev := Distribute(g, agents, draws, n - 1);
      assert !SampleFails(draws[n - 1], |g.Keys|) ==> WellFormedDraw(draws[n - 1], g.Keys);
      ServeUntouched(prev, draws[n - 1], n - 1, Distribute(g, agents, draws, n), i);
    }
  }

  /** An agent served from an empty inventory ends up with entries made out of the global
      pool as it stood before its turn. */
  lemma ServeEntries(prev: Outcome, d: AgentDraw, i: nat, next: Outcome)
    requires i < |prev.agents| && prev.agents[i] == map[]
    requires !SampleFails(d, |prev.global.Keys|) ==> WellFormedDraw(d, prev.global.Keys)
    requires next == Serve(prev, d, i)
    ensures next.agents[i] == map[] || EntriesFrom(next.agents[i], d.keys, prev.global)
  {
    if prev.ok && !SampleFails(d, |prev.global.Keys|) {
      GiveEntries(prev.global, d, |d.keys|);
      assert d.keys[..|d.keys|] == d.keys;
    }
  }

  /** Serving agent `i` from an empty inventory keeps every agent's entries made out of the
      original pool `g`, given that the pool so far has only been withdrawn from. */
  lemma ServeKeepsEntries(g: Stock, prev: Outcome, draws: seq<AgentDraw>, i: nat, next: Outcome)
    requires i < |draws| == |prev.agents|
    requires prev.agents[i] == map[]
    requires WithdrawnAll(g, prev.global)
    requires !SampleFails(draws[i], |prev.global.Keys|) ==> WellFormedDraw(draws[i], prev.global.Keys)
    requires AllEntriesFrom(prev.agents, draws, g)
    requires next == Serve(prev, draws[i], i)
    ensures AllEntriesFrom(next.agents, draws, g)
  {
    ServeEntries(prev, draws[i], i, next);
    forall m | 0 <= m < |next.agents| ensures EntriesFrom(next.agents[m], draws[m].keys, g) {
      if m == i {
        if next.agents[m] != map[] {
          EntriesFromEarlier(next.agents[m], draws[m].keys, g, prev.global);
        }
      } else {
        ServeUntouched(prev, draws[i], i, next, m);
      }
    }
  }

  /** The state after distributing to the first `n` agents, starting from empty agent
      inventories: the global pool has only been withdrawn from, every agent holds only
      new entries for ids it sampled, and the agents not yet served hold nothing. */
  predicate DistributedSoFar(g: Stock, draws: seq<AgentDraw>, n: nat, r: Outcome)
  {
    && |r.agents| == |draws|
    && WithdrawnAll(g, r.global)
    && AllEntriesFrom(r.agents, draws, g)
    && forall i :: n <= i < |r.agents| ==> r.agents[i] == map[]
  }

  /** Serving the next agent moves the state on by one agent. */
  lemma ServeDistributes(g: Stock, draws: seq<AgentDraw>, i: nat, prev: Outcome, next: Outcome)
    requires i < |draws|
    requires DistributedSoFar(g, draws, i, prev)
    requires !SampleFails(draws[i], |g.Keys|) ==> WellFormedDraw(draws[i], g.Keys)
    requires next == Serve(prev, draws[i], i)
    ensures DistributedSoFar(g, draws, i + 1, next)
  {
    ServeWithdraws(prev, draws[i], i, next);
    WithdrawnAllTransitive(g, prev.global, next.global);
    ServeKeepsEntries(g, prev, draws, i, next);
    forall m | i + 1 <= m < |next.agents| ensures next.agents[m] == map[] {
      ServeUntouched(prev, draws[i], i, next, m);
    }
  }

  /** Starting from empty agent inventories, distribution only withdraws from the global
      pool (see `Withdrawn`), every agent ends up holding only ids it sampled, each a new
      entry made out of the original global entry, and agents not yet served hold nothing. */
  lemma {:induction false} DistributeShape(g: Stock, agents: seq<Stock>, draws: seq<AgentDraw>, n: nat)
    requires n <= |draws| == |agents|
    requires SamplesFrom(draws, g.Keys)
    requires forall i :: 0 <= i < |agents| ==> agents[i] == map[]
    ensures DistributedSoFar(g, draws, n, Distribute(g, agents, draws, n))
    decreases n
  {
    if n == 0 {
      assert WithdrawnAll(g, g);
      forall i | 0 <= i < |agents| ensures EntriesFrom(agents[i], draws[i].keys, g) {
        assert agents[i] == map[];
      }
    } else {
      DistributeShape(g, agents, draws, n - 1);
      var prev := Distribute(g, agents, draws, n - 1);
      var d := draws[n - 1];
      assert !SampleFails(d, |g.Keys|) ==> WellFormedDraw(d, g.Keys);
      var next := Serve(prev, d, n - 1);
      ServeDistributes(g, draws, n - 1, prev, next);
    }
  }

  /** The pool's entry for `id` plus what all agents hold of it is the original quantity,
      and its idle counter plus what the agents hold is the original idle stock. */
  predicate Conserved(original: StockRecord, id: string, r: Outcome)
  {
    && id in r.global
    && r.global[id].quantity + HeldQuantity(r.agents, id) == original.quantity
    && r.global[id].idleStock + HeldQuantity(r.agents, id) == original.idleStock
  }

  /** Serving agent `i` from an empty inventory keeps the pool's entry for `id` plus what
      all agents hold of it unchanged, with the idle counter dropping by what is handed out. */
  lemma ServeConserves(prev: Outcome, d: AgentDraw, i: nat, id: string, original: StockRecord, next: Outcome)
    requires i < |prev.agents| && prev.agents[i] == map[]
    requires !SampleFails(d, |prev.global.Keys|) ==> WellFormedDraw(d, prev.global.Keys)
    requires Conserved(original, id, prev)
    requires next == Serve(prev, d, i)
    ensures Conserved(original, id, next)
  {
    if prev.ok && !SampleFails(d, |prev.global.Keys|) {
      var given := Give(prev.global, map[], d, |d.keys|);
      GiveConserves(prev.global, d, |d.keys|, id);
      HeldAfterUpdate(prev.agents, i, given.1, id);
    }
  }

  /** Conservation: starting from empty agent inventories, for every resource of the global
      inventory, what is left globally plus what all agents hold is what the global pool
      held before, and the idle counter drops by exactly the quantity handed out. */
  lemma {:induction false} DistributeConserves(g: Stock, agents: seq<Stock>, draws: seq<AgentDraw>, n: nat, id: string)
    requires n <= |draws| == |agents|
    requires SamplesFrom(draws, g.Keys)
    requires forall i :: 0 <= i < |agents| ==> agents[i] == map[]
    requires id in g
    ensures Conserved(g[id], id, Distribute(g, agents, draws, n))
    decreases n
  {
    if n == 0 {
      HeldByEmpty(agents, id);
    } else {
      DistributeConserves(g, agents, draws, n - 1, id);
      DistributeUntouched(g, agents, draws, n - 1, n - 1);
      DistributeConservesStep(g, agents, draws, n, id);
    }
  }

  /** Serving agent `n - 1`, whose inventory is still empty, keeps conservation for `id`. */
  lemma DistributeConservesStep(g: Stock, agents: seq<Stock>, draws: seq<AgentDraw>, n: nat, id: string)
    requires 0 < n <= |draws| == |agents|
    requires SamplesFrom(draws, g.Keys)
    requires id in g
    requires Distribute(g, agents, draws, n - 1).agents[n - 1] == map[]
    requires Conserved(g[id], id, Distribute(g, agents, draws, n - 1))
    ensures Conserved(g[id], id, Distribute(g, agents, draws, n))
  {
    var prev := Distribute(g, agents, draws, n - 1);
    var d := draws[n - 1];
    assert !SampleFails(d, |g.Keys|) ==> WellFormedDraw(d, g.Keys);
    var next := Serve(prev, d, n - 1);
    ServeConserves(prev, d, n - 1, id, g[id], next);
  }

  /** A set of ids all drawn from a sequence has no more elements than the sequence. */
  lemma {:induction false} SubsetOfSequenceSize(s: set<string>, keys: seq<string>)
    requires forall k :: k in s ==> k in keys
    ensures |s| <= |keys|
  {
    if keys != [] {
      var last := keys[|keys| - 1];
      var init := keys[..|keys| - 1];
      forall k | k in s - {last} ensures k in init {
        var m :| 0 <= m < |keys| && keys[m] == k;
        assert m < |keys| - 1;
      }
      SubsetOfSequenceSize(s - {last}, init);
    } else {
      assert s == {};
    }
  }

  /** Starting from empty agent inventories, an agent ends up with at most as many
      resources as the count it drew (none at all when its sample could not be taken). */
  lemma AtMostCountResources(g: Stock, agents: seq<Stock>, draws: seq<AgentDraw>, i: nat)
    requires i < |draws| == |agents|
    requires SamplesFrom(draws, g.Keys)
    requires forall m :: 0 <= m < |agents| ==> agents[m] == map[]
    ensures var held := Distribute(g, agents, draws, |draws|).agents[i];
      if SampleFails(draws[i], |g.Keys|) then held == map[] else |held| <= draws[i].count
  {
    var held := Distribute(g, agents, draws, |draws|).agents[i];
    if SampleFails(draws[i], |g.Keys|) {
      DistributeUntouched(g, agents, draws, |draws|, i);
    } else {
      DistributeShape(g, agents, draws, |draws|);
      assert EntriesFrom(held, draws[i].keys, g);
      SubsetOfSequenceSize(held.Keys, draws[i].keys);
    }
  }

  /** Later turns leave an agent's inventory as its own turn left it. */
  lemma {:induction false} DistributeKeepsServed(g: Stock, agents: seq<Stock>, draws: seq<AgentDraw>, i: nat, n: nat)
    requires i < n <= |draws| == |agents|
    requires SamplesFrom(draws, g.Keys)
    ensures Distribute(g, agents, draws, n).agents[i] == Distribute(g, agents, draws, i + 1).agents[i]
    decreases n
  {
    if n > i + 1 {
      DistributeKeepsServed(g, agents, draws, i, n - 1);
      var prev := Distribute(g, agents, draws, n - 1);
      assert !SampleFails(draws[n - 1], |g.Keys|) ==> WellFormedDraw(draws[n - 1], g.Keys);
      ServeUntouched(prev, draws[n - 1], n - 1, Distribute(g, agents, draws, n), i);
    }
  }

  /** Starting from empty agent inventories, an agent whose turn comes (no earlier sample
      failed) and whose sample can be taken ends up holding exactly the sampled ids of which
      the global pool held more than 2 units at the start of its turn; any other agent ends
      up holding nothing. */
  lemma DistributeHolds(g: Stock, agents: seq<Stock>, draws: seq<AgentDraw>, i: nat)
    requires i < |draws| == |agents|
    requires SamplesFrom(draws, g.Keys)
    requires forall m :: 0 <= m < |agents| ==> agents[m] == map[]
    ensures var before := Distribute(g, agents, draws, i);
      var held := Distribute(g, agents, draws, |draws|).agents[i];
      if before.ok && !SampleFails(draws[i], |g.Keys|)
      then forall k :: k in held <==> k in draws[i].keys && Qty(before.global, k) > 2
      else held == map[]
  {
    var before := Distribute(g, agents, draws, i);
    DistributeUntouched(g, agents, draws, i, i);
    if !before.ok {
      FailureSticks(g, agents, draws, i, |draws|);
    } else if SampleFails(draws[i], |g.Keys|) {
      DistributeUntouched(g, agents, draws, |draws|, i);
    } else {
      DistributeKeepsServed(g, agents, draws, i, |draws|);
      assert WellFormedDraw(draws[i], before.global.Keys);
      GiveHoldsExactly(before.global, draws[i]);
    }
  }

  // ---------------------------------------------------------------------------------------
  // The engine on the objects

  /** The inventories of the agents. */
  function Inventories(agents: seq<Agent>): set<Inventory>
  {
    set i | 0 <= i < |agents| :: agents[i].inventory
  }

  /** Every agent owns its own inventory, and none of them is the global one. */
  predicate SeparateInventories(agents: seq<Agent>, global: Inventory)
  {
    && (forall i, j :: 0 <= i < j < |agents| ==> agents[i].inventory != agents[j].inventory)
    && (forall i :: 0 <= i < |agents| ==> agents[i].inventory != global)
  }

  /** The contents of the agents' inventories, in agent order. */
  ghost function Stocks(agents: seq<Agent>): (s: seq<Stock>)
    reads Inventories(agents)
    ensures |s| == |agents|
    ensures forall i :: 0 <= i < |agents| ==> s[i] == agents[i].inventory.stock
  {
    seq(|agents|, i reads Inventories(agents) requires 0 <= i < |agents| => agents[i].inventory.stock)
  }

  /** Distributes the global inventory among the agents, in order, changing their inventories
      and the global one in place. Fails at the first agent whose sample cannot be taken,
      after the agents before it have been served. */
  method DistributeInventory(agents: seq<Agent>, minCount: int, maxCount: int, global: Inventory,
                             draws: seq<AgentDraw>) returns (ok: bool)
    requires |draws| == |agents|
    requires SeparateInventories(agents, global)
    requires forall i :: 0 <= i < |draws| ==> minCount <= draws[i].count <= maxCount
    requires SamplesFrom(draws, global.stock.Keys)
    modifies global, Inventories(agents)
    ensures Outcome(ok, global.stock, Stocks(agents)) ==
            Distribute(old(global.stock), old(Stocks(agents)), draws, |draws|)
  {
    ghost var g0, s0 := global.stock, Stocks(agents);
    assert global !in Inventories(agents);
    var i := 0;
    while i < |agents|
      invariant i <= |agents| == |s0|
      invariant Outcome(true, global.stock, Stocks(agents)) == Distribute(g0, s0, draws, i)
      invariant global.stock.Keys == g0.Keys
    {
      var d := draws[i];
      if SampleFails(d, |global.stock.Keys|) {
        DistributeStops(g0, s0, draws, i);
        return false;
      }
      assert agents[i].inventory in Inventories(agents);
      ServeTurn(agents, global, draws, i, g0, s0);
      i := i + 1;
    }
    ok := true;
  }

  /** The turn of agent `i` within the distribution: the state after the first `i` agents
      becomes the state after `i + 1`. */
  method ServeTurn(agents: seq<Agent>, global: Inventory, draws: seq<AgentDraw>, i: nat,
                   ghost g0: Stock, ghost s0: seq<Stock>)
    requires i < |draws| == |agents| == |s0|
    requires SeparateInventories(agents, global)
    requires SamplesFrom(draws, g0.Keys)
    requires Outcome(true, global.stock, Stocks(agents)) == Distribute(g0, s0, draws, i)
    requires !SampleFails(draws[i], |global.stock.Keys|)
    modifies global, agents[i].inventory
    ensures Outcome(true, global.stock, Stocks(agents)) == Distribute(g0, s0, draws, i + 1)
  {
    var inventory := agents[i].inventory;
    ghost var sStart := Stocks(agents);
    ServeAgent(inventory, global, draws[i]);
    forall m | 0 <= m < |agents| && m != i ensures agents[m].inventory.stock == sStart[m] {
      assert agents[m].inventory != inventory;
    }
    assert Stocks(agents) == sStart[i := inventory.stock];
    DistributeNext(g0, s0, draws, i, global.stock, inventory.stock);
  }

  /** When the first `i` agents have been served without a failure and agent `i` can take
      its sample, serving it gives the state after `i + 1` agents. */
  lemma DistributeNext(g: Stock, agents: seq<Stock>, draws: seq<AgentDraw>, i: nat,
                       global: Stock, inventory: Stock)
    requires i < |draws| == |agents|
    requires SamplesFrom(draws, g.Keys)
    requires Distribute(g, agents, draws, i).ok
    requires !SampleFails(draws[i], |g.Keys|)
    requires (global, inventory) == Give(Distribute(g, agents, draws, i).global,
                                         Distribute(g, agents, draws, i).agents[i], draws[i], |draws[i].keys|)
    ensures Distribute(g, agents, draws, i + 1) ==
            Outcome(true, global, Distribute(g, agents, draws, i).agents[i := inventory])
  {
  }

  /** One agent's turn: transfers each sampled resource in order from the global inventory
      into the agent's inventory. */
  method ServeAgent(inventory: Inventory, global: Inventory, d: AgentDraw)
    requires inventory != global
    requires WellFormedDraw(d, global.stock.Keys)
    modifies inventory, global
    ensures (global.stock, inventory.stock) == Give(old(global.stock), old(inventory.stock), d, |d.keys|)
  {
    for j := 0 to |d.keys|
      invariant (global.stock, inventory.stock) == Give(old(global.stock), old(inventory.stock), d, j)
    {
      TransferOne(inventory, global, d.keys[j], d.quantitySeeds[j], d.idleSeeds[j]);
    }
  }

  /** Moves a random part of the global pool's `id` into `inventory` (see `Transfer`). */
  method TransferOne(inventory: Inventory, global: Inventory, id: string, quantitySeed: nat, idleSeed: nat)
    requires inventory != global
    requires id in global.stock
    modifies inventory, global
    ensures (global.stock, inventory.stock) == Transfer(old(global.stock), old(inventory.stock), id, quantitySeed, idleSeed)
  {
    var q := global.stock[id].quantity;
    if q > 2 {
      var qty := Randint(1, q - 1, quantitySeed);
      var idle := Randint(0, qty, idleSeed);
      inventory.AddResource(id, global.stock[id].resource, qty, idle);
      // both counters of the global entry drop by the amount handed out
      global.stock := global.stock[id := global.stock[id].(quantity := q - qty,
                                                           idleStock := global.stock[id].idleStock - qty)];
    }
  }
}
