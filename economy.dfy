/** Inventories (resource id -> stock record) and the agents that own them. */
module Economy {
  import opened Resources

  /** One inventory entry. Quantities are unbounded integers: the global pool's idle
      counter can go below zero during distribution. */
  datatype StockRecord = StockRecord(resource: Resource, quantity: int, idleStock: int, locked: int)

  /** The contents of an inventory. */
  type Stock = map<string, StockRecord>

  /** The quantity of `id` an inventory holds, 0 when it has no entry for it. */
  function Qty(s: Stock, id: string): int
  {
    if id in s then s[id].quantity else 0
  }

  /** The idle stock of `id` an inventory holds, 0 when it has no entry for it. */
  function Idle(s: Stock, id: string): int
  {
    if id in s then s[id].idleStock else 0
  }

  /** The total quantity of `id` held across a sequence of inventories. */
  function HeldQuantity(stocks: seq<Stock>, id: string): int
  {
    if stocks == [] then 0 else HeldQuantity(stocks[..|stocks| - 1], id) + Qty(stocks[|stocks| - 1], id)
  }

  /** The total idle stock of `id` held across a sequence of inventories. */
  function HeldIdle(stocks: seq<Stock>, id: string): int
  {
    if stocks == [] then 0 else HeldIdle(stocks[..|stocks| - 1], id) + Idle(stocks[|stocks| - 1], id)
  }

  /** Replacing one inventory of a sequence changes the totals held by exactly the difference. */
  lemma {:induction false} HeldAfterUpdate(stocks: seq<Stock>, i: nat, s: Stock, id: string)
    requires i < |stocks|
    ensures HeldQuantity(stocks[i := s], id) == HeldQuantity(stocks, id) - Qty(stocks[i], id) + Qty(s, id)
    ensures HeldIdle(stocks[i := s], id) == HeldIdle(stocks, id) - Idle(stocks[i], id) + Idle(s, id)
  {
    var n := |stocks|;
    var updated := stocks[i := s];
    assert updated[..n - 1] == if i < n - 1 then stocks[..n - 1][i := s] else stocks[..n - 1];
    if i < n - 1 {
      HeldAfterUpdate(stocks[..n - 1], i, s, id);
    }
  }

  /** Inventories with no entries hold nothing. */
  lemma {:induction false} HeldByEmpty(stocks: seq<Stock>, id: string)
    requires forall i :: 0 <= i < |stocks| ==> stocks[i] == map[]
    ensures HeldQuantity(stocks, id) == 0 && HeldIdle(stocks, id) == 0
  {
    if stocks != [] {
      HeldByEmpty(stocks[..|stocks| - 1], id);
    }
  }

  /** The sums of the idle stocks and of the quantities over every entry of an inventory,
      in that order (one choice of entry for both sums). */
  ghost function StockTotals(s: Stock): (t: (int, int))
    decreases s.Keys
  {
    if s == map[] then (0, 0)
    else
      var id :| id in s;
      var rest := StockTotals(s - {id});
      (rest.0 + s[id].idleStock, rest.1 + s[id].quantity)
  }

  /** An entry whose idle portion lies between zero and its quantity. */
  predicate WellFormed(r: StockRecord)
  {
    0 <= r.idleStock <= r.quantity
  }

  /** When every entry is well formed, the idle total lies between zero and the quantity total. */
  lemma {:induction false} StockTotalsBounds(s: Stock)
    requires forall id :: id in s ==> WellFormed(s[id])
    ensures 0 <= StockTotals(s).0 <= StockTotals(s).1
    decreases s.Keys
  {
    if s != map[] {
      var id :| id in s && StockTotals(s) ==
        (StockTotals(s - {id}).0 + s[id].idleStock, StockTotals(s - {id}).1 + s[id].quantity);
      StockTotalsBounds(s - {id});
    }
  }

  /** An inventory: a dictionary from resource id to stock record, updated in place. */
  class Inventory {
    var stock: Stock

    constructor ()
      ensures stock == map[]
    {
      stock := map[];
    }

    /** Adds (or replaces) the entry for `id`; the new entry has nothing locked. */
    method AddResource(id: string, resource: Resource, quantity: int, idleStock: int)
      modifies this
      ensures stock == old(stock)[id := StockRecord(resource, quantity, idleStock, 0)]
    {
      stock := stock[id := StockRecord(resource, quantity, idleStock, 0)];
    }

    /** Sets how much of `id` is idle; fails (a missing key) without changing anything when
        the inventory has no entry for `id`. */
    method UpdateInventoryPolicy(id: string, newIdleStock: int) returns (ok: bool)
      modifies this
      ensures ok <==> id in old(stock)
      ensures stock.Keys == old(stock).Keys
      ensures forall other :: other in stock && other != id ==> stock[other] == old(stock)[other]
      ensures ok ==> stock[id] == old(stock)[id].(idleStock := newIdleStock)
    {
      ok := id in stock;
      if ok {
        stock := stock[id := stock[id].(idleStock := newIdleStock)];
      }
    }

    /** Sets the quantity of `id`; fails (a missing key) without changing anything when
        the inventory has no entry for `id`. */
    method UpdateQuantity(id: string, newQuantity: int) returns (ok: bool)
      modifies this
      ensures ok <==> id in old(stock)
      ensures stock.Keys == old(stock).Keys
      ensures forall other :: other in stock && other != id ==> stock[other] == old(stock)[other]
      ensures ok ==> stock[id] == old(stock)[id].(quantity := newQuantity)
    {
      ok := id in stock;
      if ok {
        stock := stock[id := stock[id].(quantity := newQuantity)];
      }
    }
  }

  datatype AgentType = DecentralizationConscious | Honest | Rational

  /** A participant; its inventory is the only part that changes after creation. */
  class Agent {
    const id: string
    const economies: seq<string>
    const agentType: AgentType
    const inventory: Inventory

    constructor (id: string, economies: seq<string>, agentType: AgentType)
      ensures this.id == id && this.economies == economies && this.agentType == agentType
      ensures fresh(inventory) && inventory.stock == map[]
    {
      this.id := id;
      this.economies := economies;
      this.agentType := agentType;
      inventory := new Inventory();
    }
  }
}
