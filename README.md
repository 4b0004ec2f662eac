# Gift Economies of Scale: inventories, distribution and decentralization metrics

A Dafny model of the setup phase of the Gift Economies of Scale simulation (`module/geos.py`),
with proofs about it. The simulation seeds a population of agents with a random share of a
global inventory and then measures how evenly the resources are spread out.

The model has five modules.

- `Resources` (`resources.dfy`) builds the resource catalog. There are `n1` complex resources and
  `n2` atomic ones, named `resource_0`, `resource_1`, … from one shared counter. Each
  (complex, atomic) pair gets a coin flip that decides whether the complex resource depends on
  the atomic one. The flips are an input (`flips[i][j]`).
- `Economy` (`economy.dfy`) holds the stock records and the `Inventory` class, whose stock
  dictionary its methods update in place. It also holds the `Agent` class and the per-resource
  sums over a sequence of inventories.
- `Solvers` (`solver.dfy`) holds the `Solver` class. Its request list grows by appending and
  shrinks by removing the first occurrence of each id.
- `Distribution` (`distribution.dfy`) is the distribution engine. `DistributeInventory` mutates
  the agents' inventories and the global one in place. It is proved equal to the functional
  specification `Distribute`, and the lemmas prove the following about `Distribute`:
  - conservation of quantity;
  - the low-stock skip;
  - the global quantity never reaching 0;
  - well-formed agent entries;
  - at most `count` resources per agent, and exactly the sampled ids of which the pool held
    more than 2 units;
  - an unchanged key set.
- `Metrics` (`metrics.dfy`) holds the four read-only indicators:
  - cumulative idling capacity;
  - the concentration index;
  - the distribution index;
  - the decentralization index.

  Each is computed on exact reals, and the model proves bounds, zero-denominator conditions and
  characteristic values for each.

The random source is explicit:
- For each agent, an `AgentDraw` gives the drawn resource count and the sampled ids.
- It also gives one raw quantity draw and one raw idle draw per sampled id.
- `Randint(lo, hi, seed)` maps a raw draw into the inclusive range, because that range depends
  on the global quantity left at that moment.
- `RandintCovers` shows that every value of the range is reachable.

Three behaviours of the source that the model keeps as they are:
- A holder is an agent with an entry for the resource, whatever its quantity
  (module/geos.py:299, module/geos.py:324).
- A zero total raises ZeroDivisionError (module/geos.py:280, module/geos.py:284,
  module/geos.py:327); the model returns `DivisionByZero`.
- The global idle counter drops by the whole quantity moved (module/geos.py:365) and can go
  negative, so it is an `int`.

## Model

| member | source | states |
|---|---|---|
| Economy.Inventory.constructor | module/geos.py:42-43 | a new inventory has an empty stock |
| Economy.Inventory.AddResource | module/geos.py:45-54 | the entry for the id becomes the given resource, quantity and idle stock with nothing locked; every other entry is unchanged |
| Economy.Inventory.UpdateInventoryPolicy | module/geos.py:56-60 | a missing id fails and changes nothing; otherwise only the idle stock of that one entry changes |
| Economy.Inventory.UpdateQuantity | module/geos.py:62-66 | a missing id fails and changes nothing; otherwise only the quantity of that one entry changes |
| Economy.Agent.constructor | module/geos.py:22-27 | a new agent has the given id, economies and type, and a fresh empty inventory of its own |
| Economy.HeldAfterUpdate | module/geos.py:263-270 | replacing one inventory changes the quantity and idle totals held by exactly the difference of its entries |
| Economy.HeldByEmpty | module/geos.py:263-270 | empty inventories hold nothing |
| Economy.StockTotalsBounds | module/geos.py:263-278 | with well-formed entries, an inventory's idle total lies between zero and its quantity total |
| Solvers.Solver.constructor | module/geos.py:140-144 | a new solver has the given id, roles and economies and no requests |
| Solvers.Solver.AddRequests | module/geos.py:146-151 | the ids are appended in order; the id, roles and economies cannot change |
| Solvers.Solver.RemoveRequests | module/geos.py:153-158 | the new list and success flag are those of `RemoveEach`: the first occurrence of each id is removed in turn, stopping with failure at the first absent id and keeping the removals already made |
| Solvers.FirstIndex | module/geos.py:158 | the returned position holds the element and no earlier position does |
| Solvers.RemoveFirstCutsFirstOccurrence | module/geos.py:158 | removing an element that occurs cuts out exactly its first occurrence |
| Solvers.RemoveFirstMultiset | module/geos.py:158 | removing an element that occurs takes exactly one copy of it out of the multiset |
| Solvers.RemoveEachMultiset | module/geos.py:153-158 | removal succeeds exactly when the list holds every id as many times as they are named, and then exactly those copies leave |
| Solvers.AddThenRemove | module/geos.py:146-158 | adding ids and then removing the same ids succeeds and restores the original requests up to order |
| Resources.DecimalString | module/geos.py:224 | the decimal form of a number is non-empty and has one digit exactly when the number is below 10 |
| Resources.DecimalStringInjective | module/geos.py:224 | different counters give different decimal strings |
| Resources.ResourceNameInjective | module/geos.py:224 | different counters give different resource ids |
| Resources.ResourceIdsNext | module/geos.py:224-240 | each counter value adds exactly one new id |
| Resources.ResourceIdsCount | module/geos.py:217-240 | the first n ids are n distinct strings |
| Resources.DependencyMapNext | module/geos.py:244-248 | one more flip of a row adds its atomic resource to the parent's dependencies exactly when it came up true |
| Resources.DependencyIdsMember | module/geos.py:244-248 | after a whole row, an atomic resource is a dependency exactly when its flip came up true |
| Resources.NumberedNext | module/geos.py:222-240 | adding the resource with the next counter value, its kind fixed by the counter, numbers one more resource |
| Resources.NumberResources | module/geos.py:217-240 | the complex resources take the counter values below n1 and the atomic ones the next n2, none with dependencies |
| Resources.NumberedLinked | module/geos.py:240-243 | the numbered catalog is the state before any flip |
| Resources.LinkedNext | module/geos.py:246-248 | applying one flip to the state before it gives the state after it |
| Resources.LinkedNextParent | module/geos.py:246-248 | one flip leaves its complex resource with the dependencies of the flips of its row so far |
| Resources.LinkedNextOther | module/geos.py:246-248 | one flip leaves every other resource as it was |
| Resources.LinkedRowDone | module/geos.py:243-244 | finishing one complex resource's row is starting the next one |
| Resources.LinkRow | module/geos.py:244-248 | the flips of one complex resource's row are applied in order |
| Resources.LinkAll | module/geos.py:243-248 | every row of flips is applied, complex resource by complex resource |
| Resources.InitResources | module/geos.py:211-250 | exactly n1+n2 resources named resource_0… from one counter; the first n1 complex and the rest atomic; atomic ones without dependencies; a complex one depends on an atomic one exactly when their flip came up true; every edge goes from complex to atomic and maps the id to itself |
| Resources.CatalogKinds | module/geos.py:217-240 | the finished catalog has n1+n2 entries with the right ids and kinds, and the atomic ones have no dependencies |
| Resources.CatalogFlips | module/geos.py:242-248 | a complex resource depends on an atomic one exactly when their flip came up true |
| Resources.CatalogEdges | module/geos.py:242-248 | every dependency goes from a complex resource to an atomic resource of the catalog and maps the id to itself |
| Distribution.Randint | module/geos.py:352-358 | a draw from an inclusive range lies in that range |
| Distribution.RandintCovers | module/geos.py:352-358 | every value of the range is the draw of some raw output |
| Distribution.Transfer | module/geos.py:349-365 | a transfer never changes the global key set |
| Distribution.TransferEffect | module/geos.py:349-365 | with at most 2 units globally nothing changes; otherwise the agent gets a new entry of 1 to quantity−1 units, with 0 to that many idle and nothing locked, and both global counters drop by the quantity moved |
| Distribution.Give | module/geos.py:347-365 | an agent's transfers never change the global key set |
| Distribution.Serve | module/geos.py:342-365 | an agent's turn keeps the global keys and the number of agents, and succeeds only if the distribution had not failed and the sample can be taken |
| Distribution.Distribute | module/geos.py:337-367 | the distribution keeps the global key set and the number of agents |
| Distribution.FailureSticks | module/geos.py:345 | once a sample has failed, later agents change nothing |
| Distribution.DistributeStops | module/geos.py:344-345 | a sample that cannot be taken ends the distribution failed, in the state after the agents before it |
| Distribution.WithdrawnAllTransitive | module/geos.py:364-365 | withdrawals followed by withdrawals are withdrawals |
| Distribution.TransferWithdraws | module/geos.py:351-365 | one transfer only withdraws from the global pool: both counters drop by the same amount, an entry with at most 2 units stays as it was, and an entry with at least 1 unit keeps at least 1 |
| Distribution.GiveWithdraws | module/geos.py:347-365 | one agent's transfers only withdraw from the global pool |
| Distribution.TransferWithdrawsFrom | module/geos.py:351-365 | a transfer out of a pool that has only been withdrawn from keeps it so |
| Distribution.ServeWithdraws | module/geos.py:342-365 | one agent's turn only withdraws from the global pool |
| Distribution.EntriesFromEarlier | module/geos.py:352-361 | entries made from a later state of the pool were made from an earlier state too |
| Distribution.TransferEntries | module/geos.py:352-361 | a transfer adds at most one entry, for the id transferred, with 1 to fewer-than-global units, idle within it and nothing locked |
| Distribution.GiveEntries | module/geos.py:347-361 | an agent that starts empty holds only entries for ids it sampled, each a new well-formed entry made from the global one |
| Distribution.GiveEntriesStep | module/geos.py:347-361 | each transfer of a turn keeps the agent's entries made from the original pool |
| Distribution.TransferOther | module/geos.py:349-365 | a transfer of one id leaves every other id's pool entry and agent entry as they were |
| Distribution.GivePoolUntouched | module/geos.py:347-365 | before an id's own transfer in a turn, its pool entry is the one the turn started with |
| Distribution.GiveKeepsHolding | module/geos.py:347-361 | after an id's own transfer, later transfers of the turn do not change whether the agent holds it |
| Distribution.GiveHolds | module/geos.py:347-361 | an agent that starts empty holds a sampled id after its turn exactly when the pool held more than 2 units of it |
| Distribution.GiveHoldsExactly | module/geos.py:347-361 | an agent that starts empty holds, after its turn, exactly the sampled ids of which the pool held more than 2 units |
| Distribution.TransferConserves | module/geos.py:361-365 | one transfer keeps the global quantity plus the agent's holding constant, and the global idle counter plus that holding constant |
| Distribution.GiveConserves | module/geos.py:347-365 | one agent's transfers move units without creating or losing any |
| Distribution.ServeUntouched | module/geos.py:342-365 | an agent's turn changes no other agent's inventory, and not its own when its sample fails |
| Distribution.DistributeUntouched | module/geos.py:342-365 | agents not yet served, or whose sample failed, keep their inventories |
| Distribution.ServeEntries | module/geos.py:342-361 | an agent served from empty holds only entries made from the pool as it stood before its turn |
| Distribution.ServeKeepsEntries | module/geos.py:342-361 | serving one agent keeps every agent's entries made from the original pool |
| Distribution.ServeDistributes | module/geos.py:342-365 | serving the next agent moves the distributed-so-far state on by one agent |
| Distribution.DistributeShape | module/geos.py:337-367 | from empty agents, the pool is only withdrawn from (so an entry above 2 units never reaches 0 and one with 2 or fewer is untouched), every agent holds only ids it sampled as well-formed new entries, and agents not yet served hold nothing |
| Distribution.ServeConserves | module/geos.py:342-365 | one agent's turn preserves conservation of a resource |
| Distribution.DistributeConserves | module/geos.py:342-365 | from empty agents, for every global resource, what is left globally plus what all agents hold is the original quantity, and the global idle counter drops by exactly what was handed out |
| Distribution.DistributeConservesStep | module/geos.py:342-365 | serving the next agent, still empty, preserves conservation |
| Distribution.SubsetOfSequenceSize | module/geos.py:345-347 | a set of ids drawn from a sequence is no larger than the sequence |
| Distribution.AtMostCountResources | module/geos.py:344-361 | an agent ends up with at most as many resources as the count it drew, and with none when its sample failed |
| Distribution.DistributeKeepsServed | module/geos.py:342-365 | later turns leave an agent's inventory as its own turn left it |
| Distribution.DistributeHolds | module/geos.py:342-365 | from empty agents, an agent whose turn comes and whose sample can be taken ends up holding exactly the sampled ids of which the pool held more than 2 units at the start of its turn; any other agent ends up holding nothing |
| Distribution.DistributeInventory | module/geos.py:337-367 | the success flag and the new global and agent inventories are exactly those of `Distribute` on the old ones |
| Distribution.ServeTurn | module/geos.py:342-365 | one agent's turn moves the in-place state from `Distribute` after i agents to after i+1 |
| Distribution.DistributeNext | module/geos.py:342-365 | serving agent i after a successful prefix gives the state after i+1 agents |
| Distribution.ServeAgent | module/geos.py:347-365 | the global and agent inventories become those of `Give` on the old ones |
| Distribution.TransferOne | module/geos.py:349-365 | the global and agent inventories become those of `Transfer` on the old ones |
| Metrics.RatioBounds | module/geos.py:280 | a part over a positive whole is a fraction |
| Metrics.RatioExtremes | module/geos.py:327 | such a fraction is 0 exactly for an empty part and 1 exactly for the whole |
| Metrics.DivideMonotone | module/geos.py:284 | dividing by the same positive count keeps the order |
| Metrics.CumulativeIdlingCapacity | module/geos.py:252-286 | when defined, there is one per-resource ratio for each resource of the global inventory |
| Metrics.HeldWithGlobal | module/geos.py:272-278 | the global inventory adds its own entry to the totals |
| Metrics.HeldBounds | module/geos.py:263-270 | with well-formed entries, a resource's idle total lies between zero and its quantity total |
| Metrics.TotalsBounds | module/geos.py:263-278 | with well-formed entries, the overall idle total lies between zero and the overall quantity total |
| Metrics.StockTotalsCovers | module/geos.py:269-270 | one entry's quantity is at most its inventory's quantity total |
| Metrics.TotalsCoverHeld | module/geos.py:269-278 | a resource's quantity total is at most the overall quantity total |
| Metrics.IdlingCapacityBounds | module/geos.py:280-284 | with well-formed entries, the overall and every per-resource ratio lie in [0, 1] |
| Metrics.IdlingCapacityDefined | module/geos.py:280-284 | with well-formed entries and a non-empty global inventory, the computation succeeds exactly when every global resource has a positive quantity total |
| Metrics.HeldAfterDistribution | module/geos.py:337-367 | after distribution from empty agents, a resource's quantity total over agents and global is its original quantity and its idle total has not grown |
| Metrics.HeldWithConservedGlobal | module/geos.py:263-278 | conservation of a resource gives the totals over the agents and the global inventory |
| Metrics.DistributedHeldBounds | module/geos.py:358-361 | after distribution, the agents declare between zero and all of what they hold idle |
| Metrics.DistributedWellFormed | module/geos.py:358-361 | after distribution, every agent entry is well formed |
| Metrics.IdlingAfterDistribution | module/geos.py:252-286 | after distribution, each resource's idling capacity is at most the global inventory's original idle ratio |
| Metrics.SumAppend | module/geos.py:302 | appending a number adds it to the sum |
| Metrics.HoldingsTotal | module/geos.py:298-302 | the holders' quantities add up to the total quantity held |
| Metrics.HoldingsAll | module/geos.py:298-300 | a property of every holder's quantity holds of every holding |
| Metrics.Shares | module/geos.py:307-308 | one share per holder |
| Metrics.Max | module/geos.py:312 | the largest share occurs and bounds every share |
| Metrics.Min | module/geos.py:312 | the smallest share occurs and is below every share |
| Metrics.ConcentrationIndex | module/geos.py:289-314 | the result is the no-stock case exactly when the total quantity held is 0 |
| Metrics.ElementAtMostSum | module/geos.py:302-308 | a sum of non-negative numbers is at least each of them |
| Metrics.ConcentrationBounds | module/geos.py:307-314 | with no negative holdings, the shares, the smallest and largest share and the index all lie in [0, 1] |
| Metrics.SumConstant | module/geos.py:302 | the sum of n equal holdings is n times one of them |
| Metrics.ConcentrationEqualHoldings | module/geos.py:307-314 | when every holder holds the same non-zero total, each share is one over the number of holders and the index is 1 |
| Metrics.ConstantExtremes | module/geos.py:312 | among equal shares the smallest and largest are that share |
| Metrics.EqualShare | module/geos.py:307-308 | each of n equal non-zero parts is one n-th of their sum |
| Metrics.DivideCancel | module/geos.py:308 | an amount over n copies of itself is one n-th |
| Metrics.ConcentrationIgnoresIdle | module/geos.py:289-314 | the index depends only on who holds the resource and in what quantity, not on idle stock |
| Metrics.HoldersCount | module/geos.py:321-325 | the holders are one per holding and at most the number of agents; none exactly when no inventory has an entry, all exactly when every one has |
| Metrics.DistributionIndex | module/geos.py:316-327 | the computation fails exactly when the agent count is 0 |
| Metrics.DistributionIndexBounds | module/geos.py:316-327 | over all the agents the index lies in [0, 1], is 0 exactly when nobody holds the resource and 1 exactly when everybody does |
| Metrics.DecentralizationIndex | module/geos.py:330-334 | the index lies between the two indices and equally far from each |
| Metrics.DecentralizationBounds | module/geos.py:330-334 | of two fractions it is a fraction, 1 exactly when both are 1 and 0 exactly when both are 0 |
| Metrics.ResourceDecentralizationBounds | module/geos.py:316-334 | a resource's decentralization index among all agents lies in [0, 1] when no agent holds a negative quantity |

## Left out

- Randomness (`random.randint`, `random.sample`, `random.choices`) is not modelled as a
  distribution. The counts, the sampled ids and the coin flips are inputs. The quantity and idle
  draws are raw values that `Randint` maps into range.
- Sampling from the global inventory's keys (module/geos.py:345) is taken to mean sampling
  distinct ids of that key set, as Python 3.9 and 3.10 do for a `dict_keys` view. From Python
  3.11 on, `random.sample` refuses a view that is not a sequence, so the function would fail at
  the first agent; that behaviour is not modelled. The order in which ids are sampled is not
  modelled either.
- Rounding to two decimals (`round(x, 2)`) is not modelled. Every ratio is the exact real quotient,
  and no binary floating point is modelled.
- `make_copy` (module/geos.py:68-72) is not modelled. It returns the inventory itself, and nothing
  in the modelled code calls it.
- `init_agents` and `init_solvers` (module/geos.py:161-209) are not modelled. They only wrap
  library sampling; agents and solvers are built directly with their constructors.
- The data-only classes `Constraint`, `DonationReceipt`, `DonationResponse` and `Request` are
  not modelled. `Resource` is a datatype. An agent's receipts list is not modelled, because
  nothing here reads it.
- The unused `sklearn` import and the commented-out normalisation are not modelled.
- `calculate_concentration_index` returns a bare number in one case and a triple in the other.
  The model uses a two-case datatype (`NoStock` / `Concentrated`). `IndexValue` gives the number
  used in the decentralization index.
- Distribution.DistributeInventory: the `min_count <= max_count` check that `random.randint`
  performs is not modelled. The drawn counts are given, and they must lie between the bounds.
  A negative or too large count is the failed sample.
- Distribution.DistributeInventory: the properties after distribution assume that agents start
  with empty inventories, as agents are created. The in-place method itself places no such
  requirement.
- Distribution.DistributeInventory: the stock records are values. Python stores the same
  `Resource` object in the global and agent entries, and that sharing is not modelled, because
  nothing in the core changes a resource after the catalog is built.
- Economy.StockTotals: the overall idle and quantity totals sum each inventory's entries in a
  chosen order. Python's dictionary order is not modelled, because integer sums do not depend
  on it.
- Metrics.CumulativeIdlingCapacity: the two zero divisions (overall, then per resource) are
  reported as one `DivisionByZero` result. Which of the two came first is not distinguished.
