# Metta: trainer helpers, agent inventory and the attack action

Verified Dafny models of three parts of Metta:

- **Trainer helpers** of the reinforcement-learning loop (`metta/rl/functions.py`):
  - the batch-size arithmetic;
  - the epoch/rank gate for periodic tasks;
  - the accumulation of rollout statistics into the caller's dictionary;
  - the choice of old policy checkpoints to delete.
- **The agent of the MettaGrid world** (`objects/agent.hpp`):
  - the clamped inventory update and its stat counters;
  - the observation tokens;
  - the swap rule.
- **The attack action** (`actions/attack.hpp`):
  - argument check and aiming;
  - payment of the attack cost;
  - the target's defence;
  - freezing;
  - stealing the target's inventory.

Modules and files:

| file | module | models |
|---|---|---|
| `trainer_schedule.dfy` | `TrainerSchedule` | `calculate_batch_sizes`, `should_run_on_interval`, Python's `//` and `%` |
| `rollout_stats.dfy` | `RolloutStats` | `accumulate_rollout_stats`, with the caller's dictionary as class `StatsDict` |
| `policy_cleanup.dfy` | `PolicyCleanup` | the file selection of `cleanup_old_policies` |
| `agents.dfy` | `Agents` | class `Agent`: `update_inventory`, `obs_features`, `swappable`, the stats counters |
| `attacks.dfy` | `Attacks` | class `Attack`: `_handle_action`, `_handle_target`, `max_arg` |

How each part is modelled:

- **Agents and the attack (imperative C++).** These are classes whose methods change fields in place.
  - Each method is proved equal to a function on values:
    - `Agent.UpdateInventory` to `InventoryUpdate`;
    - `HitAgent` to `HitTarget`;
    - `StealLoot` to `StealAll`, and so on.
  - The properties are then lemmas about those functions:
    - the clamp;
    - the erased zero entries;
    - the exact payment of costs;
    - per-item conservation when stealing;
    - the blocked and unblocked branches.
  - A read through `std::map::operator[]` is modelled as two steps:
    - a lookup with default 0 (`ValueAt`);
    - the insertion of a 0 entry (`Touch`).

    So the zero entries that the defence and cost checks leave behind are part of the state.
  - `std::map` iteration is the ascending key order `OrderedKeys`.
  - Each stats tracker is a `map<string, int>` of counters.
  - `inventory_item_name` is an opaque function held by each agent.
  - The grid lookup is an input:
    - `HandleTarget` takes an optional agent;
    - `HandleAction` takes a map from aims to agents other than the actor.
- **Trainer helpers (Python).**
  - `accumulate_rollout_stats` keeps its two loops.
    - It is proved to produce `Accumulated(old stats, all pairs)`.
    - That map gives every reported key its old list followed by its detached values in report order, and keeps every other entry.
  - The other helpers are pure and are modelled as functions:
    - Python's floor division and modulo are written out explicitly;
    - a zero divisor gives a `ZeroDivisionError` result;
    - `files[:-n]` follows Python's slice rules.

The model follows the code in its less obvious branches:

- the `operator[]` insertions;
- `[:-0]` being empty;
- a negative `keep_last_n`.

## Model

| member | source | states |
|---|---|---|
| TrainerSchedule.FloorDiv | metta/rl/functions.py:340 | Python's `//` is the floor of the quotient, for either sign of the divisor |
| TrainerSchedule.FloorMod | metta/rl/functions.py:537 | Python's `%` completes the floor quotient and takes the divisor's sign, with absolute value below the divisor's |
| TrainerSchedule.FloorModZero | metta/rl/functions.py:537 | the remainder is zero exactly when the divisor divides the dividend |
| TrainerSchedule.CalculateBatchSizes | metta/rl/functions.py:340-347 | the result is ZeroDivisionError exactly when `num_agents` or `num_workers` is 0 |
| TrainerSchedule.TargetBatchSize | metta/rl/functions.py:340-342 | the target is `fwd // num_agents` when that is at least 2 and at least `num_workers`, and `num_workers` otherwise; hence it is never below `num_workers` |
| TrainerSchedule.BatchSizeIsMultiple | metta/rl/functions.py:344-345 | for a positive worker count, the batch is a multiple of it with `0 <= batch <= target < batch + num_workers` (the largest such multiple), and `num_envs == batch * async_factor` |
| TrainerSchedule.RoundDown | metta/rl/functions.py:344 | rounding a target of at least one worker count down to a multiple of it stays within one worker count below |
| TrainerSchedule.CalculateBatchSizesExample | metta/rl/functions.py:340-347 | `(512, 4, 8, 2)` gives `(128, 128, 256)`; `(10, 8, 4, 3)` gives `(4, 4, 12)`; a zero agent or worker count raises |
| TrainerSchedule.ShouldRunOnInterval | metta/rl/functions.py:531-537 | false for a non-master rank or a zero interval, even when forced; true for the master with a non-zero interval when forced |
| TrainerSchedule.RunsOnMultiples | metta/rl/functions.py:537 | every multiple of the interval is an unforced run epoch for the master |
| TrainerSchedule.RunsOnlyOnMultiples | metta/rl/functions.py:537 | every unforced run epoch is a multiple of a non-zero interval |
| TrainerSchedule.RunsPeriodically | metta/rl/functions.py:537 | the unforced gate at `epoch + interval` equals the one at `epoch` |
| TrainerSchedule.ShouldRunOnIntervalExample | metta/rl/functions.py:531-537 | epoch 10 with interval 5 runs; 11 runs only when forced; a non-master rank or a zero interval never runs |
| RolloutStats.Detach | metta/rl/functions.py:413-416 | no tensor survives; a one-element tensor or array becomes its number; a larger tensor becomes an array with the same elements; numbers are kept |
| RolloutStats.DetachIdempotent | metta/rl/functions.py:413-416 | detaching an already detached value changes nothing |
| RolloutStats.Flatten | metta/rl/functions.py:410-411 | the `(key, value)` pairs of the info dictionaries, dictionary by dictionary; `Group` and `AccumulateRolloutStats` are proved against it |
| RolloutStats.Reported | metta/rl/functions.py:410-417 | a key that is never reported collects no values |
| RolloutStats.ReportedAppend | metta/rl/functions.py:410-411 | the values collected over two runs of reports are those of the first followed by those of the second |
| RolloutStats.ReportedDetached | metta/rl/functions.py:413-417 | every collected value is detached, and none is a tensor |
| RolloutStats.ListAt | metta/rl/functions.py:425 | the list `setdefault(k, [])` extends: the stored one or the empty one; `ListAtAccumulated` states it after accumulation |
| RolloutStats.Accumulated | metta/rl/functions.py:420-425 | the caller's dictionary after the merge loop, specified by `AccumulatedEntries`, `ListAtAccumulated` and `AccumulatedTwice` |
| RolloutStats.AccumulatedEntries | metta/rl/functions.py:419-425 | after accumulation a key is present iff it was before or was reported; a reported key's list is its old list (or none) followed by its values in report order; an unreported key keeps its entry |
| RolloutStats.ListAtAccumulated | metta/rl/functions.py:425 | reading an accumulated list with the empty default is the old list followed by the reported values |
| RolloutStats.AccumulatedTwice | metta/rl/functions.py:402-425 | accumulating two batches of reports one after the other is the same as accumulating them together |
| RolloutStats.StatsDict.Extend | metta/rl/functions.py:425 | `setdefault(k, []).extend(vs)`: only `k`'s entry changes, to its old list (or none) followed by `vs` |
| RolloutStats.GroupStep | metta/rl/functions.py:417 | appending one detached value keeps the grouping exact: each key holds its reported values, and the key order lists each key once, in first-report order |
| RolloutStats.AddPair | metta/rl/functions.py:414-417 | one `infos[k].append(v)` after detaching keeps the grouping exact for the pairs seen so far plus this one |
| RolloutStats.GroupReport | metta/rl/functions.py:411-417 | the inner loop groups one report's pairs after those already seen |
| RolloutStats.Group | metta/rl/functions.py:407-417 | the grouping loops yield exactly the detached values of every report, by key |
| RolloutStats.ExtendStep | metta/rl/functions.py:420-425 | extending one more grouped key keeps every other list as it was |
| RolloutStats.ExtendedAll | metta/rl/functions.py:420-425 | once every grouped key has been extended, the dictionary is the accumulated one |
| RolloutStats.ExtendAll | metta/rl/functions.py:420-425 | the second loop turns the caller's dictionary into the accumulation of the grouped pairs |
| RolloutStats.AccumulateRolloutStats | metta/rl/functions.py:402-425 | the caller's dictionary becomes the accumulation of all reports' pairs: each reported key's list is extended by its detached values in report order, and every other key is unchanged |
| RolloutStats.AccumulatedExample | metta/rl/functions.py:402-425 | a one-element tensor is stored as its number, a two-element array stays an array, and an existing list is extended at its end |
| PolicyCleanup.NameLe | metta/rl/functions.py:481 | the order `sorted` uses on the names; `NameLeReflexive`, `NameLeTotal`, `NameLeAntisymmetric` and `NameLeTransitive` show it is a total order |
| PolicyCleanup.NameLeReflexive | metta/rl/functions.py:481 | the order on names is reflexive |
| PolicyCleanup.NameLeTotal | metta/rl/functions.py:481 | any two names are comparable |
| PolicyCleanup.NameLeAntisymmetric | metta/rl/functions.py:481 | names ordered both ways are equal |
| PolicyCleanup.NameLeTransitive | metta/rl/functions.py:481 | the order on names is transitive |
| PolicyCleanup.NameLeTail | metta/rl/functions.py:481 | names with a common prefix compare by what follows it |
| PolicyCleanup.IsPolicyFile | metta/rl/functions.py:481 | the glob `policy_*.pt`; `PolicyFiles` keeps exactly the names it accepts |
| PolicyCleanup.PolicyFiles | metta/rl/functions.py:481 | the glob keeps exactly the listed names of the form `policy_*.pt` |
| PolicyCleanup.Insert | metta/rl/functions.py:481 | inserting into a sorted list keeps it sorted and adds exactly that name |
| PolicyCleanup.SortNames | metta/rl/functions.py:481 | `sorted` returns a sorted permutation of its input |
| PolicyCleanup.SortedUnique | metta/rl/functions.py:481 | two sorted lists with the same names are equal, so any correct sort gives the same list |
| PolicyCleanup.SliceStop | metta/rl/functions.py:485 | the stop index of a Python slice: as given when in range, counted from the end when negative, clipped to the list |
| PolicyCleanup.FilesToRemove | metta/rl/functions.py:484-485 | the files removed are a prefix of the sorted list |
| PolicyCleanup.RemovesAllButLast | metta/rl/functions.py:484-485 | with more than `keep_last_n > 0` files, exactly the first `len - keep_last_n` are removed and the last `keep_last_n` are kept; otherwise nothing is removed |
| PolicyCleanup.KeepZeroRemovesNothing | metta/rl/functions.py:484-485 | `keep_last_n == 0` removes nothing, because `[:-0]` is empty |
| PolicyCleanup.NegativeKeepRemovesPrefix | metta/rl/functions.py:484-485 | a negative `keep_last_n` removes the first `-keep_last_n` files, or all of them |
| PolicyCleanup.RemovedBeforeKept | metta/rl/functions.py:481-485 | every removed checkpoint sorts before every kept one |
| PolicyCleanup.PoliciesToRemove | metta/rl/functions.py:481-485 | only policy files from the listing are chosen, as a prefix of their sorted list |
| PolicyCleanup.PoliciesToRemoveExample | metta/rl/functions.py:481-485 | of `policy_b.pt`, `notes.txt`, `policy_a.pt` and `policy_c.pt`, keeping two removes only `policy_a.pt` |
| Agents.ToInt16 | mettagrid/src/metta/mettagrid/objects/agent.hpp:86 | the conversion to `short` leaves an in-range value unchanged |
| Agents.ToInt16Wraps | mettagrid/src/metta/mettagrid/objects/agent.hpp:86 | the conversion to `short` keeps the value modulo 2^16 |
| Agents.Clamp | mettagrid/src/metta/mettagrid/objects/agent.hpp:89 | `std::clamp` lies in the range and is the identity inside it |
| Agents.ValueAt | mettagrid/src/metta/mettagrid/objects/agent.hpp:87 | what `inventory[item]` reads: the stored amount, or 0; `Touch` shows the read changes no readable amount |
| Agents.Touch | mettagrid/src/metta/mettagrid/objects/agent.hpp:87 | `operator[]` adds the key and changes no amount that can be read |
| Agents.TouchOverwritten | mettagrid/src/metta/mettagrid/objects/agent.hpp:87-96 | the entry inserted by the read is overwritten or erased by the store |
| Agents.OrderedKeys | mettagrid/src/metta/mettagrid/objects/agent.hpp:144 | map iteration visits every key exactly once, in ascending order |
| Agents.KeysBelow | mettagrid/src/metta/mettagrid/objects/agent.hpp:144 | the keys below a bound, each once, ascending |
| Agents.AscendingCardinality | mettagrid/src/metta/mettagrid/objects/agent.hpp:144 | an ascending sequence has no repeats, so its length is the number of keys |
| Agents.Add | mettagrid/src/metta/mettagrid/objects/agent.hpp:98-102 | one `stats.add`, specified by `AddCounts` |
| Agents.IncrAll | mettagrid/src/metta/mettagrid/actions/attack.hpp:64-73 | a run of `stats.incr` calls, specified by `IncrAllCounts` |
| Agents.AddCounts | mettagrid/src/metta/mettagrid/objects/agent.hpp:99-101 | a stats add raises its own counter by the amount, and no other |
| Agents.IncrAllCounts | mettagrid/src/metta/mettagrid/actions/attack.hpp:64-73 | incrementing a list of counters raises each one by the number of times it is listed |
| Agents.InventoryUpdate | mettagrid/src/metta/mettagrid/objects/agent.hpp:86-107 | `update_inventory` on values, specified by `InventoryUpdateSpec`, `InventoryUpdateKeepsInvariants` and `InventoryUpdateUndo` |
| Agents.Settled | mettagrid/src/metta/mettagrid/objects/agent.hpp:92-96 | the entry stored when the new amount is positive and erased at 0; `InventoryUpdateSpec` and `TouchOverwritten` state it |
| Agents.CountDelta | mettagrid/src/metta/mettagrid/objects/agent.hpp:98-102 | a positive change counted as gained and a negative one as lost; `InventoryUpdateSpec` states it |
| Agents.InventoryUpdateSpec | mettagrid/src/metta/mettagrid/objects/agent.hpp:86-107 | the update clamps `old + amount` into `[0, limit]`, with a missing limit read as 0. The entry is present iff the new amount is positive, and no other entry changes. The returned delta is `new - old` and lies in `[-old, limit - old]`. Only `.gained` (delta > 0) or `.lost` (delta < 0) is counted, by the delta's magnitude, and nothing else changes |
| Agents.InventoryUpdateKeepsInvariants | mettagrid/src/metta/mettagrid/objects/agent.hpp:52-54 | the update keeps the inventory within the limits and adds no zero entries |
| Agents.InventoryUpdateUndo | mettagrid/src/metta/mettagrid/objects/agent.hpp:86-107 | within the limits, updating by the negated delta restores every amount and returns the negated delta |
| Agents.Agent.constructor | mettagrid/src/metta/mettagrid/objects/agent.hpp:66-80 | a new agent is unfrozen and facing 0, with colour 0 and an empty inventory, and takes its configuration. It is within its limits, has no 0 entries and cannot be swapped with |
| Agents.Agent.ReadInventory | mettagrid/src/metta/mettagrid/objects/agent.hpp:87 | `inventory[item]` returns the amount or 0, and inserts a 0 entry when the item is absent |
| Agents.Agent.Settle | mettagrid/src/metta/mettagrid/objects/agent.hpp:92-96 | a positive amount is stored; zero erases the entry |
| Agents.Agent.RecordDelta | mettagrid/src/metta/mettagrid/objects/agent.hpp:98-102 | the stats become those of `CountDelta` |
| Agents.Agent.UpdateInventory | mettagrid/src/metta/mettagrid/objects/agent.hpp:86-107 | the agent's new state and the returned delta are those of `InventoryUpdate`, and the limits stay respected |
| Agents.Agent.AddStat | mettagrid/src/metta/mettagrid/objects/agent.hpp:99 | a stats add raises one counter |
| Agents.Agent.IncrStats | mettagrid/src/metta/mettagrid/actions/attack.hpp:64-73 | the stats become those of incrementing each key in turn |
| Agents.Agent.Swappable | mettagrid/src/metta/mettagrid/objects/agent.hpp:132-134 | an agent can be swapped with iff it is frozen. The constructor, `ObsFeatures` and `Attack.HitAgent` tie this to other operations |
| Agents.InventoryFeature | mettagrid/src/metta/mettagrid/objects/agent.hpp:147 | the 8-bit feature id of an item, offset and truncated; `ObsFeatures` emits it for every entry |
| Agents.Agent.ObsFeatures | mettagrid/src/metta/mettagrid/objects/agent.hpp:136-150 | `5 + |inventory|` tokens: type id, group, frozen flag (1 iff frozen, so exactly when the agent is swappable), orientation and colour; then one token per entry in ascending item order, with feature `offset + item` (8-bit) and the amount |
| Attacks.MaxArg | mettagrid/src/metta/mettagrid/actions/attack.hpp:24-26 | the accepted arguments are exactly `1..max_arg()` |
| Attacks.AimOf | mettagrid/src/metta/mettagrid/actions/attack.hpp:48-49 | each argument `1..9` decodes to a distance in `1..3` and an offset in `-1..1`, and `ArgOf` recovers it |
| Attacks.AimOfArgOf | mettagrid/src/metta/mettagrid/actions/attack.hpp:48-49 | every reachable cell is the decoding of one argument, so the decoding is a bijection |
| Attacks.Probe | mettagrid/src/metta/mettagrid/actions/attack.hpp:37-41 | the check loop with its `operator[]` reads, also used for the defence at lines 77-83; specified by `ProbeSpec` and `ProbeAll` |
| Attacks.ProbeSpec | mettagrid/src/metta/mettagrid/actions/attack.hpp:37-41 | the check passes iff every item is held in its amount; no readable amount changes, and only 0 entries for visited keys are added |
| Attacks.ProbeAll | mettagrid/src/metta/mettagrid/actions/attack.hpp:77-83 | the check over a whole resource map passes iff every amount is held, and it keeps the limits respected |
| Attacks.PayCost | mettagrid/src/metta/mettagrid/actions/attack.hpp:43-46 | paying changes no freeze timer, orientation or colour |
| Attacks.PayCostStep | mettagrid/src/metta/mettagrid/actions/attack.hpp:43-46 | paying from one position is paying that key, then the rest |
| Attacks.PayCostExact | mettagrid/src/metta/mettagrid/actions/attack.hpp:43-46 | with every amount held, each listed item goes down by exactly its cost and no other item changes (the assertion at line 45) |
| Attacks.AscendingTail | mettagrid/src/metta/mettagrid/actions/attack.hpp:43 | the rest of an ascending key list is ascending and lacks its head |
| Attacks.PayOne | mettagrid/src/metta/mettagrid/actions/attack.hpp:44-45 | paying a held amount returns exactly minus that amount and takes nothing else |
| Attacks.PaidAll | mettagrid/src/metta/mettagrid/actions/attack.hpp:87-90 | paying a fully held cost map lowers each item by its cost, keeps the limits and leaves the freeze timer alone |
| Attacks.PairsAt | mettagrid/src/metta/mettagrid/actions/attack.hpp:117-120 | one `(item, amount)` entry per key, in key order |
| Attacks.PairsAtItems | mettagrid/src/metta/mettagrid/actions/attack.hpp:117-120 | the items collected are exactly the keys |
| Attacks.InventoryPairs | mettagrid/src/metta/mettagrid/actions/attack.hpp:117-120 | `items_to_steal`, specified by `InventoryPairsSpec` |
| Attacks.InventoryPairsSpec | mettagrid/src/metta/mettagrid/actions/attack.hpp:117-120 | `items_to_steal` lists every entry of the target's inventory exactly once, with its amount, in ascending item order |
| Attacks.WithinAt | mettagrid/src/metta/mettagrid/objects/agent.hpp:89 | within the limits, any read amount is at most its limit |
| Attacks.Transferred | mettagrid/src/metta/mettagrid/actions/attack.hpp:124-126 | the actor's and the target's updates of one transfer, specified by `TransferSpec` |
| Attacks.Credit | mettagrid/src/metta/mettagrid/actions/attack.hpp:127-132 | the stolen and stolen-from counters of a positive transfer; `StealOneInventories` shows they touch no inventory |
| Attacks.StealOne | mettagrid/src/metta/mettagrid/actions/attack.hpp:124-132 | one pass of the stealing loop, specified by `StealOneConserves`, `StealOneInventories` and `StealOneKeepsLimits` |
| Attacks.StealOneConserves | mettagrid/src/metta/mettagrid/actions/attack.hpp:123-133 | one transfer gives the actor its old amount plus the target's, capped by the actor's limit, and conserves the sum. No other item moves, the limits hold and the freeze timers are unchanged |
| Attacks.StealOneInventories | mettagrid/src/metta/mettagrid/actions/attack.hpp:125-132 | the counters of a transfer change no inventory or freeze timer |
| Attacks.TransferSpec | mettagrid/src/metta/mettagrid/actions/attack.hpp:125-126 | the actor's update and the target's update by minus the stolen amount move the item as far as the actor's limit allows and conserve the sum |
| Attacks.LootItemsCons | mettagrid/src/metta/mettagrid/actions/attack.hpp:123 | the items of a loot list are its first item and those of the rest |
| Attacks.StealAll | mettagrid/src/metta/mettagrid/actions/attack.hpp:123-133 | the stealing loop, specified by `StealAllConserves`, `StealAllKeepsFrozen`, `StealAllKeepsLimits` and `StealAllNoZero` |
| Attacks.StealAllConserves | mettagrid/src/metta/mettagrid/actions/attack.hpp:123-133 | the stealing loop over distinct items, each offered in the amount held, moves every listed item as far as the actor's limit allows, conserves each sum and moves nothing else |
| Attacks.ComposeMoves | mettagrid/src/metta/mettagrid/actions/attack.hpp:123-133 | transfers of distinct items compose |
| Attacks.StealCovering | mettagrid/src/metta/mettagrid/actions/attack.hpp:117-133 | a loot list covering the target's inventory moves every item |
| Attacks.StealInventory | mettagrid/src/metta/mettagrid/actions/attack.hpp:117-133 | stealing the whole inventory moves every item as far as the actor's limits allow, with each sum conserved |
| Attacks.TargetingKeys | mettagrid/src/metta/mettagrid/actions/attack.hpp:64-73 | the four counters the actor raises on reaching an agent; `HitTargetBlocked` records them |
| Attacks.BlockedKeys | mettagrid/src/metta/mettagrid/actions/attack.hpp:92-93 | the two counters of a blocked attack; `HitTargetBlocked` records them |
| Attacks.WinKeys | mettagrid/src/metta/mettagrid/actions/attack.hpp:100-111 | the actor's counters for freezing an unfrozen target |
| Attacks.LossKeys | mettagrid/src/metta/mettagrid/actions/attack.hpp:104-112 | the target's counters for being frozen when it was not |
| Attacks.BlockedHit | mettagrid/src/metta/mettagrid/actions/attack.hpp:85-94 | the blocked branch, specified by `HitTargetBlocked` |
| Attacks.FreezingHit | mettagrid/src/metta/mettagrid/actions/attack.hpp:95-136 | the freezing branch, specified by `FreezingHitSteals` and `FreezingHitKeepsLimits` |
| Attacks.Respond | mettagrid/src/metta/mettagrid/actions/attack.hpp:85-137 | the choice between the two branches, specified by `RespondFrozen` and `RespondKeepsLimits` |
| Attacks.HitTarget | mettagrid/src/metta/mettagrid/actions/attack.hpp:62-137 | both agents after an attack on an agent, specified by `HitTargetBlocks`, `HitTargetBlocked`, `HitTargetFreezes`, `HitTargetFrozen` and `HitTargetKeepsLimits` |
| Attacks.HitTargetBlocks | mettagrid/src/metta/mettagrid/actions/attack.hpp:77-94 | a defence that is non-empty and fully held takes the blocked branch, after reads that change no readable amount |
| Attacks.HitTargetBlocked | mettagrid/src/metta/mettagrid/actions/attack.hpp:77-94 | when blocked, the target pays each defence amount exactly and stays as frozen as it was; the actor's inventory is unchanged and its counters record the targeting and the block |
| Attacks.HitTargetUnblocked | mettagrid/src/metta/mettagrid/actions/attack.hpp:77-96 | a defence that is empty or not fully held takes the freezing branch |
| Attacks.FreezingHitSteals | mettagrid/src/metta/mettagrid/actions/attack.hpp:96-133 | the target is frozen for its freeze duration. An already frozen target keeps its inventory; otherwise every item moves to the actor as far as the actor's limits allow |
| Attacks.Reframe | mettagrid/src/metta/mettagrid/actions/attack.hpp:79 | the 0 entries inserted by the defence reads change no transfer |
| Attacks.HitTargetFreezes | mettagrid/src/metta/mettagrid/actions/attack.hpp:75-136 | an unblocked attack freezes the target for its freeze duration and keeps the limits. If the target was already frozen nothing moves; otherwise each item moves as far as the actor's limit allows, and the sum of the two amounts is conserved |
| Attacks.StealAllKeepsFrozen | mettagrid/src/metta/mettagrid/actions/attack.hpp:123-133 | the stealing loop changes neither freeze timer |
| Attacks.HitTargetFrozen | mettagrid/src/metta/mettagrid/actions/attack.hpp:75-137 | the actor's freeze timer never changes. A blocked attack keeps the target's; any other sets it to the target's freeze duration |
| Attacks.RespondFrozen | mettagrid/src/metta/mettagrid/actions/attack.hpp:85-137 | the blocked branch keeps the target's freeze timer and the freezing branch sets it to the freeze duration. The actor's is kept |
| Attacks.ProbeWithin | mettagrid/src/metta/mettagrid/actions/attack.hpp:37-41 | the reads of a resource check keep an inventory within its limits |
| Attacks.PayCostWithin | mettagrid/src/metta/mettagrid/actions/attack.hpp:43-46 | paying a cost keeps an inventory within its limits, whether or not the cost is held |
| Attacks.StealOneKeepsLimits | mettagrid/src/metta/mettagrid/actions/attack.hpp:124-132 | one transfer keeps each agent within its limits, whatever amount is offered |
| Attacks.StealAllKeepsLimits | mettagrid/src/metta/mettagrid/actions/attack.hpp:123-133 | the stealing loop keeps each agent within its limits, whatever the loot list |
| Attacks.RespondKeepsLimits | mettagrid/src/metta/mettagrid/actions/attack.hpp:85-137 | both responses to an attack keep each agent within its limits |
| Attacks.FreezingHitKeepsLimits | mettagrid/src/metta/mettagrid/actions/attack.hpp:96-133 | the freezing branch keeps each agent within its limits |
| Attacks.HitTargetKeepsLimits | mettagrid/src/metta/mettagrid/actions/attack.hpp:75-137 | an attack on an agent keeps each agent within its limits |
| Attacks.ProbeLeavesZeroEntry | mettagrid/src/metta/mettagrid/actions/attack.hpp:37-41 | as written, a check that reaches an item with no entry (every earlier item being held) leaves a 0 entry, which breaks the no-zero-entries intent |
| Attacks.ProbeOfEmptyInventory | mettagrid/src/metta/mettagrid/actions/attack.hpp:37-41 | a failed check of item 3 on an empty inventory leaves the inventory `{3: 0}` |
| Attacks.CheckHeld | mettagrid/src/metta/mettagrid/actions/attack.hpp:37-41 | the lookup-only check passes iff every listed item is held in its required amount |
| Attacks.CheckHeldMatchesProbe | mettagrid/src/metta/mettagrid/actions/attack.hpp:37-41 | the lookup-only check decides exactly as the as-written check, and the latter changes no readable amount |
| Attacks.FrozenTargetKeepsZeroEntry | mettagrid/src/metta/mettagrid/actions/attack.hpp:77-97 | an unblocked attack on an already frozen target with no entry for the defence item leaves that item as a 0 entry |
| Attacks.PayCostNoZero | mettagrid/src/metta/mettagrid/actions/attack.hpp:43-46 | paying a cost leaves no 0 entry, whether or not the cost is held |
| Attacks.StealAllNoZero | mettagrid/src/metta/mettagrid/actions/attack.hpp:123-133 | the stealing loop leaves no 0 entry in either agent, whatever the loot list |
| Attacks.RespondNoZero | mettagrid/src/metta/mettagrid/actions/attack.hpp:85-137 | both branches leave no 0 entry in either agent |
| Attacks.CheckedHitTarget | mettagrid/src/metta/mettagrid/actions/attack.hpp:62-137 | the attack with the defence looked up by `CheckHeld`, specified by `CheckedHitTargetNoZero` and `CheckedHitTargetAgrees` |
| Attacks.CheckedHitTargetNoZero | mettagrid/src/metta/mettagrid/actions/attack.hpp:62-137 | the corrected attack leaves no 0 entry in either agent |
| Attacks.CheckedHitTargetAgrees | mettagrid/src/metta/mettagrid/actions/attack.hpp:62-137 | within the limits, the corrected attack leaves each agent with the amounts and freeze timer the written one does |
| Attacks.CheckedBlocks | mettagrid/src/metta/mettagrid/actions/attack.hpp:77-83 | the lookup-only defence check blocks exactly when the written one does |
| Attacks.CheckedFrozenAgrees | mettagrid/src/metta/mettagrid/actions/attack.hpp:85-137 | the corrected and the written attack set the same freeze timers |
| Attacks.CheckedBlockedAgrees | mettagrid/src/metta/mettagrid/actions/attack.hpp:85-94 | in the blocked branch, the two attacks leave the same amounts |
| Attacks.CheckedUnblockedAgrees | mettagrid/src/metta/mettagrid/actions/attack.hpp:95-136 | in the freezing branch, the two attacks leave the same amounts |
| Attacks.ProbeInventory | mettagrid/src/metta/mettagrid/actions/attack.hpp:37-41 | the check loop returns, and leaves the inventory as, `Probe` says; an agent within its limits stays so |
| Attacks.PayCosts | mettagrid/src/metta/mettagrid/actions/attack.hpp:43-46 | the payment loop leaves the agent as `PayCost` says; an agent within its limits stays so |
| Attacks.StealItem | mettagrid/src/metta/mettagrid/actions/attack.hpp:124-132 | one pass of the stealing loop leaves both agents as `StealOne` says; each agent within its limits stays so |
| Attacks.RecordSteal | mettagrid/src/metta/mettagrid/actions/attack.hpp:127-132 | a positive transfer is counted as stolen by the actor's group and stolen from the target's group; no inventory changes, so the limits stay kept |
| Attacks.StealLoot | mettagrid/src/metta/mettagrid/actions/attack.hpp:123-133 | the stealing loop leaves both agents as `StealAll` says; each agent within its limits stays so |
| Attacks.Block | mettagrid/src/metta/mettagrid/actions/attack.hpp:85-94 | the blocked branch leaves both agents as `BlockedHit` says; each agent within its limits stays so |
| Attacks.Freeze | mettagrid/src/metta/mettagrid/actions/attack.hpp:96-133 | the freezing branch leaves both agents as `FreezingHit` says; each agent within its limits stays so |
| Attacks.RespondTo | mettagrid/src/metta/mettagrid/actions/attack.hpp:85-137 | the response leaves both agents as `Respond` says; each agent within its limits stays so |
| Attacks.Attack.constructor | mettagrid/src/metta/mettagrid/actions/attack.hpp:17-22 | the action keeps its attack and defence resource maps |
| Attacks.Attack.CostCheck | mettagrid/src/metta/mettagrid/actions/attack.hpp:37-41 | the attack-cost check, specified by `CostCheckHolds` |
| Attacks.Attack.Paid | mettagrid/src/metta/mettagrid/actions/attack.hpp:37-46 | the actor after the check's reads and the payment, specified by `PaidExact` |
| Attacks.Attack.CostCheckHolds | mettagrid/src/metta/mettagrid/actions/attack.hpp:37-41 | the cost check passes iff the actor holds every attack amount, and it changes no readable amount, so a failed check consumes nothing |
| Attacks.Attack.PaidExact | mettagrid/src/metta/mettagrid/actions/attack.hpp:43-46 | after a passed check, each attack resource goes down by exactly its amount and no other item changes |
| Attacks.Attack.HitAgent | mettagrid/src/metta/mettagrid/actions/attack.hpp:62-137 | the attack on the agent at the target cell leaves both agents as `HitTarget` says, and each agent within its limits stays so. The actor's swappability is unchanged. A blocked attack leaves the target's unchanged; any other makes the target swappable iff its freeze duration is non-zero |
| Attacks.Attack.Strike | mettagrid/src/metta/mettagrid/actions/attack.hpp:63-137 | the statements of the attack, in order, leave both agents as `HitTarget` says |
| Attacks.Attack.CheckedPaid | mettagrid/src/metta/mettagrid/actions/attack.hpp:37-46 | the payment after a lookup-only cost check, specified by `CheckedAttackNoZero` and `CheckedPaidAgrees` |
| Attacks.Attack.CheckedAttackNoZero | mettagrid/src/metta/mettagrid/actions/attack.hpp:37-137 | with lookup-only checks, paying and attacking leaves no 0 entry in either agent |
| Attacks.Attack.CheckedPaidAgrees | mettagrid/src/metta/mettagrid/actions/attack.hpp:43-46 | within the limits and with the cost held, the corrected payment leaves the amounts and freeze timer the written one does |
| Attacks.Attack.HandleTarget | mettagrid/src/metta/mettagrid/actions/attack.hpp:57-141 | success iff there is an agent at the target. Without one nothing changes; with one, both agents end as `HitTarget` says. Each agent within its limits stays so, and an unblocked attack makes the target swappable iff its freeze duration is non-zero |
| Attacks.Attack.HandleAction | mettagrid/src/metta/mettagrid/actions/attack.hpp:32-55 | an argument outside `1..9` fails with no change. A failed cost check fails, leaving only 0 entries. With no agent at the aim, the attack fails after paying the cost. With an agent there, it succeeds and both end as `HitTarget` after payment says. No other agent changes, and every agent within its limits stays so |

## Left out

- The reward recomputation (`compute_resource_reward`, agent.hpp:111-130): float arithmetic written through a raw pointer. `UpdateInventory` models everything else in `update_inventory`.
- `Agent.init` and the grid location of the constructor: the grid is not modelled.
- The grid geometry (`relative_location`, `object_at`): replaced by an input. `HandleTarget` takes the optional agent found; `HandleAction` takes a map from aims to agents other than the actor. The lookup is on the agent layer, so it yields an agent or nothing.
- `StatsTracker` internals: counters are a map of integers, and `inventory_item_name` is an opaque function per agent.
- `objects/constants.hpp` is not part of this model. The feature ids and `InventoryFeatureOffset` are parameters (`FeatureIds`).
- `resource_limits[item]` also inserts a 0 entry into the private limits map. Missing limits read as 0, which this insertion cannot change, so the model keeps the limits constant.
- Agents.NoZeroEntries: `ObsFeatures` models a build with assertions off (NDEBUG). It emits a token of amount 0 for a 0 entry, where a debug build aborts at `assert(amount > 0)` (agent.hpp:146). `InventoryUpdate` keeps the predicate, but the attack's checks can break it (see Findings).
- Attacks.PayCost: the assertions `used_amount == amount` at attack.hpp:45 and 89 are not modelled. `Attack.PaidExact` and `HitTargetBlocked` prove they hold for agents within their limits.
- Agents.Item: item ids are assumed to be 8-bit (0..255). This is an assumption about the `InventoryItem` typedef, which is not part of this model. The `static_cast<uint8_t>` at agent.hpp:147 truncates `InventoryFeatureOffset + item` and only suggests the width.
- Attacks.Cost: attack and defence amounts are assumed non-negative and below 2^31, as the assertions at attack.hpp:45 and 89 presuppose.
- Attacks.Attack.HandleAction: the aim is not turned into a grid location; the aim itself indexes the grid input.
- The other trainer functions in `metta/rl/functions.py`:
  - perform_rollout_step and process_minibatch_update (environment and network I/O);
  - compute_advantage (a foreign kernel);
  - the floating-point losses and statistics;
  - the reflective helpers and the distributed setup.
- The file system side of `cleanup_old_policies`: the directory check, the glob, `unlink` and the swallowed exceptions. `PoliciesToRemove` models only the selection, on the names of one directory, where sorting paths is sorting names.
- RolloutStats.Value:
  - tensor and array elements are integers, and shapes are not modelled;
  - any value that is neither a tensor nor an array is modelled as `Scalar(int)`. `Detach` passes such values through unchanged, so grouping does not depend on their type;
  - `unroll_nested_dict` is taken as given, so a report is already its flattened `(key, value)` pairs.
- RolloutStats.AccumulateRolloutStats:
  - the caller's dictionary is modelled as holding lists;
  - the branch at functions.py:426-433 is unreachable, because every grouped value is a list, and is not modelled;
  - the insertion order of the new keys in the caller's dictionary is not modelled (a map has none).
- PolicyCleanup.NameLe: Python compares path names by code point, which is what is modelled; platform case folding of paths is not.

## Findings

| source | as written | input that shows it | evidently intended | confidence | as-written member | corrected member |
|---|---|---|---|---|---|---|
| mettagrid/src/metta/mettagrid/actions/attack.hpp:37-41 | the cost check reads `actor->inventory[item]` with `operator[]`, which inserts a 0 entry for an item the actor has none of, and a failed check returns with that entry in place. The defence check at attack.hpp:79 inserts one into the target the same way. That entry lasts only when the target was already frozen: a block pays it away, and the stealing loop of an unfrozen target erases it | an actor with an empty inventory and an attack costing one of item 3: the check fails and the inventory becomes `{3: 0}`. A later `obs_features` then trips `assert(amount > 0)` at agent.hpp:146, or emits a token of amount 0 when assertions are off. A defence of one of item 3 against an already frozen target with an empty inventory leaves `{3: 0}` in the target | the checks look items up without inserting them, so an inventory keeps only positive amounts, as the comment and assertion at agent.hpp:145-146 require | not executed | Attacks.ProbeLeavesZeroEntry, Attacks.ProbeOfEmptyInventory, Attacks.FrozenTargetKeepsZeroEntry | Attacks.CheckHeld, Attacks.CheckedHitTarget, Attacks.Attack.CheckedPaid, Attacks.Attack.CheckedAttackNoZero, Attacks.CheckedHitTargetAgrees |

`CheckHeld` decides exactly as the as-written check does (`CheckHeldMatchesProbe`). `CheckedAttackNoZero` proves that an attack using it for both checks leaves no 0 entry in either agent. `CheckedHitTargetAgrees` and `Attack.CheckedPaidAgrees` prove that, within the limits, it leaves the same amounts and freeze timers as the as-written attack. The attack methods keep the as-written reads, so their inventories show the 0 entries the code leaves.
