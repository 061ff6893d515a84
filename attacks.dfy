/** The attack action (actions/attack.hpp): argument check, payment of the
    attack cost, aiming, the target's defence, freezing and stealing. */
module Attacks {
  import opened Agents

  /** An amount in the attack or defence resource maps (a non-negative int). */
  type Cost = x: int | 0 <= x < 0x8000_0000

  /** The arguments `_handle_action` accepts (attack.hpp:33-35). */
  predicate ValidArg(arg: int) {
    1 <= arg <= 9
  }

  /** `max_arg()`: the largest argument, the upper end of the accepted range. */
  function MaxArg(): (r: int)
    ensures forall arg :: ValidArg(arg) <==> 1 <= arg <= r
  {
    9
  }

  /** Where an attack lands, relative to the attacker. */
  datatype Aim = Aim(distance: int, offset: int)

  /** The cells an attack can reach: 1 to 3 ahead, one of three lanes. */
  predicate InRange(a: Aim) {
    1 <= a.distance <= 3 && -1 <= a.offset <= 1
  }

  /** The argument that aims at `a`: the inverse of AimOf. */
  function ArgOf(a: Aim): int {
    3 * (a.distance - 1) + (1 - a.offset) + 1
  }

  /** attack.hpp:48-49 (the operands are non-negative, so C++ and Dafny
      division agree). Together with AimOfArgOf: a bijection from 1..9 onto
      the nine reachable cells. */
  function AimOf(arg: int): (a: Aim)
    requires ValidArg(arg)
    ensures InRange(a)
    ensures ArgOf(a) == arg
  {
    Aim(1 + (arg - 1) / 3, -((arg - 1) % 3 - 1))
  }

  lemma AimOfArgOf(a: Aim)
    requires InRange(a)
    ensures ValidArg(ArgOf(a)) && AimOf(ArgOf(a)) == a
  {
  }

  // ---------------------------------------------------------------------------
  // The resource checks (attack.hpp:37-41 and 77-83)
  // ---------------------------------------------------------------------------

  datatype ProbeResult = ProbeResult(inventory: map<Item, UInt8>, ok: bool)

  /** Walk `keys` in order, reading `inventory[key]` (which inserts a 0 entry
      for a missing item) and stop at the first item held below its required
      amount. */
  function Probe(inventory: map<Item, UInt8>, required: map<Item, Cost>, keys: seq<Item>): ProbeResult
    requires forall j :: 0 <= j < |keys| ==> keys[j] in required
    decreases |keys|
  {
    if keys == [] then ProbeResult(inventory, true)
    else
      var touched := Touch(inventory, keys[0]);
      if ValueAt(inventory, keys[0]) < required[keys[0]] then ProbeResult(touched, false)
      else Probe(touched, required, keys[1..])
  }

  /** The probe passes exactly when every key is held in its required amount;
      it changes no amount that can be read, only adds 0 entries for keys it
      reached, and when it passes it has reached them all. */
  lemma {:induction false} ProbeSpec(inventory: map<Item, UInt8>, required: map<Item, Cost>, keys: seq<Item>)
    requires forall j :: 0 <= j < |keys| ==> keys[j] in required
    ensures var r := Probe(inventory, required, keys);
            && (r.ok <==> forall j :: 0 <= j < |keys| ==> ValueAt(inventory, keys[j]) >= required[keys[j]])
            && (forall k :: ValueAt(r.inventory, k) == ValueAt(inventory, k))
            && inventory.Keys <= r.inventory.Keys
            && (forall k :: k in r.inventory ==> k in inventory || k in keys)
            && (r.ok ==> forall k :: k in keys ==> k in r.inventory)
    decreases |keys|
  {
    if keys != [] {
      var touched := Touch(inventory, keys[0]);
      assert forall j :: 1 <= j < |keys| ==> keys[j] == keys[1..][j - 1];
      if ValueAt(inventory, keys[0]) >= required[keys[0]] {
        ProbeSpec(touched, required, keys[1..]);
      }
    }
  }

  /** Every required amount is held. */
  ghost predicate Holds(inventory: map<Item, UInt8>, required: map<Item, Cost>) {
    forall k :: k in required ==> ValueAt(inventory, k) >= required[k]
  }

  /** The defence blocks exactly when there is one and the target holds all of it. */
  ghost predicate Blocks(defense: map<Item, Cost>, inventory: map<Item, UInt8>) {
    |defense| > 0 && Holds(inventory, defense)
  }

  /** The amount `required` names for `k`, 0 for an item it does not name. */
  function CostOf(required: map<Item, Cost>, k: Item): int {
    if k in required then required[k] else 0
  }

  // ---------------------------------------------------------------------------
  // Paying a cost (attack.hpp:43-46 and 87-90)
  // ---------------------------------------------------------------------------

  /** `update_inventory(item, -amount)` for each key in turn. */
  function PayCost(p: Profile, s: AgentState, costs: map<Item, Cost>, keys: seq<Item>): (r: AgentState)
    requires forall j :: 0 <= j < |keys| ==> keys[j] in costs
    ensures r.frozen == s.frozen && r.orientation == s.orientation && r.color == s.color
    decreases |keys|
  {
    if keys == [] then s
    else
      assert forall j :: 1 <= j < |keys| ==> keys[j] == keys[1..][j - 1];
      PayCost(p, InventoryUpdate(p, s, keys[0], ToInt16(-(costs[keys[0]] as int))).state, costs, keys[1..])
  }

  /** Paying from position `j` on: pay `keys[j]`, then the rest. */
  lemma PayCostStep(p: Profile, s: AgentState, costs: map<Item, Cost>, keys: seq<Item>, j: nat)
    requires j < |keys| && forall i :: 0 <= i < |keys| ==> keys[i] in costs
    ensures PayCost(p, s, costs, keys[j..])
            == PayCost(p, InventoryUpdate(p, s, keys[j], ToInt16(-(costs[keys[j]] as int))).state, costs, keys[j + 1..])
  {
    assert keys[j..][0] == keys[j];
    assert keys[j..][1..] == keys[j + 1..];
  }

  ghost predicate Ascending(keys: seq<Item>) {
    forall i, j :: 0 <= i < j < |keys| ==> keys[i] < keys[j]
  }

  /** When every amount is held and the inventory is within its limits, each
      update returns exactly `-amount` (the assertions at attack.hpp:45 and 89):
      every paid item goes down by exactly its cost and nothing else moves. */
  lemma {:induction false} PayCostExact(p: Profile, s: AgentState, costs: map<Item, Cost>, keys: seq<Item>)
    requires forall j :: 0 <= j < |keys| ==> keys[j] in costs
    requires Ascending(keys)
    requires WithinLimits(s.inventory, p.resourceLimits)
    requires forall j :: 0 <= j < |keys| ==> ValueAt(s.inventory, keys[j]) >= costs[keys[j]]
    ensures var r := PayCost(p, s, costs, keys);
            && WithinLimits(r.inventory, p.resourceLimits)
            && (forall k :: k in keys ==> ValueAt(r.inventory, k) == ValueAt(s.inventory, k) - costs[k])
            && (forall k :: k !in keys ==> ValueAt(r.inventory, k) == ValueAt(s.inventory, k))
    decreases |keys|
  {
    if keys != [] {
      var k0, rest := keys[0], keys[1..];
      var u := InventoryUpdate(p, s, k0, ToInt16(-(costs[k0] as int)));
      PayOne(p, s, k0, costs[k0]);
      AscendingTail(keys);
      PayCostExact(p, u.state, costs, rest);
      var r := PayCost(p, u.state, costs, rest);
      assert PayCost(p, s, costs, keys) == r;
      forall k | k in keys ensures ValueAt(r.inventory, k) == ValueAt(s.inventory, k) - costs[k] {
        if k != k0 {
          assert k in rest;
        }
      }
    }
  }

  /** The tail of an ascending sequence is ascending and lacks the head, and
      the sequence's members are its head and the tail's members. */
  lemma AscendingTail(keys: seq<Item>)
    requires keys != [] && Ascending(keys)
    ensures Ascending(keys[1..]) && keys[0] !in keys[1..]
    ensures forall k :: k in keys <==> k == keys[0] || k in keys[1..]
  {
    var rest := keys[1..];
    assert forall j :: 0 <= j < |rest| ==> rest[j] == keys[j + 1];
    assert keys == [keys[0]] + rest;
  }

  /** Paying a held amount within the limits takes exactly that amount of
      that item and nothing else. */
  lemma PayOne(p: Profile, s: AgentState, item: Item, cost: Cost)
    requires WithinLimits(s.inventory, p.resourceLimits)
    requires ValueAt(s.inventory, item) >= cost
    ensures var u := InventoryUpdate(p, s, item, ToInt16(-(cost as int)));
            && WithinLimits(u.state.inventory, p.resourceLimits)
            && ValueAt(u.state.inventory, item) == ValueAt(s.inventory, item) - cost
            && u.delta == -(cost as int)
            && forall k :: k != item ==> ValueAt(u.state.inventory, k) == ValueAt(s.inventory, k)
  {
    InventoryUpdateKeepsInvariants(p, s, item, ToInt16(-(cost as int)));
    WithinAt(s.inventory, p.resourceLimits, item);
    InventoryUpdateSpec(p, s, item, ToInt16(-(cost as int)));
  }

  /** The effect of a fully held cost on the read-with-default amounts. */
  lemma PaidAll(p: Profile, s: AgentState, costs: map<Item, Cost>)
    requires WithinLimits(s.inventory, p.resourceLimits)
    requires Holds(s.inventory, costs)
    ensures var r := PayCost(p, s, costs, OrderedKeys(costs));
            && WithinLimits(r.inventory, p.resourceLimits)
            && (forall k :: ValueAt(r.inventory, k) == ValueAt(s.inventory, k) - CostOf(costs, k))
            && r.frozen == s.frozen
  {
    var keys := OrderedKeys(costs);
    PayCostExact(p, s, costs, keys);
  }

  // ---------------------------------------------------------------------------
  // Stealing (attack.hpp:115-133)
  // ---------------------------------------------------------------------------

  /** The actor and the target of one attack. */
  datatype Pair = Pair(actor: AgentState, target: AgentState)

  /** The items a loot list names. */
  function LootItems(loot: seq<(Item, UInt8)>): set<Item> {
    set j | 0 <= j < |loot| :: loot[j].0
  }

  function IndexOf(s: seq<Item>, x: Item): (i: nat)
    requires x in s
    ensures i < |s| && s[i] == x
  {
    if s[0] == x then 0 else 1 + IndexOf(s[1..], x)
  }

  /** The entries of `inventory` at `keys`, in that order. */
  function PairsAt(inventory: map<Item, UInt8>, keys: seq<Item>): (r: seq<(Item, UInt8)>)
    requires forall j :: 0 <= j < |keys| ==> keys[j] in inventory
    ensures |r| == |keys|
    ensures forall j :: 0 <= j < |r| ==> r[j].0 == keys[j] && r[j].1 == inventory[keys[j]]
    decreases |keys|
  {
    if keys == [] then []
    else [(keys[0], inventory[keys[0]])] + PairsAt(inventory, keys[1..])
  }

  /** The items of `PairsAt(inventory, keys)` are the keys. */
  lemma PairsAtItems(inventory: map<Item, UInt8>, keys: seq<Item>)
    requires forall j :: 0 <= j < |keys| ==> keys[j] in inventory
    ensures LootItems(PairsAt(inventory, keys)) == set k | k in keys
  {
    var r := PairsAt(inventory, keys);
    forall k | k in keys ensures k in LootItems(r) {
      var j := IndexOf(keys, k);
      assert r[j].0 == k;
    }
  }

  /** The `items_to_steal` vector (attack.hpp:117-120): the target's entries in map order. */
  function InventoryPairs(inventory: map<Item, UInt8>): seq<(Item, UInt8)> {
    PairsAt(inventory, OrderedKeys(inventory))
  }

  /** The vector lists every entry of the inventory exactly once, with its
      amount, in ascending item order. */
  lemma InventoryPairsSpec(inventory: map<Item, UInt8>)
    ensures var r := InventoryPairs(inventory);
            && (forall j :: 0 <= j < |r| ==> r[j].0 in inventory && r[j].1 == inventory[r[j].0])
            && (forall j :: 0 <= j < |r| ==> r[j].1 == ValueAt(inventory, r[j].0))
            && (forall i, j :: 0 <= i < j < |r| ==> r[i].0 < r[j].0)
            && LootItems(r) == inventory.Keys
  {
    var keys := OrderedKeys(inventory);
    var r := PairsAt(inventory, keys);
    PairsAtItems(inventory, keys);
    forall j | 0 <= j < |r| ensures r[j].0 in inventory && r[j].1 == inventory[r[j].0] {
      assert r[j].0 == keys[j];
    }
    forall i, j | 0 <= i < j < |r| ensures r[i].0 < r[j].0 {
      assert r[i].0 == keys[i] && r[j].0 == keys[j];
    }
  }

  /** One transfer: the actor takes what its limit allows, the target gives
      up exactly that, and both record it when it is positive. */
  function StealOne(ap: Profile, tp: Profile, s: Pair, item: Item, amount: UInt8): Pair {
    Credit(ap, tp, Transferred(ap, tp, s, item, amount), item, InventoryUpdate(ap, s.actor, item, amount).delta)
  }

  /** The two inventory updates of one transfer (attack.hpp:125-126). */
  function Transferred(ap: Profile, tp: Profile, s: Pair, item: Item, amount: UInt8): Pair {
    var ua := InventoryUpdate(ap, s.actor, item, amount);
    var ut := InventoryUpdate(tp, s.target, item, ToInt16(-ua.delta));
    Pair(ua.state, ut.state)
  }

  /** The counters of a positive transfer: stolen by the actor's group, stolen
      from the target's group (attack.hpp:127-132). */
  function Credit(ap: Profile, tp: Profile, s: Pair, item: Item, stolen: int): Pair {
    if stolen > 0 then
      Pair(s.actor.(stats := Add(s.actor.stats, StatKey([ap.itemName(item), ".stolen.", ap.groupName]), stolen)),
           s.target.(stats := Add(s.target.stats, StatKey([tp.itemName(item), ".stolen_from.", tp.groupName]), stolen)))
    else s
  }

  function StealAll(ap: Profile, tp: Profile, s: Pair, loot: seq<(Item, UInt8)>): Pair
    decreases |loot|
  {
    if loot == [] then s
    else StealAll(ap, tp, StealOne(ap, tp, s, loot[0].0, loot[0].1), loot[1..])
  }

  /** Both agents hold no more of any item than their limits allow. */
  ghost predicate PairWithin(ap: Profile, tp: Profile, s: Pair) {
    WithinLimits(s.actor.inventory, ap.resourceLimits) && WithinLimits(s.target.inventory, tp.resourceLimits)
  }

  /** From `s` to `r`, item `k` went from the target to the actor as far as
      the actor's limit allows, and the two amounts still add up. */
  ghost predicate Moved(ap: Profile, s: Pair, r: Pair, k: Item) {
    && ValueAt(r.actor.inventory, k)
       == Min(ValueAt(s.actor.inventory, k) + ValueAt(s.target.inventory, k), ValueAt(ap.resourceLimits, k))
    && ValueAt(r.actor.inventory, k) + ValueAt(r.target.inventory, k)
       == ValueAt(s.actor.inventory, k) + ValueAt(s.target.inventory, k)
  }

  /** From `s` to `r`, neither agent's amount of `k` changed. */
  ghost predicate Still(s: Pair, r: Pair, k: Item) {
    && ValueAt(r.actor.inventory, k) == ValueAt(s.actor.inventory, k)
    && ValueAt(r.target.inventory, k) == ValueAt(s.target.inventory, k)
  }

  /** A read amount lies within the limit. */
  lemma WithinAt(inventory: map<Item, UInt8>, limits: map<Item, UInt8>, k: Item)
    requires WithinLimits(inventory, limits)
    ensures ValueAt(inventory, k) <= ValueAt(limits, k)
  {
    if k in inventory {}
  }

  /** One transfer, within the limits: the actor's new amount is its old one
      plus what the target offered, capped by the actor's limit; the sum of
      both amounts of the item is unchanged; no other item moves. */
  lemma StealOneConserves(ap: Profile, tp: Profile, s: Pair, item: Item, amount: UInt8)
    requires PairWithin(ap, tp, s)
    requires amount == ValueAt(s.target.inventory, item)
    ensures var r := StealOne(ap, tp, s, item, amount);
            && PairWithin(ap, tp, r)
            && Moved(ap, s, r, item)
            && (forall k :: k != item ==> Still(s, r, k))
            && r.actor.frozen == s.actor.frozen && r.target.frozen == s.target.frozen
  {
    var ua := InventoryUpdate(ap, s.actor, item, amount);
    var ut := InventoryUpdate(tp, s.target, item, ToInt16(-ua.delta));
    StealOneInventories(ap, tp, s, item, amount);
    TransferSpec(ap, tp, s.actor, s.target, item, amount);
  }

  /** Stealing one item changes the inventories and freeze timers exactly as
      the two updates do; only counters are added on top. */
  lemma StealOneInventories(ap: Profile, tp: Profile, s: Pair, item: Item, amount: UInt8)
    ensures var ua := InventoryUpdate(ap, s.actor, item, amount);
            var ut := InventoryUpdate(tp, s.target, item, ToInt16(-ua.delta));
            var r := StealOne(ap, tp, s, item, amount);
            && r.actor.inventory == ua.state.inventory && r.target.inventory == ut.state.inventory
            && r.actor.frozen == ua.state.frozen && r.target.frozen == ut.state.frozen
  {
  }

  /** The two updates of one transfer, within the limits. */
  lemma TransferSpec(ap: Profile, tp: Profile, a: AgentState, t: AgentState, item: Item, amount: UInt8)
    requires WithinLimits(a.inventory, ap.resourceLimits) && WithinLimits(t.inventory, tp.resourceLimits)
    requires amount == ValueAt(t.inventory, item)
    ensures var ua := InventoryUpdate(ap, a, item, amount);
            var ut := InventoryUpdate(tp, t, item, ToInt16(-ua.delta));
            && WithinLimits(ua.state.inventory, ap.resourceLimits)
            && WithinLimits(ut.state.inventory, tp.resourceLimits)
            && ValueAt(ua.state.inventory, item)
               == Min(ValueAt(a.inventory, item) + ValueAt(t.inventory, item), ValueAt(ap.resourceLimits, item))
            && ValueAt(ua.state.inventory, item) + ValueAt(ut.state.inventory, item)
               == ValueAt(a.inventory, item) + ValueAt(t.inventory, item)
            && (forall k :: k != item ==> ValueAt(ua.state.inventory, k) == ValueAt(a.inventory, k))
            && (forall k :: k != item ==> ValueAt(ut.state.inventory, k) == ValueAt(t.inventory, k))
            && ua.state.frozen == a.frozen && ut.state.frozen == t.frozen
  {
    var ua := InventoryUpdate(ap, a, item, amount);
    InventoryUpdateKeepsInvariants(ap, a, item, amount);
    InventoryUpdateKeepsInvariants(tp, t, item, ToInt16(-ua.delta));
    WithinAt(a.inventory, ap.resourceLimits, item);
    WithinAt(t.inventory, tp.resourceLimits, item);
    InventoryUpdateSpec(ap, a, item, amount);
    InventoryUpdateSpec(tp, t, item, ToInt16(-ua.delta));
  }

  /** The items of a non-empty loot list: its first item and those of the rest. */
  lemma LootItemsCons(loot: seq<(Item, UInt8)>)
    requires loot != []
    ensures LootItems(loot) == {loot[0].0} + LootItems(loot[1..])
  {
    var rest := loot[1..];
    forall k | k in LootItems(loot) ensures k == loot[0].0 || k in LootItems(rest) {
      var j :| 0 <= j < |loot| && loot[j].0 == k;
      if j > 0 { assert rest[j - 1].0 == k; }
    }
    forall k | k in LootItems(rest) ensures k in LootItems(loot) {
      var j :| 0 <= j < |rest| && rest[j].0 == k;
      assert loot[j + 1].0 == k;
    }
  }

  /** The whole stealing loop over a list of distinct items, each offered in
      the amount the target holds: every listed item moves as far as the
      actor's limit allows and no other item moves. */
  lemma {:induction false} StealAllConserves(ap: Profile, tp: Profile, s: Pair, loot: seq<(Item, UInt8)>)
    requires PairWithin(ap, tp, s)
    requires forall i, j :: 0 <= i < j < |loot| ==> loot[i].0 < loot[j].0
    requires forall j :: 0 <= j < |loot| ==> loot[j].1 == ValueAt(s.target.inventory, loot[j].0)
    ensures var r := StealAll(ap, tp, s, loot);
            && PairWithin(ap, tp, r)
            && (forall k :: k in LootItems(loot) ==> Moved(ap, s, r, k))
            && (forall k :: k !in LootItems(loot) ==> Still(s, r, k))
            && r.actor.frozen == s.actor.frozen && r.target.frozen == s.target.frozen
    decreases |loot|
  {
    if loot != [] {
      var item, amount := loot[0].0, loot[0].1;
      var s1 := StealOne(ap, tp, s, item, amount);
      StealOneConserves(ap, tp, s, item, amount);
      var rest := loot[1..];
      assert forall j :: 0 <= j < |rest| ==> rest[j] == loot[j + 1];
      assert forall j :: 0 <= j < |rest| ==> item < rest[j].0;
      assert forall j :: 0 <= j < |rest| ==> Still(s, s1, rest[j].0);
      StealAllConserves(ap, tp, s1, rest);
      LootItemsCons(loot);
      assert item !in LootItems(rest);
      ComposeMoves(ap, s, s1, StealAll(ap, tp, s1, rest), item, LootItems(rest));
    }
  }

  /** A move of `item` followed by moves of other items: together, the items
      moved are `item` and the others, and nothing else changed. */
  lemma ComposeMoves(ap: Profile, s: Pair, s1: Pair, r: Pair, item: Item, items: set<Item>)
    requires item !in items
    requires Moved(ap, s, s1, item) && forall k :: k != item ==> Still(s, s1, k)
    requires forall k :: k in items ==> Moved(ap, s1, r, k)
    requires forall k :: k !in items ==> Still(s1, r, k)
    ensures forall k :: k in {item} + items ==> Moved(ap, s, r, k)
    ensures forall k :: k !in {item} + items ==> Still(s, r, k)
  {
    forall k | k in {item} + items ensures Moved(ap, s, r, k) {
      if k == item {
        assert Still(s1, r, k);
      } else {
        assert Still(s, s1, k) && Moved(ap, s1, r, k);
      }
    }
    forall k | k !in {item} + items ensures Still(s, r, k) {
      assert Still(s, s1, k) && Still(s1, r, k);
    }
  }

  /** Stealing along a loot list that names each of the target's items once,
      with the amount held, moves every item as far as the actor's limits
      allow. */
  lemma StealCovering(ap: Profile, tp: Profile, s: Pair, loot: seq<(Item, UInt8)>)
    requires PairWithin(ap, tp, s)
    requires forall i, j :: 0 <= i < j < |loot| ==> loot[i].0 < loot[j].0
    requires forall j :: 0 <= j < |loot| ==> loot[j].1 == ValueAt(s.target.inventory, loot[j].0)
    requires LootItems(loot) == s.target.inventory.Keys
    ensures var r := StealAll(ap, tp, s, loot);
            && PairWithin(ap, tp, r)
            && (forall k :: Moved(ap, s, r, k))
            && r.actor.frozen == s.actor.frozen && r.target.frozen == s.target.frozen
  {
    StealAllConserves(ap, tp, s, loot);
    var r := StealAll(ap, tp, s, loot);
    forall k ensures Moved(ap, s, r, k) {
      if k !in s.target.inventory {
        WithinAt(s.actor.inventory, ap.resourceLimits, k);
        assert Still(s, r, k);
      }
    }
  }

  /** Stealing the target's whole inventory moves every item as far as the
      actor's limits allow. */
  lemma StealInventory(ap: Profile, tp: Profile, s: Pair)
    requires PairWithin(ap, tp, s)
    ensures var r := StealAll(ap, tp, s, InventoryPairs(s.target.inventory));
            && PairWithin(ap, tp, r)
            && (forall k :: Moved(ap, s, r, k))
            && r.actor.frozen == s.actor.frozen && r.target.frozen == s.target.frozen
  {
    var loot := InventoryPairs(s.target.inventory);
    InventoryPairsSpec(s.target.inventory);
    StealCovering(ap, tp, s, loot);
  }

  // ---------------------------------------------------------------------------
  // _handle_target with an agent at the target cell
  // ---------------------------------------------------------------------------

  /** The counters the actor raises on reaching a target (attack.hpp:64-73). */
  function TargetingKeys(actionName: string, ap: Profile, tp: Profile): seq<string> {
    [ StatKey(["action.", actionName, ".", tp.typeName]),
      StatKey(["action.", actionName, ".", tp.typeName, ".", ap.groupName]),
      StatKey(["action.", actionName, ".", tp.typeName, ".", ap.groupName, ".", tp.groupName]),
      if tp.groupName == ap.groupName then StatKey(["attack.own_team.", ap.groupName])
      else StatKey(["attack.other_team.", ap.groupName]) ]
  }

  /** The actor's counters for a blocked attack (attack.hpp:92-93). */
  function BlockedKeys(ap: Profile, tp: Profile): seq<string> {
    [ StatKey(["attack.blocked.", tp.groupName]),
      StatKey(["attack.blocked.", tp.groupName, ".", ap.groupName]) ]
  }

  /** The actor's counters for freezing a target that was not frozen (attack.hpp:100-101, 108, 111). */
  function WinKeys(ap: Profile, tp: Profile): seq<string> {
    [ StatKey(["attack.win.", ap.groupName]),
      StatKey(["attack.win.", ap.groupName, ".", tp.groupName]),
      if tp.groupName == ap.groupName then StatKey(["attack.win.own_team.", ap.groupName])
      else StatKey(["attack.win.other_team.", ap.groupName]) ]
  }

  /** The target's counters for being frozen when it was not (attack.hpp:104-105, 109, 112). */
  function LossKeys(ap: Profile, tp: Profile): seq<string> {
    [ StatKey(["attack.loss.", tp.groupName]),
      StatKey(["attack.loss.", tp.groupName, ".", ap.groupName]),
      if tp.groupName == ap.groupName then StatKey(["attack.loss.from_own_team.", tp.groupName])
      else StatKey(["attack.loss.from_other_team.", tp.groupName]) ]
  }

  /** The probe over all of `required`, in map order, passes exactly when
      every required amount is held; reading leaves the limits respected. */
  lemma ProbeAll(inventory: map<Item, UInt8>, required: map<Item, Cost>, limits: map<Item, UInt8>)
    ensures var probe := Probe(inventory, required, OrderedKeys(required));
            && (probe.ok <==> Holds(inventory, required))
            && (forall k :: ValueAt(probe.inventory, k) == ValueAt(inventory, k))
            && (WithinLimits(inventory, limits) ==> WithinLimits(probe.inventory, limits))
  {
    var keys := OrderedKeys(required);
    var probe := Probe(inventory, required, keys);
    ProbeSpec(inventory, required, keys);
    if Holds(inventory, required) {
      forall j | 0 <= j < |keys| ensures ValueAt(inventory, keys[j]) >= required[keys[j]] {
        assert keys[j] in required;
      }
    }
    if probe.ok {
      forall k | k in required ensures ValueAt(inventory, k) >= required[k] {
        var j :| 0 <= j < |keys| && keys[j] == k;
      }
    }
    if WithinLimits(inventory, limits) {
      forall k | k in probe.inventory ensures probe.inventory[k] <= ValueAt(limits, k) {
        assert ValueAt(probe.inventory, k) == ValueAt(inventory, k);
        if k !in inventory {}
      }
    }
  }

  /** A blocked attack (attack.hpp:85-94): the target pays the defence and
      the actor raises the blocked counters. */
  function BlockedHit(ap: Profile, tp: Profile, defense: map<Item, Cost>, a: AgentState, t: AgentState): Pair {
    Pair(a.(stats := IncrAll(a.stats, BlockedKeys(ap, tp))), PayCost(tp, t, defense, OrderedKeys(defense)))
  }

  /** An attack that is not blocked (attack.hpp:95-136): the target is frozen
      and, unless it already was, loses its inventory to the actor. */
  function FreezingHit(ap: Profile, tp: Profile, a: AgentState, t: AgentState, wasFrozen: bool): Pair {
    var t1 := t.(frozen := tp.freezeDuration);
    if wasFrozen then Pair(a, t1)
    else
      var a2 := a.(stats := IncrAll(a.stats, WinKeys(ap, tp)));
      var t2 := t1.(stats := IncrAll(t1.stats, LossKeys(ap, tp)));
      StealAll(ap, tp, Pair(a2, t2), InventoryPairs(t2.inventory))
  }

  /** attack.hpp:62-137: the new states of the actor and of the target when
      an agent stands at the target cell (the action then succeeds). */
  function HitTarget(actionName: string, defense: map<Item, Cost>,
                     ap: Profile, a: AgentState, tp: Profile, t: AgentState): Pair
  {
    var a1 := a.(stats := IncrAll(a.stats, TargetingKeys(actionName, ap, tp)));
    var probe := Probe(t.inventory, defense, OrderedKeys(defense));
    Respond(ap, tp, defense, a1, t.(inventory := probe.inventory), |defense| > 0 && probe.ok, t.frozen > 0)
  }

  /** The target's response once the defence has been checked (attack.hpp:85-137). */
  function Respond(ap: Profile, tp: Profile, defense: map<Item, Cost>, a: AgentState, t: AgentState,
                   blocked: bool, wasFrozen: bool): Pair
  {
    if blocked then BlockedHit(ap, tp, defense, a, t) else FreezingHit(ap, tp, a, t, wasFrozen)
  }

  /** A blocked attack: the target pays every defence amount and stays as
      frozen as it was; the actor's inventory does not change and its
      counters record the targeting and the block. */
  lemma HitTargetBlocked(actionName: string, defense: map<Item, Cost>,
                         ap: Profile, a: AgentState, tp: Profile, t: AgentState)
    requires WithinLimits(t.inventory, tp.resourceLimits)
    requires Blocks(defense, t.inventory)
    ensures var r := HitTarget(actionName, defense, ap, a, tp, t);
            && r.target.frozen == t.frozen
            && WithinLimits(r.target.inventory, tp.resourceLimits)
            && (forall k :: ValueAt(r.target.inventory, k) == ValueAt(t.inventory, k) - CostOf(defense, k))
            && r.actor.inventory == a.inventory
            && r.actor.stats == IncrAll(IncrAll(a.stats, TargetingKeys(actionName, ap, tp)), BlockedKeys(ap, tp))
  {
    HitTargetBlocks(actionName, defense, ap, a, tp, t);
    var probe := Probe(t.inventory, defense, OrderedKeys(defense));
    var t1 := t.(inventory := probe.inventory);
    assert WithinLimits(t1.inventory, tp.resourceLimits) by {
      forall k | k in t1.inventory ensures t1.inventory[k] <= ValueAt(tp.resourceLimits, k) {
        assert ValueAt(t1.inventory, k) == ValueAt(t.inventory, k);
        WithinAt(t.inventory, tp.resourceLimits, k);
      }
    }
    PaidAll(tp, t1, defense);
  }

  /** An attack the defence blocks takes the blocked branch, after reads
      that leave every readable amount of the target as it was. */
  lemma HitTargetBlocks(actionName: string, defense: map<Item, Cost>,
                        ap: Profile, a: AgentState, tp: Profile, t: AgentState)
    requires Blocks(defense, t.inventory)
    ensures var probe := Probe(t.inventory, defense, OrderedKeys(defense));
            && (forall k :: ValueAt(probe.inventory, k) == ValueAt(t.inventory, k))
            && HitTarget(actionName, defense, ap, a, tp, t)
               == BlockedHit(ap, tp, defense, a.(stats := IncrAll(a.stats, TargetingKeys(actionName, ap, tp))),
                             t.(inventory := probe.inventory))
  {
    ProbeAll(t.inventory, defense, tp.resourceLimits);
  }

  /** The branch that is not blocked: the target is frozen for its freeze
      duration; a target that was already frozen keeps every amount, one that
      was not loses to the actor what the actor's limits allow. */
  lemma FreezingHitSteals(ap: Profile, tp: Profile, a: AgentState, t: AgentState, wasFrozen: bool)
    requires PairWithin(ap, tp, Pair(a, t))
    ensures var r := FreezingHit(ap, tp, a, t, wasFrozen);
            && r.target.frozen == tp.freezeDuration
            && PairWithin(ap, tp, r)
            && (wasFrozen ==> r.actor.inventory == a.inventory && r.target.inventory == t.inventory)
            && (!wasFrozen ==> forall k :: Moved(ap, Pair(a, t), r, k))
  {
    if !wasFrozen {
      var t1 := t.(frozen := tp.freezeDuration);
      var a2 := a.(stats := IncrAll(a.stats, WinKeys(ap, tp)));
      var t2 := t1.(stats := IncrAll(t1.stats, LossKeys(ap, tp)));
      var s2 := Pair(a2, t2);
      StealInventory(ap, tp, s2);
      var r := StealAll(ap, tp, s2, InventoryPairs(t2.inventory));
      assert FreezingHit(ap, tp, a, t, wasFrozen) == r;
      Reframe(ap, a, t, a2, t2, r);
    }
  }

  /** Reading the defence leaves every readable amount of the target as it
      was, and an attack the defence does not block takes the freezing branch. */
  lemma HitTargetUnblocked(actionName: string, defense: map<Item, Cost>,
                           ap: Profile, a: AgentState, tp: Profile, t: AgentState)
    requires WithinLimits(t.inventory, tp.resourceLimits)
    requires !Blocks(defense, t.inventory)
    ensures var probe := Probe(t.inventory, defense, OrderedKeys(defense));
            && (forall k :: ValueAt(probe.inventory, k) == ValueAt(t.inventory, k))
            && WithinLimits(probe.inventory, tp.resourceLimits)
            && HitTarget(actionName, defense, ap, a, tp, t)
               == FreezingHit(ap, tp, a.(stats := IncrAll(a.stats, TargetingKeys(actionName, ap, tp))),
                              t.(inventory := probe.inventory), t.frozen > 0)
  {
    ProbeAll(t.inventory, defense, tp.resourceLimits);
  }

  /** Moves and non-moves measured from states with the same amounts. */
  lemma Reframe(ap: Profile, a: AgentState, t: AgentState, a1: AgentState, t1: AgentState, r: Pair)
    requires a1.inventory == a.inventory
    requires forall k :: ValueAt(t1.inventory, k) == ValueAt(t.inventory, k)
    ensures (forall k :: Moved(ap, Pair(a1, t1), r, k)) ==> forall k :: Moved(ap, Pair(a, t), r, k)
    ensures (forall k :: Still(Pair(a1, t1), r, k)) ==> forall k :: Still(Pair(a, t), r, k)
  {
    if forall k :: Moved(ap, Pair(a1, t1), r, k) {
      forall k ensures Moved(ap, Pair(a, t), r, k) {
        assert Moved(ap, Pair(a1, t1), r, k);
      }
    }
    if forall k :: Still(Pair(a1, t1), r, k) {
      forall k ensures Still(Pair(a, t), r, k) {
        assert Still(Pair(a1, t1), r, k);
      }
    }
  }

  /** An attack that is not blocked freezes the target for its freeze
      duration. A target that was already frozen keeps every amount; one that
      was not loses to the actor what the actor's limits allow, per item, and
      the two amounts of each item still add up to what they did. */
  lemma HitTargetFreezes(actionName: string, defense: map<Item, Cost>,
                         ap: Profile, a: AgentState, tp: Profile, t: AgentState)
    requires PairWithin(ap, tp, Pair(a, t))
    requires !Blocks(defense, t.inventory)
    ensures var r := HitTarget(actionName, defense, ap, a, tp, t);
            && r.target.frozen == tp.freezeDuration
            && PairWithin(ap, tp, r)
            && (t.frozen > 0 ==> forall k :: Still(Pair(a, t), r, k))
            && (t.frozen <= 0 ==> forall k :: Moved(ap, Pair(a, t), r, k))
  {
    HitTargetUnblocked(actionName, defense, ap, a, tp, t);
    var probe := Probe(t.inventory, defense, OrderedKeys(defense));
    var a1 := a.(stats := IncrAll(a.stats, TargetingKeys(actionName, ap, tp)));
    var t1 := t.(inventory := probe.inventory);
    FreezingHitSteals(ap, tp, a1, t1, t.frozen > 0);
    var r := FreezingHit(ap, tp, a1, t1, t.frozen > 0);
    if t.frozen > 0 {
      forall k ensures Still(Pair(a1, t1), r, k) {}
    }
    Reframe(ap, a, t, a1, t1, r);
  }

  /** The stealing loop changes no freeze timer. */
  lemma {:induction false} StealAllKeepsFrozen(ap: Profile, tp: Profile, s: Pair, loot: seq<(Item, UInt8)>)
    ensures var r := StealAll(ap, tp, s, loot);
            r.actor.frozen == s.actor.frozen && r.target.frozen == s.target.frozen
    decreases |loot|
  {
    if loot != [] {
      StealOneInventories(ap, tp, s, loot[0].0, loot[0].1);
      StealAllKeepsFrozen(ap, tp, StealOne(ap, tp, s, loot[0].0, loot[0].1), loot[1..]);
    }
  }

  /** The freeze timers after an attack on an agent: a blocked attack leaves
      the target's timer as it was, any other sets it to the target's freeze
      duration; the actor's timer never changes. So the target can be swapped
      with afterwards exactly when its timer was non-zero (blocked) or its
      freeze duration is non-zero (not blocked). */
  lemma HitTargetFrozen(actionName: string, defense: map<Item, Cost>,
                        ap: Profile, a: AgentState, tp: Profile, t: AgentState)
    ensures var r := HitTarget(actionName, defense, ap, a, tp, t);
            && r.actor.frozen == a.frozen
            && (Blocks(defense, t.inventory) ==> r.target.frozen == t.frozen)
            && (!Blocks(defense, t.inventory) ==> r.target.frozen == tp.freezeDuration)
  {
    var probe := Probe(t.inventory, defense, OrderedKeys(defense));
    ProbeAll(t.inventory, defense, tp.resourceLimits);
    var a1 := a.(stats := IncrAll(a.stats, TargetingKeys(actionName, ap, tp)));
    RespondFrozen(ap, tp, defense, a1, t.(inventory := probe.inventory), |defense| > 0 && probe.ok, t.frozen > 0);
  }

  /** The freeze timers after the response: a block keeps the target's, the
      freezing branch sets it to the freeze duration; the actor's is kept. */
  lemma RespondFrozen(ap: Profile, tp: Profile, defense: map<Item, Cost>, a: AgentState, t: AgentState,
                      blocked: bool, wasFrozen: bool)
    ensures var r := Respond(ap, tp, defense, a, t, blocked, wasFrozen);
            && r.actor.frozen == a.frozen
            && (blocked ==> r.target.frozen == t.frozen)
            && (!blocked ==> r.target.frozen == tp.freezeDuration)
  {
    if !blocked && !wasFrozen {
      var t1 := t.(frozen := tp.freezeDuration);
      var a2 := a.(stats := IncrAll(a.stats, WinKeys(ap, tp)));
      var t2 := t1.(stats := IncrAll(t1.stats, LossKeys(ap, tp)));
      StealAllKeepsFrozen(ap, tp, Pair(a2, t2), InventoryPairs(t2.inventory));
    }
  }

  /** From `s` to `r`, each agent that was within its limits still is. */
  ghost predicate KeepsLimits(ap: Profile, tp: Profile, s: Pair, r: Pair) {
    && (WithinLimits(s.actor.inventory, ap.resourceLimits) ==> WithinLimits(r.actor.inventory, ap.resourceLimits))
    && (WithinLimits(s.target.inventory, tp.resourceLimits) ==> WithinLimits(r.target.inventory, tp.resourceLimits))
  }

  /** The reads of a resource check keep the limits. */
  lemma ProbeWithin(inventory: map<Item, UInt8>, required: map<Item, Cost>, keys: seq<Item>, limits: map<Item, UInt8>)
    requires forall j :: 0 <= j < |keys| ==> keys[j] in required
    ensures WithinLimits(inventory, limits) ==> WithinLimits(Probe(inventory, required, keys).inventory, limits)
  {
    var r := Probe(inventory, required, keys).inventory;
    ProbeSpec(inventory, required, keys);
    if WithinLimits(inventory, limits) {
      forall k | k in r ensures r[k] <= ValueAt(limits, k) {
        assert ValueAt(r, k) == ValueAt(inventory, k);
        WithinAt(inventory, limits, k);
      }
    }
  }

  /** As written, a check that reaches an item with no entry (every item
      before it is held) inserts a 0 entry, so the inventory no longer meets
      the intent that `obs_features` asserts (agent.hpp:145-146). */
  lemma {:induction false} ProbeLeavesZeroEntry(inventory: map<Item, UInt8>, required: map<Item, Cost>,
                                                keys: seq<Item>, j: nat)
    requires forall i :: 0 <= i < |keys| ==> keys[i] in required
    requires j < |keys| && keys[j] !in inventory
    requires forall i :: 0 <= i < j ==> ValueAt(inventory, keys[i]) >= required[keys[i]]
    ensures !NoZeroEntries(Probe(inventory, required, keys).inventory)
    decreases j
  {
    var k := keys[0];
    var touched := Touch(inventory, k);
    var r := Probe(inventory, required, keys).inventory;
    assert forall i :: 0 <= i < |keys[1..]| ==> keys[1..][i] == keys[i + 1];
    if k !in inventory {
      if ValueAt(inventory, k) >= required[k] {
        ProbeSpec(touched, required, keys[1..]);
        assert ValueAt(r, k) == ValueAt(touched, k);
      }
      assert k in r && r[k] == 0;
    } else {
      assert touched == inventory && j > 0;
      ProbeLeavesZeroEntry(inventory, required, keys[1..], j - 1);
    }
  }

  /** One instance: a failed check for an item the agent never held. */
  lemma ProbeOfEmptyInventory()
    ensures Probe(map[], map[3 := 1], [3]) == ProbeResult(map[3 := 0], false)
    ensures !NoZeroEntries(Probe(map[], map[3 := 1], [3]).inventory)
  {
    assert Probe(map[], map[3 := 1], [3]).inventory[3] == 0;
  }

  /** The defence read leaves a lasting 0 entry in a target that was
      already frozen: the attack is not blocked and nothing is stolen. */
  lemma FrozenTargetKeepsZeroEntry(actionName: string, ap: Profile, a: AgentState, tp: Profile, t: AgentState)
    requires t.inventory == map[] && t.frozen > 0
    ensures HitTarget(actionName, map[3 := 1], ap, a, tp, t).target.inventory == map[3 := 0]
  {
    var defense: map<Item, Cost> := map[3 := 1];
    assert !Holds(t.inventory, defense) by {
      assert ValueAt(t.inventory, 3) < defense[3];
    }
    HitTargetUnblocked(actionName, defense, ap, a, tp, t);
    var keys := OrderedKeys(defense);
    assert |keys| == 1 && keys[0] in defense;
    assert Probe(t.inventory, defense, keys).inventory == map[3 := 0];
  }

  /** The check as intended: look each item up without inserting it. */
  function CheckHeld(inventory: map<Item, UInt8>, required: map<Item, Cost>, keys: seq<Item>): (ok: bool)
    requires forall j :: 0 <= j < |keys| ==> keys[j] in required
    ensures ok <==> forall j :: 0 <= j < |keys| ==> ValueAt(inventory, keys[j]) >= required[keys[j]]
    decreases |keys|
  {
    if keys == [] then true
    else
      assert forall j :: 1 <= j < |keys| ==> keys[j] == keys[1..][j - 1];
      ValueAt(inventory, keys[0]) >= required[keys[0]] && CheckHeld(inventory, required, keys[1..])
  }

  /** The lookup decides exactly as the as-written check does, and the
      as-written check changes no amount that can be read: the two differ
      only in the 0 entries the as-written one inserts. */
  lemma CheckHeldMatchesProbe(inventory: map<Item, UInt8>, required: map<Item, Cost>, keys: seq<Item>)
    requires forall j :: 0 <= j < |keys| ==> keys[j] in required
    ensures CheckHeld(inventory, required, keys) == Probe(inventory, required, keys).ok
    ensures forall k :: ValueAt(Probe(inventory, required, keys).inventory, k) == ValueAt(inventory, k)
  {
    ProbeSpec(inventory, required, keys);
  }

  /** Paying a cost leaves no 0 entry behind, whether or not it is held. */
  lemma {:induction false} PayCostNoZero(p: Profile, s: AgentState, costs: map<Item, Cost>, keys: seq<Item>)
    requires forall j :: 0 <= j < |keys| ==> keys[j] in costs
    ensures NoZeroEntries(s.inventory) ==> NoZeroEntries(PayCost(p, s, costs, keys).inventory)
    decreases |keys|
  {
    if keys != [] {
      var amount := ToInt16(-(costs[keys[0]] as int));
      InventoryUpdateKeepsInvariants(p, s, keys[0], amount);
      assert forall j :: 1 <= j < |keys| ==> keys[j] == keys[1..][j - 1];
      PayCostNoZero(p, InventoryUpdate(p, s, keys[0], amount).state, costs, keys[1..]);
    }
  }

  /** The stealing loop leaves no 0 entry in either agent, whatever the loot list. */
  lemma {:induction false} StealAllNoZero(ap: Profile, tp: Profile, s: Pair, loot: seq<(Item, UInt8)>)
    ensures var r := StealAll(ap, tp, s, loot);
            && (NoZeroEntries(s.actor.inventory) ==> NoZeroEntries(r.actor.inventory))
            && (NoZeroEntries(s.target.inventory) ==> NoZeroEntries(r.target.inventory))
    decreases |loot|
  {
    if loot != [] {
      var item, amount := loot[0].0, loot[0].1;
      var ua := InventoryUpdate(ap, s.actor, item, amount);
      InventoryUpdateKeepsInvariants(ap, s.actor, item, amount);
      InventoryUpdateKeepsInvariants(tp, s.target, item, ToInt16(-ua.delta));
      StealOneInventories(ap, tp, s, item, amount);
      StealAllNoZero(ap, tp, StealOne(ap, tp, s, item, amount), loot[1..]);
    }
  }

  /** The attack on an agent with the defence looked up by `CheckHeld`
      instead of read through `operator[]`. */
  function CheckedHitTarget(actionName: string, defense: map<Item, Cost>,
                            ap: Profile, a: AgentState, tp: Profile, t: AgentState): Pair
  {
    var a1 := a.(stats := IncrAll(a.stats, TargetingKeys(actionName, ap, tp)));
    var blocked := |defense| > 0 && CheckHeld(t.inventory, defense, OrderedKeys(defense));
    Respond(ap, tp, defense, a1, t, blocked, t.frozen > 0)
  }

  /** Both responses leave no 0 entry in either agent. */
  lemma RespondNoZero(ap: Profile, tp: Profile, defense: map<Item, Cost>, a: AgentState, t: AgentState,
                      blocked: bool, wasFrozen: bool)
    ensures var r := Respond(ap, tp, defense, a, t, blocked, wasFrozen);
            && (NoZeroEntries(a.inventory) ==> NoZeroEntries(r.actor.inventory))
            && (NoZeroEntries(t.inventory) ==> NoZeroEntries(r.target.inventory))
  {
    if blocked {
      PayCostNoZero(tp, t, defense, OrderedKeys(defense));
    } else if !wasFrozen {
      var t1 := t.(frozen := tp.freezeDuration);
      var a2 := a.(stats := IncrAll(a.stats, WinKeys(ap, tp)));
      var t2 := t1.(stats := IncrAll(t1.stats, LossKeys(ap, tp)));
      StealAllNoZero(ap, tp, Pair(a2, t2), InventoryPairs(t2.inventory));
    }
  }

  /** The corrected attack leaves no 0 entry in either agent. */
  lemma CheckedHitTargetNoZero(actionName: string, defense: map<Item, Cost>,
                               ap: Profile, a: AgentState, tp: Profile, t: AgentState)
    ensures var r := CheckedHitTarget(actionName, defense, ap, a, tp, t);
            && (NoZeroEntries(a.inventory) ==> NoZeroEntries(r.actor.inventory))
            && (NoZeroEntries(t.inventory) ==> NoZeroEntries(r.target.inventory))
  {
    var a1 := a.(stats := IncrAll(a.stats, TargetingKeys(actionName, ap, tp)));
    var blocked := |defense| > 0 && CheckHeld(t.inventory, defense, OrderedKeys(defense));
    var r := Respond(ap, tp, defense, a1, t, blocked, t.frozen > 0);
    assert CheckedHitTarget(actionName, defense, ap, a, tp, t) == r;
    RespondNoZero(ap, tp, defense, a1, t, blocked, t.frozen > 0);
    assert a1.inventory == a.inventory;
  }

  /** Within the limits, the corrected attack takes the branch the written
      one takes and leaves each agent with the same amounts and freeze timer:
      the two differ only in the 0 entries the written one keeps. */
  lemma CheckedHitTargetAgrees(actionName: string, defense: map<Item, Cost>,
                               ap: Profile, a: AgentState, tp: Profile, t: AgentState)
    requires PairWithin(ap, tp, Pair(a, t))
    ensures var r := CheckedHitTarget(actionName, defense, ap, a, tp, t);
            var w := HitTarget(actionName, defense, ap, a, tp, t);
            && r.actor.frozen == w.actor.frozen && r.target.frozen == w.target.frozen
            && (forall k :: ValueAt(r.actor.inventory, k) == ValueAt(w.actor.inventory, k))
            && (forall k :: ValueAt(r.target.inventory, k) == ValueAt(w.target.inventory, k))
  {
    CheckedFrozenAgrees(actionName, defense, ap, a, tp, t);
    if Blocks(defense, t.inventory) {
      CheckedBlockedAgrees(actionName, defense, ap, a, tp, t);
    } else {
      CheckedUnblockedAgrees(actionName, defense, ap, a, tp, t);
    }
  }

  /** The lookup-only defence check blocks exactly when the written one does. */
  lemma CheckedBlocks(defense: map<Item, Cost>, t: AgentState, limits: map<Item, UInt8>)
    ensures (|defense| > 0 && CheckHeld(t.inventory, defense, OrderedKeys(defense))) == Blocks(defense, t.inventory)
  {
    CheckHeldMatchesProbe(t.inventory, defense, OrderedKeys(defense));
    ProbeAll(t.inventory, defense, limits);
  }

  /** The freeze timers of `CheckedHitTargetAgrees`. */
  lemma CheckedFrozenAgrees(actionName: string, defense: map<Item, Cost>,
                            ap: Profile, a: AgentState, tp: Profile, t: AgentState)
    ensures var r := CheckedHitTarget(actionName, defense, ap, a, tp, t);
            var w := HitTarget(actionName, defense, ap, a, tp, t);
            r.actor.frozen == w.actor.frozen && r.target.frozen == w.target.frozen
  {
    var a1 := a.(stats := IncrAll(a.stats, TargetingKeys(actionName, ap, tp)));
    CheckedBlocks(defense, t, tp.resourceLimits);
    HitTargetFrozen(actionName, defense, ap, a, tp, t);
    RespondFrozen(ap, tp, defense, a1, t, Blocks(defense, t.inventory), t.frozen > 0);
  }

  /** The blocked branch of `CheckedHitTargetAgrees`. */
  lemma CheckedBlockedAgrees(actionName: string, defense: map<Item, Cost>,
                             ap: Profile, a: AgentState, tp: Profile, t: AgentState)
    requires PairWithin(ap, tp, Pair(a, t))
    requires Blocks(defense, t.inventory)
    ensures var r := CheckedHitTarget(actionName, defense, ap, a, tp, t);
            var w := HitTarget(actionName, defense, ap, a, tp, t);
            && (forall k :: ValueAt(r.actor.inventory, k) == ValueAt(w.actor.inventory, k))
            && (forall k :: ValueAt(r.target.inventory, k) == ValueAt(w.target.inventory, k))
  {
    var a1 := a.(stats := IncrAll(a.stats, TargetingKeys(actionName, ap, tp)));
    CheckedBlocks(defense, t, tp.resourceLimits);
    var r := BlockedHit(ap, tp, defense, a1, t);
    assert CheckedHitTarget(actionName, defense, ap, a, tp, t) == r;
    HitTargetBlocked(actionName, defense, ap, a, tp, t);
    PaidAll(tp, t, defense);
  }

  /** The freezing branch of `CheckedHitTargetAgrees`. */
  lemma CheckedUnblockedAgrees(actionName: string, defense: map<Item, Cost>,
                               ap: Profile, a: AgentState, tp: Profile, t: AgentState)
    requires PairWithin(ap, tp, Pair(a, t))
    requires !Blocks(defense, t.inventory)
    ensures var r := CheckedHitTarget(actionName, defense, ap, a, tp, t);
            var w := HitTarget(actionName, defense, ap, a, tp, t);
            && (forall k :: ValueAt(r.actor.inventory, k) == ValueAt(w.actor.inventory, k))
            && (forall k :: ValueAt(r.target.inventory, k) == ValueAt(w.target.inventory, k))
  {
    var a1 := a.(stats := IncrAll(a.stats, TargetingKeys(actionName, ap, tp)));
    CheckedBlocks(defense, t, tp.resourceLimits);
    var r := FreezingHit(ap, tp, a1, t, t.frozen > 0);
    assert CheckedHitTarget(actionName, defense, ap, a, tp, t) == r;
    var w := HitTarget(actionName, defense, ap, a, tp, t);
    HitTargetFreezes(actionName, defense, ap, a, tp, t);
    FreezingHitSteals(ap, tp, a1, t, t.frozen > 0);
    if t.frozen > 0 {
      forall k ensures ValueAt(r.actor.inventory, k) == ValueAt(w.actor.inventory, k)
                    && ValueAt(r.target.inventory, k) == ValueAt(w.target.inventory, k)
      {
        assert Still(Pair(a, t), w, k);
      }
    } else {
      Reframe(ap, a, t, a1, t, r);
      forall k ensures ValueAt(r.actor.inventory, k) == ValueAt(w.actor.inventory, k)
                    && ValueAt(r.target.inventory, k) == ValueAt(w.target.inventory, k)
      {
        assert Moved(ap, Pair(a, t), r, k) && Moved(ap, Pair(a, t), w, k);
      }
    }
  }

  /** Paying a cost keeps the limits, whether or not it is held. */
  lemma {:induction false} PayCostWithin(p: Profile, s: AgentState, costs: map<Item, Cost>, keys: seq<Item>)
    requires forall j :: 0 <= j < |keys| ==> keys[j] in costs
    ensures WithinLimits(s.inventory, p.resourceLimits)
            ==> WithinLimits(PayCost(p, s, costs, keys).inventory, p.resourceLimits)
    decreases |keys|
  {
    if keys != [] {
      var amount := ToInt16(-(costs[keys[0]] as int));
      InventoryUpdateKeepsInvariants(p, s, keys[0], amount);
      assert forall j :: 1 <= j < |keys| ==> keys[j] == keys[1..][j - 1];
      PayCostWithin(p, InventoryUpdate(p, s, keys[0], amount).state, costs, keys[1..]);
    }
  }

  /** One transfer keeps each agent's limits, whatever amount is offered. */
  lemma StealOneKeepsLimits(ap: Profile, tp: Profile, s: Pair, item: Item, amount: UInt8)
    ensures KeepsLimits(ap, tp, s, StealOne(ap, tp, s, item, amount))
  {
    var ua := InventoryUpdate(ap, s.actor, item, amount);
    InventoryUpdateKeepsInvariants(ap, s.actor, item, amount);
    InventoryUpdateKeepsInvariants(tp, s.target, item, ToInt16(-ua.delta));
    StealOneInventories(ap, tp, s, item, amount);
  }

  /** The stealing loop keeps each agent's limits, whatever the loot list. */
  lemma {:induction false} StealAllKeepsLimits(ap: Profile, tp: Profile, s: Pair, loot: seq<(Item, UInt8)>)
    ensures KeepsLimits(ap, tp, s, StealAll(ap, tp, s, loot))
    decreases |loot|
  {
    if loot != [] {
      var s1 := StealOne(ap, tp, s, loot[0].0, loot[0].1);
      StealOneKeepsLimits(ap, tp, s, loot[0].0, loot[0].1);
      StealAllKeepsLimits(ap, tp, s1, loot[1..]);
    }
  }

  /** Both responses to an attack keep each agent's limits. */
  lemma RespondKeepsLimits(ap: Profile, tp: Profile, defense: map<Item, Cost>, a: AgentState, t: AgentState,
                           blocked: bool, wasFrozen: bool)
    ensures KeepsLimits(ap, tp, Pair(a, t), Respond(ap, tp, defense, a, t, blocked, wasFrozen))
  {
    if blocked {
      PayCostWithin(tp, t, defense, OrderedKeys(defense));
    } else {
      FreezingHitKeepsLimits(ap, tp, a, t, wasFrozen);
    }
  }

  /** The freezing branch keeps each agent's limits. */
  lemma FreezingHitKeepsLimits(ap: Profile, tp: Profile, a: AgentState, t: AgentState, wasFrozen: bool)
    ensures KeepsLimits(ap, tp, Pair(a, t), FreezingHit(ap, tp, a, t, wasFrozen))
  {
    if !wasFrozen {
      var t1 := t.(frozen := tp.freezeDuration);
      var a2 := a.(stats := IncrAll(a.stats, WinKeys(ap, tp)));
      var t2 := t1.(stats := IncrAll(t1.stats, LossKeys(ap, tp)));
      StealAllKeepsLimits(ap, tp, Pair(a2, t2), InventoryPairs(t2.inventory));
    }
  }

  /** An attack on an agent keeps each agent's limits. */
  lemma HitTargetKeepsLimits(actionName: string, defense: map<Item, Cost>,
                             ap: Profile, a: AgentState, tp: Profile, t: AgentState)
    ensures KeepsLimits(ap, tp, Pair(a, t), HitTarget(actionName, defense, ap, a, tp, t))
  {
    var keys := OrderedKeys(defense);
    var probe := Probe(t.inventory, defense, keys);
    ProbeWithin(t.inventory, defense, keys, tp.resourceLimits);
    var a1 := a.(stats := IncrAll(a.stats, TargetingKeys(actionName, ap, tp)));
    RespondKeepsLimits(ap, tp, defense, a1, t.(inventory := probe.inventory), |defense| > 0 && probe.ok, t.frozen > 0);
  }

  // ---------------------------------------------------------------------------
  // The action handler
  // ---------------------------------------------------------------------------

  /** A resource check loop (attack.hpp:37-41 and 78-83): read each required
      item in turn and stop at the first one held below its amount. */
  method ProbeInventory(agent: Agent, required: map<Item, Cost>, keys: seq<Item>) returns (ok: bool)
    requires forall j :: 0 <= j < |keys| ==> keys[j] in required
    modifies agent`inventory
    ensures ok == Probe(old(agent.inventory), required, keys).ok
    ensures agent.inventory == Probe(old(agent.inventory), required, keys).inventory
    ensures old(agent.Valid()) ==> agent.Valid()
  {
    ProbeWithin(agent.inventory, required, keys, agent.resourceLimits);
    var j := 0;
    while j < |keys|
      invariant 0 <= j <= |keys|
      invariant Probe(old(agent.inventory), required, keys) == Probe(agent.inventory, required, keys[j..])
    {
      assert keys[j..][1..] == keys[j + 1..];
      var held := agent.ReadInventory(keys[j]);
      if held < required[keys[j]] {
        return false;
      }
      j := j + 1;
    }
    return true;
  }

  /** A payment loop (attack.hpp:43-46 and 87-90): `update_inventory(item, -amount)` per key. */
  method PayCosts(agent: Agent, costs: map<Item, Cost>, keys: seq<Item>)
    requires forall j :: 0 <= j < |keys| ==> keys[j] in costs
    modifies agent`inventory, agent`stats
    ensures agent.State() == PayCost(agent.Profile(), old(agent.State()), costs, keys)
    ensures old(agent.Valid()) ==> agent.Valid()
  {
    PayCostWithin(agent.Profile(), agent.State(), costs, keys);
    for j := 0 to |keys|
      invariant PayCost(agent.Profile(), old(agent.State()), costs, keys)
                == PayCost(agent.Profile(), agent.State(), costs, keys[j..])
    {
      ghost var before := agent.State();
      var used := agent.UpdateInventory(keys[j], ToInt16(-(costs[keys[j]] as int)));
      PayCostStep(agent.Profile(), before, costs, keys, j);
    }
  }

  /** One pass of the stealing loop (attack.hpp:124-132). */
  method StealItem(actor: Agent, target: Agent, item: Item, amount: UInt8)
    requires actor != target
    modifies actor`inventory, actor`stats, target`inventory, target`stats
    ensures Pair(actor.State(), target.State())
            == StealOne(actor.Profile(), target.Profile(), old(Pair(actor.State(), target.State())), item, amount)
    ensures old(actor.Valid()) ==> actor.Valid()
    ensures old(target.Valid()) ==> target.Valid()
  {
    ghost var s0 := Pair(actor.State(), target.State());
    StealOneKeepsLimits(actor.Profile(), target.Profile(), s0, item, amount);
    var stolen := actor.UpdateInventory(item, amount);
    var _ := target.UpdateInventory(item, ToInt16(-stolen));
    ghost var s1 := Pair(actor.State(), target.State());
    assert s1 == Transferred(actor.Profile(), target.Profile(), s0, item, amount);
    RecordSteal(actor, target, item, stolen);
  }

  /** attack.hpp:127-132 */
  method RecordSteal(actor: Agent, target: Agent, item: Item, stolen: int)
    requires actor != target
    modifies actor`stats, target`stats
    ensures Pair(actor.State(), target.State())
            == Credit(actor.Profile(), target.Profile(), old(Pair(actor.State(), target.State())), item, stolen)
    ensures old(actor.Valid()) ==> actor.Valid()
    ensures old(target.Valid()) ==> target.Valid()
  {
    if stolen > 0 {
      actor.AddStat(StatKey([actor.itemName(item), ".stolen.", actor.groupName]), stolen);
      target.AddStat(StatKey([target.itemName(item), ".stolen_from.", target.groupName]), stolen);
    }
  }

  /** The stealing loop (attack.hpp:123-133). */
  method StealLoot(actor: Agent, target: Agent, loot: seq<(Item, UInt8)>)
    requires actor != target
    modifies actor`inventory, actor`stats, target`inventory, target`stats
    ensures Pair(actor.State(), target.State())
            == StealAll(actor.Profile(), target.Profile(), old(Pair(actor.State(), target.State())), loot)
    ensures old(actor.Valid()) ==> actor.Valid()
    ensures old(target.Valid()) ==> target.Valid()
  {
    StealAllKeepsLimits(actor.Profile(), target.Profile(), Pair(actor.State(), target.State()), loot);
    for i := 0 to |loot|
      invariant StealAll(actor.Profile(), target.Profile(), old(Pair(actor.State(), target.State())), loot)
                == StealAll(actor.Profile(), target.Profile(), Pair(actor.State(), target.State()), loot[i..])
    {
      assert loot[i..][1..] == loot[i + 1..];
      StealItem(actor, target, loot[i].0, loot[i].1);
    }
  }

  /** The blocked branch (attack.hpp:85-94). */
  method Block(actor: Agent, target: Agent, defense: map<Item, Cost>)
    requires actor != target
    modifies actor`stats, target`inventory, target`stats
    ensures Pair(actor.State(), target.State())
            == BlockedHit(actor.Profile(), target.Profile(), defense, old(actor.State()), old(target.State()))
    ensures old(actor.Valid()) ==> actor.Valid()
    ensures old(target.Valid()) ==> target.Valid()
  {
    PayCosts(target, defense, OrderedKeys(defense));
    actor.IncrStats(BlockedKeys(actor.Profile(), target.Profile()));
  }

  /** The branch that is not blocked (attack.hpp:95-136). */
  method Freeze(actor: Agent, target: Agent, wasFrozen: bool)
    requires actor != target
    modifies actor`inventory, actor`stats, target`inventory, target`stats, target`frozen
    ensures Pair(actor.State(), target.State())
            == FreezingHit(actor.Profile(), target.Profile(), old(actor.State()), old(target.State()), wasFrozen)
    ensures old(actor.Valid()) ==> actor.Valid()
    ensures old(target.Valid()) ==> target.Valid()
  {
    ghost var actorValid, targetValid := actor.Valid(), target.Valid();
    target.frozen := target.freezeDuration;
    assert targetValid ==> target.Valid();
    if !wasFrozen {
      actor.IncrStats(WinKeys(actor.Profile(), target.Profile()));
      target.IncrStats(LossKeys(actor.Profile(), target.Profile()));
      assert actorValid ==> actor.Valid();
      assert targetValid ==> target.Valid();
      var loot := InventoryPairs(target.inventory);
      StealLoot(actor, target, loot);
    }
  }

  /** attack.hpp:85-137 */
  method RespondTo(actor: Agent, target: Agent, defense: map<Item, Cost>, blocked: bool, wasFrozen: bool)
    requires actor != target
    modifies actor`inventory, actor`stats, target`inventory, target`stats, target`frozen
    ensures Pair(actor.State(), target.State())
            == Respond(actor.Profile(), target.Profile(), defense, old(actor.State()), old(target.State()), blocked, wasFrozen)
    ensures old(actor.Valid()) ==> actor.Valid()
    ensures old(target.Valid()) ==> target.Valid()
  {
    if blocked {
      Block(actor, target, defense);
    } else {
      Freeze(actor, target, wasFrozen);
    }
  }

  class Attack {
    const actionName: string
    const attackResources: map<Item, Cost>
    const defenseResources: map<Item, Cost>

    constructor (attackResources: map<Item, Cost>, defenseResources: map<Item, Cost>, actionName: string)
      ensures this.attackResources == attackResources && this.defenseResources == defenseResources
      ensures this.actionName == actionName
    {
      this.attackResources := attackResources;
      this.defenseResources := defenseResources;
      this.actionName := actionName;
    }

    /** The attack-cost check on the actor's inventory. */
    function CostCheck(inventory: map<Item, UInt8>): ProbeResult {
      Probe(inventory, attackResources, OrderedKeys(attackResources))
    }

    /** The actor after paying the attack cost. */
    function Paid(p: Profile, s: AgentState): AgentState {
      PayCost(p, s.(inventory := CostCheck(s.inventory).inventory), attackResources, OrderedKeys(attackResources))
    }

    /** The cost check passes exactly when the actor holds every attack
        amount, and it changes no amount that can be read. */
    lemma CostCheckHolds(inventory: map<Item, UInt8>)
      ensures CostCheck(inventory).ok <==> Holds(inventory, attackResources)
      ensures forall k :: ValueAt(CostCheck(inventory).inventory, k) == ValueAt(inventory, k)
    {
      ProbeAll(inventory, attackResources, map[]);
    }

    /** Once the check passes, every attack resource goes down by exactly its
        amount, no other item changes and the limits still hold. */
    lemma PaidExact(p: Profile, s: AgentState)
      requires WithinLimits(s.inventory, p.resourceLimits)
      requires Holds(s.inventory, attackResources)
      ensures var r := Paid(p, s);
              && WithinLimits(r.inventory, p.resourceLimits)
              && (forall k :: ValueAt(r.inventory, k) == ValueAt(s.inventory, k) - CostOf(attackResources, k))
              && r.frozen == s.frozen
    {
      var probe := CostCheck(s.inventory);
      ProbeAll(s.inventory, attackResources, p.resourceLimits);
      var s1 := s.(inventory := probe.inventory);
      assert Holds(s1.inventory, attackResources) by {
        forall k | k in attackResources ensures ValueAt(s1.inventory, k) >= attackResources[k] {
          assert ValueAt(s1.inventory, k) == ValueAt(s.inventory, k);
        }
      }
      PaidAll(p, s1, attackResources);
    }

    /** The actor after paying the attack cost, with the cost looked up by
        `CheckHeld` rather than read through `operator[]`. */
    function CheckedPaid(p: Profile, s: AgentState): AgentState {
      PayCost(p, s, attackResources, OrderedKeys(attackResources))
    }

    /** With lookup-only checks, paying and then attacking an agent leaves
        no 0 entry in either agent; a check that fails changes nothing. */
    lemma CheckedAttackNoZero(ap: Profile, a: AgentState, tp: Profile, t: AgentState)
      requires NoZeroEntries(a.inventory) && NoZeroEntries(t.inventory)
      ensures NoZeroEntries(CheckedPaid(ap, a).inventory)
      ensures var hit := CheckedHitTarget(actionName, defenseResources, ap, CheckedPaid(ap, a), tp, t);
              NoZeroEntries(hit.actor.inventory) && NoZeroEntries(hit.target.inventory)
    {
      PayCostNoZero(ap, a, attackResources, OrderedKeys(attackResources));
      CheckedHitTargetNoZero(actionName, defenseResources, ap, CheckedPaid(ap, a), tp, t);
    }

    /** Within the limits and with the cost held, the corrected payment
        leaves the amounts and the freeze timer the written one does. */
    lemma CheckedPaidAgrees(p: Profile, s: AgentState)
      requires WithinLimits(s.inventory, p.resourceLimits)
      requires Holds(s.inventory, attackResources)
      ensures forall k :: ValueAt(CheckedPaid(p, s).inventory, k) == ValueAt(Paid(p, s).inventory, k)
      ensures CheckedPaid(p, s).frozen == Paid(p, s).frozen
    {
      PaidExact(p, s);
      PaidAll(p, s, attackResources);
    }

    /** attack.hpp:57-141, with the grid lookup's result passed in. */
    method HandleTarget(actor: Agent, target: Agent?) returns (success: bool)
      requires target != actor
      modifies actor, target
      ensures success <==> target != null
      ensures target == null ==> actor.State() == old(actor.State())
      ensures target != null ==>
                var r := HitTarget(actionName, defenseResources,
                                   actor.Profile(), old(actor.State()), target.Profile(), old(target.State()));
                actor.State() == r.actor && target.State() == r.target
      ensures old(actor.Valid()) ==> actor.Valid()
      ensures target != null && old(target.Valid()) ==> target.Valid()
      ensures target != null && !Blocks(defenseResources, old(target.inventory)) ==>
                (target.Swappable() <==> target.freezeDuration != 0)
    {
      if target == null {
        return false;
      }
      HitAgent(actor, target);
      return true;
    }

    /** attack.hpp:63-137: the attack on the agent at the target cell. */
    method HitAgent(actor: Agent, target: Agent)
      requires target != actor
      modifies actor`inventory, actor`stats, target`inventory, target`stats, target`frozen
      ensures Pair(actor.State(), target.State())
              == HitTarget(actionName, defenseResources,
                           actor.Profile(), old(actor.State()), target.Profile(), old(target.State()))
      ensures old(actor.Valid()) ==> actor.Valid()
      ensures old(target.Valid()) ==> target.Valid()
      ensures actor.Swappable() == old(actor.Swappable())
      ensures Blocks(defenseResources, old(target.inventory)) ==> target.Swappable() == old(target.Swappable())
      ensures !Blocks(defenseResources, old(target.inventory)) ==> (target.Swappable() <==> target.freezeDuration != 0)
    {
      HitTargetKeepsLimits(actionName, defenseResources, actor.Profile(), actor.State(), target.Profile(), target.State());
      HitTargetFrozen(actionName, defenseResources, actor.Profile(), actor.State(), target.Profile(), target.State());
      Strike(actor, target);
    }

    /** The statements of attack.hpp:63-137, in order. */
    method Strike(actor: Agent, target: Agent)
      requires target != actor
      modifies actor`inventory, actor`stats, target`inventory, target`stats, target`frozen
      ensures Pair(actor.State(), target.State())
              == HitTarget(actionName, defenseResources,
                           actor.Profile(), old(actor.State()), target.Profile(), old(target.State()))
    {
      var ap, tp := actor.Profile(), target.Profile();
      actor.IncrStats(TargetingKeys(actionName, ap, tp));
      var wasFrozen := target.frozen > 0;

      var keys := OrderedKeys(defenseResources);
      var blocked := |defenseResources| > 0;
      var held := ProbeInventory(target, defenseResources, keys);
      if !held {
        blocked := false;
      }

      RespondTo(actor, target, defenseResources, blocked, wasFrozen);
    }

    /** attack.hpp:32-55. `grid` stands for the grid lookup: the agent, other
        than the actor, standing at each aim that holds one. */
    method HandleAction(actor: Agent, arg: int, grid: map<Aim, Agent>) returns (success: bool)
      requires forall aim :: aim in grid ==> grid[aim] != actor
      modifies actor, grid.Values
      ensures !ValidArg(arg) ==> !success && actor.State() == old(actor.State())
      ensures ValidArg(arg) && !CostCheck(old(actor.inventory)).ok ==>
                !success && actor.State() == old(actor.State()).(inventory := CostCheck(old(actor.inventory)).inventory)
      ensures ValidArg(arg) && CostCheck(old(actor.inventory)).ok && AimOf(arg) !in grid ==>
                !success && actor.State() == Paid(actor.Profile(), old(actor.State()))
      ensures ValidArg(arg) && CostCheck(old(actor.inventory)).ok && AimOf(arg) in grid ==>
                var target := grid[AimOf(arg)];
                var r := HitTarget(actionName, defenseResources,
                                   actor.Profile(), Paid(actor.Profile(), old(actor.State())),
                                   target.Profile(), old(target.State()));
                success && actor.State() == r.actor && target.State() == r.target
      ensures forall t :: t in grid.Values && !(ValidArg(arg) && CostCheck(old(actor.inventory)).ok
                                                && AimOf(arg) in grid && t == grid[AimOf(arg)])
                ==> t.State() == old(t.State())
      ensures old(actor.Valid()) ==> actor.Valid()
      ensures forall t :: t in grid.Values && old(t.Valid()) ==> t.Valid()
    {
      if arg > 9 || arg < 1 {
        return false;
      }
      var keys := OrderedKeys(attackResources);
      var ok := ProbeInventory(actor, attackResources, keys);
      if !ok {
        return false;
      }
      PayCosts(actor, attackResources, keys);
      var aim := Aim(1 + (arg - 1) / 3, -((arg - 1) % 3 - 1));
      var target: Agent? := if aim in grid then grid[aim] else null;
      success := HandleTarget(actor, target);
      forall t | t in grid.Values && old(t.Valid())
        ensures t.Valid()
      {
        if t != target {
          assert t.inventory == old(t.inventory);
        }
      }
    }
  }
}
