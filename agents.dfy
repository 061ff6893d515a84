/** The agent of the grid world: its inventory, the clamped inventory update
    that keeps the inventory within the agent's resource limits, its stat
    counters, and the observation tokens it emits (objects/agent.hpp). */
module Agents {

  /** uint8_t */
  type UInt8 = x: int | 0 <= x < 0x100
  /** short */
  type Int16 = x: int | -0x8000 <= x < 0x8000
  /** InventoryItem: an 8-bit item id. */
  type Item = UInt8

  /** The implicit narrowing conversion from int to short (two's complement
      wrap-around): shift by 2^16 until the value is in range. */
  function ToInt16(x: int): (r: Int16)
    ensures -0x8000 <= x < 0x8000 ==> r == x
    decreases if x < -0x8000 then -x - 0x8000 else if 0x8000 <= x then x - 0x7FFF else 0
  {
    if x < -0x8000 then ToInt16(x + 0x1_0000)
    else if 0x8000 <= x then ToInt16(x - 0x1_0000)
    else x
  }

  /** The conversion keeps the value modulo 2^16, so it is the unique short
      congruent to its argument. */
  lemma {:induction false} ToInt16Wraps(x: int)
    ensures (x - ToInt16(x)) % 0x1_0000 == 0
    decreases if x < -0x8000 then -x - 0x8000 else if 0x8000 <= x then x - 0x7FFF else 0
  {
    if x < -0x8000 {
      ToInt16Wraps(x + 0x1_0000);
    } else if 0x8000 <= x {
      ToInt16Wraps(x - 0x1_0000);
    }
  }

  /** std::clamp */
  function Clamp(x: int, lo: int, hi: int): (r: int)
    requires lo <= hi
    ensures lo <= r <= hi
    ensures lo <= x <= hi ==> r == x
  {
    if x < lo then lo else if hi < x then hi else x
  }

  function Min(x: int, y: int): int { if x <= y then x else y }

  // ---------------------------------------------------------------------------
  // std::map<InventoryItem, uint8_t>
  // ---------------------------------------------------------------------------

  /** The value `m[k]` reads: the stored amount, or 0 when `k` has no entry. */
  function ValueAt(m: map<Item, UInt8>, k: Item): UInt8 {
    if k in m then m[k] else 0
  }

  /** The map after `m[k]` has been evaluated: `operator[]` inserts a 0 entry
      for an absent key, and never changes a value that can be read. */
  function Touch(m: map<Item, UInt8>, k: Item): (r: map<Item, UInt8>)
    ensures r.Keys == m.Keys + {k}
    ensures forall j :: ValueAt(r, j) == ValueAt(m, j)
  {
    if k in m then m else m[k := 0]
  }

  /** Storing or erasing the entry of `k` hides whether `m[k]` was read first. */
  lemma TouchOverwritten(m: map<Item, UInt8>, k: Item, v: UInt8)
    ensures Settled(Touch(m, k), k, v) == Settled(m, k, v)
  {
  }

  /** The number of item ids. */
  const ItemCount: nat := 0x100

  /** The keys of `m` below `n`, ascending. */
  function KeysBelow<V>(m: map<Item, V>, n: nat): (r: seq<Item>)
    requires n <= ItemCount
    ensures forall j :: 0 <= j < |r| ==> r[j] in m && r[j] < n
    ensures forall i, j :: 0 <= i < j < |r| ==> r[i] < r[j]
    ensures forall k :: k in m && k < n ==> k in r
  {
    if n == 0 then []
    else
      var prev := KeysBelow(m, n - 1);
      var here: Item := n - 1;
      if here in m then prev + [here] else prev
  }

  /** A strictly ascending sequence has as many elements as its set. */
  lemma {:induction false} AscendingCardinality(s: seq<int>)
    requires forall i, j :: 0 <= i < j < |s| ==> s[i] < s[j]
    ensures |set x | x in s| == |s|
  {
    if s != [] {
      var init, last := s[..|s| - 1], s[|s| - 1];
      AscendingCardinality(init);
      var before := set x | x in init;
      assert last !in before by {
        forall x | x in init ensures x < last {
          var i :| 0 <= i < |init| && init[i] == x;
        }
      }
      assert s == init + [last];
      assert (set x | x in s) == before + {last};
      assert |before + {last}| == |before| + 1;
    }
  }

  /** The order in which a range-for over a std::map visits its entries:
      every key exactly once, ascending. */
  function OrderedKeys<V>(m: map<Item, V>): (r: seq<Item>)
    ensures |r| == |m|
    ensures forall j :: 0 <= j < |r| ==> r[j] in m
    ensures forall k :: k in m ==> k in r
    ensures forall i, j :: 0 <= i < j < |r| ==> r[i] < r[j]
  {
    var r := KeysBelow(m, ItemCount);
    AscendingCardinality(r);
    assert (set x | x in r) == m.Keys;
    r
  }

  /** Every stored amount lies within the agent's limit for that item. */
  ghost predicate WithinLimits(inventory: map<Item, UInt8>, limits: map<Item, UInt8>) {
    forall k :: k in inventory ==> inventory[k] <= ValueAt(limits, k)
  }

  /** The intent stated at agent.hpp:52-54 and asserted at agent.hpp:146. */
  ghost predicate NoZeroEntries(inventory: map<Item, UInt8>) {
    forall k :: k in inventory ==> inventory[k] > 0
  }

  // ---------------------------------------------------------------------------
  // StatsTracker counters
  // ---------------------------------------------------------------------------

  /** The current value of a counter; an untouched counter reads 0. */
  function Count(stats: map<string, int>, key: string): int {
    if key in stats then stats[key] else 0
  }

  /** A counter's name: its parts concatenated, in order. */
  function StatKey(parts: seq<string>): string
    decreases |parts|
  {
    if parts == [] then "" else parts[0] + StatKey(parts[1..])
  }

  /** StatsTracker::add: raise one counter. */
  function Add(stats: map<string, int>, key: string, amount: int): map<string, int> {
    stats[key := Count(stats, key) + amount]
  }

  /** Add raises its counter by the amount and leaves every other one as it is. */
  lemma AddCounts(stats: map<string, int>, key: string, amount: int)
    ensures var r := Add(stats, key, amount);
            && Count(r, key) == Count(stats, key) + amount
            && r.Keys == stats.Keys + {key}
            && forall other :: other != key ==> Count(r, other) == Count(stats, other)
  {
  }

  /** StatsTracker::incr on each key in turn. */
  function IncrAll(stats: map<string, int>, keys: seq<string>): map<string, int>
    decreases |keys|
  {
    if keys == [] then stats
    else IncrAll(Add(stats, keys[0], 1), keys[1..])
  }

  /** Each counter goes up by the number of times its key occurs, and the
      counters present are the old ones and the keys. */
  lemma {:induction false} IncrAllCounts(stats: map<string, int>, keys: seq<string>)
    ensures var r := IncrAll(stats, keys);
            && (forall key :: Count(r, key) == Count(stats, key) + multiset(keys)[key])
            && r.Keys == stats.Keys + set k | k in keys
    decreases |keys|
  {
    if keys != [] {
      IncrAllCounts(Add(stats, keys[0], 1), keys[1..]);
      assert keys == [keys[0]] + keys[1..];
    }
  }

  // ---------------------------------------------------------------------------
  // The agent's state and its inventory update
  // ---------------------------------------------------------------------------

  /** The fields of an Agent that its methods and the actions change. */
  datatype AgentState = AgentState(
    inventory: map<Item, UInt8>,
    stats: map<string, int>,
    frozen: Int16,
    orientation: UInt8,
    color: UInt8)

  /** The fields of an Agent that nothing changes after construction, with the
      stats tracker's naming of inventory items. */
  datatype Profile = AgentProfile(
    typeName: string,
    groupName: string,
    freezeDuration: Int16,
    resourceLimits: map<Item, UInt8>,
    itemName: Item -> string)

  /** The new state and the returned delta of one update_inventory call. */
  datatype Update = Update(state: AgentState, delta: int)

  /** Agent::update_inventory on values (agent.hpp:86-107, without the
      reward recomputation). */
  function InventoryUpdate(p: Profile, s: AgentState, item: Item, amount: Int16): Update {
    var current := ValueAt(s.inventory, item);
    var newAmount := Clamp(current + amount, 0, ValueAt(p.resourceLimits, item));
    var delta := newAmount - current;
    Update(s.(inventory := Settled(s.inventory, item, newAmount),
              stats := CountDelta(p, s.stats, item, delta)), delta)
  }

  /** The inventory entry after the update: stored when positive, erased at 0. */
  function Settled(m: map<Item, UInt8>, item: Item, newAmount: UInt8): map<Item, UInt8> {
    if newAmount > 0 then m[item := newAmount] else m - {item}
  }

  /** The stat counters after a change of `delta` in `item`. */
  function CountDelta(p: Profile, stats: map<string, int>, item: Item, delta: int): map<string, int> {
    if delta > 0 then Add(stats, StatKey([p.itemName(item), ".gained"]), delta)
    else if delta < 0 then Add(stats, StatKey([p.itemName(item), ".lost"]), -delta)
    else stats
  }

  /** The update clamps the new amount into [0, limit] (a missing limit reads
      0), keeps an entry exactly when the amount is positive, touches no other
      item, returns the applied change, which never takes more than is held
      nor adds beyond the limit, and records that change as gained or lost. */
  lemma InventoryUpdateSpec(p: Profile, s: AgentState, item: Item, amount: Int16)
    ensures var u := InventoryUpdate(p, s, item, amount);
            && ValueAt(u.state.inventory, item)
               == Clamp(ValueAt(s.inventory, item) + amount, 0, ValueAt(p.resourceLimits, item))
            && (item in u.state.inventory <==> ValueAt(u.state.inventory, item) > 0)
            && (forall k :: k != item ==> (k in u.state.inventory <==> k in s.inventory))
            && (forall k :: k != item ==> ValueAt(u.state.inventory, k) == ValueAt(s.inventory, k))
            && u.delta == ValueAt(u.state.inventory, item) - ValueAt(s.inventory, item)
            && -(ValueAt(s.inventory, item) as int) <= u.delta
            && u.delta <= ValueAt(p.resourceLimits, item) - ValueAt(s.inventory, item)
            && (u.delta > 0 ==> u.state.stats == Add(s.stats, StatKey([p.itemName(item), ".gained"]), u.delta))
            && (u.delta < 0 ==> u.state.stats == Add(s.stats, StatKey([p.itemName(item), ".lost"]), -u.delta))
            && (u.delta == 0 ==> u.state.stats == s.stats)
            && u.state.frozen == s.frozen && u.state.orientation == s.orientation && u.state.color == s.color
  {
  }

  /** The update keeps the inventory within the limits and free of 0 entries. */
  lemma InventoryUpdateKeepsInvariants(p: Profile, s: AgentState, item: Item, amount: Int16)
    ensures WithinLimits(s.inventory, p.resourceLimits)
            ==> WithinLimits(InventoryUpdate(p, s, item, amount).state.inventory, p.resourceLimits)
    ensures NoZeroEntries(s.inventory)
            ==> NoZeroEntries(InventoryUpdate(p, s, item, amount).state.inventory)
  {
    InventoryUpdateSpec(p, s, item, amount);
    var inv' := InventoryUpdate(p, s, item, amount).state.inventory;
    forall k | k in inv' && k != item
      ensures k in s.inventory && inv'[k] == s.inventory[k]
    {
      assert ValueAt(inv', k) == ValueAt(s.inventory, k);
    }
  }

  /** Within the limits, updating by the negated delta of an update undoes it:
      every amount reads as it did before both calls. */
  lemma InventoryUpdateUndo(p: Profile, s: AgentState, item: Item, amount: Int16)
    requires WithinLimits(s.inventory, p.resourceLimits)
    ensures var u := InventoryUpdate(p, s, item, amount);
            var back := InventoryUpdate(p, u.state, item, -u.delta as Int16);
            back.delta == -u.delta
            && forall k :: ValueAt(back.state.inventory, k) == ValueAt(s.inventory, k)
  {
    var u := InventoryUpdate(p, s, item, amount);
    InventoryUpdateSpec(p, s, item, amount);
    InventoryUpdateSpec(p, u.state, item, -u.delta as Int16);
    assert item in s.inventory ==> s.inventory[item] <= ValueAt(p.resourceLimits, item);
  }

  // ---------------------------------------------------------------------------
  // Observation tokens
  // ---------------------------------------------------------------------------

  /** PartialObservationToken: a feature id and its value. */
  datatype Token = Token(feature: UInt8, value: UInt8)

  /** The ids of the ObservationFeature constants and InventoryFeatureOffset
      (objects/constants.hpp is not part of this model). */
  datatype FeatureIds = FeatureIds(
    typeId: UInt8, group: UInt8, frozen: UInt8, orientation: UInt8, color: UInt8,
    inventoryOffset: UInt8)

  /** static_cast<uint8_t>(InventoryFeatureOffset + item) */
  function InventoryFeature(ids: FeatureIds, item: Item): UInt8 {
    (ids.inventoryOffset + item) % 0x100
  }

  /** The construction-time part of an agent (AgentConfig, without its reward fields). */
  datatype AgentConfig = AgentConfig(
    typeId: UInt8,
    typeName: string,
    groupId: UInt8,
    groupName: string,
    freezeDuration: Int16,
    resourceLimits: map<Item, UInt8>)

  class Agent {
    const typeId: UInt8
    const typeName: string
    const group: UInt8
    const groupName: string
    const freezeDuration: Int16
    const resourceLimits: map<Item, UInt8>
    /** StatsTracker::inventory_item_name */
    const itemName: Item -> string

    var frozen: Int16
    var orientation: UInt8
    var color: UInt8
    /** Item to amount; entries at 0 should be erased, but reads through
        operator[] can leave them behind. */
    var inventory: map<Item, UInt8>
    var stats: map<string, int>

    constructor (config: AgentConfig, itemName: Item -> string)
      ensures typeId == config.typeId && typeName == config.typeName
      ensures group == config.groupId && groupName == config.groupName
      ensures freezeDuration == config.freezeDuration && resourceLimits == config.resourceLimits
      ensures this.itemName == itemName
      ensures frozen == 0 && orientation == 0 && color == 0
      ensures inventory == map[] && stats == map[]
      ensures Valid() && NoZeroEntries(inventory)
      ensures !Swappable()
    {
      typeId := config.typeId;
      typeName := config.typeName;
      group := config.groupId;
      groupName := config.groupName;
      freezeDuration := config.freezeDuration;
      resourceLimits := config.resourceLimits;
      this.itemName := itemName;
      frozen := 0;
      orientation := 0;
      color := 0;
      inventory := map[];
      stats := map[];
    }

    function Profile(): Profile {
      AgentProfile(typeName, groupName, freezeDuration, resourceLimits, itemName)
    }

    function State(): AgentState
      reads this
    {
      AgentState(inventory, stats, frozen, orientation, color)
    }

    ghost predicate Valid()
      reads this
    {
      WithinLimits(inventory, resourceLimits)
    }

    /** `inventory[item]` used as a value: returns the amount and inserts a 0
        entry when the item has none. */
    method ReadInventory(item: Item) returns (amount: UInt8)
      modifies `inventory
      ensures amount == ValueAt(old(inventory), item)
      ensures inventory == Touch(old(inventory), item)
    {
      if item in inventory {
        amount := inventory[item];
      } else {
        inventory := inventory[item := 0];
        amount := 0;
      }
    }

    /** agent.hpp:92-96 */
    method Settle(item: Item, newAmount: UInt8)
      modifies `inventory
      ensures inventory == Settled(old(inventory), item, newAmount)
    {
      if newAmount > 0 {
        inventory := inventory[item := newAmount];
      } else {
        inventory := inventory - {item};
      }
    }

    /** agent.hpp:98-102 */
    method RecordDelta(item: Item, delta: int)
      modifies `stats
      ensures stats == CountDelta(Profile(), old(stats), item, delta)
    {
      if delta > 0 {
        AddStat(StatKey([itemName(item), ".gained"]), delta);
      } else if delta < 0 {
        AddStat(StatKey([itemName(item), ".lost"]), -delta);
      }
    }

    /** agent.hpp:86-107, without the reward recomputation. */
    method UpdateInventory(item: Item, amount: Int16) returns (delta: int)
      modifies `inventory, `stats
      ensures var u := InventoryUpdate(Profile(), old(State()), item, amount);
              State() == u.state && delta == u.delta
      ensures old(Valid()) ==> Valid()
    {
      var current := ReadInventory(item);
      var newAmount := current + amount;
      newAmount := Clamp(newAmount, 0, ValueAt(resourceLimits, item));
      delta := newAmount - current;
      TouchOverwritten(old(inventory), item, newAmount);
      Settle(item, newAmount);
      RecordDelta(item, delta);
      InventoryUpdateKeepsInvariants(Profile(), old(State()), item, amount);
    }

    /** StatsTracker::add */
    method AddStat(key: string, amount: int)
      modifies `stats
      ensures stats == Add(old(stats), key, amount)
    {
      stats := stats[key := Count(stats, key) + amount];
    }

    /** StatsTracker::incr on each key in turn. */
    method IncrStats(keys: seq<string>)
      modifies `stats
      ensures stats == IncrAll(old(stats), keys)
    {
      for j := 0 to |keys|
        invariant IncrAll(old(stats), keys) == IncrAll(stats, keys[j..])
      {
        assert keys[j..][1..] == keys[j + 1..];
        AddStat(keys[j], 1);
      }
    }

    /** A frozen agent can be swapped with. */
    function Swappable(): (r: bool)
      reads this
      ensures r <==> frozen != 0
    {
      frozen != 0
    }

    /** agent.hpp:136-150: five property tokens, then one token per inventory
        entry in ascending item order. */
    method ObsFeatures(ids: FeatureIds) returns (features: seq<Token>)
      ensures |features| == 5 + |inventory|
      ensures features[..5] == [
        Token(ids.typeId, typeId),
        Token(ids.group, group),
        Token(ids.frozen, if frozen != 0 then 1 else 0),
        Token(ids.orientation, orientation),
        Token(ids.color, color)]
      ensures forall j :: 0 <= j < |inventory| ==>
                var item := OrderedKeys(inventory)[j];
                features[5 + j] == Token(InventoryFeature(ids, item), inventory[item])
      ensures features[2].feature == ids.frozen && (features[2].value == 1 <==> Swappable())
    {
      features := [];
      features := features + [Token(ids.typeId, typeId)];
      features := features + [Token(ids.group, group)];
      features := features + [Token(ids.frozen, if frozen != 0 then 1 else 0)];
      features := features + [Token(ids.orientation, orientation)];
      features := features + [Token(ids.color, color)];
      ghost var header := features;
      var items := OrderedKeys(inventory);
      for j := 0 to |items|
        invariant |features| == 5 + j
        invariant features[..5] == header
        invariant forall i :: 0 <= i < j ==>
                    features[5 + i] == Token(InventoryFeature(ids, items[i]), inventory[items[i]])
      {
        var item := items[j];
        features := features + [Token(InventoryFeature(ids, item), inventory[item])];
      }
      assert features[2] == header[2];
    }
  }
}
