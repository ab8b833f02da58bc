/** BlockDropManager: the drop registry of the plugin, the selected drop
    method and the debug flag, updated in place by reload, and the request
    path that turns a mined block into item stacks. The plugin configuration
    (plugin.getConfig()) is passed to the methods that read it; the two random
    sources are passed in and handed back. */
module Managers {
  import opened Platform
  import opened DropMechanics
  import opened DropModel
  import opened OraxenItemUtil
  import opened BukkitConfig
  import opened DropLoading
  import opened DropResolution

  class BlockDropManager {
    /** Math.log and Math.sqrt, as the mechanics use them. */
    const math: MathFns
    /** The Oraxen item catalogue. */
    const api: ItemApi
    /** The names Material.valueOf accepts. */
    const materials: set<string>

    var debugMode: bool
    /** Upper-cased material name to its validated, non-empty entry list. */
    var blockDrops: Registry
    var dropMethod: DropMethod

    /** The registry only ever holds known materials with at least one
        validated entry. */
    ghost predicate Valid()
      reads this
    {
      forall mat | mat in blockDrops ::
        && mat in materials
        && blockDrops[mat] != []
        && forall e | e in blockDrops[mat] :: ValidEntry(api, e)
    }

    /** The constructor only reads debug-mode: the registry starts empty and
        the method at HYBRID until the first reload. */
    constructor (math: MathFns, api: ItemApi, materials: set<string>, config: PluginConfig)
      ensures this.math == math && this.api == api && this.materials == materials
      ensures debugMode == config.debugMode.GetOr(false)
      ensures blockDrops == map[] && dropMethod == Hybrid
      ensures Valid()
    {
      this.math := math;
      this.api := api;
      this.materials := materials;
      debugMode := config.debugMode.GetOr(false);
      blockDrops := map[];
      dropMethod := Hybrid;
    }

    /** loadConfig: select the drop method named by drop-mechanics.method. */
    method LoadConfig(config: PluginConfig)
      modifies this`dropMethod
      ensures dropMethod == MethodSetting(config.dropMethod)
    {
      var methodStr := config.dropMethod.GetOr("HYBRID");
      var parsed := ValueOf(ToUpperCase(methodStr));
      if parsed.Some? {
        dropMethod := parsed.value;
      } else {
        dropMethod := Hybrid;
      }
    }

    /** loadDropEntries: the validated entries of a material's section, in
        key order; a child that is no section, or fails a check, is skipped. */
    method LoadDropEntries(section: Option<EntriesSection>) returns (drops: seq<DropEntry>)
      ensures drops == LoadedEntries(api, section)
      ensures forall e | e in drops :: ValidEntry(api, e)
    {
      drops := [];
      if section.None? {
        return;
      }
      var s := section.value;
      for i := 0 to |s|
        invariant drops == DropEntries(api, s[..i])
      {
        assert s[..i + 1][..i] == s[..i];
        var child := s[i].1;
        if child.Scalar? {
          continue;
        }
        var raw := child.body;
        var itemId := raw.oraxenItem;
        var chance := raw.chance.GetOr(0.0);
        var minAmount := raw.minAmount.GetOr(1);
        var maxAmount := raw.maxAmount.GetOr(1);
        if !Validate(api, itemId) {
          continue;
        }
        if chance <= 0.0 || chance > 100.0 {
          continue;
        }
        if minAmount < 0 || maxAmount < minAmount {
          continue;
        }
        drops := drops + [DropEntry(itemId.value, chance, minAmount, maxAmount)];
      }
      assert s[..|s|] == s;
    }

    /** loadBlockDrops: without a block-drops section nothing changes;
        otherwise the registry is rebuilt from it, and the two logged
        counters are the entries stored and the keys naming no material. */
    method LoadBlockDrops(config: PluginConfig) returns (totalDrops: nat, invalidBlocks: nat)
      requires Valid()
      modifies this`blockDrops
      ensures config.blockDrops.None? ==>
                blockDrops == old(blockDrops) && totalDrops == 0 && invalidBlocks == 0
      ensures config.blockDrops.Some? ==>
                && blockDrops == BlockDrops(api, materials, config.blockDrops.value)
                && totalDrops == TotalDrops(api, materials, config.blockDrops.value)
                && invalidBlocks == InvalidBlocks(materials, config.blockDrops.value)
      ensures Valid()
    {
      totalDrops, invalidBlocks := 0, 0;
      if config.blockDrops.None? {
        return;
      }
      var s := config.blockDrops.value;
      blockDrops := map[];
      for i := 0 to |s|
        invariant blockDrops == BlockDrops(api, materials, s[..i])
        invariant totalDrops == TotalDrops(api, materials, s[..i])
        invariant invalidBlocks == InvalidBlocks(materials, s[..i])
      {
        assert s[..i + 1][..i] == s[..i];
        var blockType := s[i].0;
        var material := ToUpperCase(blockType);
        if material !in materials {
          invalidBlocks := invalidBlocks + 1;
          continue;
        }
        var drops := LoadDropEntries(SectionOf(s[i].1));
        if drops != [] {
          blockDrops := blockDrops[material := drops];
          totalDrops := totalDrops + |drops|;
        }
      }
      assert s[..|s|] == s;
    }

    /** getDrops: nothing, and no random draw, for a material without
        entries; otherwise every entry of its bucket is rolled. */
    method GetDrops(material: string, level: int, tlr: Rng, mathRandom: Rng)
      returns (drops: seq<ItemStack>, tlr': Rng, mathRandom': Rng)
      requires Valid()
      ensures material !in blockDrops ==> drops == [] && tlr' == tlr && mathRandom' == mathRandom
      ensures material in blockDrops ==>
                Resolution(drops, tlr', mathRandom') ==
                  Resolve(math, dropMethod, api, blockDrops[material], level, tlr, mathRandom)
      ensures |drops| <= (if material in blockDrops then |blockDrops[material]| else 0)
    {
      if material !in blockDrops || blockDrops[material] == [] {
        return [], tlr, mathRandom;
      }
      drops, tlr', mathRandom' := ProcessDrops(blockDrops[material], level, tlr, mathRandom);
    }

    /** processDrops: each entry rolled in order with the selected method;
        a positive amount of a buildable item is granted as one stack. */
    method ProcessDrops(entries: seq<DropEntry>, level: int, tlr: Rng, mathRandom: Rng)
      returns (drops: seq<ItemStack>, tlr': Rng, mathRandom': Rng)
      requires forall e | e in entries :: e.minAmount <= e.maxAmount
      ensures Resolution(drops, tlr', mathRandom') ==
                Resolve(math, dropMethod, api, entries, level, tlr, mathRandom)
      ensures |drops| <= |entries|
      ensures forall d | d in drops :: d.amount > 0
    {
      drops, tlr', mathRandom' := [], tlr, mathRandom;
      for i := 0 to |entries|
        invariant forall e | e in entries[..i] :: e.minAmount <= e.maxAmount
        invariant Resolution(drops, tlr', mathRandom') ==
                    Resolve(math, dropMethod, api, entries[..i], level, tlr, mathRandom)
      {
        ResolvePrefixStep(math, dropMethod, api, entries, i, level, tlr, mathRandom);
        ghost var before := Resolution(drops, tlr', mathRandom');
        var granted;
        granted, tlr', mathRandom' := ProcessEntry(entries[i], level, tlr', mathRandom');
        drops := drops + granted;
        assert Resolution(drops, tlr', mathRandom') ==
                 ResolveEntry(math, dropMethod, api, entries[i], level, before);
      }
      assert entries[..|entries|] == entries;
    }

    /** One iteration of processDrops: roll the entry with the selected
        method, then build the item when a positive amount dropped. */
    method ProcessEntry(entry: DropEntry, level: int, tlr: Rng, mathRandom: Rng)
      returns (granted: seq<ItemStack>, tlr': Rng, mathRandom': Rng)
      requires entry.minAmount <= entry.maxAmount
      ensures Resolution(granted, tlr', mathRandom') ==
                EntryStep(math, dropMethod, api, entry, level, tlr, mathRandom)
    {
      var dropped := false;
      var amount := 0;
      tlr', mathRandom' := tlr, mathRandom;
      match dropMethod {
        case Diminishing =>
          dropped, tlr' := RollDiminishing(entry.chance, level, tlr);
          if dropped {
            amount, mathRandom' := CalculateDropAmount(entry.minAmount, entry.maxAmount, level, mathRandom);
          }
        case BonusRolls =>
          amount, tlr' := RollBonusRolls(entry.chance, level, entry.minAmount, entry.maxAmount, tlr);
          dropped := amount > 0;
        case Hybrid =>
          amount, tlr' := RollHybrid(entry.chance, level, entry.minAmount, entry.maxAmount, tlr);
          dropped := amount > 0;
      }
      assert EntryRoll(dropped, amount, tlr', mathRandom') ==
               RollEntry(math, dropMethod, entry, level, tlr, mathRandom);
      granted := [];
      if dropped && amount > 0 {
        var item := BuildItem(api, Some(entry.oraxenItemId));
        if item.Some? {
          granted := [item.value.(amount := amount)];
        }
      }
    }

    /** rollDiminishing: one ThreadLocalRandom draw, a hit when 100 times it
        is below the scaled chance. */
    method RollDiminishing(baseChance: real, level: int, tlr: Rng) returns (hit: bool, tlr': Rng)
      ensures hit <==> tlr.unit(tlr.pos) * 100.0 < CalculateDropChance(math, baseChance, level)
      ensures tlr' == tlr.Skip(1)
    {
      var finalChance := CalculateDropChance(math, baseChance, level);
      var (u, next) := tlr.NextDouble();
      var roll := u * 100.0;
      return roll < finalChance, next;
    }

    /** rollBonusRolls: the roll loop over calculateBonusRolls' plan. */
    method RollBonusRolls(baseChance: real, level: int, minAmount: int, maxAmount: int, tlr: Rng)
      returns (totalAmount: int, tlr': Rng)
      requires minAmount <= maxAmount
      ensures var plan := CalculateBonusRolls(baseChance, level);
              var t := Rolls(plan, minAmount, maxAmount, tlr, plan.rolls as nat);
              totalAmount == t.total && tlr' == t.rng
      ensures tlr.Valid() && 0 <= minAmount ==>
                0 <= totalAmount <= CalculateBonusRolls(baseChance, level).rolls * maxAmount
    {
      var result := CalculateBonusRolls(baseChance, level);
      totalAmount, tlr' := RollEach(result, minAmount, maxAmount, tlr);
    }

    /** rollHybrid: the roll loop over calculateHybridDrop's plan. */
    method RollHybrid(baseChance: real, level: int, minAmount: int, maxAmount: int, tlr: Rng)
      returns (totalAmount: int, tlr': Rng)
      requires minAmount <= maxAmount
      ensures var plan := CalculateHybridDrop(math, baseChance, level);
              var t := Rolls(plan, minAmount, maxAmount, tlr, plan.rolls as nat);
              totalAmount == t.total && tlr' == t.rng
      ensures tlr.Valid() && 0 <= minAmount ==>
                0 <= totalAmount <= CalculateHybridDrop(math, baseChance, level).rolls * maxAmount
    {
      var result := CalculateHybridDrop(math, baseChance, level);
      totalAmount, tlr' := RollEach(result, minAmount, maxAmount, tlr);
    }

    /** The loop rollBonusRolls and rollHybrid share: `plan.rolls` draws,
        each hit adding nextInt(min, max + 1). */
    method RollEach(plan: RollPlan, minAmount: int, maxAmount: int, tlr: Rng)
      returns (totalAmount: int, tlr': Rng)
      requires minAmount <= maxAmount
      ensures var t := Rolls(plan, minAmount, maxAmount, tlr, if plan.rolls > 0 then plan.rolls else 0);
              totalAmount == t.total && tlr' == t.rng
      ensures tlr.Valid() && 0 <= minAmount ==>
                0 <= totalAmount <= (if plan.rolls > 0 then plan.rolls else 0) * maxAmount
    {
      var n: nat := if plan.rolls > 0 then plan.rolls else 0;
      totalAmount, tlr' := 0, tlr;
      for i := 0 to n
        invariant totalAmount == Rolls(plan, minAmount, maxAmount, tlr, i).total
        invariant tlr' == Rolls(plan, minAmount, maxAmount, tlr, i).rng
      {
        var (u, afterRoll) := tlr'.NextDouble();
        var roll := u * 100.0;
        tlr' := afterRoll;
        if roll < plan.chancePerRoll {
          var (amount, afterAmount) := tlr'.NextInt(minAmount, maxAmount + 1);
          totalAmount := totalAmount + amount;
          tlr' := afterAmount;
        }
      }
      if tlr.Valid() && 0 <= minAmount {
        RollsTotalBounds(plan, minAmount, maxAmount, tlr, n);
      }
    }

    /** setDropMethod. */
    method SetDropMethod(m: DropMethod)
      modifies this`dropMethod
      ensures dropMethod == m
    {
      dropMethod := m;
    }

    /** setDebugMode. */
    method SetDebugMode(debugMode: bool)
      modifies this`debugMode
      ensures this.debugMode == debugMode
    {
      this.debugMode := debugMode;
    }

    /** reload: clear the registry, re-read debug-mode and the method, then
        reload the drops. Without a block-drops section the registry stays
        empty. */
    method Reload(config: PluginConfig)
      modifies this`blockDrops, this`debugMode, this`dropMethod
      ensures debugMode == config.debugMode.GetOr(false)
      ensures dropMethod == MethodSetting(config.dropMethod)
      ensures blockDrops == match config.blockDrops
                            case None => map[]
                            case Some(s) => BlockDrops(api, materials, s)
      ensures Valid()
    {
      blockDrops := map[];
      debugMode := config.debugMode.GetOr(false);
      LoadConfig(config);
      var _, _ := LoadBlockDrops(config);
    }
  }
}
