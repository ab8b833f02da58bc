# OraxenOreDrops drop engine, in Dafny

OraxenOreDrops is a Bukkit plugin. When a player mines a configured block, it
grants custom Oraxen items, and the Fortune/Looting level scales what drops.
This project models the plugin's drop engine and proves what it promises.

**`DropMechanics`** holds the pure scaling rules:
- the rarity tier of a base chance (`DropRarity.fromChance`);
- the three strategies:
  - Diminishing Returns: a tier-dependent chance bonus with a 95 % soft cap;
  - Bonus Rolls: extra rolls, `level / divisor` by tier;
  - Hybrid: a chance boost plus extra rolls, with the chance clamped by the result's constructor;
- the amount sampler: a base amount plus bonus items drawn through trials of chance 1, 1/2, 1/3, ….

**`BlockDropManager`** is a class with three fields, all updated in place:
- the registry (material → validated drop entries);
- the selected drop method;
- the debug flag.

It loads the registry from the configuration (`reload`, `loadConfig`, `loadBlockDrops`, `loadDropEntries`). It also answers drop requests (`getDrops`, `processDrops` and the three roll methods).

Modelling choices:
- Chances are real numbers.
- `Math.log` and `Math.sqrt` are a parameter (`MathFns`). The only facts assumed about them are that `log(x) > 0` for `x > 1` and `sqrt(x) > 0` for `x >= 1` (`PositiveAboveOne`).
- Randomness is an infinite stream of draws in [0, 1) (`Rng`).
  - `nextDouble` takes the next draw.
  - `nextInt(origin, bound)` is `origin + floor(u * (bound - origin))`.
  - ThreadLocalRandom and `Math.random` are two separate streams, as in the plugin. Each operation takes them in and hands them back.
- The configuration is an ordered list of keys. Each key holds either a nested section or a plain value.
- `Material.valueOf` is a set of accepted names.
- The Oraxen item catalogue is an `ItemApi` value with two functions: "exists" and "build".
- Java's semantics are written out:
  - the `(int)` cast truncates toward zero (`Trunc`);
  - `int` division truncates toward zero (`Quot`);
  - `toUpperCase` is an ASCII mapping.

Files:
- `platform.dfy`: Option, Java arithmetic and strings, the math functions and random streams.
- `drop_mechanics.dfy`: `DropMechanics.java`.
- `drop_model.dfy`: `DropEntry` and `DropMethod`.
- `oraxen_item_util.dfy`: `validate` and `buildItem`.
- `bukkit_config.dfy`: the configuration shape.
- `drop_loading.dfy`: the functions that specify loading.
- `drop_resolution.dfy`: the functions that specify a drop request.
- `managers.dfy`: the `BlockDropManager` class.

Three behaviours of the code that are easy to overlook, and which the model keeps:
- `calculateHybridDrop` at level ≤ 0 returns the base chance clamped to 95, not the base itself, because the `HybridDropResult` constructor applies `Math.min(95, …)`.
- The `BlockDropManager` constructor reads only `debug-mode`. The registry is empty and the method is HYBRID until the first `reload`.
- `reload` clears the registry before `loadBlockDrops` returns early on a missing `block-drops` section, so the registry is then empty.

## Model

| member | source | states |
|---|---|---|
| DropMechanics.Values | src/main/java/de/tecca/oraxenoredrops/util/DropMechanics.java:21-26 | `values()` has five tiers (their declaration order is the body) |
| DropMechanics.MinChance | src/main/java/de/tecca/oraxenoredrops/util/DropMechanics.java:22-34 | every tier's exclusive lower edge is non-negative and below its upper edge |
| DropMechanics.MaxChance | src/main/java/de/tecca/oraxenoredrops/util/DropMechanics.java:22-34 | every tier's inclusive upper edge lies in (0, 100] |
| DropMechanics.Classify | src/main/java/de/tecca/oraxenoredrops/util/DropMechanics.java:36-43 | the tier is the first, in declaration order, whose (min, max] interval holds the chance, or LEGENDARY when none does |
| DropMechanics.FromChance | src/main/java/de/tecca/oraxenoredrops/util/DropMechanics.java:36-43 | the scan over `values()` returns that first matching tier, and agrees with `Classify` on every chance |
| DropMechanics.ClassifyIsTheHoldingTier | src/main/java/de/tecca/oraxenoredrops/util/DropMechanics.java:22-26 | the intervals are disjoint: any tier whose interval holds the chance is the tier returned |
| DropMechanics.ClassifyEdges | src/main/java/de/tecca/oraxenoredrops/util/DropMechanics.java:22-43 | upper edges are inclusive (100→COMMON, 50→UNCOMMON, 10→RARE, 1→VERY_RARE, 0.1→LEGENDARY), and a chance outside (0, 100] is LEGENDARY |
| DropMechanics.Bonus | src/main/java/de/tecca/oraxenoredrops/util/DropMechanics.java:80-107 | at level ≥ 1 with a positive base, every tier's bonus is positive |
| DropMechanics.CalculateDropChance | src/main/java/de/tecca/oraxenoredrops/util/DropMechanics.java:60-75 | level ≤ 0 returns the base uncapped; level > 0 never exceeds 95 |
| DropMechanics.DropChanceLinearTiers | src/main/java/de/tecca/oraxenoredrops/util/DropMechanics.java:65-88 | COMMON gives min(95, base + level) and UNCOMMON gives min(95, base + level/2) |
| DropMechanics.DropChanceNeverLowers | src/main/java/de/tecca/oraxenoredrops/util/DropMechanics.java:65-107 | for level > 0 and a positive base the chance is ≥ min(base, 95), and strictly above a base below 95 |
| DropMechanics.BonusRollResult | src/main/java/de/tecca/oraxenoredrops/util/DropMechanics.java:271-277 | the bonus-roll result keeps the chance per roll unclamped |
| DropMechanics.HybridDropResult | src/main/java/de/tecca/oraxenoredrops/util/DropMechanics.java:291-297 | the hybrid result's chance per roll is min(95, chance): unchanged at or below 95, exactly 95 above it |
| DropMechanics.RollDivisor | src/main/java/de/tecca/oraxenoredrops/util/DropMechanics.java:144-169 | every tier's divisor is positive |
| DropMechanics.CalculateBonusRollCount | src/main/java/de/tecca/oraxenoredrops/util/DropMechanics.java:144-169 | for level ≥ 0 the count is level / d (d = 1, 2, 3, 5, 10), between 0 and the level |
| DropMechanics.CalculateBonusRolls | src/main/java/de/tecca/oraxenoredrops/util/DropMechanics.java:127-139 | the chance per roll equals the base; level ≤ 0 gives 1 roll, otherwise 1 + level / d; always 1 ≤ rolls ≤ 1 + level |
| DropMechanics.BonusRollsMonotone | src/main/java/de/tecca/oraxenoredrops/util/DropMechanics.java:127-169 | for a fixed base chance the roll count is non-decreasing in the level |
| DropMechanics.HybridDivisor | src/main/java/de/tecca/oraxenoredrops/util/DropMechanics.java:191-220 | every tier's hybrid divisor is positive |
| DropMechanics.CalculateHybridDrop | src/main/java/de/tecca/oraxenoredrops/util/DropMechanics.java:181-226 | the chance per roll is ≤ 95 on every path; level ≤ 0 gives 1 roll at min(95, base); otherwise 1 + level/5, /3, /2, /1, /1 by tier; always 1 ≤ rolls ≤ 1 + level |
| DropMechanics.HybridChanceNeverLowers | src/main/java/de/tecca/oraxenoredrops/util/DropMechanics.java:186-223 | for level > 0 and a positive base the hybrid chance per roll is ≥ min(base, 95), and strictly above a base below 95 |
| DropMechanics.HybridLinearTiers | src/main/java/de/tecca/oraxenoredrops/util/DropMechanics.java:191-201 | at level > 0, COMMON gives min(95, base + 0.8·level) and UNCOMMON gives min(95, base + 0.4·level) |
| DropMechanics.BaseAmount | src/main/java/de/tecca/oraxenoredrops/util/DropMechanics.java:242 | a draw in [0, 1) gives a base amount in [min, max] |
| DropMechanics.BonusItems | src/main/java/de/tecca/oraxenoredrops/util/DropMechanics.java:249-259 | n trials grant at most n bonus items and consume exactly n draws |
| DropMechanics.FirstTrialAlwaysSucceeds | src/main/java/de/tecca/oraxenoredrops/util/DropMechanics.java:251-258 | trial 0 has chance 1 and every draw is below 1, so one or more trials grant at least one item |
| DropMechanics.DropAmount | src/main/java/de/tecca/oraxenoredrops/util/DropMechanics.java:240-262 | the sampler consumes one base draw plus one draw per level |
| DropMechanics.DropAmountBounds | src/main/java/de/tecca/oraxenoredrops/util/DropMechanics.java:240-262 | with min ≤ max the amount is in [min, max + level]; in [min, max] at level ≤ 0; ≥ min + 1 at level ≥ 1 |
| DropMechanics.CalculateDropAmount | src/main/java/de/tecca/oraxenoredrops/util/DropMechanics.java:240-262 | the loop computes `DropAmount` and so meets its bounds |
| DropModel.Name | src/main/java/de/tecca/oraxenoredrops/enums/DropMethod.java:3-7 | each constant's name is non-empty and made of upper-case letters and underscores |
| DropModel.ValueOf | src/main/java/de/tecca/oraxenoredrops/enums/DropMethod.java:3-7 | `valueOf` only returns the constant with exactly the given name |
| DropModel.ValueOfName | src/main/java/de/tecca/oraxenoredrops/enums/DropMethod.java:3-7 | `valueOf` inverts every constant's name |
| OraxenItemUtil.Validate | src/main/java/de/tecca/oraxenoredrops/util/OraxenItemUtil.java:60-69 | an id is valid iff it is non-null, non-empty and known to the catalogue |
| OraxenItemUtil.BuildItem | src/main/java/de/tecca/oraxenoredrops/util/OraxenItemUtil.java:19-34 | a null or empty id builds nothing; otherwise the catalogue's build result |
| BukkitConfig.SectionOf | src/main/java/de/tecca/oraxenoredrops/managers/BlockDropManager.java:99-100 | a child yields a section iff it is one |
| Platform.Min | src/main/java/de/tecca/oraxenoredrops/util/DropMechanics.java:74 | `Math.min` is at most both arguments and equals one of them |
| Platform.Trunc | src/main/java/de/tecca/oraxenoredrops/util/DropMechanics.java:242 | the `(int)` cast rounds toward zero, for either sign |
| Platform.Quot | src/main/java/de/tecca/oraxenoredrops/util/DropMechanics.java:152-164 | `int` division truncates toward zero and agrees with floor division on non-negative operands |
| Platform.ToUpperCase | src/main/java/de/tecca/oraxenoredrops/managers/BlockDropManager.java:39 | upper-casing keeps the length, maps each character, and leaves no lower-case letter |
| Platform.ToUpperCaseIdempotent | src/main/java/de/tecca/oraxenoredrops/managers/BlockDropManager.java:60 | upper-casing twice is upper-casing once |
| Platform.Rng.NextDouble | src/main/java/de/tecca/oraxenoredrops/managers/BlockDropManager.java:231 | `nextDouble()` lies in [0, 1) and consumes one draw |
| Platform.Rng.NextInt | src/main/java/de/tecca/oraxenoredrops/managers/BlockDropManager.java:260 | `nextInt(origin, bound)` lies in [origin, bound) and consumes one draw |
| DropLoading.MethodSetting | src/main/java/de/tecca/oraxenoredrops/managers/BlockDropManager.java:36-45 | a recognised upper-cased name selects that method; an unrecognised one selects HYBRID |
| DropLoading.MethodSettingCaseInsensitive | src/main/java/de/tecca/oraxenoredrops/managers/BlockDropManager.java:37-44 | the name is matched case-insensitively, any spelling of a constant selects it, and a missing setting selects HYBRID |
| DropLoading.ValidEntry | src/main/java/de/tecca/oraxenoredrops/managers/BlockDropManager.java:107-121 | a kept entry has a non-empty catalogued id, a positive chance and 0 ≤ min ≤ max |
| DropLoading.Defaulted | src/main/java/de/tecca/oraxenoredrops/managers/BlockDropManager.java:102-105 | the getters' defaults: a missing id reads as empty, a missing chance as 0, missing amounts as 1 |
| DropLoading.ReadEntry | src/main/java/de/tecca/oraxenoredrops/managers/BlockDropManager.java:99-123 | an entry is kept iff the item validates, the chance is in (0, 100] and 0 ≤ min ≤ max, with defaults applied |
| DropLoading.ReadEntryDefaults | src/main/java/de/tecca/oraxenoredrops/managers/BlockDropManager.java:102-105 | a missing chance (default 0) rejects the entry; missing amounts give min = max = 1 |
| DropLoading.EntryOf | src/main/java/de/tecca/oraxenoredrops/managers/BlockDropManager.java:98-124 | each child contributes at most one entry |
| DropLoading.DropEntries | src/main/java/de/tecca/oraxenoredrops/managers/BlockDropManager.java:90-127 | at most one entry per key, every kept entry valid |
| DropLoading.LoadedEntries | src/main/java/de/tecca/oraxenoredrops/managers/BlockDropManager.java:90-96 | a null section yields no entries; every entry kept is valid |
| DropLoading.DropEntriesAppend | src/main/java/de/tecca/oraxenoredrops/managers/BlockDropManager.java:98-124 | keys are read independently and in order: consecutive runs of keys concatenate |
| DropLoading.DropEntriesMembership | src/main/java/de/tecca/oraxenoredrops/managers/BlockDropManager.java:98-124 | an entry is kept iff some child is a section that reads to it and passes every check |
| DropLoading.StoreBlock | src/main/java/de/tecca/oraxenoredrops/managers/BlockDropManager.java:58-79 | a key naming a known material with a non-empty list puts that list under its upper-cased name, replacing any earlier bucket; a key naming no material, or yielding no entries, changes nothing; every other bucket is kept |
| DropLoading.TotalDrops | src/main/java/de/tecca/oraxenoredrops/managers/BlockDropManager.java:55-68 | the stored-entry counter is at least the size of every bucket in the registry |
| DropLoading.BlockDrops | src/main/java/de/tecca/oraxenoredrops/managers/BlockDropManager.java:54-84 | the registry holds only accepted materials with non-empty lists of valid entries |
| DropLoading.BlockDropsDomain | src/main/java/de/tecca/oraxenoredrops/managers/BlockDropManager.java:58-84 | a material is stored iff some key upper-cases to it and yields a non-empty list, and its bucket is that of the last such key, as a later `put` replaces an earlier one |
| DropLoading.InvalidBlocks | src/main/java/de/tecca/oraxenoredrops/managers/BlockDropManager.java:56-83 | the invalid count never exceeds the number of keys |
| DropLoading.InvalidMaterialSkipped | src/main/java/de/tecca/oraxenoredrops/managers/BlockDropManager.java:58-84 | a key naming no material changes no bucket and adds one to the invalid count |
| DropLoading.SkipInert | src/main/java/de/tecca/oraxenoredrops/managers/BlockDropManager.java:58-84 | wherever it sits, such a key leaves the registry unchanged and adds one to the invalid count |
| DropResolution.Rolls | src/main/java/de/tecca/oraxenoredrops/managers/BlockDropManager.java:253-275 | n rolls succeed at most n times and consume one draw per roll plus one per success |
| DropResolution.RollsAmountBounds | src/main/java/de/tecca/oraxenoredrops/managers/BlockDropManager.java:256-273 | the total is between successes × min and successes × max |
| DropResolution.RollsTotalBounds | src/main/java/de/tecca/oraxenoredrops/managers/BlockDropManager.java:253-275 | with 0 ≤ min ≤ max the total of n rolls is in [0, n × max] |
| DropResolution.CertainRollsAllSucceed | src/main/java/de/tecca/oraxenoredrops/managers/BlockDropManager.java:256-262 | a chance per roll of at least 100 succeeds on every roll |
| DropResolution.HopelessRollsAddNothing | src/main/java/de/tecca/oraxenoredrops/managers/BlockDropManager.java:256-262 | a chance per roll ≤ 0 never succeeds, adds nothing and consumes exactly one draw per roll |
| DropResolution.RollEntry | src/main/java/de/tecca/oraxenoredrops/managers/BlockDropManager.java:184-208 | a miss never touches Math.random; DIMINISHING consumes one ThreadLocalRandom draw; BONUS_ROLLS and HYBRID drop iff the amount is positive and never touch Math.random |
| DropResolution.DiminishingEntry | src/main/java/de/tecca/oraxenoredrops/managers/BlockDropManager.java:189-195 | DIMINISHING drops iff 100 × draw < the scaled chance; it uses one ThreadLocalRandom draw and draws an amount only on success, in [min, max + level] |
| DropResolution.RollModesEntry | src/main/java/de/tecca/oraxenoredrops/managers/BlockDropManager.java:197-207 | BONUS_ROLLS and HYBRID use exactly `rolls` chance draws; their amount is in [0, rolls × max]; they never touch Math.random; they drop iff the amount is positive |
| DropResolution.Emit | src/main/java/de/tecca/oraxenoredrops/managers/BlockDropManager.java:210-219 | an entry that dropped a positive amount of a buildable item yields exactly that item with its amount set; otherwise it yields nothing |
| DropResolution.EntryStep | src/main/java/de/tecca/oraxenoredrops/managers/BlockDropManager.java:184-219 | one entry's sources advance as its roll says, and it adds the built item with the rolled amount exactly when it dropped a positive amount and the build succeeds; otherwise nothing |
| DropResolution.ResolveEntry | src/main/java/de/tecca/oraxenoredrops/managers/BlockDropManager.java:181-220 | an iteration keeps the earlier drops as a prefix and appends exactly what the entry yields on its own (`EntryStep`) |
| DropResolution.Resolve | src/main/java/de/tecca/oraxenoredrops/managers/BlockDropManager.java:177-224 | at most one stack per entry, each with a positive amount |
| DropResolution.ResolveEntryShift | src/main/java/de/tecca/oraxenoredrops/managers/BlockDropManager.java:181-220 | what an entry adds depends only on the random sources, not on earlier drops |
| DropResolution.ResolveAppend | src/main/java/de/tecca/oraxenoredrops/managers/BlockDropManager.java:181-220 | entries never affect one another: resolving a + b is resolving a, then b from the sources a left, with drops in entry order |
| DropResolution.EntryGrantsItsStack | src/main/java/de/tecca/oraxenoredrops/managers/BlockDropManager.java:210-215 | an entry that dropped a positive amount of a buildable item puts that stack into the result, right after what the entries before it granted, whatever entries follow |
| DropResolution.DropsComeFromEntries | src/main/java/de/tecca/oraxenoredrops/managers/BlockDropManager.java:210-216 | every granted stack has the material of an item built from some entry |
| Managers.BlockDropManager.constructor | src/main/java/de/tecca/oraxenoredrops/managers/BlockDropManager.java:29-34 | the constructor reads `debug-mode` (default false); the registry starts empty and the method at HYBRID |
| Managers.BlockDropManager.LoadConfig | src/main/java/de/tecca/oraxenoredrops/managers/BlockDropManager.java:36-45 | the method becomes `MethodSetting` of `drop-mechanics.method`; nothing else changes |
| Managers.BlockDropManager.LoadDropEntries | src/main/java/de/tecca/oraxenoredrops/managers/BlockDropManager.java:90-127 | the loop returns exactly `DropEntries` of the section, and nothing for a null section |
| Managers.BlockDropManager.LoadBlockDrops | src/main/java/de/tecca/oraxenoredrops/managers/BlockDropManager.java:47-88 | without a section the registry is untouched; otherwise it becomes `BlockDrops`, and the counters are `TotalDrops` and `InvalidBlocks`; the registry invariant holds |
| Managers.BlockDropManager.GetDrops | src/main/java/de/tecca/oraxenoredrops/managers/BlockDropManager.java:159-172 | a material without a bucket gives no drops and draws nothing; otherwise its bucket is resolved |
| Managers.BlockDropManager.ProcessDrops | src/main/java/de/tecca/oraxenoredrops/managers/BlockDropManager.java:177-224 | the loop returns `Resolve` of the entries: each entry appends exactly its granted stack, in entry order; at most one stack per entry, each with a positive amount |
| Managers.BlockDropManager.ProcessEntry | src/main/java/de/tecca/oraxenoredrops/managers/BlockDropManager.java:181-220 | one iteration of the strategy switch plus the item build equals `EntryStep` |
| Managers.BlockDropManager.RollDiminishing | src/main/java/de/tecca/oraxenoredrops/managers/BlockDropManager.java:229-240 | a hit iff 100 × draw < `calculateDropChance(base, level)`, consuming one draw |
| Managers.BlockDropManager.RollBonusRolls | src/main/java/de/tecca/oraxenoredrops/managers/BlockDropManager.java:245-276 | the roll loop over the Bonus Rolls plan; total in [0, rolls × max] |
| Managers.BlockDropManager.RollHybrid | src/main/java/de/tecca/oraxenoredrops/managers/BlockDropManager.java:281-311 | the roll loop over the Hybrid plan; total in [0, rolls × max] |
| Managers.BlockDropManager.RollEach | src/main/java/de/tecca/oraxenoredrops/managers/BlockDropManager.java:253-275 | the shared loop computes `Rolls` over `result.rolls` rolls; total in [0, rolls × max] |
| Managers.BlockDropManager.SetDropMethod | src/main/java/de/tecca/oraxenoredrops/managers/BlockDropManager.java:316-319 | sets the method and nothing else |
| Managers.BlockDropManager.SetDebugMode | src/main/java/de/tecca/oraxenoredrops/managers/BlockDropManager.java:339-341 | sets the debug flag and nothing else |
| Managers.BlockDropManager.Reload | src/main/java/de/tecca/oraxenoredrops/managers/BlockDropManager.java:343-348 | debug flag and method re-read; the registry is rebuilt from `block-drops`, or empty when the section is missing; the registry invariant holds |

## Left out

- Floating point: chances are exact reals. Rounding, NaN and infinities are not modelled. A NaN chance would pass the `(0, 100]` check in Java.
- Bonus: `Math.log` and `Math.sqrt` are only assumed positive above 1, so the exact rare-tier bonuses are not stated.
- `totalChance` of `BonusRollResult` and `HybridDropResult` is not modelled, because it is computed with `Math.pow`.
- The `toString` methods, `getDropInfo`, `getDropInfoComponent`, `printComparison`, `debugFortuneScaling` and the `debug`/`info`/`warn` logging are not modelled. They only format and print. `getDropMethod` only returns the `dropMethod` field, which the model reads directly as `BlockDropManager.dropMethod`.
- Distribution: randomness is an arbitrary stream of draws in [0, 1), and nothing is said about success rates.
- RollEach: `maxAmount + 1` and the running total are unbounded integers. Java's 32-bit overflow is not modelled, e.g. `nextInt` throwing when max-amount is `Integer.MAX_VALUE`.
- Rng.NextInt: modelled as one scaled draw. The JDK's bounded `nextInt` may use more than one internal value, and the model does not capture its exact algorithm.
- BaseAmount: `maxAmount - minAmount + 1` is not wrapped to 32 bits.
- The enchant level and the sums built from it are unbounded integers. The model does not capture Java's behaviour at `enchantLevel == Integer.MAX_VALUE`:
  - `enchantLevel + 1` wraps, so `Math.log` yields NaN and the chance never succeeds;
  - `1 + bonusRolls` and `1 + enchantLevel` wrap to a negative roll count, so no roll is made;
  - `baseAmount + bonusItems` wraps.

  `Bonus`, `CalculateBonusRolls`, `CalculateHybridDrop` and `DropAmount` state their results for the mathematical integers.
- ToUpperCase: only ASCII letters are mapped. Locale-specific and non-ASCII case mapping is not modelled.
- The registry is a value map, and `ConcurrentHashMap` concurrency is not modelled.
- `plugin.getConfig()` is passed to the methods that read it. Loading the configuration file is not modelled.
- `EnchantmentHelper.java`, `AEAPIUtil.java`, `OraxenOreDropsCommand.java`, `OraxenOreDrops.java` and `PluginLogger.java` are not part of this model. They are lookups into foreign APIs and plugin plumbing.
- OraxenItemUtil: the Oraxen API is reduced to "exists" and "build". A lookup that throws is the same as a missing item. Only `validate` and `buildItem` are modelled.
