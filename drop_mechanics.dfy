/** The pure scaling rules of the drop engine: rarity tiers, the three
    Fortune/Looting strategies (Diminishing Returns, Bonus Rolls, Hybrid) and
    the amount sampler with its diminishing stream of bonus items. */
module DropMechanics {
  import opened Platform

  // ==================================================================== tiers

  /** How rare a drop is; decides how strongly the enchant level scales it. */
  datatype DropRarity = Common | Uncommon | Rare | VeryRare | Legendary

  /** DropRarity.values(): the tiers in declaration order. */
  function Values(): (v: seq<DropRarity>)
    ensures |v| == 5
  {
    [Common, Uncommon, Rare, VeryRare, Legendary]
  }

  /** The exclusive lower edge of a tier's chance interval. */
  function MinChance(t: DropRarity): (c: real)
    ensures 0.0 <= c < MaxChance(t)
  {
    match t
    case Common => 50.0
    case Uncommon => 10.0
    case Rare => 1.0
    case VeryRare => 0.1
    case Legendary => 0.0
  }

  /** The inclusive upper edge of a tier's chance interval. */
  function MaxChance(t: DropRarity): (c: real)
    ensures 0.0 < c <= 100.0
  {
    match t
    case Common => 100.0
    case Uncommon => 50.0
    case Rare => 10.0
    case VeryRare => 1.0
    case Legendary => 0.1
  }

  /** The chance lies in the tier's (minChance, maxChance] interval. */
  predicate InTier(t: DropRarity, chance: real) {
    MinChance(t) < chance <= MaxChance(t)
  }

  /** `t` is the first tier in declaration order whose interval holds the
      chance, or LEGENDARY when no interval does. */
  ghost predicate FirstMatch(chance: real, t: DropRarity) {
    || (exists i | 0 <= i < |Values()| ::
          Values()[i] == t && InTier(t, chance) &&
          forall j | 0 <= j < i :: !InTier(Values()[j], chance))
    || (t == Legendary && forall j | 0 <= j < |Values()| :: !InTier(Values()[j], chance))
  }

  /** The tier of a base chance, written as the table of chance ranges. */
  function Classify(chance: real): (t: DropRarity)
    ensures FirstMatch(chance, t)
  {
    if 50.0 < chance <= 100.0 then
      assert InTier(Values()[0], chance);
      Common
    else if 10.0 < chance <= 50.0 then
      assert InTier(Values()[1], chance);
      Uncommon
    else if 1.0 < chance <= 10.0 then
      assert InTier(Values()[2], chance);
      Rare
    else if 0.1 < chance <= 1.0 then
      assert InTier(Values()[3], chance);
      VeryRare
    else
      Legendary
  }

  /** DropRarity.fromChance: scans the tiers in declaration order and returns
      the first whose interval holds the chance; LEGENDARY otherwise. */
  method FromChance(chance: real) returns (t: DropRarity)
    ensures FirstMatch(chance, t)
    ensures t == Classify(chance)
  {
    var values := Values();
    for i := 0 to |values|
      invariant forall j | 0 <= j < i :: !InTier(values[j], chance)
    {
      var rarity := values[i];
      if chance > MinChance(rarity) && chance <= MaxChance(rarity) {
        return rarity;
      }
    }
    return Legendary;
  }

  /** The tier intervals are disjoint, so a tier whose interval holds the
      chance is the one fromChance returns. */
  lemma ClassifyIsTheHoldingTier(chance: real, t: DropRarity)
    requires InTier(t, chance)
    ensures Classify(chance) == t
  {
  }

  /** Upper edges are inclusive, lower edges exclusive; everything outside
      (0, 100] falls back to LEGENDARY. */
  lemma ClassifyEdges(chance: real)
    ensures Classify(100.0) == Common && Classify(50.0) == Uncommon
    ensures Classify(10.0) == Rare && Classify(1.0) == VeryRare
    ensures Classify(0.1) == Legendary
    ensures (chance <= 0.0 || chance > 100.0) ==> Classify(chance) == Legendary
  {
  }

  // ======================================================= diminishing returns

  /** calculateBonus: the chance bonus a tier grants at a given level. */
  function Bonus(m: MathFns, baseChance: real, level: int, t: DropRarity): (b: real)
    ensures PositiveAboveOne(m) && level >= 1 && baseChance > 0.0 ==> b > 0.0
  {
    var lvl := level as real;
    match t
    case Common => lvl * 1.0
    case Uncommon => lvl * 0.5
    case Rare => PositiveProduct(m, m.log(lvl + 1.0), baseChance, 0.15, level);
                 m.log(lvl + 1.0) * baseChance * 0.15
    case VeryRare => PositiveProduct(m, m.sqrt(lvl), baseChance, 0.1, level);
                     m.sqrt(lvl) * baseChance * 0.1
    case Legendary => PositiveProduct(m, m.log(lvl + 1.0), baseChance, 0.02, level);
                      m.log(lvl + 1.0) * baseChance * 0.02
  }

  /** The product of the scale factor, the base chance and a positive weight. */
  lemma PositiveProduct(m: MathFns, f: real, baseChance: real, w: real, level: int)
    requires w > 0.0
    ensures PositiveAboveOne(m) && level >= 1 && baseChance > 0.0 &&
            (f == m.log(level as real + 1.0) || f == m.sqrt(level as real))
            ==> f * baseChance * w > 0.0
  {
    if PositiveAboveOne(m) && level >= 1 && baseChance > 0.0 {
      if f == m.log(level as real + 1.0) {
        assert f > 0.0;
      } else if f == m.sqrt(level as real) {
        assert f > 0.0;
      }
      if f > 0.0 {
        assert f * baseChance > 0.0;
      }
    }
  }

  /** calculateDropChance: the single-roll chance under Diminishing Returns. */
  function CalculateDropChance(m: MathFns, baseChance: real, level: int): (r: real)
    ensures level <= 0 ==> r == baseChance
    ensures level > 0 ==> r <= 95.0
  {
    if level <= 0 then baseChance
    else
      var bonus := Bonus(m, baseChance, level, Classify(baseChance));
      Min(95.0, baseChance + bonus)
  }

  /** COMMON gains one percentage point per level and UNCOMMON half a point,
      both under the 95 cap. */
  lemma DropChanceLinearTiers(m: MathFns, baseChance: real, level: int)
    requires level > 0
    ensures Classify(baseChance) == Common ==>
              CalculateDropChance(m, baseChance, level) == Min(95.0, baseChance + level as real)
    ensures Classify(baseChance) == Uncommon ==>
              CalculateDropChance(m, baseChance, level) == Min(95.0, baseChance + level as real / 2.0)
  {
  }

  /** With a positive base chance the enchantment never lowers the chance
      below the base (or the cap), and raises it while the base is under 95. */
  lemma DropChanceNeverLowers(m: MathFns, baseChance: real, level: int)
    requires PositiveAboveOne(m) && level > 0 && baseChance > 0.0
    ensures CalculateDropChance(m, baseChance, level) >= Min(baseChance, 95.0)
    ensures baseChance < 95.0 ==> CalculateDropChance(m, baseChance, level) > baseChance
  {
  }

  // ============================================================== bonus rolls

  /** A roll plan: `rolls` independent draws at `chancePerRoll` percent each.
      It stands for both BonusRollResult and HybridDropResult. */
  datatype RollPlan = RollPlan(rolls: int, chancePerRoll: real)

  /** The BonusRollResult constructor: keeps the chance as given. */
  function BonusRollResult(rolls: int, chancePerRoll: real): (p: RollPlan)
    ensures p.rolls == rolls && p.chancePerRoll == chancePerRoll
  {
    RollPlan(rolls, chancePerRoll)
  }

  /** The HybridDropResult constructor: clamps the chance to the 95 soft cap. */
  function HybridDropResult(chancePerRoll: real, rolls: int): (p: RollPlan)
    ensures p.rolls == rolls && p.chancePerRoll <= 95.0
    ensures chancePerRoll <= 95.0 ==> p.chancePerRoll == chancePerRoll
    ensures chancePerRoll > 95.0 ==> p.chancePerRoll == 95.0
  {
    RollPlan(rolls, Min(95.0, chancePerRoll))
  }

  /** Levels per bonus roll, by tier, in the Bonus Rolls strategy. */
  function RollDivisor(t: DropRarity): (d: nat)
    ensures d >= 1
  {
    match t
    case Common => 1
    case Uncommon => 2
    case Rare => 3
    case VeryRare => 5
    case Legendary => 10
  }

  /** calculateBonusRollCount: the extra rolls a tier earns at a level. */
  function CalculateBonusRollCount(level: int, t: DropRarity): (n: int)
    ensures level >= 0 ==> n == level / RollDivisor(t) && 0 <= n <= level
  {
    match t
    case Common => level
    case Uncommon => Quot(level, 2)
    case Rare => Quot(level, 3)
    case VeryRare => Quot(level, 5)
    case Legendary => Quot(level, 10)
  }

  /** calculateBonusRolls: the chance per roll is never scaled; the level buys
      one extra roll per RollDivisor levels. */
  function CalculateBonusRolls(baseChance: real, level: int): (p: RollPlan)
    ensures p.chancePerRoll == baseChance
    ensures level <= 0 ==> p.rolls == 1
    ensures level > 0 ==> p.rolls == 1 + level / RollDivisor(Classify(baseChance))
    ensures 1 <= p.rolls <= 1 + (if level > 0 then level else 0)
  {
    if level <= 0 then BonusRollResult(1, baseChance)
    else
      var rarity := Classify(baseChance);
      var bonusRolls := CalculateBonusRollCount(level, rarity);
      BonusRollResult(1 + bonusRolls, baseChance)
  }

  /** For a fixed base chance, more levels never mean fewer rolls. */
  lemma BonusRollsMonotone(baseChance: real, level1: int, level2: int)
    requires level1 <= level2
    ensures CalculateBonusRolls(baseChance, level1).rolls <= CalculateBonusRolls(baseChance, level2).rolls
  {
  }

  // =================================================================== hybrid

  /** Levels per extra roll, by tier, in the Hybrid strategy. */
  function HybridDivisor(t: DropRarity): (d: nat)
    ensures d >= 1
  {
    match t
    case Common => 5
    case Uncommon => 3
    case Rare => 2
    case VeryRare => 1
    case Legendary => 1
  }

  /** calculateHybridDrop: a tier-weighted chance boost plus extra rolls, with
      the chance per roll clamped by the HybridDropResult constructor. */
  function CalculateHybridDrop(m: MathFns, baseChance: real, level: int): (p: RollPlan)
    ensures p.chancePerRoll <= 95.0
    ensures level <= 0 ==> p.rolls == 1 && p.chancePerRoll == Min(95.0, baseChance)
    ensures level > 0 ==> p.rolls == 1 + level / HybridDivisor(Classify(baseChance))
    ensures 1 <= p.rolls <= 1 + (if level > 0 then level else 0)
  {
    if level <= 0 then HybridDropResult(baseChance, 1)
    else
      var lvl := level as real;
      var rarity := Classify(baseChance);
      var (boostedChance, totalRolls) :=
        match rarity
        case Common => (baseChance + lvl * 0.8, 1 + Quot(level, 5))
        case Uncommon => (baseChance + lvl * 0.4, 1 + Quot(level, 3))
        case Rare => (baseChance + m.log(lvl + 1.0) * baseChance * 0.1, 1 + Quot(level, 2))
        case VeryRare => (baseChance + m.sqrt(lvl) * baseChance * 0.05, 1 + level)
        case Legendary => (baseChance + m.sqrt(lvl) * baseChance * 0.05, 1 + level);
      HybridDropResult(boostedChance, totalRolls)
  }

  /** With a positive base chance the hybrid chance per roll is at least the
      base (or the cap). */
  lemma HybridChanceNeverLowers(m: MathFns, baseChance: real, level: int)
    requires PositiveAboveOne(m) && level > 0 && baseChance > 0.0
    ensures CalculateHybridDrop(m, baseChance, level).chancePerRoll >= Min(baseChance, 95.0)
    ensures baseChance < 95.0 ==> CalculateHybridDrop(m, baseChance, level).chancePerRoll > baseChance
  {
    var lvl := level as real;
    match Classify(baseChance)
    case Common =>
    case Uncommon =>
    case Rare => PositiveProduct(m, m.log(lvl + 1.0), baseChance, 0.1, level);
    case VeryRare => PositiveProduct(m, m.sqrt(lvl), baseChance, 0.05, level);
    case Legendary => PositiveProduct(m, m.sqrt(lvl), baseChance, 0.05, level);
  }

  /** The two linear tiers of the Hybrid boost: COMMON adds 0.8 per level and
      UNCOMMON 0.4 per level, before the 95 clamp. */
  lemma HybridLinearTiers(m: MathFns, baseChance: real, level: int)
    requires level > 0
    ensures Classify(baseChance) == Common ==>
              CalculateHybridDrop(m, baseChance, level).chancePerRoll == Min(95.0, baseChance + level as real * 0.8)
    ensures Classify(baseChance) == Uncommon ==>
              CalculateHybridDrop(m, baseChance, level).chancePerRoll == Min(95.0, baseChance + level as real * 0.4)
  {
  }

  // =================================================================== amount

  /** The base amount minAmount + (int)(u * (maxAmount - minAmount + 1)). */
  function BaseAmount(minAmount: int, maxAmount: int, u: real): (a: int)
    ensures 0.0 <= u < 1.0 && minAmount <= maxAmount ==> minAmount <= a <= maxAmount
  {
    ScaledFloorBound(u, maxAmount - minAmount + 1);
    minAmount + Trunc(u * (maxAmount - minAmount + 1) as real)
  }

  /** The bonus-item trials i = 0 .. n-1 of calculateDropAmount: trial i draws
      once and succeeds when the draw is below 1/(i+1). Yields the number of
      successes and the source after the n draws. */
  function BonusItems(rng: Rng, n: nat): (r: (nat, Rng))
    ensures r.0 <= n && r.1 == rng.Skip(n)
  {
    if n == 0 then (0, rng)
    else
      var (bonusItems, before) := BonusItems(rng, n - 1);
      var (u, after) := before.NextDouble();
      (if u < 1.0 / n as real then bonusItems + 1 else bonusItems, after)
  }

  /** The first trial has chance 1.0 and every draw is below 1, so at least
      one bonus item is granted once there is a trial. */
  lemma {:induction false} FirstTrialAlwaysSucceeds(rng: Rng, n: nat)
    requires rng.Valid() && n >= 1
    ensures BonusItems(rng, n).0 >= 1
  {
    if n > 1 {
      FirstTrialAlwaysSucceeds(rng, n - 1);
    } else {
      assert rng.unit(rng.pos) < 1.0;
    }
  }

  /** What calculateDropAmount returns and the Math.random source after it:
      a base amount from one draw, then `level` bonus-item trials. */
  function DropAmount(minAmount: int, maxAmount: int, level: int, rng: Rng): (r: (int, Rng))
    ensures r.1 == rng.Skip(1 + (if level > 0 then level else 0))
  {
    var (u, afterBase) := rng.NextDouble();
    var baseAmount := BaseAmount(minAmount, maxAmount, u);
    if level <= 0 then (baseAmount, afterBase)
    else
      var (bonusItems, afterTrials) := BonusItems(afterBase, level);
      (baseAmount + bonusItems, afterTrials)
  }

  /** The amount lies in [min, max + level], in [min, max] without the
      enchantment, and is at least min + 1 with it. */
  lemma DropAmountBounds(minAmount: int, maxAmount: int, level: int, rng: Rng)
    requires rng.Valid() && minAmount <= maxAmount
    ensures var a := DropAmount(minAmount, maxAmount, level, rng).0;
            minAmount <= a <= maxAmount + (if level > 0 then level else 0)
    ensures level <= 0 ==> DropAmount(minAmount, maxAmount, level, rng).0 <= maxAmount
    ensures level >= 1 ==> DropAmount(minAmount, maxAmount, level, rng).0 >= minAmount + 1
  {
    if level >= 1 {
      FirstTrialAlwaysSucceeds(rng.Skip(1), level);
    }
  }

  /** calculateDropAmount: draws the base amount, then counts the bonus items
      over `level` trials of decreasing chance. */
  method CalculateDropAmount(minAmount: int, maxAmount: int, level: int, rng: Rng)
    returns (amount: int, next: Rng)
    ensures (amount, next) == DropAmount(minAmount, maxAmount, level, rng)
    ensures rng.Valid() && minAmount <= maxAmount ==>
              minAmount <= amount <= maxAmount + (if level > 0 then level else 0)
    ensures rng.Valid() && minAmount <= maxAmount && level >= 1 ==> amount >= minAmount + 1
  {
    var first := rng.NextDouble();
    var u;
    u, next := first.0, first.1;
    var baseAmount := BaseAmount(minAmount, maxAmount, u);
    if rng.Valid() && minAmount <= maxAmount {
      DropAmountBounds(minAmount, maxAmount, level, rng);
    }
    if level <= 0 {
      return baseAmount, next;
    }
    ghost var afterBase := next;
    var bonusItems := 0;
    for i := 0 to level
      invariant bonusItems == BonusItems(afterBase, i).0
      invariant next == afterBase.Skip(i)
    {
      var chance := 1.0 / (i + 1) as real;
      var trial := next.NextDouble();
      var draw;
      draw, next := trial.0, trial.1;
      if draw < chance {
        bonusItems := bonusItems + 1;
      }
    }
    amount := baseAmount + bonusItems;
  }
}
