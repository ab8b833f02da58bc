/** What one drop request yields: each entry rolled independently with the
    selected strategy, and the (item, amount) results collected in entry
    order. These functions specify the rolling methods of BlockDropManager. */
module DropResolution {
  import opened Platform
  import opened DropMechanics
  import opened DropModel
  import opened OraxenItemUtil

  // ================================================================== rolls

  /** The running state of a roll loop: the amount so far, the successful
      rolls so far, and the random source. */
  datatype RollTally = RollTally(total: int, successes: nat, rng: Rng)

  /** The first n rolls of a plan: roll i draws u and succeeds when
      100 u < chancePerRoll; each success adds nextInt(min, max + 1). */
  function Rolls(plan: RollPlan, minAmount: int, maxAmount: int, rng: Rng, n: nat): (t: RollTally)
    requires minAmount <= maxAmount
    ensures t.successes <= n
    ensures t.rng == rng.Skip(n + t.successes)
    decreases n
  {
    if n == 0 then RollTally(0, 0, rng)
    else
      var before := Rolls(plan, minAmount, maxAmount, rng, n - 1);
      var (u, afterRoll) := before.rng.NextDouble();
      if u * 100.0 < plan.chancePerRoll then
        var (amount, afterAmount) := afterRoll.NextInt(minAmount, maxAmount + 1);
        RollTally(before.total + amount, before.successes + 1, afterAmount)
      else
        RollTally(before.total, before.successes, afterRoll)
  }

  /** Each successful roll adds an amount in [min, max]. */
  lemma {:induction false} RollsAmountBounds(plan: RollPlan, minAmount: int, maxAmount: int, rng: Rng, n: nat)
    requires minAmount <= maxAmount && rng.Valid()
    ensures var t := Rolls(plan, minAmount, maxAmount, rng, n);
            t.successes * minAmount <= t.total <= t.successes * maxAmount
  {
    if n > 0 {
      RollsAmountBounds(plan, minAmount, maxAmount, rng, n - 1);
      var before := Rolls(plan, minAmount, maxAmount, rng, n - 1);
      var afterRoll := before.rng.Skip(1);
      assert afterRoll.Valid() by {
        assert afterRoll.unit == rng.unit;
      }
      var k := before.successes;
      var amount := afterRoll.NextInt(minAmount, maxAmount + 1).0;
      assert minAmount <= amount <= maxAmount;
      StepBounds(k, before.total, amount, minAmount, maxAmount);
    }
  }

  /** One more success keeps the total within successes * [min, max]. */
  lemma StepBounds(k: nat, total: int, amount: int, minAmount: int, maxAmount: int)
    requires k * minAmount <= total <= k * maxAmount
    requires minAmount <= amount <= maxAmount
    ensures (k + 1) * minAmount <= total + amount <= (k + 1) * maxAmount
  {
    assert (k + 1) * minAmount == k * minAmount + minAmount;
    assert (k + 1) * maxAmount == k * maxAmount + maxAmount;
  }

  /** With non-negative amounts the total of `rolls` rolls lies in
      [0, rolls * max]. */
  lemma RollsTotalBounds(plan: RollPlan, minAmount: int, maxAmount: int, rng: Rng, n: nat)
    requires 0 <= minAmount <= maxAmount && rng.Valid()
    ensures 0 <= Rolls(plan, minAmount, maxAmount, rng, n).total <= n * maxAmount
  {
    var t := Rolls(plan, minAmount, maxAmount, rng, n);
    RollsAmountBounds(plan, minAmount, maxAmount, rng, n);
    assert 0 <= t.successes * minAmount;
    assert t.successes * maxAmount <= n * maxAmount by {
      MulMonotone(t.successes, n, maxAmount);
    }
  }

  /** Multiplication by a non-negative factor is monotone. */
  lemma MulMonotone(a: nat, b: nat, c: nat)
    requires a <= b
    ensures a * c <= b * c
  {
  }

  /** A plan whose chance per roll is at least 100 succeeds on every roll. */
  lemma {:induction false} CertainRollsAllSucceed(plan: RollPlan, minAmount: int, maxAmount: int, rng: Rng, n: nat)
    requires minAmount <= maxAmount && rng.Valid() && plan.chancePerRoll >= 100.0
    ensures Rolls(plan, minAmount, maxAmount, rng, n).successes == n
  {
    if n > 0 {
      CertainRollsAllSucceed(plan, minAmount, maxAmount, rng, n - 1);
      var before := Rolls(plan, minAmount, maxAmount, rng, n - 1);
      assert before.rng.unit(before.rng.pos) < 1.0;
    }
  }

  /** A plan with no chance never succeeds and adds nothing. */
  lemma {:induction false} HopelessRollsAddNothing(plan: RollPlan, minAmount: int, maxAmount: int, rng: Rng, n: nat)
    requires minAmount <= maxAmount && rng.Valid() && plan.chancePerRoll <= 0.0
    ensures Rolls(plan, minAmount, maxAmount, rng, n) == RollTally(0, 0, rng.Skip(n))
  {
    if n > 0 {
      HopelessRollsAddNothing(plan, minAmount, maxAmount, rng, n - 1);
      assert rng.Skip(n - 1).unit(rng.Skip(n - 1).pos) >= 0.0;
    }
  }

  // ================================================================ entries

  /** The outcome of one entry: whether it dropped, its amount, and both
      random sources after it (ThreadLocalRandom and Math.random). */
  datatype EntryRoll = EntryRoll(dropped: bool, amount: int, tlr: Rng, mathRandom: Rng)

  /** The roll loop shared by rollBonusRolls and rollHybrid: `plan.rolls`
      rolls, the tally of their amounts. */
  function RollPlanOut(plan: RollPlan, e: DropEntry, tlr: Rng, mathRandom: Rng): EntryRoll
    requires e.minAmount <= e.maxAmount && plan.rolls >= 1
  {
    var t := Rolls(plan, e.minAmount, e.maxAmount, tlr, plan.rolls as nat);
    EntryRoll(t.total > 0, t.total, t.rng, mathRandom)
  }

  /** One iteration of processDrops' strategy switch for an entry. */
  function RollEntry(m: MathFns, dropMethod: DropMethod, e: DropEntry, level: int,
                     tlr: Rng, mathRandom: Rng): (r: EntryRoll)
    requires e.minAmount <= e.maxAmount
    ensures !r.dropped ==> r.mathRandom == mathRandom
    ensures dropMethod != Diminishing ==> (r.dropped <==> r.amount > 0) && r.mathRandom == mathRandom
    ensures dropMethod == Diminishing ==> r.tlr == tlr.Skip(1)
  {
    match dropMethod
    case Diminishing =>
      var (u, afterRoll) := tlr.NextDouble();
      if u * 100.0 < CalculateDropChance(m, e.chance, level) then
        var (amount, afterAmount) := DropAmount(e.minAmount, e.maxAmount, level, mathRandom);
        EntryRoll(true, amount, afterRoll, afterAmount)
      else
        EntryRoll(false, 0, afterRoll, mathRandom)
    case BonusRolls =>
      RollPlanOut(CalculateBonusRolls(e.chance, level), e, tlr, mathRandom)
    case Hybrid =>
      RollPlanOut(CalculateHybridDrop(m, e.chance, level), e, tlr, mathRandom)
  }

  /** Diminishing mode succeeds iff 100 * draw is below the scaled chance,
      uses one ThreadLocalRandom draw, and draws an amount (from Math.random)
      only on success; the amount is then in [min, max + level]. */
  lemma DiminishingEntry(m: MathFns, e: DropEntry, level: int, tlr: Rng, mathRandom: Rng)
    requires e.minAmount <= e.maxAmount && mathRandom.Valid()
    ensures var r := RollEntry(m, Diminishing, e, level, tlr, mathRandom);
            && (r.dropped <==> tlr.unit(tlr.pos) * 100.0 < CalculateDropChance(m, e.chance, level))
            && r.tlr == tlr.Skip(1)
            && (!r.dropped ==> r.mathRandom == mathRandom && r.amount == 0)
            && (r.dropped ==> e.minAmount <= r.amount <= e.maxAmount + (if level > 0 then level else 0))
  {
    DropAmountBounds(e.minAmount, e.maxAmount, level, mathRandom);
  }

  /** Bonus Rolls and Hybrid modes make exactly `rolls` chance draws, plus
      one amount draw per success; the total stays in [0, rolls * max], it
      never touches Math.random, and the entry drops iff the total is positive. */
  lemma RollModesEntry(m: MathFns, dropMethod: DropMethod, e: DropEntry, level: int, tlr: Rng, mathRandom: Rng)
    requires dropMethod != Diminishing
    requires 0 <= e.minAmount <= e.maxAmount && tlr.Valid()
    ensures var plan := if dropMethod == BonusRolls then CalculateBonusRolls(e.chance, level)
                        else CalculateHybridDrop(m, e.chance, level);
            var r := RollEntry(m, dropMethod, e, level, tlr, mathRandom);
            var t := Rolls(plan, e.minAmount, e.maxAmount, tlr, plan.rolls as nat);
            && r.amount == t.total
            && r.tlr == tlr.Skip(plan.rolls + t.successes)
            && 0 <= r.amount <= plan.rolls * e.maxAmount
            && r.mathRandom == mathRandom
            && (r.dropped <==> r.amount > 0)
  {
    var plan := if dropMethod == BonusRolls then CalculateBonusRolls(e.chance, level)
                else CalculateHybridDrop(m, e.chance, level);
    assert RollEntry(m, dropMethod, e, level, tlr, mathRandom) == RollPlanOut(plan, e, tlr, mathRandom);
    RollsTotalBounds(plan, e.minAmount, e.maxAmount, tlr, plan.rolls as nat);
  }

  // ============================================================ resolution

  /** The result of a request: the item stacks granted, and both random
      sources after it. */
  datatype Resolution = Resolution(drops: seq<ItemStack>, tlr: Rng, mathRandom: Rng)

  /** What processDrops appends for an entry: the built item with its amount
      set, when the entry dropped a positive amount and the item could be
      built; nothing otherwise. */
  function Emit(api: ItemApi, e: DropEntry, roll: EntryRoll): (r: seq<ItemStack>)
    ensures |r| <= 1
    ensures forall d | d in r :: d.amount > 0 && d.amount == roll.amount && roll.dropped
    ensures BuildItem(api, Some(e.oraxenItemId)).None? ==> r == []
    ensures !(roll.dropped && roll.amount > 0) ==> r == []
    ensures roll.dropped && roll.amount > 0 && BuildItem(api, Some(e.oraxenItemId)).Some? ==>
              r == [BuildItem(api, Some(e.oraxenItemId)).value.(amount := roll.amount)]
  {
    if roll.dropped && roll.amount > 0 then
      match BuildItem(api, Some(e.oraxenItemId))
      case None => []
      case Some(item) => [item.(amount := roll.amount)]
    else []
  }

  /** processDrops: every entry rolled in order with the selected method. */
  function Resolve(m: MathFns, dropMethod: DropMethod, api: ItemApi, entries: seq<DropEntry>,
                   level: int, tlr: Rng, mathRandom: Rng): (r: Resolution)
    requires forall e | e in entries :: e.minAmount <= e.maxAmount
    ensures |r.drops| <= |entries|
    ensures forall d | d in r.drops :: d.amount > 0
    decreases |entries|
  {
    if entries == [] then Resolution([], tlr, mathRandom)
    else
      var before := Resolve(m, dropMethod, api, entries[..|entries| - 1], level, tlr, mathRandom);
      ResolveEntry(m, dropMethod, api, entries[|entries| - 1], level, before)
  }

  /** One iteration of processDrops: roll the entry from the sources `before`
      left, and append what it yields. */
  function ResolveEntry(m: MathFns, dropMethod: DropMethod, api: ItemApi, e: DropEntry,
                        level: int, before: Resolution): (r: Resolution)
    requires e.minAmount <= e.maxAmount
    ensures |before.drops| <= |r.drops| <= |before.drops| + 1
    ensures r.drops[..|before.drops|] == before.drops
    ensures forall k | |before.drops| <= k < |r.drops| :: r.drops[k].amount > 0
    ensures r.drops == before.drops + EntryStep(m, dropMethod, api, e, level, before.tlr, before.mathRandom).drops
  {
    var step := EntryStep(m, dropMethod, api, e, level, before.tlr, before.mathRandom);
    Resolution(before.drops + step.drops, step.tlr, step.mathRandom)
  }

  /** What rolling one entry from the given sources yields on its own: the
      stacks it adds and the sources after it. */
  function EntryStep(m: MathFns, dropMethod: DropMethod, api: ItemApi, e: DropEntry,
                     level: int, tlr: Rng, mathRandom: Rng): (r: Resolution)
    requires e.minAmount <= e.maxAmount
    ensures |r.drops| <= 1
    ensures forall d | d in r.drops :: d.amount > 0
    ensures var roll := RollEntry(m, dropMethod, e, level, tlr, mathRandom);
            var item := BuildItem(api, Some(e.oraxenItemId));
            && r.tlr == roll.tlr && r.mathRandom == roll.mathRandom
            && (roll.dropped && roll.amount > 0 && item.Some? ==>
                  r.drops == [item.value.(amount := roll.amount)])
            && (!(roll.dropped && roll.amount > 0 && item.Some?) ==> r.drops == [])
  {
    var roll := RollEntry(m, dropMethod, e, level, tlr, mathRandom);
    Resolution(Emit(api, e, roll), roll.tlr, roll.mathRandom)
  }

  /** Resolve unfolded once: the last entry is rolled after all the others. */
  lemma ResolveLast(m: MathFns, dropMethod: DropMethod, api: ItemApi, entries: seq<DropEntry>,
                    level: int, tlr: Rng, mathRandom: Rng)
    requires entries != [] && forall e | e in entries :: e.minAmount <= e.maxAmount
    ensures Resolve(m, dropMethod, api, entries, level, tlr, mathRandom) ==
              ResolveEntry(m, dropMethod, api, entries[|entries| - 1], level,
                           Resolve(m, dropMethod, api, entries[..|entries| - 1], level, tlr, mathRandom))
  {
  }

  /** Resolving the first i + 1 entries is resolving the first i, then
      entry i from the state they left (the step processDrops' loop takes). */
  lemma ResolvePrefixStep(m: MathFns, dropMethod: DropMethod, api: ItemApi, entries: seq<DropEntry>,
                          i: int, level: int, tlr: Rng, mathRandom: Rng)
    requires 0 <= i < |entries| && forall e | e in entries :: e.minAmount <= e.maxAmount
    ensures forall e | e in entries[..i + 1] :: e.minAmount <= e.maxAmount
    ensures Resolve(m, dropMethod, api, entries[..i + 1], level, tlr, mathRandom) ==
              ResolveEntry(m, dropMethod, api, entries[i], level,
                           Resolve(m, dropMethod, api, entries[..i], level, tlr, mathRandom))
  {
    assert entries[..i + 1][..i] == entries[..i];
    assert entries[..i + 1][i] == entries[i];
    ResolveLast(m, dropMethod, api, entries[..i + 1], level, tlr, mathRandom);
  }

  /** Entries never block one another: resolving a list is resolving its
      first part, then its second part from the random state the first part
      left, with the drops concatenated in entry order. */
  lemma {:induction false} ResolveAppend(m: MathFns, dropMethod: DropMethod, api: ItemApi,
                                         a: seq<DropEntry>, b: seq<DropEntry>,
                                         level: int, tlr: Rng, mathRandom: Rng)
    requires forall e | e in a + b :: e.minAmount <= e.maxAmount
    ensures var ra := Resolve(m, dropMethod, api, a, level, tlr, mathRandom);
            var rb := Resolve(m, dropMethod, api, b, level, ra.tlr, ra.mathRandom);
            Resolve(m, dropMethod, api, a + b, level, tlr, mathRandom) ==
              Resolution(ra.drops + rb.drops, rb.tlr, rb.mathRandom)
    decreases |b|
  {
    assert forall e | e in a :: e in a + b;
    assert forall e | e in b :: e in a + b;
    if b == [] {
      assert a + b == a;
    } else {
      var b' := b[..|b| - 1];
      assert forall x | x in a + b' :: x in a + b by {
        assert a + b == (a + b') + [b[|b| - 1]];
      }
      ResolveAppend(m, dropMethod, api, a, b', level, tlr, mathRandom);
      ResolveAppendStep(m, dropMethod, api, a, b, level, tlr, mathRandom);
    }
  }

  /** The induction step of ResolveAppend: appending the last entry of b to
      both sides keeps them equal. */
  lemma ResolveAppendStep(m: MathFns, dropMethod: DropMethod, api: ItemApi,
                          a: seq<DropEntry>, b: seq<DropEntry>,
                          level: int, tlr: Rng, mathRandom: Rng)
    requires b != [] && forall e | e in a + b :: e.minAmount <= e.maxAmount
    requires var ra := Resolve(m, dropMethod, api, a, level, tlr, mathRandom);
             var rb' := Resolve(m, dropMethod, api, b[..|b| - 1], level, ra.tlr, ra.mathRandom);
             Resolve(m, dropMethod, api, a + b[..|b| - 1], level, tlr, mathRandom) ==
               Resolution(ra.drops + rb'.drops, rb'.tlr, rb'.mathRandom)
    ensures var ra := Resolve(m, dropMethod, api, a, level, tlr, mathRandom);
            var rb := Resolve(m, dropMethod, api, b, level, ra.tlr, ra.mathRandom);
            Resolve(m, dropMethod, api, a + b, level, tlr, mathRandom) ==
              Resolution(ra.drops + rb.drops, rb.tlr, rb.mathRandom)
  {
    var b' := b[..|b| - 1];
    var e := b[|b| - 1];
    assert forall x | x in b :: x in a + b;
    assert forall x | x in a :: x in a + b;
    LastOfConcat(a, b);
    var ra := Resolve(m, dropMethod, api, a, level, tlr, mathRandom);
    var rb' := Resolve(m, dropMethod, api, b', level, ra.tlr, ra.mathRandom);
    ResolveLast(m, dropMethod, api, a + b, level, tlr, mathRandom);
    ResolveLast(m, dropMethod, api, b, level, ra.tlr, ra.mathRandom);
    ResolveEntryShift(m, dropMethod, api, e, level, ra.drops, rb');
  }

  /** Rolling an entry only looks at the random sources: stacks granted
      earlier are kept in front of what it adds. */
  lemma ResolveEntryShift(m: MathFns, dropMethod: DropMethod, api: ItemApi, e: DropEntry,
                          level: int, earlier: seq<ItemStack>, before: Resolution)
    requires e.minAmount <= e.maxAmount
    ensures var r := ResolveEntry(m, dropMethod, api, e, level, before);
            ResolveEntry(m, dropMethod, api, e, level,
                         Resolution(earlier + before.drops, before.tlr, before.mathRandom)) ==
              Resolution(earlier + r.drops, r.tlr, r.mathRandom)
  {
    var step := EntryStep(m, dropMethod, api, e, level, before.tlr, before.mathRandom);
    ConcatAssoc(earlier, before.drops, step.drops);
  }

  lemma ConcatAssoc<T>(x: seq<T>, y: seq<T>, z: seq<T>)
    ensures (x + y) + z == x + (y + z)
  {
  }

  lemma LastOfConcat<T>(a: seq<T>, b: seq<T>)
    requires b != []
    ensures (a + b)[..|a + b| - 1] == a + b[..|b| - 1]
    ensures (a + b)[|a + b| - 1] == b[|b| - 1]
  {
    assert b == b[..|b| - 1] + [b[|b| - 1]];
  }

  /** Every granted stack is an item built from some entry's id, carrying a
      positive amount. */
  lemma {:induction false} DropsComeFromEntries(m: MathFns, dropMethod: DropMethod, api: ItemApi,
                                                entries: seq<DropEntry>, level: int,
                                                tlr: Rng, mathRandom: Rng, d: ItemStack)
    requires forall e | e in entries :: e.minAmount <= e.maxAmount
    requires d in Resolve(m, dropMethod, api, entries, level, tlr, mathRandom).drops
    ensures exists e | e in entries ::
              BuildItem(api, Some(e.oraxenItemId)).Some? &&
              BuildItem(api, Some(e.oraxenItemId)).value.material == d.material
    decreases |entries|
  {
    var init := entries[..|entries| - 1];
    var e := entries[|entries| - 1];
    var before := Resolve(m, dropMethod, api, init, level, tlr, mathRandom);
    if d in before.drops {
      DropsComeFromEntries(m, dropMethod, api, init, level, tlr, mathRandom, d);
      var e' :| e' in init && BuildItem(api, Some(e'.oraxenItemId)).Some? &&
                BuildItem(api, Some(e'.oraxenItemId)).value.material == d.material;
      assert e' in entries;
    } else {
      assert e in entries;
    }
  }

  /** The grant direction: an entry that drops a positive amount of an item
      the catalogue can build puts exactly that stack into the result, at the
      position after everything the entries before it granted, whatever
      follows it. */
  lemma EntryGrantsItsStack(m: MathFns, dropMethod: DropMethod, api: ItemApi,
                            a: seq<DropEntry>, e: DropEntry, b: seq<DropEntry>,
                            level: int, tlr: Rng, mathRandom: Rng)
    requires forall x | x in a + [e] + b :: x.minAmount <= x.maxAmount
    ensures var ra := Resolve(m, dropMethod, api, a, level, tlr, mathRandom);
            var roll := RollEntry(m, dropMethod, e, level, ra.tlr, ra.mathRandom);
            var item := BuildItem(api, Some(e.oraxenItemId));
            var all := Resolve(m, dropMethod, api, a + [e] + b, level, tlr, mathRandom).drops;
            roll.dropped && roll.amount > 0 && item.Some? ==>
              |ra.drops| < |all| && all[|ra.drops|] == item.value.(amount := roll.amount)
  {
    assert forall x | x in a + [e] :: x in a + [e] + b;
    assert forall x | x in a :: x in a + [e] + b;
    assert forall x | x in b :: x in a + [e] + b;
    var ra := Resolve(m, dropMethod, api, a, level, tlr, mathRandom);
    var rae := Resolve(m, dropMethod, api, a + [e], level, tlr, mathRandom);
    ResolveAppend(m, dropMethod, api, a + [e], b, level, tlr, mathRandom);
    LastOfConcat(a, [e]);
    assert (a + [e])[..|a + [e]| - 1] == a;
    ResolveLast(m, dropMethod, api, a + [e], level, tlr, mathRandom);
    assert rae.drops[..|ra.drops|] == ra.drops;
  }
}
