/** The value types of the plugin: a validated drop entry and the strategy
    selector. */
module DropModel {
  import opened Platform

  /** One configured drop of a block: an Oraxen item id, a base chance in
      percent and an amount range. The registry only holds validated ones. */
  datatype DropEntry = DropEntry(oraxenItemId: string, chance: real, minAmount: int, maxAmount: int)

  /** The Fortune/Looting strategy applied to every entry alike. */
  datatype DropMethod = Diminishing | BonusRolls | Hybrid

  /** The enum constant's name, as DropMethod.valueOf expects it. */
  function Name(m: DropMethod): (n: string)
    ensures n != [] && forall i | 0 <= i < |n| :: 'A' <= n[i] <= 'Z' || n[i] == '_'
  {
    match m
    case Diminishing => "DIMINISHING"
    case BonusRolls => "BONUS_ROLLS"
    case Hybrid => "HYBRID"
  }

  /** DropMethod.valueOf: the constant with exactly this name, or None where
      Java throws IllegalArgumentException. */
  function ValueOf(name: string): (r: Option<DropMethod>)
    ensures r.Some? ==> Name(r.value) == name
  {
    if name == "DIMINISHING" then Some(Diminishing)
    else if name == "BONUS_ROLLS" then Some(BonusRolls)
    else if name == "HYBRID" then Some(Hybrid)
    else None
  }

  /** valueOf inverts the constant names. */
  lemma ValueOfName(m: DropMethod)
    ensures ValueOf(Name(m)) == Some(m)
  {
  }
}
