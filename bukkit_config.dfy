/** The shape of the plugin configuration as the drop manager reads it through
    Bukkit's ConfigurationSection. A section is an ordered list of keys
    (getKeys(false) keeps file order), each holding either a nested section
    or a plain value. */
module BukkitConfig {
  import opened Platform

  /** A child of a section: getConfigurationSection(key) yields the body of a
      nested section and null for a plain value. */
  datatype Node<T> = Section(body: T) | Scalar

  /** getConfigurationSection on a child. */
  function SectionOf<T>(node: Node<T>): (r: Option<T>)
    ensures r.Some? <==> node.Section?
  {
    match node
    case Section(body) => Some(body)
    case Scalar => None
  }

  /** The four settings of one drop entry as the getters return them: None
      where the key is absent or not of the requested type, so that the
      getter falls back to its default. */
  datatype RawEntry = RawEntry(
    oraxenItem: Option<string>,
    chance: Option<real>,
    minAmount: Option<int>,
    maxAmount: Option<int>)

  /** block-drops.<material>: one entry section per key. */
  type EntriesSection = seq<(string, Node<RawEntry>)>

  /** block-drops: one child per material key. */
  type BlockDropsSection = seq<(string, Node<EntriesSection>)>

  /** The settings the drop manager reads: debug-mode, drop-mechanics.method
      and the block-drops section (None when it is missing or not a section). */
  datatype PluginConfig = PluginConfig(
    debugMode: Option<bool>,
    dropMethod: Option<string>,
    blockDrops: Option<BlockDropsSection>)
}
