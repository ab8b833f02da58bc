/** The item-catalogue collaborator: whether an Oraxen item id exists and
    building an item stack from it. The catalogue itself is a parameter. */
module OraxenItemUtil {
  import opened Platform

  /** A built item stack: its item type and its stack size. */
  datatype ItemStack = ItemStack(material: string, amount: int)

  /** The Oraxen API as two functions: OraxenItems.exists, and getItemById
      followed by build (None where the builder is missing or throws). */
  datatype ItemApi = ItemApi(itemExists: string -> bool, build: string -> Option<ItemStack>)

  /** OraxenItemUtil.validate: a null or empty id is invalid; otherwise the
      catalogue decides. */
  function Validate(api: ItemApi, oraxenItemId: Option<string>): (ok: bool)
    ensures ok <==> oraxenItemId.Some? && oraxenItemId.value != [] && api.itemExists(oraxenItemId.value)
  {
    match oraxenItemId
    case None => false
    case Some(id) => if id == [] then false else api.itemExists(id)
  }

  /** OraxenItemUtil.buildItem: null for a null or empty id, otherwise what
      the catalogue builds (null when it cannot). */
  function BuildItem(api: ItemApi, oraxenItemId: Option<string>): (r: Option<ItemStack>)
    ensures oraxenItemId.None? || oraxenItemId.value == [] ==> r.None?
    ensures oraxenItemId.Some? && oraxenItemId.value != [] ==> r == api.build(oraxenItemId.value)
  {
    match oraxenItemId
    case None => None
    case Some(id) => if id == [] then None else api.build(id)
  }
}
