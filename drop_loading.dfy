/** What reloading the configuration produces: the selected drop method, the
    validated entries of each material and the registry built from them.
    These functions specify the loading methods of BlockDropManager. */
module DropLoading {
  import opened Platform
  import opened DropModel
  import opened OraxenItemUtil
  import opened BukkitConfig

  // ============================================================ drop method

  /** loadConfig: drop-mechanics.method (default "HYBRID") upper-cased and
      looked up; an unknown name selects HYBRID. */
  function MethodSetting(setting: Option<string>): (m: DropMethod)
    ensures ValueOf(ToUpperCase(setting.GetOr("HYBRID"))).Some? ==>
              Name(m) == ToUpperCase(setting.GetOr("HYBRID"))
    ensures ValueOf(ToUpperCase(setting.GetOr("HYBRID"))).None? ==> m == Hybrid
  {
    var methodStr := setting.GetOr("HYBRID");
    match ValueOf(ToUpperCase(methodStr))
    case Some(m) => m
    case None => Hybrid
  }

  /** The method name is matched case-insensitively: a name selects a method
      exactly when its upper-cased form is that method's constant name, and a
      missing setting selects HYBRID. */
  lemma MethodSettingCaseInsensitive(name: string, m: DropMethod)
    ensures MethodSetting(Some(name)) == MethodSetting(Some(ToUpperCase(name)))
    ensures ToUpperCase(name) == Name(m) ==> MethodSetting(Some(name)) == m
    ensures MethodSetting(None) == Hybrid
  {
    ToUpperCaseIdempotent(name);
    if ToUpperCase(name) == Name(m) {
      ValueOfName(m);
    }
    NameIsUpperCase(Hybrid);
  }

  /** The constant names contain no lower-case letter. */
  lemma NameIsUpperCase(m: DropMethod)
    ensures ToUpperCase(Name(m)) == Name(m)
  {
    UpperCaseFixpoint(Name(m));
  }

  // ================================================================ entries

  /** The checks loadDropEntries makes before keeping an entry. */
  predicate ValidEntry(api: ItemApi, e: DropEntry): (ok: bool)
    ensures ok ==> e.oraxenItemId != [] && api.itemExists(e.oraxenItemId)
    ensures ok ==> 0 <= e.minAmount <= e.maxAmount && 0.0 < e.chance
  {
    && Validate(api, Some(e.oraxenItemId))
    && 0.0 < e.chance <= 100.0
    && 0 <= e.minAmount <= e.maxAmount
  }

  /** The entry an entry section describes once the getters' defaults are
      applied: chance 0, min-amount 1, max-amount 1 (a missing item id reads
      as "", which no catalogue validates). */
  function Defaulted(raw: RawEntry): (e: DropEntry)
    ensures raw.oraxenItem.None? ==> e.oraxenItemId == []
    ensures raw.chance.None? ==> e.chance == 0.0
    ensures raw.minAmount.None? ==> e.minAmount == 1
    ensures raw.maxAmount.None? ==> e.maxAmount == 1
    ensures raw.chance.Some? ==> e.chance == raw.chance.value
  {
    DropEntry(raw.oraxenItem.GetOr(""), raw.chance.GetOr(0.0), raw.minAmount.GetOr(1), raw.maxAmount.GetOr(1))
  }

  /** One iteration of loadDropEntries on an entry section: the entry, or
      None when a check fails. */
  function ReadEntry(api: ItemApi, raw: RawEntry): (r: Option<DropEntry>)
    ensures r.Some? <==> ValidEntry(api, Defaulted(raw))
    ensures r.Some? ==> r.value == Defaulted(raw)
  {
    var itemId := raw.oraxenItem;
    var chance := raw.chance.GetOr(0.0);
    var minAmount := raw.minAmount.GetOr(1);
    var maxAmount := raw.maxAmount.GetOr(1);
    if !Validate(api, itemId) then None
    else if chance <= 0.0 || chance > 100.0 then None
    else if minAmount < 0 || maxAmount < minAmount then None
    else Some(DropEntry(itemId.value, chance, minAmount, maxAmount))
  }

  /** An entry without a chance is rejected (the default chance is 0); one
      without amounts drops exactly one item. */
  lemma ReadEntryDefaults(api: ItemApi, raw: RawEntry)
    ensures raw.chance.None? ==> ReadEntry(api, raw).None?
    ensures raw.minAmount.None? && raw.maxAmount.None? && ReadEntry(api, raw).Some? ==>
              ReadEntry(api, raw).value.minAmount == 1 && ReadEntry(api, raw).value.maxAmount == 1
  {
  }

  /** The entries one child contributes: none for a plain value (skipped). */
  function EntryOf(api: ItemApi, node: Node<RawEntry>): (r: seq<DropEntry>)
    ensures |r| <= 1
  {
    match node
    case Scalar => []
    case Section(raw) =>
      match ReadEntry(api, raw)
      case None => []
      case Some(e) => [e]
  }

  /** The entries kept from an entry section, in key order. */
  function DropEntries(api: ItemApi, s: EntriesSection): (r: seq<DropEntry>)
    ensures |r| <= |s|
    ensures forall e | e in r :: ValidEntry(api, e)
    decreases |s|
  {
    if s == [] then []
    else DropEntries(api, s[..|s| - 1]) + EntryOf(api, s[|s| - 1].1)
  }

  /** loadDropEntries: a null section yields no entries. */
  function LoadedEntries(api: ItemApi, section: Option<EntriesSection>): (r: seq<DropEntry>)
    ensures section.None? ==> r == []
    ensures forall e | e in r :: ValidEntry(api, e)
  {
    match section
    case None => []
    case Some(s) => DropEntries(api, s)
  }

  /** Entries are read independently and keep their order: the entries of
      two consecutive runs of keys are those of each run, concatenated. */
  lemma {:induction false} DropEntriesAppend(api: ItemApi, a: EntriesSection, b: EntriesSection)
    ensures DropEntries(api, a + b) == DropEntries(api, a) + DropEntries(api, b)
    decreases |b|
  {
    if b == [] {
      assert a + b == a;
    } else {
      var b' := b[..|b| - 1];
      assert (a + b)[..|a + b| - 1] == a + b';
      assert (a + b)[|a + b| - 1] == b[|b| - 1];
      DropEntriesAppend(api, a, b');
    }
  }

  /** An entry is kept exactly when some key holds a section that reads to it
      and passes every check. */
  lemma {:induction false} DropEntriesMembership(api: ItemApi, s: EntriesSection, e: DropEntry)
    ensures e in DropEntries(api, s) <==>
              exists i | 0 <= i < |s| :: s[i].1.Section? && ReadEntry(api, s[i].1.body) == Some(e)
    decreases |s|
  {
    if s != [] {
      var s' := s[..|s| - 1];
      DropEntriesMembership(api, s', e);
      if e in DropEntries(api, s') {
        var i :| 0 <= i < |s'| && s'[i].1.Section? && ReadEntry(api, s'[i].1.body) == Some(e);
        assert s[i] == s'[i];
      }
      if exists i | 0 <= i < |s| :: s[i].1.Section? && ReadEntry(api, s[i].1.body) == Some(e) {
        var i :| 0 <= i < |s| && s[i].1.Section? && ReadEntry(api, s[i].1.body) == Some(e);
        if i < |s| - 1 {
          assert s'[i] == s[i];
        }
      }
    }
  }

  // =============================================================== registry

  /** The drop registry: upper-cased material name to its validated entries. */
  type Registry = map<string, seq<DropEntry>>

  /** One iteration of loadBlockDrops: an unknown material name is skipped; a
      known one stores its entries, unless there are none. */
  function StoreBlock(api: ItemApi, materials: set<string>, reg: Registry,
                      blockType: string, node: Node<EntriesSection>): (r: Registry)
    ensures r.Keys <= reg.Keys + {ToUpperCase(blockType)}
    ensures forall k | k in reg && k != ToUpperCase(blockType) :: k in r && r[k] == reg[k]
    ensures ToUpperCase(blockType) !in materials ==> r == reg
    ensures ToUpperCase(blockType) in r && r != reg ==> r[ToUpperCase(blockType)] != []
    ensures ToUpperCase(blockType) in materials && LoadedEntries(api, SectionOf(node)) != [] ==>
              r == reg[ToUpperCase(blockType) := LoadedEntries(api, SectionOf(node))]
    ensures LoadedEntries(api, SectionOf(node)) == [] ==> r == reg
  {
    var material := ToUpperCase(blockType);
    if material !in materials then reg
    else
      var drops := LoadedEntries(api, SectionOf(node));
      if drops == [] then reg else reg[material := drops]
  }

  /** The registry loadBlockDrops builds from an emptied map. */
  function BlockDrops(api: ItemApi, materials: set<string>, s: BlockDropsSection): (r: Registry)
    ensures forall m | m in r :: m in materials && r[m] != []
    ensures forall m | m in r :: forall e | e in r[m] :: ValidEntry(api, e)
    decreases |s|
  {
    if s == [] then map[]
    else StoreBlock(api, materials, BlockDrops(api, materials, s[..|s| - 1]), s[|s| - 1].0, s[|s| - 1].1)
  }

  /** The bucket a material key would store, empty for an unknown material. */
  function BucketOf(api: ItemApi, materials: set<string>, child: (string, Node<EntriesSection>)): seq<DropEntry> {
    if ToUpperCase(child.0) in materials then LoadedEntries(api, SectionOf(child.1)) else []
  }

  /** Whether a material key stores a bucket for material m: its name
      upper-cases to m and it yields at least one valid entry. */
  predicate StoresFor(api: ItemApi, materials: set<string>, child: (string, Node<EntriesSection>), m: string) {
    ToUpperCase(child.0) == m && BucketOf(api, materials, child) != []
  }

  /** A material is in the registry exactly when some key names it and
      yields at least one valid entry; its bucket is that of the last such
      key, since a later put replaces an earlier one. */
  lemma BlockDropsDomain(api: ItemApi, materials: set<string>, s: BlockDropsSection, m: string)
    ensures m in BlockDrops(api, materials, s) <==>
              exists i | 0 <= i < |s| :: StoresFor(api, materials, s[i], m)
    ensures m in BlockDrops(api, materials, s) ==>
              exists i | 0 <= i < |s| :: StoresFor(api, materials, s[i], m) &&
                                         BlockDrops(api, materials, s)[m] == BucketOf(api, materials, s[i]) &&
                                         forall j | i < j < |s| :: !StoresFor(api, materials, s[j], m)
  {
    BlockDropsKeys(api, materials, s, m);
    if m in BlockDrops(api, materials, s) {
      BlockDropsLastKey(api, materials, s, m);
    }
  }

  /** The domain half of BlockDropsDomain. */
  lemma {:induction false} BlockDropsKeys(api: ItemApi, materials: set<string>, s: BlockDropsSection, m: string)
    ensures m in BlockDrops(api, materials, s) <==>
              exists i | 0 <= i < |s| :: StoresFor(api, materials, s[i], m)
    decreases |s|
  {
    if s != [] {
      var s' := s[..|s| - 1];
      BlockDropsKeys(api, materials, s', m);
      BlockDropsLast(api, materials, s, m);
      if exists i | 0 <= i < |s| - 1 :: StoresFor(api, materials, s[i], m) {
        var i :| 0 <= i < |s| - 1 && StoresFor(api, materials, s[i], m);
        assert s'[i] == s[i];
      }
      if exists i | 0 <= i < |s'| :: StoresFor(api, materials, s'[i], m) {
        var i :| 0 <= i < |s'| && StoresFor(api, materials, s'[i], m);
        assert s'[i] == s[i];
      }
    }
  }

  /** The bucket half of BlockDropsDomain: a stored material's bucket is that
      of the last key storing for it. */
  lemma {:induction false} BlockDropsLastKey(api: ItemApi, materials: set<string>, s: BlockDropsSection, m: string)
    requires m in BlockDrops(api, materials, s)
    ensures exists i | 0 <= i < |s| :: StoresFor(api, materials, s[i], m) &&
                                       BlockDrops(api, materials, s)[m] == BucketOf(api, materials, s[i]) &&
                                       forall j | i < j < |s| :: !StoresFor(api, materials, s[j], m)
    decreases |s|
  {
    assert s != [];
    var n := |s| - 1;
    BlockDropsLast(api, materials, s, m);
    if StoresFor(api, materials, s[n], m) {
      assert StoresFor(api, materials, s[n], m) &&
             BlockDrops(api, materials, s)[m] == BucketOf(api, materials, s[n]);
    } else {
      var s' := s[..n];
      BlockDropsLastKey(api, materials, s', m);
      var i :| 0 <= i < |s'| && StoresFor(api, materials, s'[i], m) &&
               BlockDrops(api, materials, s')[m] == BucketOf(api, materials, s'[i]) &&
               forall j | i < j < |s'| :: !StoresFor(api, materials, s'[j], m);
      LaterKeysSkip(api, materials, s, s', m, i);
      LastKeyWitness(api, materials, s, m, i);
    }
  }

  /** A key that stores for m and is followed by none in s[..|s| - 1] is
      still followed by none in s when the last key does not store for m. */
  lemma LaterKeysSkip(api: ItemApi, materials: set<string>, s: BlockDropsSection, s': BlockDropsSection,
                      m: string, i: int)
    requires s != [] && s' == s[..|s| - 1] && 0 <= i < |s'|
    requires !StoresFor(api, materials, s[|s| - 1], m)
    requires forall j | i < j < |s'| :: !StoresFor(api, materials, s'[j], m)
    ensures s[i] == s'[i]
    ensures forall j | i < j < |s| :: !StoresFor(api, materials, s[j], m)
  {
    forall j | i < j < |s| ensures !StoresFor(api, materials, s[j], m) {
      if j < |s'| {
        assert s[j] == s'[j];
      }
    }
  }

  /** Index i witnesses BlockDropsLastKey's conclusion. */
  lemma LastKeyWitness(api: ItemApi, materials: set<string>, s: BlockDropsSection, m: string, i: int)
    requires 0 <= i < |s| && m in BlockDrops(api, materials, s)
    requires StoresFor(api, materials, s[i], m) && BlockDrops(api, materials, s)[m] == BucketOf(api, materials, s[i])
    requires forall j | i < j < |s| :: !StoresFor(api, materials, s[j], m)
    ensures exists i | 0 <= i < |s| :: StoresFor(api, materials, s[i], m) &&
                                       BlockDrops(api, materials, s)[m] == BucketOf(api, materials, s[i]) &&
                                       forall j | i < j < |s| :: !StoresFor(api, materials, s[j], m)
  {
  }

  /** What the last key does to a material's bucket: it replaces it when the
      key stores for the material, and leaves it otherwise. */
  lemma BlockDropsLast(api: ItemApi, materials: set<string>, s: BlockDropsSection, m: string)
    requires s != []
    ensures StoresFor(api, materials, s[|s| - 1], m) ==>
              m in BlockDrops(api, materials, s) &&
              BlockDrops(api, materials, s)[m] == BucketOf(api, materials, s[|s| - 1])
    ensures !StoresFor(api, materials, s[|s| - 1], m) ==>
              (m in BlockDrops(api, materials, s) <==> m in BlockDrops(api, materials, s[..|s| - 1])) &&
              (m in BlockDrops(api, materials, s) ==>
                 BlockDrops(api, materials, s)[m] == BlockDrops(api, materials, s[..|s| - 1])[m])
  {
  }

  /** Number of material keys that are not material names (loadBlockDrops'
      invalidBlocks counter). */
  function InvalidBlocks(materials: set<string>, s: BlockDropsSection): (n: nat)
    ensures n <= |s|
    decreases |s|
  {
    if s == [] then 0
    else InvalidBlocks(materials, s[..|s| - 1]) + (if ToUpperCase(s[|s| - 1].0) in materials then 0 else 1)
  }

  /** Number of entries stored, summed over the keys (loadBlockDrops'
      totalDrops counter). */
  function TotalDrops(api: ItemApi, materials: set<string>, s: BlockDropsSection): (n: nat)
    ensures forall mat | mat in BlockDrops(api, materials, s) :: |BlockDrops(api, materials, s)[mat]| <= n
    decreases |s|
  {
    if s == [] then 0
    else TotalDrops(api, materials, s[..|s| - 1]) + |BucketOf(api, materials, s[|s| - 1])|
  }

  /** A key whose upper-cased name is no material is skipped and counted: the
      registry is the one built without it, and the invalid count is one more. */
  lemma InvalidMaterialSkipped(api: ItemApi, materials: set<string>, s: BlockDropsSection, i: nat)
    requires i < |s| && ToUpperCase(s[i].0) !in materials
    ensures BlockDrops(api, materials, s) == BlockDrops(api, materials, s[..i] + s[i + 1..])
    ensures InvalidBlocks(materials, s) == InvalidBlocks(materials, s[..i] + s[i + 1..]) + 1
  {
    assert s == s[..i] + [s[i]] + s[i + 1..];
    SkipInert(api, materials, s[..i], s[i], s[i + 1..]);
  }

  /** Removing a child whose material is unknown from anywhere in the list
      leaves the registry unchanged and lowers the invalid count by one. */
  lemma {:induction false} SkipInert(api: ItemApi, materials: set<string>, a: BlockDropsSection,
                                     x: (string, Node<EntriesSection>), b: BlockDropsSection)
    requires ToUpperCase(x.0) !in materials
    ensures BlockDrops(api, materials, a + [x] + b) == BlockDrops(api, materials, a + b)
    ensures InvalidBlocks(materials, a + [x] + b) == InvalidBlocks(materials, a + b) + 1
    decreases |b|
  {
    if b == [] {
      assert (a + [x] + b)[..|a|] == a;
      assert a + b == a;
    } else {
      var b' := b[..|b| - 1];
      var l := b[|b| - 1];
      assert (a + [x] + b)[..|a + [x] + b| - 1] == a + [x] + b';
      assert (a + b)[..|a + b| - 1] == a + b';
      assert (a + [x] + b)[|a + [x] + b| - 1] == l;
      assert (a + b)[|a + b| - 1] == l;
      SkipInert(api, materials, a, x, b');
    }
  }
}
