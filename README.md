# Character progression and economy engine — a Dafny model

The game keeps one `Character` record per session. Class selection writes
the first record; after that the shop, inventory and skill panels are the only
code that changes it. Each panel action is a total transition on the record:
it checks a guard, then either installs a whole new record or leaves the old
one alone. The guards are: the item exists and is affordable (buy); the item
is a weapon (equip); the slot is occupied (unequip); the skill exists, the
level requirement is met and the cost is affordable (unlock); the skill exists,
is below its maximum and the upgrade is affordable (upgrade). This project models those
transitions and proves properties about them.

- **Creation**: a new character on class selection.
- **Shop**: buying, with stacking, and the per-type listing.
- **Inventory**: equipping a weapon by swapping it in, and emptying a slot.
- **Skills**: unlocking and upgrading, with the `cost * (level + 1)` upgrade cost, and the price shown on a skill's button.
- **World map**: the level-gated location table, its connectors, the selected location and the advertised rewards.
- **Session**: the page's single mutable character slot.

Modules, one per source file or concern:

| module | file | models |
|---|---|---|
| `GameTypes` | types.dfy | the records and enumerations of `src/types/game.ts` |
| `Seqs` | seqs.dfy | the array methods the panels use: `find`, `filter`, and `map` with a conditional |
| `GameData` | catalog.dfy | the shape of the catalog data (class data, initial skills, shop items), passed in as a parameter |
| `Outcomes` | outcome.dfy | the result of a transition: `Updated(next)` or `Rejected(reason)`; `After` gives the record installed |
| `Creation` | creation.dfy | `createCharacter` |
| `Shop` | shop.dfy | `buyItem`, `filterItems` |
| `Inventory` | inventory.dfy | `equipItem`, `unequipItem` |
| `Skills` | skills.dfy | `unlockSkill`, `upgradeSkill`, the displayed price |
| `WorldMap` | worldmap.dfy | the location table, connectors, selection, rewards |
| `Progression` | progression.dfy | sequences of panel actions and the invariants they keep |
| `Game` | session.dfy | the `Session` class: the `useState` character slot and the panel callbacks that overwrite it |

Pure code is modelled as functions. The page's state is a class, `Game.Session`,
with a field `character: Option<Character>`. Its methods install each
transition's result as a whole new record. `Equip` builds its inventory step by
step, as the source does: first the filter, then the push of the displaced
weapon. `Unequip` copies the equipment and deletes the slot from the copy.

The toast messages the source shows on rejection become a `Rejection` reason.
A rejected transition installs nothing.

The datatypes record these facts of the type declarations:
- The class is one of three values.
- An item's type is one of four values, and its rarity one of four.
- Equipment is five independently optional slots.
- An item's stat bonus is an optional partial map over the same eight stat names as `Stats`.
- `unlocked` is a field of a skill, independent of `level`.

## Behaviour a reader might not expect

Each point below is a property one might expect of such a game that the code
does not have, or has only under a condition; the model follows the code.

- **Upgrade and the lock.** One might expect only unlocked skills to be
  upgradable. The upgrade does not require the skill to be
  unlocked. A locked skill is raised one level and stays locked
  (`Skills.UpgradeIgnoresLock`).
- **Unlocking twice.** Unlocking does not check whether the skill is already
  unlocked. A second unlock charges the base cost again and resets the level
  to 1 (`Skills.UnlockAgainResetsLevel`).
- **Matching skills.** Unlock and upgrade rewrite every skill that has the id,
  not exactly one. With distinct skill ids, which the transitions preserve,
  that is the same thing.
- **Equipment and inventory can overlap.** One might expect an equipped item
  never to be in the inventory too, and inventory ids to be unique. Nothing keeps an equipped item out
  of the inventory, and inventory ids are not kept unique.
  `Progression.SecondSwordIsLost` shows the sequence buy, equip, buy, unequip,
  equip:
  - after the second buy, the equipped sword is also in the inventory;
  - the unequip makes two entries with the same id;
  - the final equip drops both entries, so one sword remains where two were paid for.

  A purchase alone does keep ids distinct (`Shop.BuyKeepsItemIdsDistinct`).
- **Creation and the catalog.** One might expect a new character's skills all
  to start locked at level 0. Creation copies the class's initial skill list
  as given, so that depends on catalog data that is not part of this model.
- **Gold never goes negative.** This holds for every transition with no
  assumption about prices, because each transition checks `gold < price`
  before deducting.

## Model

| member | source | states |
|---|---|---|
| GameTypes.Equipment.Without | src/components/InventoryPanel.tsx:41-42 | deleting a slot from a copy of the equipment empties that slot and leaves the other four as they were |
| GameTypes.AllSlots | src/components/InventoryPanel.tsx:149 | the panel lists exactly five distinct slots, and every slot appears at its own position |
| Seqs.Find | src/components/ShopPanel.tsx:18 | `find` returns nothing iff no element matches; otherwise it returns the first matching element |
| Seqs.Filter | src/components/ShopPanel.tsx:63 | `filter` keeps exactly the matching elements, each with its multiplicity, and never grows the sequence |
| Seqs.FilterConcat | src/components/ShopPanel.tsx:63 | filtering distributes over concatenation, so catalog order is kept |
| Seqs.UpdateWhere | src/components/ShopPanel.tsx:34-36 | the conditional `map` keeps the length and rewrites exactly the matching positions |
| Creation.Decimal | src/pages/Index.tsx:15 | the number in the display name is a non-empty string of digits with no leading zero |
| Creation.DecimalRoundTrip | src/pages/Index.tsx:15 | the digits in the display name read back as the number drawn |
| Creation.CreateCharacter | src/pages/Index.tsx:10-34 | a new character has the given id and selected class, name `<class name> #<roll>`, level 1, experience 0 of 100, health = maxHealth and mana = maxMana from the base stats, the other four stats copied, the class's initial skills, an empty inventory, all slots empty, and 500 gold |
| Creation.CreatedCharacterIsConsistent | src/pages/Index.tsx:17-33 | a new character satisfies every invariant the transitions keep, given consistent initial skills |
| Shop.AddToInventory | src/components/ShopPanel.tsx:30-39 | an id already held: every matching entry's quantity rises by the catalog quantity and the length is unchanged; otherwise the item is appended at the end |
| Shop.AddTwiceStacks | src/components/ShopPanel.tsx:30-39 | receiving a new item twice leaves one entry with twice its quantity |
| Shop.BuyItem | src/components/ShopPanel.tsx:17-45 | an unknown id is rejected, and too little gold is rejected, each iff its condition holds; a purchase pays the first listing's price once, adds the item to the inventory, changes nothing else, and leaves gold non-negative |
| Shop.BuyTwiceStacks | src/components/ShopPanel.tsx:17-45 | buying a new item twice costs twice the price and leaves one stacked entry |
| Shop.BuyKeepsItemIdsDistinct | src/components/ShopPanel.tsx:30-39 | a purchase never gives two inventory entries the same id |
| Shop.FilterItems | src/components/ShopPanel.tsx:62-64 | with no type the whole catalog; with a type exactly the catalog items of that type, each with its multiplicity |
| Shop.FilterItemsKeepsOrder | src/components/ShopPanel.tsx:62-64 | the listing keeps catalog order: the listing of a concatenation is the concatenation of the listings |
| Inventory.WithoutId | src/components/InventoryPanel.tsx:18 | the filter drops every entry with the id and keeps every other entry with its multiplicity |
| Inventory.EquipItem | src/components/InventoryPanel.tsx:15-28 | a non-weapon is rejected iff it is not a weapon; a weapon takes the weapon slot, the other slots are kept, every entry with its id leaves the inventory, the displaced weapon is appended unmerged, no other field changes, and afterwards only the displaced weapon can carry the equipped id |
| Inventory.UnequipItem | src/components/InventoryPanel.tsx:37-48 | an empty slot is rejected iff it is empty; otherwise the slot is emptied, the other slots are kept, the item is appended (length + 1), and no other field changes |
| Inventory.RemoveThenAppendSingle | src/components/InventoryPanel.tsx:18 | removing the only entry with an id and appending it again gives back the same multiset |
| Inventory.EquipThenUnequip | src/components/InventoryPanel.tsx:15-54 | with no weapon equipped and weapon w held once, equip then unequip restores the equipment and the inventory multiset and changes nothing else |
| Skills.UnlockSkill | src/components/SkillsPanel.tsx:16-46 | an unknown id is rejected iff absent; a level below the requirement is rejected before the gold is checked; too little gold is rejected; success sets every skill with that id to unlocked at level 1, pays the cost, leaves other skills and fields unchanged, and keeps gold non-negative |
| Skills.UpgradeSkill | src/components/SkillsPanel.tsx:54-76 | an unknown id is rejected iff absent; a skill at its maximum is rejected; gold below `cost * (level + 1)` is rejected; success raises the level of every skill with that id by exactly 1, pays that cost, leaves the rest unchanged, and keeps gold non-negative |
| Skills.UnlockKeepsSkillsConsistent | src/components/SkillsPanel.tsx:38-46 | unlocking keeps every skill's level within 0..maxLevel and the ids distinct |
| Skills.UpgradeKeepsSkillsConsistent | src/components/SkillsPanel.tsx:56-76 | upgrading never takes a level past its maximum and keeps the ids distinct |
| Skills.UpgradeIgnoresLock | src/components/SkillsPanel.tsx:56 | a locked skill below its maximum is upgraded, with no unlock check, and stays locked |
| Skills.UnlockAgainResetsLevel | src/components/SkillsPanel.tsx:38-40 | unlocking an unlocked skill charges again and resets its level to 1 |
| Skills.UpgradeCost | src/components/SkillsPanel.tsx:58 | the upgrade cost `cost * (level + 1)`; with a non-negative cost and level it is never negative and never less than the base cost |
| Skills.ShownPriceIsCharged | src/components/SkillsPanel.tsx:104 | `ShownPrice` (the base cost while locked, `UpgradeCost` once unlocked) is what the button's action (`ButtonAction`: unlock while locked, upgrade once unlocked) charges; the action is refused for gold iff gold is below that price |
| Skills.ButtonEnabledIffActionSucceeds | src/components/SkillsPanel.tsx:151-172 | the button (`ButtonEnabled`: level met and affordable while locked; below the maximum and affordable once unlocked) is enabled iff its action succeeds |
| WorldMap.Locations | src/components/WorldMapPanel.tsx:23-74 | five locations, village to volcano, with thresholds 1, 3, 5, 8, 12; the village is always open; every other location is open iff the level reaches its threshold |
| WorldMap.MapIsGatedByLevel | src/components/WorldMapPanel.tsx:32-72 | for level ≥ 1 every location, the village included, is open iff the level reaches its threshold, and the thresholds rise strictly |
| WorldMap.GatedAscendingIsPrefix | src/components/WorldMapPanel.tsx:42-72 | in a level-gated table with rising thresholds the open locations form a prefix |
| WorldMap.MapUnlocksAPrefix | src/components/WorldMapPanel.tsx:23-74 | at every level the open locations of the map are a prefix of it |
| WorldMap.RaisingLevelKeepsUnlocked | src/components/WorldMapPanel.tsx:42-72 | raising the level never locks an open location |
| WorldMap.Connectors | src/components/WorldMapPanel.tsx:132-149 | one connector per location but the last, drawn open iff the next location is open; none out of the last |
| WorldMap.OpenPathJoinsOpenLocations | src/components/WorldMapPanel.tsx:132-149 | an open connector joins two open locations |
| WorldMap.RewardsGrowAlongMap | src/components/WorldMapPanel.tsx:191-195 | the rewards `ExperienceReward` (threshold × 50) and `GoldReward` (threshold × 20) both grow strictly along the map |
| WorldMap.SelectLocation | src/components/WorldMapPanel.tsx:97-98 | clicking an open location selects it; a locked location's button is disabled and changes nothing |
| WorldMap.SelectionIsOpen | src/components/WorldMapPanel.tsx:76-98 | the selection state (`SelectAll`: starting from the village, one `SelectLocation` per click) always holds an open location of the map |
| Progression.StepKeepsIdentity | src/pages/Index.tsx:44 | no panel action changes id, name, class, level, experience or stats |
| Progression.RunKeepsIdentity | src/components/GameInterface.tsx:92-106 | no sequence of panel actions (`Step` dispatches the shop, inventory and skill callbacks wired here; `Run` applies them in order) changes id, name, class, level, experience or stats |
| Progression.StepKeepsConsistent | src/pages/Index.tsx:44 | every panel action keeps gold ≥ 0, level ≥ 1, health ≤ maxHealth, mana ≤ maxMana and consistent skills |
| Progression.RunKeepsConsistent | src/pages/Index.tsx:44 | every sequence of panel actions keeps the character consistent |
| Progression.BuyNeverRaisesGold | src/components/ShopPanel.tsx:43 | with non-negative prices a purchase never raises gold |
| Progression.UnlockNeverRaisesGold | src/components/SkillsPanel.tsx:44 | with non-negative costs an unlock never raises gold and keeps costs non-negative |
| Progression.UpgradeNeverRaisesGold | src/components/SkillsPanel.tsx:58-75 | with non-negative costs and levels an upgrade never raises gold and keeps them non-negative |
| Progression.StepNeverRaisesGold | src/pages/Index.tsx:44 | with non-negative prices and costs no panel action raises gold |
| Progression.RunNeverRaisesGold | src/pages/Index.tsx:44 | with non-negative prices and costs gold never rises over any sequence of actions |
| Progression.SecondSwordIsLost | src/components/InventoryPanel.tsx:18-21 | buy, equip, buy, unequip, equip of one sword: the equipped sword is also in the inventory, then two entries share its id, and finally one sword remains for two prices paid |
| Game.Session.constructor | src/pages/Index.tsx:8 | before class selection there is no character |
| Game.Session.SelectClass | src/pages/Index.tsx:10-36 | choosing a class installs the created character and establishes the session invariant |
| Game.Session.Buy | src/components/ShopPanel.tsx:41-45 | the slot receives the purchase's whole new record, or keeps the old one on rejection |
| Game.Session.Equip | src/components/InventoryPanel.tsx:15-28 | the step-by-step filter and push install exactly what `EquipItem` describes |
| Game.Session.Unequip | src/components/InventoryPanel.tsx:37-48 | the copy-and-delete installs exactly what `UnequipItem` describes |
| Game.Session.Unlock | src/components/SkillsPanel.tsx:42-46 | the slot receives the unlock's whole new record and stays consistent |
| Game.Session.Upgrade | src/components/SkillsPanel.tsx:73-77 | the slot receives the upgrade's whole new record and stays consistent |

## Left out

- Rendering, layout, styling and the rarity and icon helpers: presentation only.
- The character, game-interface and class-selection components only display state and hold tab selection.
- Percentage bars: they use floating-point division.
- Toast notifications: modelled as a `Rejection` reason.
- The random id and the random number in the display name: they are parameters (`id`, `roll`).
- Creation.CreateCharacter: `roll` may be any natural number, while the source draws it from 0..999.
- The contents of the catalog data module are not part of this model. Class data, initial skills and shop items are an opaque parameter, so nothing is claimed about particular skills or items.
- The `Quest` type is declared but unused.
- No code path exists for level-up or experience gain.
- The explore button does nothing.
- Armor equipping: no code path exists; only weapons are equipped.
- WorldMap.Locations: display names and descriptions are not modelled; ids, thresholds, icons, positions and lock flags are.
- Numbers: TypeScript `number` (a double) is modelled as an unbounded integer. This assumes the catalog's prices, costs, quantities, levels and base stats are integers. Fractional catalog values and floating-point rounding are not modelled.
- Stat values: no code checks that stats are non-negative, and the model does not claim they are.
