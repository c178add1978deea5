/** The data model of the character sheet: a character, its skills, the items
    it carries and the five equipment slots (src/types/game.ts). */
module GameTypes {

  datatype Option<+T> = None | Some(value: T)

  /** The three playable classes; a closed enumeration. */
  datatype CharacterClass = Warrior | Mage | Archer

  /** The eight numbers every character carries. */
  datatype Stats = Stats(
    health: int, maxHealth: int,
    mana: int, maxMana: int,
    strength: int, intelligence: int, agility: int, defense: int)

  /** The names of the eight stats, one per field of Stats; an item's bonus is
      a partial map over them. */
  datatype StatName =
    Health | MaxHealth | Mana | MaxMana | Strength | Intelligence | Agility | Defense

  /** A skill. `unlocked` is its own field, not derived from `level`. */
  datatype Skill = Skill(
    id: string, name: string, description: string,
    level: int, maxLevel: int, icon: string,
    unlocked: bool, requiredLevel: int, cost: int)

  datatype ItemType = Weapon | Armor | Potion | Material

  datatype Rarity = Common | Rare | Epic | Legendary

  /** An item; `stats` is the optional partial stat bonus. */
  datatype InventoryItem = InventoryItem(
    id: string, name: string, itemType: ItemType, rarity: Rarity,
    stats: Option<map<StatName, int>>, icon: string, quantity: int, price: int)

  datatype Slot = WeaponSlot | HelmetSlot | ChestSlot | LegsSlot | BootsSlot

  /** Five independently optional slots. */
  datatype Equipment = Equipment(
    weapon: Option<InventoryItem>, helmet: Option<InventoryItem>,
    chest: Option<InventoryItem>, legs: Option<InventoryItem>,
    boots: Option<InventoryItem>)
  {
    function Get(slot: Slot): Option<InventoryItem>
    {
      match slot
      case WeaponSlot => weapon
      case HelmetSlot => helmet
      case ChestSlot => chest
      case LegsSlot => legs
      case BootsSlot => boots
    }

    /** The equipment with `slot` emptied (the copy-then-delete of an unequip). */
    function Without(slot: Slot): (e: Equipment)
      ensures e.Get(slot) == None
      ensures forall s :: s != slot ==> e.Get(s) == Get(s)
    {
      match slot
      case WeaponSlot => this.(weapon := None)
      case HelmetSlot => this.(helmet := None)
      case ChestSlot => this.(chest := None)
      case LegsSlot => this.(legs := None)
      case BootsSlot => this.(boots := None)
    }
  }

  /** The `{}` equipment of a new character. */
  const NoEquipment := Equipment(None, None, None, None, None)

  /** The slots in the order the inventory panel lists them. */
  function AllSlots(): (r: seq<Slot>)
    ensures |r| == 5
    ensures forall s: Slot :: SlotIndex(s) < |r| && r[SlotIndex(s)] == s
    ensures forall i, j :: 0 <= i < j < |r| ==> r[i] != r[j]
  {
    [WeaponSlot, HelmetSlot, ChestSlot, LegsSlot, BootsSlot]
  }

  /** The position of a slot in the panel's list. */
  function SlotIndex(s: Slot): nat
  {
    match s
    case WeaponSlot => 0
    case HelmetSlot => 1
    case ChestSlot => 2
    case LegsSlot => 3
    case BootsSlot => 4
  }

  datatype Character = Character(
    id: string, name: string, characterClass: CharacterClass,
    level: int, experience: int, experienceToNextLevel: int,
    stats: Stats, skills: seq<Skill>, inventory: seq<InventoryItem>,
    equipment: Equipment, gold: int)

  /** A skill whose level lies between 0 and a positive maximum. */
  predicate SkillInRange(s: Skill)
  {
    1 <= s.maxLevel && 0 <= s.level <= s.maxLevel
  }

  predicate DistinctSkillIds(skills: seq<Skill>)
  {
    forall i, j :: 0 <= i < j < |skills| ==> skills[i].id != skills[j].id
  }

  /** Every skill in range, no two sharing an id. */
  predicate SkillsConsistent(skills: seq<Skill>)
  {
    (forall i :: 0 <= i < |skills| ==> SkillInRange(skills[i])) && DistinctSkillIds(skills)
  }

  /** The invariants the transitions keep: non-negative gold, a positive
      level, current health and mana at most their maxima, consistent skills. */
  predicate Consistent(c: Character)
  {
    && c.gold >= 0
    && c.level >= 1
    && c.stats.health <= c.stats.maxHealth
    && c.stats.mana <= c.stats.maxMana
    && SkillsConsistent(c.skills)
  }
}
