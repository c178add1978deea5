/** The page state (src/pages/Index.tsx): one mutable character slot, empty
    until a class is chosen, which every panel action then overwrites with the
    whole new record. */
module Game {
  import opened GameTypes
  import opened GameData
  import opened Outcomes
  import opened Creation
  import opened Shop
  import opened Inventory
  import opened Skills

  /** Catalog data whose starting skill lists are all consistent. */
  predicate CatalogConsistent(catalog: Catalog)
  {
    forall cls :: SkillsConsistent(catalog.initialSkills(cls))
  }

  class Session {
    const catalog: Catalog
    var character: Option<Character>

    /** Once a character exists its gold is never negative, and with a
        consistent catalog the whole record stays consistent. */
    ghost predicate Valid()
      reads this
    {
      character.Some? ==>
        && character.value.gold >= 0
        && (CatalogConsistent(catalog) ==> Consistent(character.value))
    }

    /** The page starts on class selection, with no character. */
    constructor(catalog: Catalog)
      ensures this.catalog == catalog && character == None
      ensures Valid()
    {
      this.catalog := catalog;
      character := None;
    }

    /** Choosing a class on the selection screen installs a new character. */
    method SelectClass(selected: CharacterClass, id: string, roll: nat)
      requires character.None?
      modifies this
      ensures character == Some(CreateCharacter(catalog, selected, id, roll))
      ensures Valid()
    {
      var created := CreateCharacter(catalog, selected, id, roll);
      if CatalogConsistent(catalog) {
        CreatedCharacterIsConsistent(catalog, selected, id, roll);
      }
      character := Some(created);
    }

    method Buy(itemId: string) returns (outcome: Outcome)
      requires character.Some? && Valid()
      modifies this
      ensures outcome == BuyItem(old(character).value, catalog.shopItems, itemId)
      ensures character == Some(After(old(character).value, outcome))
      ensures Valid()
    {
      var c := character.value;
      outcome := BuyItem(c, catalog.shopItems, itemId);
      if outcome.Updated? {
        character := Some(outcome.next);
      }
    }

    /** Equipping builds the new inventory step by step: the entries with the
        item's id are filtered out, then the displaced weapon is pushed. */
    method Equip(item: InventoryItem) returns (outcome: Outcome)
      requires character.Some? && Valid()
      modifies this
      ensures outcome == EquipItem(old(character).value, item)
      ensures character == Some(After(old(character).value, outcome))
      ensures Valid()
    {
      var c := character.value;
      if item.itemType != Weapon {
        return Rejected(NotAWeapon);
      }
      var equipment := c.equipment.(weapon := Some(item));
      var inventory := WithoutId(c.inventory, item.id);
      if c.equipment.weapon.Some? {
        inventory := inventory + [c.equipment.weapon.value];
      }
      var next := c.(equipment := equipment, inventory := inventory);
      character := Some(next);
      outcome := Updated(next);
    }

    /** Unequipping copies the equipment and deletes the slot from the copy. */
    method Unequip(slot: Slot) returns (outcome: Outcome)
      requires character.Some? && Valid()
      modifies this
      ensures outcome == UnequipItem(old(character).value, slot)
      ensures character == Some(After(old(character).value, outcome))
      ensures Valid()
    {
      var c := character.value;
      if c.equipment.Get(slot).None? {
        return Rejected(SlotEmpty);
      }
      var item := c.equipment.Get(slot).value;
      var equipment := c.equipment;
      equipment := equipment.Without(slot);
      var next := c.(equipment := equipment, inventory := c.inventory + [item]);
      character := Some(next);
      outcome := Updated(next);
    }

    method Unlock(skillId: string) returns (outcome: Outcome)
      requires character.Some? && Valid()
      modifies this
      ensures outcome == UnlockSkill(old(character).value, skillId)
      ensures character == Some(After(old(character).value, outcome))
      ensures Valid()
    {
      var c := character.value;
      outcome := UnlockSkill(c, skillId);
      if CatalogConsistent(catalog) {
        UnlockKeepsSkillsConsistent(c, skillId);
      }
      if outcome.Updated? {
        character := Some(outcome.next);
      }
    }

    method Upgrade(skillId: string) returns (outcome: Outcome)
      requires character.Some? && Valid()
      modifies this
      ensures outcome == UpgradeSkill(old(character).value, skillId)
      ensures character == Some(After(old(character).value, outcome))
      ensures Valid()
    {
      var c := character.value;
      outcome := UpgradeSkill(c, skillId);
      if CatalogConsistent(catalog) {
        UpgradeKeepsSkillsConsistent(c, skillId);
      }
      if outcome.Updated? {
        character := Some(outcome.next);
      }
    }
  }
}
