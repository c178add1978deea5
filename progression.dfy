/** Sequences of player actions on one character, and the invariants every
    action keeps: the panels of the game interface are the only writers of the
    character once it exists. */
module Progression {
  import opened GameTypes
  import opened Outcomes
  import opened Seqs
  import opened Shop
  import opened Inventory
  import opened Skills

  /** One click on a panel button. */
  datatype Action =
    | Buy(itemId: string)
    | Equip(item: InventoryItem)
    | Unequip(slot: Slot)
    | Unlock(skillId: string)
    | Upgrade(skillId: string)

  function Step(shopItems: seq<InventoryItem>, c: Character, a: Action): Outcome
  {
    match a
    case Buy(itemId) => BuyItem(c, shopItems, itemId)
    case Equip(item) => EquipItem(c, item)
    case Unequip(slot) => UnequipItem(c, slot)
    case Unlock(skillId) => UnlockSkill(c, skillId)
    case Upgrade(skillId) => UpgradeSkill(c, skillId)
  }

  /** The character after the actions, in order; a rejected action leaves the
      record as it was. */
  function Run(shopItems: seq<InventoryItem>, c: Character, actions: seq<Action>): Character
    decreases |actions|
  {
    if actions == [] then c
    else Run(shopItems, After(c, Step(shopItems, c, actions[0])), actions[1..])
  }

  /** No action touches who the character is, its level, experience or stats. */
  predicate SameIdentity(c: Character, d: Character)
  {
    && d.id == c.id && d.name == c.name && d.characterClass == c.characterClass
    && d.level == c.level && d.experience == c.experience
    && d.experienceToNextLevel == c.experienceToNextLevel && d.stats == c.stats
  }

  lemma StepKeepsIdentity(shopItems: seq<InventoryItem>, c: Character, a: Action)
    ensures SameIdentity(c, After(c, Step(shopItems, c, a)))
  {
  }

  lemma {:induction false} RunKeepsIdentity(shopItems: seq<InventoryItem>, c: Character, actions: seq<Action>)
    ensures SameIdentity(c, Run(shopItems, c, actions))
    decreases |actions|
  {
    if actions != [] {
      var next := After(c, Step(shopItems, c, actions[0]));
      StepKeepsIdentity(shopItems, c, actions[0]);
      RunKeepsIdentity(shopItems, next, actions[1..]);
    }
  }

  /** Every action keeps the character consistent: gold never goes negative,
      no skill passes its maximum level, and skill ids stay distinct. */
  lemma StepKeepsConsistent(shopItems: seq<InventoryItem>, c: Character, a: Action)
    requires Consistent(c)
    ensures Consistent(After(c, Step(shopItems, c, a)))
  {
    match a
    case Unlock(skillId) => UnlockKeepsSkillsConsistent(c, skillId);
    case Upgrade(skillId) => UpgradeKeepsSkillsConsistent(c, skillId);
    case _ =>
  }

  lemma {:induction false} RunKeepsConsistent(shopItems: seq<InventoryItem>, c: Character, actions: seq<Action>)
    requires Consistent(c)
    ensures Consistent(Run(shopItems, c, actions))
    decreases |actions|
  {
    if actions != [] {
      StepKeepsConsistent(shopItems, c, actions[0]);
      RunKeepsConsistent(shopItems, After(c, Step(shopItems, c, actions[0])), actions[1..]);
    }
  }

  /** Catalog prices that are not negative. */
  predicate PricesNonNegative(shopItems: seq<InventoryItem>)
  {
    forall k :: 0 <= k < |shopItems| ==> shopItems[k].price >= 0
  }

  /** Skill costs and levels that are not negative. */
  predicate CostsNonNegative(skills: seq<Skill>)
  {
    forall k :: 0 <= k < |skills| ==> skills[k].cost >= 0 && skills[k].level >= 0
  }

  lemma BuyNeverRaisesGold(shopItems: seq<InventoryItem>, c: Character, itemId: string)
    requires PricesNonNegative(shopItems)
    ensures After(c, BuyItem(c, shopItems, itemId)).gold <= c.gold
  {
    var r := BuyItem(c, shopItems, itemId);
    if r.Updated? {
      var item := Find(shopItems, IdIs(itemId)).value;
      assert item.price >= 0;
    }
  }

  lemma UnlockNeverRaisesGold(c: Character, skillId: string)
    requires CostsNonNegative(c.skills)
    ensures var d := After(c, UnlockSkill(c, skillId));
            d.gold <= c.gold && CostsNonNegative(d.skills)
  {
    var r := UnlockSkill(c, skillId);
    if r.Updated? {
      var s := Find(c.skills, SkillIdIs(skillId)).value;
      assert s.cost >= 0;
    }
  }

  lemma UpgradeNeverRaisesGold(c: Character, skillId: string)
    requires CostsNonNegative(c.skills)
    ensures var d := After(c, UpgradeSkill(c, skillId));
            d.gold <= c.gold && CostsNonNegative(d.skills)
  {
    var r := UpgradeSkill(c, skillId);
    if r.Updated? {
      var s := Find(c.skills, SkillIdIs(skillId)).value;
      assert UpgradeCost(s) >= 0;
      forall k | 0 <= k < |c.skills| ensures r.next.skills[k].cost >= 0 && r.next.skills[k].level >= 0 {
      }
    }
  }

  /** With non-negative prices and costs an action never raises the gold, and
      the costs stay non-negative. */
  lemma StepNeverRaisesGold(shopItems: seq<InventoryItem>, c: Character, a: Action)
    requires PricesNonNegative(shopItems) && CostsNonNegative(c.skills)
    ensures var d := After(c, Step(shopItems, c, a));
            d.gold <= c.gold && CostsNonNegative(d.skills)
  {
    match a
    case Buy(itemId) => BuyNeverRaisesGold(shopItems, c, itemId);
    case Unlock(skillId) => UnlockNeverRaisesGold(c, skillId);
    case Upgrade(skillId) => UpgradeNeverRaisesGold(c, skillId);
    case _ =>
  }

  lemma {:induction false} RunNeverRaisesGold(shopItems: seq<InventoryItem>, c: Character, actions: seq<Action>)
    requires PricesNonNegative(shopItems) && CostsNonNegative(c.skills)
    ensures Run(shopItems, c, actions).gold <= c.gold
    decreases |actions|
  {
    if actions != [] {
      StepNeverRaisesGold(shopItems, c, actions[0]);
      RunNeverRaisesGold(shopItems, After(c, Step(shopItems, c, actions[0])), actions[1..]);
    }
  }

  /** Nothing keeps an equipped weapon out of the inventory, and an equip
      drops every entry with the weapon's id: buying a sword, equipping it,
      buying a second one, taking the first off and equipping again leaves
      one sword where two were paid for. */
  lemma SecondSwordIsLost(shopItems: seq<InventoryItem>, c: Character, sword: InventoryItem)
    requires Find(shopItems, IdIs(sword.id)) == Some(sword) && sword.itemType == Weapon
    requires c.inventory == [] && c.equipment.weapon == None
    requires sword.price >= 0 && c.gold >= 2 * sword.price
    ensures var c1 := After(c, BuyItem(c, shopItems, sword.id));
            var c2 := After(c1, EquipItem(c1, sword));
            var c3 := After(c2, BuyItem(c2, shopItems, sword.id));
            var c4 := After(c3, UnequipItem(c3, WeaponSlot));
            var c5 := After(c4, EquipItem(c4, sword));
            && c3.equipment.weapon == Some(sword) && c3.inventory == [sword]
            && c4.inventory == [sword, sword]
            && c5.equipment.weapon == Some(sword) && c5.inventory == []
            && c5.gold == c.gold - 2 * sword.price
  {
    var c1 := After(c, BuyItem(c, shopItems, sword.id));
    assert c1.inventory == [sword];
    var c2 := After(c1, EquipItem(c1, sword));
    assert c2.inventory == [] by {
      assert forall x :: x !in c2.inventory;
    }
    var c3 := After(c2, BuyItem(c2, shopItems, sword.id));
    assert c3.inventory == [sword];
    var c4 := After(c3, UnequipItem(c3, WeaponSlot));
    var c5 := After(c4, EquipItem(c4, sword));
    assert c5.inventory == [] by {
      assert forall x :: x !in c5.inventory;
    }
  }
}
