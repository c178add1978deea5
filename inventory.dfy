/** The inventory panel (src/components/InventoryPanel.tsx): equipping a weapon
    and taking an item off an equipment slot. */
module Inventory {
  import opened GameTypes
  import opened Outcomes
  import opened Seqs

  function IdIsNot(id: string): InventoryItem -> bool
  {
    (x: InventoryItem) => x.id != id
  }

  /** The inventory with every entry that carries `id` dropped, the rest kept
      with their multiplicities. */
  function WithoutId(inv: seq<InventoryItem>, id: string): (r: seq<InventoryItem>)
    ensures forall x :: x in r <==> x in inv && x.id != id
    ensures forall x :: multiset(r)[x] == if x.id != id then multiset(inv)[x] else 0
  {
    Filter(inv, IdIsNot(id))
  }

  /** Equipping `item`. Anything but a weapon is ignored. A weapon takes the
      weapon slot; every inventory entry with its id is removed, and the weapon
      it displaces goes to the end of the inventory as an entry of its own.
      Gold, skills, stats and level are untouched. */
  function EquipItem(c: Character, item: InventoryItem): (r: Outcome)
    ensures item.itemType != Weapon <==> r == Rejected(NotAWeapon)
    ensures r.Rejected? ==> r.reason == NotAWeapon
    ensures r.Updated? ==>
              && r.next.equipment.weapon == Some(item)
              && (forall s :: s != WeaponSlot ==> r.next.equipment.Get(s) == c.equipment.Get(s))
              && r.next == c.(equipment := r.next.equipment, inventory := r.next.inventory)
    ensures r.Updated? && c.equipment.weapon.None? ==>
              r.next.inventory == WithoutId(c.inventory, item.id)
    ensures r.Updated? && c.equipment.weapon.Some? ==>
              r.next.inventory == WithoutId(c.inventory, item.id) + [c.equipment.weapon.value]
    ensures r.Updated? ==>
              forall x :: x in r.next.inventory && x.id == item.id ==> c.equipment.weapon == Some(x)
  {
    if item.itemType != Weapon then Rejected(NotAWeapon)
    else
      var equipment := c.equipment.(weapon := Some(item));
      var inventory := WithoutId(c.inventory, item.id);
      var inventory := if c.equipment.weapon.Some? then inventory + [c.equipment.weapon.value]
                       else inventory;
      Updated(c.(equipment := equipment, inventory := inventory))
  }

  /** Taking off what `slot` holds: an empty slot is ignored; otherwise the slot
      is emptied and its item is appended to the inventory, not merged into an
      existing stack. */
  function UnequipItem(c: Character, slot: Slot): (r: Outcome)
    ensures c.equipment.Get(slot).None? <==> r == Rejected(SlotEmpty)
    ensures r.Rejected? ==> r.reason == SlotEmpty
    ensures r.Updated? ==>
              && r.next.equipment.Get(slot) == None
              && (forall s :: s != slot ==> r.next.equipment.Get(s) == c.equipment.Get(s))
              && r.next.inventory == c.inventory + [c.equipment.Get(slot).value]
              && |r.next.inventory| == |c.inventory| + 1
              && r.next == c.(equipment := r.next.equipment, inventory := r.next.inventory)
  {
    match c.equipment.Get(slot)
    case None => Rejected(SlotEmpty)
    case Some(item) =>
      Updated(c.(equipment := c.equipment.Without(slot), inventory := c.inventory + [item]))
  }

  /** An entry whose id no other entry carries occurs exactly once. */
  lemma SingleEntryCount(inv: seq<InventoryItem>, k: nat)
    requires k < |inv|
    requires forall j :: 0 <= j < |inv| && j != k ==> inv[j].id != inv[k].id
    ensures multiset(inv)[inv[k]] == 1
  {
    var w := inv[k];
    assert inv == inv[..k] + [w] + inv[k + 1..];
    assert w !in inv[..k] + inv[k + 1..] by {
      assert forall j :: 0 <= j < |inv| && j != k ==> inv[j] != w;
    }
  }

  /** Removing the only entry with some id and appending that entry again
      gives back the same multiset of entries. */
  lemma RemoveThenAppendSingle(inv: seq<InventoryItem>, k: nat)
    requires k < |inv|
    requires forall j :: 0 <= j < |inv| && j != k ==> inv[j].id != inv[k].id
    ensures multiset(WithoutId(inv, inv[k].id) + [inv[k]]) == multiset(inv)
  {
    var w := inv[k];
    var rest := WithoutId(inv, w.id);
    SingleEntryCount(inv, k);
    forall x ensures multiset(rest + [w])[x] == multiset(inv)[x] {
      if x.id == w.id && x != w {
        assert x !in inv by {
          assert forall j :: 0 <= j < |inv| ==> inv[j] != x;
        }
      }
    }
  }

  /** With no weapon equipped and weapon `w` the only inventory entry with its
      id, equipping `w` and then taking off the weapon leaves the slot empty,
      the inventory the same multiset, and everything else as it was. */
  lemma EquipThenUnequip(c: Character, k: nat)
    requires k < |c.inventory| && c.inventory[k].itemType == Weapon
    requires forall j :: 0 <= j < |c.inventory| && j != k ==> c.inventory[j].id != c.inventory[k].id
    requires c.equipment.weapon.None?
    ensures var equipped := After(c, EquipItem(c, c.inventory[k]));
            var back := After(equipped, UnequipItem(equipped, WeaponSlot));
            && back.equipment == c.equipment
            && multiset(back.inventory) == multiset(c.inventory)
            && back == c.(inventory := back.inventory)
  {
    var w := c.inventory[k];
    var equipped := After(c, EquipItem(c, w));
    assert equipped.equipment.weapon == Some(w);
    var back := After(equipped, UnequipItem(equipped, WeaponSlot));
    assert back.inventory == WithoutId(c.inventory, w.id) + [w];
    RemoveThenAppendSingle(c.inventory, k);
    assert forall s :: back.equipment.Get(s) == c.equipment.Get(s);
  }
}
