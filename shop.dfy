/** The shop panel (src/components/ShopPanel.tsx): buying an item from the
    catalog listing, and the per-type listing the tabs show. */
module Shop {
  import opened GameTypes
  import opened Outcomes
  import opened Seqs

  function IdIs(id: string): InventoryItem -> bool
  {
    (x: InventoryItem) => x.id == id
  }

  function TypeIs(t: ItemType): InventoryItem -> bool
  {
    (x: InventoryItem) => x.itemType == t
  }

  function AddQuantity(amount: int): InventoryItem -> InventoryItem
  {
    (x: InventoryItem) => x.(quantity := x.quantity + amount)
  }

  /** Some entry of `inv` carries the id. */
  predicate Holds(inv: seq<InventoryItem>, id: string)
  {
    exists k :: 0 <= k < |inv| && inv[k].id == id
  }

  predicate DistinctItemIds(inv: seq<InventoryItem>)
  {
    forall i, j :: 0 <= i < j < |inv| ==> inv[i].id != inv[j].id
  }

  /** The inventory after receiving `item`: every entry with its id gains the
      item's quantity, the length unchanged; an item whose id is new is
      appended as a copy. */
  function AddToInventory(inv: seq<InventoryItem>, item: InventoryItem): (r: seq<InventoryItem>)
    ensures Holds(inv, item.id) ==>
              && |r| == |inv|
              && forall k :: 0 <= k < |inv| ==>
                   r[k] == if inv[k].id == item.id
                           then inv[k].(quantity := inv[k].quantity + item.quantity)
                           else inv[k]
    ensures !Holds(inv, item.id) ==> r == inv + [item]
  {
    if Find(inv, IdIs(item.id)).Some?
    then UpdateWhere(inv, IdIs(item.id), AddQuantity(item.quantity))
    else inv + [item]
  }

  /** Receiving twice an item the inventory lacks leaves a single entry with
      twice the item's quantity. */
  lemma AddTwiceStacks(inv: seq<InventoryItem>, item: InventoryItem)
    requires !Holds(inv, item.id)
    ensures AddToInventory(AddToInventory(inv, item), item)
            == inv + [item.(quantity := item.quantity + item.quantity)]
  {
    var once := AddToInventory(inv, item);
    assert once[|inv|].id == item.id;
    var twice := AddToInventory(once, item);
    forall k | 0 <= k < |once|
      ensures twice[k] == (inv + [item.(quantity := item.quantity + item.quantity)])[k]
    {
      if k < |inv| {
        assert once[k] == inv[k];
      }
    }
  }

  /** Buying the catalog item `itemId`: the first listing with that id is the
      one sold. An unknown id or too little gold rejects and changes nothing;
      otherwise the price is paid once, whatever the quantity, the item goes
      into the inventory, and nothing else changes. */
  function BuyItem(c: Character, shopItems: seq<InventoryItem>, itemId: string): (r: Outcome)
    ensures r == Rejected(ItemNotFound) <==> forall k :: 0 <= k < |shopItems| ==> shopItems[k].id != itemId
    ensures r == Rejected(InsufficientFunds) <==>
              Find(shopItems, IdIs(itemId)).Some? && c.gold < Find(shopItems, IdIs(itemId)).value.price
    ensures r.Rejected? ==> r.reason == ItemNotFound || r.reason == InsufficientFunds
    ensures r.Updated? ==>
              && Find(shopItems, IdIs(itemId)).Some?
              && var item := Find(shopItems, IdIs(itemId)).value;
              && item in shopItems && item.id == itemId
              && r.next == c.(gold := c.gold - item.price,
                              inventory := AddToInventory(c.inventory, item))
              && r.next.gold >= 0
  {
    match Find(shopItems, IdIs(itemId))
    case None => Rejected(ItemNotFound)
    case Some(item) =>
      if c.gold < item.price then Rejected(InsufficientFunds)
      else Updated(c.(gold := c.gold - item.price, inventory := AddToInventory(c.inventory, item)))
  }

  /** Buying twice an item the inventory lacks leaves one entry holding twice
      the catalog quantity, costs twice the price, and changes nothing else. */
  lemma BuyTwiceStacks(c: Character, shopItems: seq<InventoryItem>, item: InventoryItem)
    requires Find(shopItems, IdIs(item.id)) == Some(item)
    requires !Holds(c.inventory, item.id)
    requires c.gold >= item.price && c.gold - item.price >= item.price
    ensures var once := After(c, BuyItem(c, shopItems, item.id));
            var twice := After(once, BuyItem(once, shopItems, item.id));
            twice == c.(gold := c.gold - 2 * item.price,
                        inventory := c.inventory + [item.(quantity := item.quantity + item.quantity)])
  {
    var itemId := item.id;
    var r1 := BuyItem(c, shopItems, itemId);
    assert r1 == Updated(c.(gold := c.gold - item.price, inventory := c.inventory + [item]));
    var once := r1.next;
    var r2 := BuyItem(once, shopItems, itemId);
    assert r2.next == once.(gold := once.gold - item.price, inventory := r2.next.inventory);
    assert r2.next.inventory == AddToInventory(once.inventory, item);
    AddTwiceStacks(c.inventory, item);
    assert r2.next == c.(gold := c.gold - 2 * item.price,
                         inventory := c.inventory + [item.(quantity := item.quantity + item.quantity)]);
  }

  /** A purchase never gives two inventory entries the same id. */
  lemma BuyKeepsItemIdsDistinct(c: Character, shopItems: seq<InventoryItem>, itemId: string)
    requires DistinctItemIds(c.inventory)
    ensures DistinctItemIds(After(c, BuyItem(c, shopItems, itemId)).inventory)
  {
    var r := BuyItem(c, shopItems, itemId);
    if r.Updated? && !Holds(c.inventory, itemId) {
      var inv := r.next.inventory;
      forall i, j | 0 <= i < j < |inv| ensures inv[i].id != inv[j].id {
        if j == |c.inventory| {
          assert inv[j].id == itemId;
          assert inv[i] == c.inventory[i];
        }
      }
    }
  }

  /** What a shop tab lists: the whole catalog, or the items of one type. */
  function FilterItems(shopItems: seq<InventoryItem>, t: Option<ItemType>): (r: seq<InventoryItem>)
    ensures t.None? ==> r == shopItems
    ensures t.Some? ==> forall x :: x in r <==> x in shopItems && x.itemType == t.value
    ensures t.Some? ==> forall x :: multiset(r)[x] ==
                                      if x.itemType == t.value then multiset(shopItems)[x] else 0
  {
    if t.None? then shopItems else Filter(shopItems, TypeIs(t.value))
  }

  /** Filtering keeps catalog order: the listing of a concatenation is the
      concatenation of the listings. */
  lemma FilterItemsKeepsOrder(a: seq<InventoryItem>, b: seq<InventoryItem>, t: Option<ItemType>)
    ensures FilterItems(a + b, t) == FilterItems(a, t) + FilterItems(b, t)
  {
    if t.Some? {
      FilterConcat(a, b, TypeIs(t.value));
    }
  }
}
