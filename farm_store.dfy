/**
 * The store panel: the catalog split into its three categories, the
 * affordability test, the purchase guard and the buy button's state.
 */
module FarmStore {
  import opened Types
  import StoreItems
  import Seqs

  function HasType(t: ItemType): StoreItem -> bool {
    (item: StoreItem) => item.itemType == t
  }

  /** `items.filter(item => item.type === t)`. */
  function OfType(items: seq<StoreItem>, t: ItemType): seq<StoreItem> {
    Seqs.Filter(items, HasType(t))
  }

  /** The three tabs of the store. */
  function Crops(): seq<StoreItem> { OfType(StoreItems.Catalog, Crop) }
  function Tools(): seq<StoreItem> { OfType(StoreItems.Catalog, Tool) }
  function Decorations(): seq<StoreItem> { OfType(StoreItems.Catalog, Decoration) }

  /** An item is listed under a category exactly when it is in the list and has that type. */
  lemma OfTypeMembership(items: seq<StoreItem>, t: ItemType, item: StoreItem)
    ensures item in OfType(items, t) <==> item in items && item.itemType == t
  {
    Seqs.FilterMembership(items, HasType(t), item);
  }

  /** The three categories partition the list: their sizes add up and every entry is in exactly one. */
  lemma {:induction false} CategoriesPartition(items: seq<StoreItem>)
    ensures |OfType(items, Crop)| + |OfType(items, Tool)| + |OfType(items, Decoration)| == |items|
    ensures multiset(OfType(items, Crop)) + multiset(OfType(items, Tool)) + multiset(OfType(items, Decoration))
         == multiset(items)
  {
    if |items| > 0 {
      var rest := items[1..];
      CategoriesPartition(rest);
      assert items == [items[0]] + rest;
      var t := items[0].itemType;
      forall u ensures OfType(items, u) == (if u == t then [items[0]] else []) + OfType(rest, u) {
      }
    }
  }

  /** The crop tab lists carrot, tomato and wheat; the tool and decoration tabs likewise list their three, in catalog order. */
  lemma CatalogCategories()
    ensures Crops() == [StoreItems.Carrot, StoreItems.Tomato, StoreItems.Wheat]
    ensures Tools() == [StoreItems.BasicHoe, StoreItems.WaterCan, StoreItems.HarvestBasket]
    ensures Decorations() == [StoreItems.Scarecrow, StoreItems.FlowerBed, StoreItems.Fence]
  {
    CropTab();
    ToolTab();
    DecorationTab();
  }

  lemma CropTab()
    ensures Crops() == [StoreItems.Carrot, StoreItems.Tomato, StoreItems.Wheat]
  {
    var c := StoreItems.Catalog;
    CatalogBlocks(Crop);
    SegmentOfOneType(c[..3], Crop);
    SegmentOfOneType(c[3..6], Tool);
    SegmentOfOneType(c[6..], Decoration);
    assert c[..3] == [StoreItems.Carrot, StoreItems.Tomato, StoreItems.Wheat];
  }

  lemma ToolTab()
    ensures Tools() == [StoreItems.BasicHoe, StoreItems.WaterCan, StoreItems.HarvestBasket]
  {
    var c := StoreItems.Catalog;
    CatalogBlocks(Tool);
    SegmentOfOneType(c[..3], Crop);
    SegmentOfOneType(c[3..6], Tool);
    SegmentOfOneType(c[6..], Decoration);
    assert c[3..6] == [StoreItems.BasicHoe, StoreItems.WaterCan, StoreItems.HarvestBasket];
  }

  lemma DecorationTab()
    ensures Decorations() == [StoreItems.Scarecrow, StoreItems.FlowerBed, StoreItems.Fence]
  {
    var c := StoreItems.Catalog;
    CatalogBlocks(Decoration);
    SegmentOfOneType(c[..3], Crop);
    SegmentOfOneType(c[3..6], Tool);
    SegmentOfOneType(c[6..], Decoration);
    assert c[6..] == [StoreItems.Scarecrow, StoreItems.FlowerBed, StoreItems.Fence];
  }

  /** Filtering the catalog block by block: crops, then tools, then decorations. */
  lemma CatalogBlocks(t: ItemType)
    ensures var c := StoreItems.Catalog;
      OfType(c, t) == OfType(c[..3], t) + OfType(c[3..6], t) + OfType(c[6..], t)
  {
    var c := StoreItems.Catalog;
    assert c == c[..3] + c[3..6] + c[6..];
    Seqs.FilterConcat(c[..3] + c[3..6], c[6..], HasType(t));
    Seqs.FilterConcat(c[..3], c[3..6], HasType(t));
  }

  /** Filtering a block of three entries of type `t`: all three by `t`, none by either other type. */
  lemma SegmentOfOneType(block: seq<StoreItem>, t: ItemType)
    requires |block| == 3 && block[0].itemType == block[1].itemType == block[2].itemType == t
    ensures forall u :: OfType(block, u) == if u == t then block else []
  {
    forall u ensures OfType(block, u) == if u == t then block else [] {
      var p := HasType(u);
      var last := block[1..][1..];
      assert last[1..] == [] && last[0] == block[2];
      assert Seqs.Filter(last, p) == if u == t then [block[2]] else [];
      assert Seqs.Filter(block[1..], p) == if u == t then [block[1], block[2]] else [];
      assert block == [block[0], block[1], block[2]];
    }
  }

  /** `canAfford(price)`. */
  predicate CanAfford(points: int, price: int) {
    points >= price
  }

  /** The store's `handlePurchase`: does the click reach `onPurchase`. */
  function ForwardsPurchase(points: int, item: StoreItem): (forwarded: bool)
    ensures forwarded <==> points >= item.price
  {
    CanAfford(points, item.price)
  }

  /** The buy button is disabled (and labelled "Too Expensive"). */
  function BuyDisabled(points: int, item: StoreItem): (disabled: bool)
    ensures disabled <==> points < item.price
  {
    !CanAfford(points, item.price)
  }

  /** A click reaches `onPurchase` exactly when the button is enabled, and then the price is covered. */
  lemma EnabledButtonForwards(points: int, item: StoreItem)
    ensures ForwardsPurchase(points, item) <==> !BuyDisabled(points, item)
    ensures ForwardsPurchase(points, item) ==> points - item.price >= 0
  {
  }
}
