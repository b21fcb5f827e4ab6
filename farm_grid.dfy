/**
 * The 6x6 farm grid: how the rendered cells map to coordinates, the set of
 * occupied cells keyed by `x-y` strings, what a click on a cell does, and
 * what a cell shows and how it is styled.
 */
module FarmGrid {
  import opened Wrappers
  import opened Types
  import Seqs
  import JsString
  import StoreItems

  const GRID_SIZE := 6

  predicate InGrid(x: int, y: int) {
    0 <= x < GRID_SIZE && 0 <= y < GRID_SIZE
  }

  /** The cell rendered at `index` of the 36 grid cells: column `index % 6`, row `floor(index / 6)`. */
  function CellAt(index: int): (cell: (int, int))
    requires 0 <= index < GRID_SIZE * GRID_SIZE
    ensures InGrid(cell.0, cell.1)
  {
    (index % GRID_SIZE, index / GRID_SIZE)
  }

  /** The position of a cell in rendering order, row by row. */
  function CellIndex(x: int, y: int): (index: int)
    requires InGrid(x, y)
    ensures 0 <= index < GRID_SIZE * GRID_SIZE
  {
    y * GRID_SIZE + x
  }

  /** The index-to-cell mapping is a bijection between `0..35` and the 6x6 cells. */
  lemma CellAtIsBijective()
    ensures forall i :: 0 <= i < GRID_SIZE * GRID_SIZE ==> CellIndex(CellAt(i).0, CellAt(i).1) == i
    ensures forall x, y :: InGrid(x, y) ==> CellAt(CellIndex(x, y)) == (x, y)
  {
    forall x, y | InGrid(x, y) ensures CellAt(CellIndex(x, y)) == (x, y) {
      var i := y * GRID_SIZE + x;
      assert i / GRID_SIZE == y && i % GRID_SIZE == x;
    }
  }

  /** The cells in rendering order. */
  function Cells(): seq<(int, int)> {
    seq(GRID_SIZE * GRID_SIZE, i requires 0 <= i < GRID_SIZE * GRID_SIZE => CellAt(i))
  }

  /** Every cell of the grid is rendered exactly once. */
  lemma CellsCoverGridOnce()
    ensures |Cells()| == GRID_SIZE * GRID_SIZE
    ensures forall i, j :: 0 <= i < j < |Cells()| ==> Cells()[i] != Cells()[j]
    ensures forall x, y :: InGrid(x, y) ==> (x, y) in Cells()
  {
    CellAtIsBijective();
    forall x, y | InGrid(x, y) ensures (x, y) in Cells() {
      assert Cells()[CellIndex(x, y)] == (x, y);
    }
  }

  // ----- occupancy -----

  /** The `x-y` key of a cell. */
  function Key(x: int, y: int): string {
    JsString.IntToString(x) + "-" + JsString.IntToString(y)
  }

  /** In a key, the dash after the first coordinate is the first dash past position 0. */
  lemma KeyDash(x: int, y: int)
    ensures var n := |JsString.IntToString(x)|;
      n >= 1 && Key(x, y)[n] == '-' && Key(x, y)[..n] == JsString.IntToString(x)
      && Key(x, y)[n + 1..] == JsString.IntToString(y)
      && forall k :: 1 <= k < n ==> Key(x, y)[k] != '-'
  {
  }

  /** Different cells have different keys, for all integer coordinates. */
  lemma KeyInjective(a: int, b: int, c: int, d: int)
    requires Key(a, b) == Key(c, d)
    ensures a == c && b == d
  {
    KeyDash(a, b);
    KeyDash(c, d);
    var m, n := |JsString.IntToString(a)|, |JsString.IntToString(c)|;
    assert m == n;
    JsString.IntToStringInjective(a, c);
    JsString.IntToStringInjective(b, d);
  }

  /** `occupiedSpaces`: the keys of every placed item's cell, harvested ones included. */
  function OccupiedSpaces(items: seq<FarmItem>): set<string> {
    set k | 0 <= k < |items| :: Key(items[k].x, items[k].y)
  }

  predicate IsOccupied(items: seq<FarmItem>, x: int, y: int) {
    Key(x, y) in OccupiedSpaces(items)
  }

  predicate HasItemAt(items: seq<FarmItem>, x: int, y: int) {
    exists k :: 0 <= k < |items| && items[k].x == x && items[k].y == y
  }

  /** A cell is occupied exactly when some item, of any stage, sits on it. */
  lemma OccupiedIff(items: seq<FarmItem>, x: int, y: int)
    ensures IsOccupied(items, x, y) <==> HasItemAt(items, x, y)
  {
    if IsOccupied(items, x, y) {
      var k :| 0 <= k < |items| && Key(items[k].x, items[k].y) == Key(x, y);
      KeyInjective(items[k].x, items[k].y, x, y);
    }
  }

  function At(x: int, y: int): FarmItem -> bool {
    (item: FarmItem) => item.x == x && item.y == y
  }

  /** `farmItems.find(item => item.x === x && item.y === y)`. */
  function ItemAt(items: seq<FarmItem>, x: int, y: int): (r: Option<FarmItem>)
    ensures r.Some? ==> r.value in items && r.value.x == x && r.value.y == y
    ensures r.Some? ==> exists i :: (0 <= i < |items| && items[i] == r.value
      && forall j :: 0 <= j < i ==> !(items[j].x == x && items[j].y == y))
    ensures r.None? <==> !HasItemAt(items, x, y)
  {
    Seqs.Find(items, At(x, y))
  }

  // ----- clicks -----

  datatype ClickAction = HarvestCrop(itemId: string) | PlaceItem | NoAction

  /** `handleCellClick`: harvest the first item on the cell if it is ready, else place the selection on a free cell. */
  function CellClick(items: seq<FarmItem>, hasSelection: bool, x: int, y: int): ClickAction {
    var existing := ItemAt(items, x, y);
    if existing.Some? && existing.value.stage == Ready then HarvestCrop(existing.value.id)
    else if !IsOccupied(items, x, y) && hasSelection then PlaceItem
    else NoAction
  }

  /** A click harvests exactly when the first item on the cell is ready, and then it harvests that item, never placing. */
  lemma ClickHarvestsFirstReadyItem(items: seq<FarmItem>, hasSelection: bool, x: int, y: int)
    ensures CellClick(items, hasSelection, x, y).HarvestCrop?
      <==> ItemAt(items, x, y).Some? && ItemAt(items, x, y).value.stage == Ready
    ensures CellClick(items, hasSelection, x, y).HarvestCrop? ==>
      CellClick(items, hasSelection, x, y).itemId == ItemAt(items, x, y).value.id
  {
  }

  /** A click places exactly when something is selected and no item at all, harvested or not, is on the cell. */
  lemma ClickPlacesOnlyOnFreeCell(items: seq<FarmItem>, hasSelection: bool, x: int, y: int)
    ensures CellClick(items, hasSelection, x, y) == PlaceItem <==> hasSelection && !HasItemAt(items, x, y)
  {
    OccupiedIff(items, x, y);
  }

  /** No item is in stage `ready`. */
  predicate NoneReady(items: seq<FarmItem>) {
    forall k :: 0 <= k < |items| ==> items[k].stage != Ready
  }

  /** While no item is ready, no click can harvest. */
  lemma NothingReadyNothingHarvested(items: seq<FarmItem>, hasSelection: bool, x: int, y: int)
    requires NoneReady(items)
    ensures !CellClick(items, hasSelection, x, y).HarvestCrop?
  {
  }

  /** No two items stand on the same cell. */
  predicate CellsDistinct(items: seq<FarmItem>) {
    forall i, j :: 0 <= i < j < |items| ==> items[i].x != items[j].x || items[i].y != items[j].y
  }

  /** An item appended where a click decided to place keeps every cell holding at most one item. */
  lemma ClickPlacementKeepsCellsDistinct(items: seq<FarmItem>, x: int, y: int, item: FarmItem)
    requires CellsDistinct(items)
    requires CellClick(items, true, x, y) == PlaceItem
    requires item.x == x && item.y == y
    ensures CellsDistinct(items + [item])
  {
    ClickPlacesOnlyOnFreeCell(items, true, x, y);
  }

  // ----- what a cell shows -----

  datatype CellContent =
    | Blank                            // nothing rendered
    | HarvestableImage(glyph: string)  // the crop's image, pulsing, "Click to harvest!"
    | Seedling                         // the seedling glyph
    | Image(glyph: string)             // the catalog image

  /** `getCellContent`. */
  function CellContentAt(items: seq<FarmItem>, x: int, y: int): CellContent {
    match ItemAt(items, x, y)
    case None => Blank
    case Some(item) =>
      match StoreItems.FindStoreItem(item.storeItemId)
      case None => Blank
      case Some(storeItem) =>
        if item.storeItemId in StoreItems.CropTable && item.stage == Ready then HarvestableImage(storeItem.image)
        else if item.storeItemId in StoreItems.CropTable && item.stage == Growing then Seedling
        else Image(storeItem.image)
  }

  /**
   * A cell is blank exactly when it is empty or its item's catalog entry is
   * unknown; a crop shows its image when ready and the seedling while
   * growing; anything else shows its catalog image.
   */
  lemma CellContentCases(items: seq<FarmItem>, x: int, y: int)
    ensures CellContentAt(items, x, y).Blank? <==>
      !HasItemAt(items, x, y) || StoreItems.FindStoreItem(ItemAt(items, x, y).value.storeItemId).None?
    ensures CellContentAt(items, x, y).HarvestableImage? ==>
      ItemAt(items, x, y).value.stage == Ready && ItemAt(items, x, y).value.storeItemId in StoreItems.CropTable
    ensures CellContentAt(items, x, y).Seedling? ==>
      ItemAt(items, x, y).value.stage == Growing && ItemAt(items, x, y).value.storeItemId in StoreItems.CropTable
    ensures CellContentAt(items, x, y).Image? ==>
      ItemAt(items, x, y).Some? && !(ItemAt(items, x, y).value.storeItemId in StoreItems.CropTable
      && ItemAt(items, x, y).value.stage in {Ready, Growing})
    ensures var c := CellContentAt(items, x, y);
      (c.Image? || c.HarvestableImage?) ==>
        c.glyph == StoreItems.FindStoreItem(ItemAt(items, x, y).value.storeItemId).value.image
  {
  }

  /** What a crop's cell shows is always one of that crop's stage glyphs: the first while growing, the last when ready. */
  lemma CropCellShowsItsStage(items: seq<FarmItem>, x: int, y: int)
    requires ItemAt(items, x, y).Some? && ItemAt(items, x, y).value.storeItemId in StoreItems.CropTable
    ensures var stages := StoreItems.CropTable[ItemAt(items, x, y).value.storeItemId].stages;
      match CellContentAt(items, x, y)
      case Seedling => stages[0] == StoreItems.SEEDLING
      case HarvestableImage(g) => g == stages[|stages| - 1]
      case Image(g) => g == stages[|stages| - 1]
      case Blank => false
  {
    var item := ItemAt(items, x, y).value;
    var id := item.storeItemId;
    StoreItems.CropStages(id);
    StoreItems.FindCropItem(id);
    var image := StoreItems.CropItem(id).image;
    assert CellContentAt(items, x, y) ==
      if item.stage == Ready then HarvestableImage(image)
      else if item.stage == Growing then Seedling
      else Image(image);
  }

  // ----- how a cell is styled -----

  datatype CellStyle = ReadyStyle | OccupiedStyle | HoverTargetStyle | TargetStyle | IdleStyle

  /** `getCellStyle`; `hovered` says whether the pointer is over this cell. */
  function CellStyleAt(items: seq<FarmItem>, hasSelection: bool, hovered: bool, x: int, y: int): CellStyle {
    var item := ItemAt(items, x, y);
    if item.Some? && item.value.stage == Ready then ReadyStyle
    else if IsOccupied(items, x, y) then OccupiedStyle
    else if hasSelection && hovered then HoverTargetStyle
    else if hasSelection then TargetStyle
    else IdleStyle
  }

  /** Styles follow a fixed priority: ready, then occupied, then hovered target, then target, then idle. */
  lemma CellStylePriority(items: seq<FarmItem>, hasSelection: bool, hovered: bool, x: int, y: int)
    ensures var s := CellStyleAt(items, hasSelection, hovered, x, y);
      && (s == ReadyStyle <==> ItemAt(items, x, y).Some? && ItemAt(items, x, y).value.stage == Ready)
      && (s == OccupiedStyle <==> HasItemAt(items, x, y) && ItemAt(items, x, y).value.stage != Ready)
      && (s == HoverTargetStyle <==> !HasItemAt(items, x, y) && hasSelection && hovered)
      && (s == TargetStyle <==> !HasItemAt(items, x, y) && hasSelection && !hovered)
      && (s == IdleStyle <==> !HasItemAt(items, x, y) && !hasSelection)
  {
    OccupiedIff(items, x, y);
  }

  /** A cell is styled as a placement target exactly when a click on it would place. */
  lemma TargetStyleMeansPlacement(items: seq<FarmItem>, hasSelection: bool, hovered: bool, x: int, y: int)
    ensures CellStyleAt(items, hasSelection, hovered, x, y) in {HoverTargetStyle, TargetStyle}
      <==> CellClick(items, hasSelection, x, y) == PlaceItem
  {
    OccupiedIff(items, x, y);
  }
}
