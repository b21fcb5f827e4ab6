/**
 * The top-level app: it owns the store and the item awaiting placement, and
 * wires the panels to the store. Purchases are guarded by the balance,
 * placement builds the farm item from the selection, and harvesting pays the
 * crop's value on top of the store's fixed credit.
 */
module FarmTodoApp {
  import opened Wrappers
  import opened Types
  import Seqs
  import StoreItems
  import GameStateHook
  import FarmStore
  import FarmGrid
  import TaskManager
  import JsString

  /** The farm item `handlePlaceItem` builds for the selected catalog entry at `(x, y)`. */
  function PlacementFor(selected: StoreItem, x: int, y: int, now: Timestamp): (d: NewFarmItem)
    ensures d.storeItemId == selected.id && d.x == x && d.y == y
    ensures d.lastWatered.None? && d.readyToHarvest.None?
    ensures selected.itemType == Crop ==> d.stage == Growing && d.plantedAt == Some(now)
    ensures selected.itemType != Crop ==> d.stage == Planted && d.plantedAt.None? && d.wateringInterval.None?
    ensures d.wateringInterval.Some? <==> selected.itemType == Crop && selected.id in StoreItems.CropTable
    ensures d.wateringInterval.Some? ==>
      d.wateringInterval.value == StoreItems.CropTable[selected.id].wateringInterval
  {
    var isCrop := selected.itemType == Crop;
    NewFarmItem(
      selected.id, x, y,
      if isCrop then Some(now) else None,
      None,
      if isCrop && selected.id in StoreItems.CropTable
      then Some(StoreItems.CropTable[selected.id].wateringInterval) else None,
      None,
      if isCrop then Growing else Planted)
  }

  /**
   * A crop bought from the catalog and placed takes part in watering: the
   * first sweep at least its interval after planting waters it, and no
   * earlier sweep does.
   */
  lemma PlacedCatalogCropIsWatered(selected: StoreItem, x: int, y: int, now: Timestamp, id: string, early: Timestamp, late: Timestamp)
    requires selected in StoreItems.Catalog && selected.itemType == Crop
    requires early - now < StoreItems.CropTable[selected.id].wateringInterval * GameStateHook.HOUR_MS
    requires late - now >= StoreItems.CropTable[selected.id].wateringInterval * GameStateHook.HOUR_MS
    ensures var item := GameStateHook.FarmItemFrom(PlacementFor(selected, x, y, now), id);
      GameStateHook.Waterable(item)
      && GameStateHook.WaterItem(item, early).lastWatered.None?
      && GameStateHook.WaterItem(GameStateHook.WaterItem(item, early), late).lastWatered == Some(late)
  {
    StoreItems.CropTableKeysAreCropIds();
    var k :| 0 <= k < |StoreItems.Catalog| && StoreItems.Catalog[k] == selected;
    assert selected.id in StoreItems.CropTable;
    StoreItems.CropsAreProfitable();
    var item := GameStateHook.FarmItemFrom(PlacementFor(selected, x, y, now), id);
    assert item.wateringInterval.value >= 1;
    GameStateHook.WaterAfterInterval(item, now, early, late);
  }

  function HasItemId(id: string): FarmItem -> bool {
    (item: FarmItem) => item.id == id
  }

  /**
   * What `handleHarvestCrop` pays on top of the store: the harvest value of
   * the first item with the id, when that item is a crop; `None` when the id
   * is unknown or the item is not a crop, and then nothing happens.
   */
  function HarvestReward(items: seq<FarmItem>, itemId: string): (r: Option<int>)
    ensures r.None? <==> forall k :: (0 <= k < |items| && items[k].id == itemId
      && forall j :: 0 <= j < k ==> items[j].id != itemId) ==> items[k].storeItemId !in StoreItems.CropTable
    ensures r.Some? ==> exists k :: (0 <= k < |items| && items[k].id == itemId
      && (forall j :: 0 <= j < k ==> items[j].id != itemId)
      && items[k].storeItemId in StoreItems.CropTable
      && r.value == StoreItems.CropTable[items[k].storeItemId].harvestValue)
  {
    match Seqs.Find(items, HasItemId(itemId))
    case None => None
    case Some(item) =>
      if item.storeItemId in StoreItems.CropTable
      then Some(StoreItems.CropTable[item.storeItemId].harvestValue) else None
  }

  /** A harvest through the app credits the crop's value plus the store's fixed 20 points. */
  lemma HarvestPaysValuePlusBonus(gs: GameState, itemId: string)
    ensures HarvestReward(gs.farmItems, itemId).Some? ==>
      var v := HarvestReward(gs.farmItems, itemId).value;
      GameStateHook.Harvest(GameStateHook.Credit(gs, v), itemId).points == gs.points + v + 20
      && v >= 25
  {
    if HarvestReward(gs.farmItems, itemId).None? {
      return;
    }
    var items := gs.farmItems;
    var k :| 0 <= k < |items| && items[k].id == itemId
      && (forall j :: 0 <= j < k ==> items[j].id != itemId)
      && items[k].storeItemId in StoreItems.CropTable
      && HarvestReward(items, itemId).value == StoreItems.CropTable[items[k].storeItemId].harvestValue;
    StoreItems.HarvestValueAtLeast25(items[k].storeItemId);
  }

  /** The layout facts the app keeps: one item per cell and nothing ready. */
  predicate Layout(items: seq<FarmItem>) {
    FarmGrid.CellsDistinct(items) && FarmGrid.NoneReady(items)
  }

  /** The watering sweep keeps the layout: it moves nothing and changes no stage. */
  lemma WaterKeepsLayout(items: seq<FarmItem>, now: Timestamp)
    requires Layout(items)
    ensures Layout(GameStateHook.WaterAll(items, now))
  {
    GameStateHook.WaterAllEffect(items, now);
  }

  /** Harvest keeps the layout: it moves nothing and only ever sets `harvested`. */
  lemma HarvestKeepsLayout(items: seq<FarmItem>, id: string)
    requires Layout(items)
    ensures Layout(GameStateHook.HarvestAll(items, id))
  {
  }

  /** A placement the grid decided on keeps the layout. */
  lemma PlacementKeepsLayout(items: seq<FarmItem>, selected: StoreItem, x: int, y: int, now: Timestamp, id: string)
    requires Layout(items)
    requires FarmGrid.CellClick(items, true, x, y) == FarmGrid.PlaceItem
    ensures Layout(items + [GameStateHook.FarmItemFrom(PlacementFor(selected, x, y, now), id)])
  {
    FarmGrid.ClickPlacementKeepsCellsDistinct(items, x, y, GameStateHook.FarmItemFrom(PlacementFor(selected, x, y, now), id));
  }

  class App {
    const store: GameStateHook.GameStore
    /** The purchased item waiting to be placed. */
    var selectedItem: Option<StoreItem>

    /**
     * Along every path the app offers, no two farm items share a cell and no
     * item is ready, so the grid's harvest branch can never be taken.
     */
    predicate Valid()
      reads this, store
    {
      Layout(store.gameState.farmItems)
    }

    constructor ()
      ensures fresh(store) && Valid()
      ensures store.gameState == GameStateHook.InitialGameState && store.tasks == [] && selectedItem.None?
    {
      store := new GameStateHook.GameStore();
      selectedItem := None;
    }

    /** Buy `item` if the balance covers it: debit the price and hold the item for placement. */
    method HandlePurchase(item: StoreItem)
      requires Valid()
      modifies this, store
      ensures Valid() && store.tasks == old(store.tasks)
      ensures if old(store.gameState.points) >= item.price then
          store.gameState == GameStateHook.Debit(old(store.gameState), item.price) && selectedItem == Some(item)
        else
          store.gameState == old(store.gameState) && selectedItem == old(selectedItem)
      ensures store.gameState.points >= 0 || store.gameState.points == old(store.gameState.points)
    {
      if store.gameState.points >= item.price {
        store.SpendPoints(item.price);
        selectedItem := Some(item);
      }
    }

    /** Place the selection at `(x, y)` and clear it; with nothing selected, do nothing. No occupancy check. */
    method HandlePlaceItem(x: int, y: int, now: Timestamp, id: string)
      modifies this, store
      ensures store.tasks == old(store.tasks)
      ensures old(selectedItem).None? ==> store.gameState == old(store.gameState) && selectedItem.None?
      ensures old(selectedItem).Some? ==>
        store.gameState == GameStateHook.AppendFarmItem(old(store.gameState),
          PlacementFor(old(selectedItem).value, x, y, now), id)
        && selectedItem.None?
    {
      if selectedItem.None? {
        return;
      }
      store.AddFarmItem(PlacementFor(selectedItem.value, x, y, now), id);
      selectedItem := None;
    }

    /** Harvest a crop: credit its harvest value, then let the store mark it and add its fixed 20. */
    method HandleHarvestCrop(itemId: string)
      modifies store
      ensures old(Valid()) ==> Valid()
      ensures store.tasks == old(store.tasks)
      ensures match HarvestReward(old(store.gameState.farmItems), itemId)
        case None => store.gameState == old(store.gameState)
        case Some(v) => store.gameState == GameStateHook.Harvest(GameStateHook.Credit(old(store.gameState), v), itemId)
    {
      var reward := HarvestReward(store.gameState.farmItems, itemId);
      if reward.Some? {
        store.AddPoints(reward.value);
        if Layout(store.gameState.farmItems) {
          HarvestKeepsLayout(store.gameState.farmItems, itemId);
        }
        store.HarvestCrop(itemId);
      }
    }

    /** A click on grid cell `(x, y)`, dispatched as the grid decides. */
    method ClickCell(x: int, y: int, now: Timestamp, id: string)
      requires Valid()
      modifies this, store
      ensures Valid() && store.tasks == old(store.tasks)
      ensures FarmGrid.CellClick(old(store.gameState.farmItems), old(selectedItem).Some?, x, y) == FarmGrid.PlaceItem ==>
        store.gameState == GameStateHook.AppendFarmItem(old(store.gameState),
          PlacementFor(old(selectedItem).value, x, y, now), id)
        && selectedItem.None?
      ensures FarmGrid.CellClick(old(store.gameState.farmItems), old(selectedItem).Some?, x, y) != FarmGrid.PlaceItem ==>
        store.gameState == old(store.gameState) && selectedItem == old(selectedItem)
    {
      var items := store.gameState.farmItems;
      FarmGrid.NothingReadyNothingHarvested(items, selectedItem.Some?, x, y);
      match FarmGrid.CellClick(items, selectedItem.Some?, x, y)
      case HarvestCrop(itemId) =>
        assert false;
      case PlaceItem =>
        PlacementKeepsLayout(items, selectedItem.value, x, y, now, id);
        HandlePlaceItem(x, y, now, id);
      case NoAction =>
    }

    /** A click on a store card: forwarded only when affordable, so the purchase always goes through. */
    method BuyFromStore(item: StoreItem)
      requires Valid()
      modifies this, store
      ensures Valid() && store.tasks == old(store.tasks)
      ensures FarmStore.ForwardsPurchase(old(store.gameState.points), item) ==>
        store.gameState == GameStateHook.Debit(old(store.gameState), item.price) && selectedItem == Some(item)
        && store.gameState.points >= 0
      ensures !FarmStore.ForwardsPurchase(old(store.gameState.points), item) ==>
        store.gameState == old(store.gameState) && selectedItem == old(selectedItem)
    {
      if FarmStore.ForwardsPurchase(store.gameState.points, item) {
        HandlePurchase(item);
      }
    }

    /** The task panel's complete button. */
    method CompleteTask(taskId: string, now: Timestamp)
      requires Valid()
      modifies store
      ensures Valid()
      ensures var found := GameStateHook.FindTask(old(store.tasks), taskId);
        if found.Some? && !found.value.completed then
          && store.tasks == GameStateHook.CompleteAll(old(store.tasks), taskId, now)
          && store.gameState == old(store.gameState).(
               points := old(store.gameState).points + found.value.points,
               farmItems := GameStateHook.WaterAll(old(store.gameState).farmItems, now),
               completedTasks := old(store.gameState).completedTasks + [taskId])
        else
          store.tasks == old(store.tasks) && store.gameState == old(store.gameState)
    {
      WaterKeepsLayout(store.gameState.farmItems, now);
      store.CompleteTask(taskId, now);
    }

    /** The task panel's add button: submit the form and, if it yields a task, add it. */
    method SubmitTaskForm(form: TaskManager.TaskForm, id: string, now: Timestamp)
      requires Valid()
      modifies form, store
      ensures Valid() && store.gameState == old(store.gameState)
      ensures JsString.Trim(old(form.title)) != "" ==>
        store.tasks == old(store.tasks)
          + [GameStateHook.TaskFrom(NewTask(old(form.title), Some(old(form.description)), old(form.points), None, None), id, now)]
      ensures JsString.Trim(old(form.title)) == "" ==> store.tasks == old(store.tasks)
      ensures JsString.Trim(old(form.title)) != "" ==>
        form.title == "" && form.description == "" && form.points == TaskManager.DEFAULT_POINTS && !form.dialogOpen
      ensures JsString.Trim(old(form.title)) == "" ==>
        form.title == old(form.title) && form.description == old(form.description)
        && form.points == old(form.points) && form.dialogOpen == old(form.dialogOpen)
    {
      var submitted := form.HandleAddTask();
      if submitted.Some? {
        store.AddTask(submitted.value, id, now);
      }
    }

    /** The task panel's delete button. */
    method DeleteTask(taskId: string)
      requires Valid()
      modifies store
      ensures Valid()
      ensures store.tasks == GameStateHook.RemoveTask(old(store.tasks), taskId) && store.gameState == old(store.gameState)
    {
      store.DeleteTask(taskId);
    }
  }

  /** A new player buys carrot seeds and plants them at (2, 3). */
  method FirstPlanting(t0: Timestamp) returns (app: App)
    ensures fresh(app) && fresh(app.store) && app.Valid()
    ensures app.store.gameState.points == 85 && app.store.tasks == [] && app.selectedItem.None?
    ensures app.store.gameState.farmItems
      == [GameStateHook.FarmItemFrom(PlacementFor(StoreItems.Carrot, 2, 3, t0), "plot-1")]
    ensures app.store.gameState.completedTasks == []
  {
    app := new App();
    app.BuyFromStore(StoreItems.Carrot);
    assert app.store.gameState.points == 85 && app.selectedItem == Some(StoreItems.Carrot);
    assert FarmGrid.CellClick([], true, 2, 3) == FarmGrid.PlaceItem;
    app.ClickCell(2, 3, t0, "plot-1");
  }

  /**
   * The session goes on: a 10-point task is added and completed, then the
   * carrot is harvested through the app's handler, which pays the carrot's
   * 25 points and the store's fixed 20.
   */
  method FirstHarvest(t0: Timestamp, t1: Timestamp, t2: Timestamp) returns (app: App)
    ensures app.store.gameState.points == 140
    ensures |app.store.gameState.farmItems| == 1 && app.store.gameState.farmItems[0].stage == Harvested
    ensures app.store.gameState.completedTasks == ["task-1"]
  {
    app := FirstPlanting(t0);
    app.store.AddTask(NewTask("Water plants", None, 10, None, None), "task-1", t1);
    assert GameStateHook.FindTask(app.store.tasks, "task-1").Some?;
    app.CompleteTask("task-1", t2);
    assert app.store.gameState.points == 95 && app.store.gameState.completedTasks == ["task-1"];
    assert HarvestReward(app.store.gameState.farmItems, "plot-1") == Some(25);
    app.HandleHarvestCrop("plot-1");
    assert app.store.gameState.farmItems[0].stage == Harvested && app.store.gameState.points == 140;
  }

  /** The same session harvested through the store's own operation, which pays only its fixed 20 points. */
  method FirstHarvestThroughStore(t0: Timestamp, t1: Timestamp, t2: Timestamp) returns (app: App)
    ensures app.store.gameState.points == 115
    ensures |app.store.gameState.farmItems| == 1 && app.store.gameState.farmItems[0].stage == Harvested
    ensures app.store.gameState.completedTasks == ["task-1"]
  {
    app := FirstPlanting(t0);
    app.store.AddTask(NewTask("Water plants", None, 10, None, None), "task-1", t1);
    app.CompleteTask("task-1", t2);
    app.store.HarvestCrop("plot-1");
    assert app.store.gameState.farmItems[0].stage == Harvested && app.store.gameState.points == 115;
  }
}
