/**
 * The game-state store: the points ledger, the task list, farm-item
 * placement, the watering sweep and harvest. Each operation is a pure
 * transform of the stored records (below), and the `GameStore` class holds
 * the two pieces of state and replaces them the way the store's setters do.
 * The clock and the id generator are inputs.
 */
module GameStateHook {
  import opened Wrappers
  import opened Types
  import Seqs

  /** Milliseconds in an hour, the divisor of the elapsed-time comparison. */
  const HOUR_MS := 1000 * 60 * 60

  /** The fixed credit of `harvestCrop`. */
  const HARVEST_POINTS := 20

  /** The state of a new player. */
  const InitialGameState := GameState(100, [], [], FarmStats(1.0, 1.0, 1.0))

  /** A new player has 100 points, an empty farm, no completed tasks and neutral stats. */
  lemma InitialGameStateIsFresh()
    ensures InitialGameState.points == 100
    ensures InitialGameState.farmItems == [] && InitialGameState.completedTasks == []
    ensures InitialGameState.farmStats.speed == InitialGameState.farmStats.harvestAmount
         == InitialGameState.farmStats.waterEfficiency == 1.0
  {
  }

  // ----- the points ledger -----

  function Credit(gs: GameState, n: int): GameState {
    gs.(points := gs.points + n)
  }

  /** Debit without any sufficiency check. */
  function Debit(gs: GameState, n: int): GameState {
    gs.(points := gs.points - n)
  }

  /** Spending what was just added restores the state exactly. */
  lemma CreditThenDebit(gs: GameState, n: int)
    ensures Debit(Credit(gs, n), n) == gs
  {
  }

  /** The store lets the balance go below zero when asked to spend more than it holds. */
  lemma DebitCanOverdraw(gs: GameState, n: int)
    requires n > gs.points
    ensures Debit(gs, n).points < 0
    ensures Debit(gs, n).farmItems == gs.farmItems && Debit(gs, n).completedTasks == gs.completedTasks
    ensures Debit(gs, n).farmStats == gs.farmStats
  {
  }

  // ----- the task list -----

  function WithId(id: string): Task -> bool {
    (t: Task) => t.id == id
  }

  function WithoutId(id: string): Task -> bool {
    (t: Task) => t.id != id
  }

  /** `tasks.find(t => t.id === id)`. */
  function FindTask(tasks: seq<Task>, id: string): (r: Option<Task>)
    ensures r.Some? ==> r.value in tasks && r.value.id == id
    ensures r.Some? ==> exists i :: 0 <= i < |tasks| && tasks[i] == r.value && forall j :: 0 <= j < i ==> tasks[j].id != id
    ensures r.None? <==> forall k :: 0 <= k < |tasks| ==> tasks[k].id != id
  {
    Seqs.Find(tasks, WithId(id))
  }

  function MarkCompleted(t: Task, id: string, now: Timestamp): Task {
    if t.id == id then t.(completed := true, completedAt := Some(now)) else t
  }

  /** The task list after completing `id` at `now`: every task with that id is marked. */
  function CompleteAll(tasks: seq<Task>, id: string, now: Timestamp): seq<Task> {
    seq(|tasks|, k requires 0 <= k < |tasks| => MarkCompleted(tasks[k], id, now))
  }

  /**
   * Completion marks every task carrying the id as completed at `now`,
   * touches no other field, and leaves every other task as it was.
   */
  lemma CompleteAllMarksMatches(tasks: seq<Task>, id: string, now: Timestamp)
    ensures |CompleteAll(tasks, id, now)| == |tasks|
    ensures forall k :: 0 <= k < |tasks| && tasks[k].id == id ==>
      CompleteAll(tasks, id, now)[k] == tasks[k].(completed := true, completedAt := Some(now))
    ensures forall k :: 0 <= k < |tasks| && tasks[k].id != id ==> CompleteAll(tasks, id, now)[k] == tasks[k]
  {
  }

  /**
   * After one completion of an existing id, the task found under that id is
   * completed, so a second `completeTask` with it takes the no-op branch.
   */
  lemma CompleteTaskIdempotent(tasks: seq<Task>, id: string, now: Timestamp)
    requires FindTask(tasks, id).Some?
    ensures FindTask(CompleteAll(tasks, id, now), id).Some?
    ensures FindTask(CompleteAll(tasks, id, now), id).value.completed
  {
    var after := CompleteAll(tasks, id, now);
    var t := FindTask(tasks, id).value;
    var i :| 0 <= i < |tasks| && tasks[i] == t;
    assert after[i].id == id;
    var found := FindTask(after, id).value;
    var j :| 0 <= j < |after| && after[j] == found;
    assert after[j] == MarkCompleted(tasks[j], id, now);
  }

  /** The record `addTask` appends: the draft, with the new id, the creation time and `completed = false`. */
  function TaskFrom(draft: NewTask, id: string, now: Timestamp): Task {
    Task(id, draft.title, draft.description, false, draft.points, now, draft.completedAt, draft.recurring)
  }

  /** `addTask` appends exactly one incomplete task carrying the supplied id and time, after the unchanged old list. */
  lemma AddTaskAppendsOne(tasks: seq<Task>, draft: NewTask, id: string, now: Timestamp)
    ensures var r := tasks + [TaskFrom(draft, id, now)];
      |r| == |tasks| + 1 && r[..|tasks|] == tasks
      && r[|tasks|].id == id && r[|tasks|].createdAt == now && !r[|tasks|].completed
      && r[|tasks|].title == draft.title && r[|tasks|].points == draft.points
  {
  }

  /** `tasks.filter(t => t.id !== id)`. */
  function RemoveTask(tasks: seq<Task>, id: string): seq<Task> {
    Seqs.Filter(tasks, WithoutId(id))
  }

  /** Deleting removes every task with the id and keeps every other task. */
  lemma RemoveTaskMembership(tasks: seq<Task>, id: string)
    ensures forall t :: t in RemoveTask(tasks, id) <==> t in tasks && t.id != id
  {
    forall t ensures t in RemoveTask(tasks, id) <==> t in tasks && t.id != id {
      Seqs.FilterMembership(tasks, WithoutId(id), t);
    }
  }

  /** Deleting preserves the relative order of the remaining tasks: it distributes over concatenation. */
  lemma RemoveTaskKeepsOrder(front: seq<Task>, back: seq<Task>, id: string)
    ensures RemoveTask(front + back, id) == RemoveTask(front, id) + RemoveTask(back, id)
  {
    Seqs.FilterConcat(front, back, WithoutId(id));
  }

  /** Deleting an id no task carries leaves the list as it was. */
  lemma RemoveAbsentTask(tasks: seq<Task>, id: string)
    requires forall k :: 0 <= k < |tasks| ==> tasks[k].id != id
    ensures RemoveTask(tasks, id) == tasks
  {
    Seqs.FilterAll(tasks, WithoutId(id));
  }

  /** Task invariant: a completion time is recorded exactly on completed tasks. */
  predicate CompletionStamped(tasks: seq<Task>) {
    forall k :: 0 <= k < |tasks| ==> (tasks[k].completed <==> tasks[k].completedAt.Some?)
  }

  /**
   * Every task-list operation keeps the completion stamp consistent, as long
   * as added drafts carry no completion time (the add-task form never sets one).
   */
  lemma TaskOperationsKeepCompletionStamped(tasks: seq<Task>, id: string, now: Timestamp, draft: NewTask, newId: string)
    requires CompletionStamped(tasks)
    ensures CompletionStamped(CompleteAll(tasks, id, now))
    ensures CompletionStamped(RemoveTask(tasks, id))
    ensures draft.completedAt.None? ==> CompletionStamped(tasks + [TaskFrom(draft, newId, now)])
  {
    var r := RemoveTask(tasks, id);
    forall k | 0 <= k < |r| ensures r[k].completed <==> r[k].completedAt.Some? {
      Seqs.FilterMembership(tasks, WithoutId(id), r[k]);
    }
  }

  // ----- farm items -----

  /** The record `addFarmItem` appends: the draft with the new id. */
  function FarmItemFrom(draft: NewFarmItem, id: string): FarmItem {
    FarmItem(id, draft.storeItemId, draft.x, draft.y, draft.plantedAt, draft.lastWatered,
             draft.wateringInterval, draft.readyToHarvest, draft.stage)
  }

  function AppendFarmItem(gs: GameState, draft: NewFarmItem, id: string): GameState {
    gs.(farmItems := gs.farmItems + [FarmItemFrom(draft, id)])
  }

  /** Placement appends exactly one item, the draft under the new id, after the unchanged old items. */
  lemma AddFarmItemAppendsOne(gs: GameState, draft: NewFarmItem, id: string)
    ensures var r := AppendFarmItem(gs, draft, id).farmItems;
      |r| == |gs.farmItems| + 1 && r[..|gs.farmItems|] == gs.farmItems
      && r[|gs.farmItems|].id == id && r[|gs.farmItems|].storeItemId == draft.storeItemId
      && r[|gs.farmItems|].x == draft.x && r[|gs.farmItems|].y == draft.y
      && r[|gs.farmItems|].stage == draft.stage
  {
  }

  // ----- watering -----

  /** A growing crop with a planting time and a non-zero (truthy) watering interval. */
  predicate Waterable(item: FarmItem) {
    item.stage == Growing && item.plantedAt.Some? && item.wateringInterval.Some? && item.wateringInterval.value != 0
  }

  /** Milliseconds since the last watering, or since planting if never watered. */
  function SinceWatered(item: FarmItem, now: Timestamp): int
    requires item.plantedAt.Some?
  {
    now - (if item.lastWatered.Some? then item.lastWatered.value else item.plantedAt.value)
  }

  /** Comparing whole milliseconds against the interval in milliseconds agrees with the hours comparison of the store. */
  lemma HoursComparisonIsExact(elapsed: int, interval: int)
    ensures (elapsed as real) / (HOUR_MS as real) >= interval as real <==> elapsed >= interval * HOUR_MS
  {
    var h := HOUR_MS as real;
    assert (elapsed as real) / h * h == elapsed as real;
  }

  /** One item of the sweep. */
  function WaterItem(item: FarmItem, now: Timestamp): FarmItem {
    if Waterable(item) && SinceWatered(item, now) >= item.wateringInterval.value * HOUR_MS
    then item.(lastWatered := Some(now))
    else item
  }

  /** `waterCrops`: the sweep over all placed items. */
  function WaterAll(items: seq<FarmItem>, now: Timestamp): seq<FarmItem> {
    seq(|items|, k requires 0 <= k < |items| => WaterItem(items[k], now))
  }

  /**
   * The sweep keeps the list length and every stage; it sets `lastWatered`
   * to `now` on exactly the waterable items whose interval has elapsed, and
   * leaves every other item as it was.
   */
  lemma WaterAllEffect(items: seq<FarmItem>, now: Timestamp)
    ensures |WaterAll(items, now)| == |items|
    ensures forall k :: 0 <= k < |items| ==> WaterAll(items, now)[k].stage == items[k].stage
    ensures forall k :: (0 <= k < |items| && Waterable(items[k])
      && SinceWatered(items[k], now) >= items[k].wateringInterval.value * HOUR_MS) ==>
      WaterAll(items, now)[k] == items[k].(lastWatered := Some(now))
    ensures forall k :: 0 <= k < |items| && !Waterable(items[k]) ==> WaterAll(items, now)[k] == items[k]
    ensures forall k :: (0 <= k < |items| && Waterable(items[k])
      && SinceWatered(items[k], now) < items[k].wateringInterval.value * HOUR_MS) ==>
      WaterAll(items, now)[k] == items[k]
  {
  }

  /**
   * A crop placed at `planted` with a positive interval is not watered by a
   * sweep before the interval has passed, and is watered by the first sweep
   * after it.
   */
  lemma WaterAfterInterval(item: FarmItem, planted: Timestamp, early: Timestamp, late: Timestamp)
    requires item.stage == Growing && item.plantedAt == Some(planted) && item.lastWatered.None?
    requires item.wateringInterval.Some? && item.wateringInterval.value > 0
    requires early - planted < item.wateringInterval.value * HOUR_MS
    requires late - planted >= item.wateringInterval.value * HOUR_MS
    ensures WaterItem(item, early).lastWatered.None?
    ensures WaterItem(WaterItem(item, early), late).lastWatered == Some(late)
  {
  }

  /** Two sweeps at the same instant do what one does. */
  lemma {:induction false} WaterAllIdempotent(items: seq<FarmItem>, now: Timestamp)
    ensures WaterAll(WaterAll(items, now), now) == WaterAll(items, now)
  {
    var once := WaterAll(items, now);
    forall k | 0 <= k < |items| ensures WaterAll(once, now)[k] == once[k] {
      var it := items[k];
      if Waterable(it) && SinceWatered(it, now) >= it.wateringInterval.value * HOUR_MS {
        assert SinceWatered(once[k], now) == 0;
      }
    }
  }

  // ----- harvest -----

  function HarvestItem(item: FarmItem, id: string): FarmItem {
    if item.id == id then item.(stage := Harvested) else item
  }

  function HarvestAll(items: seq<FarmItem>, id: string): seq<FarmItem> {
    seq(|items|, k requires 0 <= k < |items| => HarvestItem(items[k], id))
  }

  /** `harvestCrop`: mark the item harvested, then credit the fixed 20 points. */
  function Harvest(gs: GameState, id: string): GameState {
    Credit(gs.(farmItems := HarvestAll(gs.farmItems, id)), HARVEST_POINTS)
  }

  /**
   * Harvest sets stage `harvested` on every item with the id, touching no
   * other item and no other field, and credits exactly 20 points whatever
   * the crop.
   */
  lemma HarvestEffect(gs: GameState, id: string)
    ensures Harvest(gs, id).points == gs.points + 20
    ensures Harvest(gs, id).completedTasks == gs.completedTasks && Harvest(gs, id).farmStats == gs.farmStats
    ensures |Harvest(gs, id).farmItems| == |gs.farmItems|
    ensures forall k :: 0 <= k < |gs.farmItems| && gs.farmItems[k].id == id ==>
      Harvest(gs, id).farmItems[k] == gs.farmItems[k].(stage := Harvested)
    ensures forall k :: 0 <= k < |gs.farmItems| && gs.farmItems[k].id != id ==>
      Harvest(gs, id).farmItems[k] == gs.farmItems[k]
  {
  }

  /** Harvesting twice leaves the items as one harvest does, but credits 20 points twice. */
  lemma HarvestTwice(gs: GameState, id: string)
    ensures Harvest(Harvest(gs, id), id).farmItems == Harvest(gs, id).farmItems
    ensures Harvest(Harvest(gs, id), id).points == gs.points + 40
  {
    var once := Harvest(gs, id).farmItems;
    assert HarvestAll(once, id) == once by {
      forall k | 0 <= k < |once| ensures HarvestAll(once, id)[k] == once[k] {
      }
    }
  }

  // ----- the store -----

  /** The hook's two pieces of state, replaced by each operation. */
  class GameStore {
    var gameState: GameState
    var tasks: seq<Task>

    constructor ()
      ensures gameState == InitialGameState && tasks == []
    {
      gameState := InitialGameState;
      tasks := [];
    }

    method AddPoints(points: int)
      modifies this
      ensures gameState == Credit(old(gameState), points) && tasks == old(tasks)
    {
      gameState := Credit(gameState, points);
    }

    method SpendPoints(points: int)
      modifies this
      ensures gameState == Debit(old(gameState), points) && tasks == old(tasks)
    {
      gameState := Debit(gameState, points);
    }

    /**
     * Complete the first task found under `taskId` if it is still open: mark
     * the tasks, credit its points, run the watering sweep and log the id.
     */
    method CompleteTask(taskId: string, now: Timestamp)
      modifies this
      ensures var found := FindTask(old(tasks), taskId);
        if found.Some? && !found.value.completed then
          && tasks == CompleteAll(old(tasks), taskId, now)
          && gameState == old(gameState).(
               points := old(gameState).points + found.value.points,
               farmItems := WaterAll(old(gameState).farmItems, now),
               completedTasks := old(gameState).completedTasks + [taskId])
        else
          tasks == old(tasks) && gameState == old(gameState)
    {
      var found := FindTask(tasks, taskId);
      if found.Some? && !found.value.completed {
        tasks := CompleteAll(tasks, taskId, now);
        AddPoints(found.value.points);
        WaterCrops(now);
        gameState := gameState.(completedTasks := gameState.completedTasks + [taskId]);
      }
    }

    method AddTask(draft: NewTask, id: string, now: Timestamp)
      modifies this
      ensures tasks == old(tasks) + [TaskFrom(draft, id, now)] && gameState == old(gameState)
    {
      tasks := tasks + [TaskFrom(draft, id, now)];
    }

    method DeleteTask(taskId: string)
      modifies this
      ensures tasks == RemoveTask(old(tasks), taskId) && gameState == old(gameState)
    {
      tasks := RemoveTask(tasks, taskId);
    }

    method AddFarmItem(draft: NewFarmItem, id: string)
      modifies this
      ensures gameState == AppendFarmItem(old(gameState), draft, id) && tasks == old(tasks)
    {
      gameState := AppendFarmItem(gameState, draft, id);
    }

    method WaterCrops(now: Timestamp)
      modifies this
      ensures gameState == old(gameState).(farmItems := WaterAll(old(gameState).farmItems, now))
      ensures tasks == old(tasks)
    {
      gameState := gameState.(farmItems := WaterAll(gameState.farmItems, now));
    }

    method HarvestCrop(itemId: string)
      modifies this
      ensures gameState == Harvest(old(gameState), itemId) && tasks == old(tasks)
    {
      gameState := gameState.(farmItems := HarvestAll(gameState.farmItems, itemId));
      AddPoints(HARVEST_POINTS);
    }
  }
}
