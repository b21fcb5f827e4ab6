# Cozy Farm Tasks — a Dafny model of the game core

Cozy Farm Tasks is a to-do list turned into a farming game. Completing a
task earns its reward points and waters the crops. Points buy seeds, tools
and decorations from a fixed catalog. A bought item is held as "pending
placement" until the player clicks a free cell of a 6×6 farm grid. A crop
that is ready can be harvested for points.

This project models the part of the system that decides what happens to the
player's state:

- **`GameStateHook`** — the game-state store (`useGameState`), as the class
  `GameStore`. Its two fields, `gameState` and `tasks`, are replaced by each
  operation: `AddPoints`, `SpendPoints`, `CompleteTask`, `AddTask`,
  `DeleteTask`, `AddFarmItem`, `WaterCrops` and `HarvestCrop`. Each
  operation's new state is a pure function of the old one (`Credit`,
  `Debit`, `CompleteAll`, `RemoveTask`, `AppendFarmItem`, `WaterAll`,
  `Harvest`), and the lemmas about those functions state what the store
  promises.
- **`FarmTodoApp`** — the top-level app, as the class `App`. It holds the
  store and the `selectedItem` awaiting placement, and has the handlers
  `HandlePurchase`, `HandlePlaceItem` and `HandleHarvestCrop`. It also wires
  the grid, store panel and task panel to the store (`ClickCell`,
  `BuyFromStore`, `CompleteTask`, `SubmitTaskForm`, `DeleteTask`). Its
  invariant `Valid()` says no two farm items share a cell and no item is
  ready. Every operation offered through the UI keeps it, so the grid's
  harvest branch can never be taken.
- **`FarmGrid`** — the index-to-cell mapping, the `x-y` occupancy keys, the
  click decision, and the case analysis of what a cell shows and how it is
  styled.
- **`FarmStore`** — the category tabs, `canAfford`, the purchase guard and
  the buy button's state.
- **`TaskManager`** — the add-task form as the class `TaskForm`, with its
  guard and reset. Also the points field's `parseInt(v) || 10`, the
  active/completed split and the last-three "recently completed" list.
- **`StoreItems`** — the catalog and the crop table, as constants, with
  lemmas about their contents.
- **`Types`** — the records of `src/types/game.ts`. **`JsString`** holds the
  JavaScript string behaviour the core relies on: `String(n)` for keys,
  `trim` and `parseInt`. **`Seqs`** holds `filter` and `find`.
  **`Wrappers`** holds `Option`.

The model works in the system's own terms:

- Time is integer milliseconds. The clock (`new Date()`) and the
  time-based ids (`Date.now()`) are method parameters.
- Watering compares the elapsed milliseconds against `interval × 3 600 000`;
  `HoursComparisonIsExact` shows this is the store's comparison of hours.
- JavaScript truthiness is kept: a watering interval of 0 is falsy and is
  skipped, and `parseInt(v) || 10` maps NaN and 0 to 10.
- `completeTask`'s four state updates are applied in source order.

Facts the proofs bring out:

- `SpendPoints` has no sufficiency check and can overdraw
  (`DebitCanOverdraw`), but the purchase path never does
  (`App.HandlePurchase`, `App.BuyFromStore`).
- A harvest through the app pays the crop's harvest value plus the store's
  fixed 20 (`HarvestPaysValuePlusBonus`).
- Nothing ever sets stage `ready`, so no click can harvest (`App.Valid`,
  `NothingReadyNothingHarvested`).
- Occupancy counts harvested items, so a harvested crop blocks its cell for
  good (`OccupiedIff`, `ClickPlacesOnlyOnFreeCell`).
- The points field accepts negative rewards (`NegativeRewardAccepted`), and
  completing such a task lowers the balance. So the balance stays
  non-negative only along the purchase path, not over all operations.

Two details of the code shape the model:

- The occupied-cell set is built from every farm item, harvested ones
  included (src/components/FarmGrid.tsx:20, 23). So placement on a
  harvested cell is refused, and `CellsDistinct` holds over all items.
- `harvestCrop` has no stage check (src/hooks/useGameState.ts:112-124). A
  second harvest keeps the stage `harvested` and pays 20 again
  (`HarvestTwice`).

## Model

| member | source | states |
|---|---|---|
| GameStateHook.InitialGameStateIsFresh | src/hooks/useGameState.ts:4-13 | a new player has 100 points, no farm items, no completed tasks and all three stats at 1 |
| GameStateHook.CreditThenDebit | src/hooks/useGameState.ts:39-45 | spending the amount just added restores the whole state |
| GameStateHook.DebitCanOverdraw | src/hooks/useGameState.ts:43-45 | spending more than the balance drives it below zero and leaves items, completed tasks and stats as they were |
| GameStateHook.FindTask | src/hooks/useGameState.ts:48 | the found task is the first in the list with the id; nothing is found exactly when no task has the id |
| GameStateHook.CompleteAllMarksMatches | src/hooks/useGameState.ts:50-54 | every task with the id becomes completed at `now` with no other field changed; every other task is unchanged; the length is kept |
| GameStateHook.CompleteTaskIdempotent | src/hooks/useGameState.ts:47-66 | after a completion the task found under the id is completed, so a second call takes the no-op branch |
| GameStateHook.AddTaskAppendsOne | src/hooks/useGameState.ts:68-76 | exactly one task is appended after the unchanged old list, incomplete, with the given id, creation time, title and points |
| GameStateHook.RemoveTaskMembership | src/hooks/useGameState.ts:78-80 | a task survives deletion exactly when it was in the list and has another id |
| GameStateHook.RemoveTaskKeepsOrder | src/hooks/useGameState.ts:78-80 | deletion distributes over concatenation, so the survivors keep their relative order |
| GameStateHook.RemoveAbsentTask | src/hooks/useGameState.ts:78-80 | deleting an id no task carries changes nothing |
| GameStateHook.TaskOperationsKeepCompletionStamped | src/hooks/useGameState.ts:47-80 | completion, deletion and adding a draft without a completion time keep "completed exactly when stamped" |
| GameStateHook.AddFarmItemAppendsOne | src/hooks/useGameState.ts:82-91 | exactly one item is appended after the unchanged old items, carrying the new id and the draft's catalog id, cell and stage |
| GameStateHook.HoursComparisonIsExact | src/hooks/useGameState.ts:99-103 | elapsed ms / 3 600 000 ≥ interval (over the reals) iff elapsed ≥ interval × 3 600 000 |
| GameStateHook.WaterAllEffect | src/hooks/useGameState.ts:93-110 | the sweep keeps length and stages; a waterable item whose interval has elapsed gets `lastWatered = now`; every other item is unchanged |
| GameStateHook.WaterAfterInterval | src/hooks/useGameState.ts:98-105 | a freshly planted crop is not watered before its interval has passed and is watered by the first sweep after it |
| GameStateHook.WaterAllIdempotent | src/hooks/useGameState.ts:93-110 | two sweeps at the same instant do what one does |
| GameStateHook.HarvestEffect | src/hooks/useGameState.ts:112-124 | every item with the id becomes harvested, other items and fields are unchanged, and exactly 20 points are credited whatever the crop |
| GameStateHook.HarvestTwice | src/hooks/useGameState.ts:112-124 | a second harvest leaves the items as they were but credits 20 again |
| GameStateHook.GameStore.constructor | src/hooks/useGameState.ts:16-28 | with nothing saved, the store starts from the initial state and no tasks |
| GameStateHook.GameStore.AddPoints | src/hooks/useGameState.ts:39-41 | the balance grows by the amount; tasks are unchanged |
| GameStateHook.GameStore.SpendPoints | src/hooks/useGameState.ts:43-45 | the balance shrinks by the amount, unchecked; tasks are unchanged |
| GameStateHook.GameStore.CompleteTask | src/hooks/useGameState.ts:47-66 | for a found, open task: all tasks with the id marked, its points credited, one watering sweep, the id appended to the log; otherwise nothing changes |
| GameStateHook.GameStore.AddTask | src/hooks/useGameState.ts:68-76 | the draft is appended under the new id and time; the game state is unchanged |
| GameStateHook.GameStore.DeleteTask | src/hooks/useGameState.ts:78-80 | the tasks become the list without that id; the game state is unchanged |
| GameStateHook.GameStore.AddFarmItem | src/hooks/useGameState.ts:82-91 | the draft is appended under the new id; nothing else changes |
| GameStateHook.GameStore.WaterCrops | src/hooks/useGameState.ts:93-110 | only the farm items change, by one sweep at `now` |
| GameStateHook.GameStore.HarvestCrop | src/hooks/useGameState.ts:112-124 | the item is marked harvested, then 20 points are credited |
| FarmTodoApp.PlacementFor | src/components/FarmTodoApp.tsx:47-56 | a crop is growing, planted now, with its table interval when its id is a crop key; anything else is planted, with no planting time and no interval; the cell and catalog id are the given ones |
| FarmTodoApp.PlacedCatalogCropIsWatered | src/components/FarmTodoApp.tsx:51-55 | a placed catalog crop takes part in watering: no sweep before its interval waters it, and the first one after does |
| FarmTodoApp.HarvestReward | src/components/FarmTodoApp.tsx:70-72 | a reward exists exactly when the first item with the id is a crop, and it is that crop's harvest value |
| FarmTodoApp.HarvestPaysValuePlusBonus | src/components/FarmTodoApp.tsx:69-74 | a harvest through the app raises the balance by the crop's harvest value plus 20, and that value is at least 25 |
| FarmTodoApp.WaterKeepsLayout | src/hooks/useGameState.ts:93-110 | the sweep keeps one item per cell and nothing ready |
| FarmTodoApp.HarvestKeepsLayout | src/hooks/useGameState.ts:112-120 | harvest keeps one item per cell and nothing ready |
| FarmTodoApp.PlacementKeepsLayout | src/components/FarmGrid.tsx:28-30 | a placement the grid decided on keeps one item per cell and nothing ready |
| FarmTodoApp.App.constructor | src/components/FarmTodoApp.tsx:13-25 | a fresh store in its initial state, nothing selected, invariant established |
| FarmTodoApp.App.HandlePurchase | src/components/FarmTodoApp.tsx:27-42 | when the balance covers the price: debit exactly the price and select the item; otherwise change nothing; the balance never turns negative on this path |
| FarmTodoApp.App.HandlePlaceItem | src/components/FarmTodoApp.tsx:44-67 | with nothing selected, nothing changes; otherwise exactly the built item is appended and the selection is cleared |
| FarmTodoApp.App.HandleHarvestCrop | src/components/FarmTodoApp.tsx:69-81 | with a reward: credit it, then the store's harvest; without one (unknown id, not a crop): nothing changes; tasks are never touched and the store invariant, when it held, still holds |
| FarmTodoApp.App.ClickCell | src/components/FarmGrid.tsx:22-31 | a click places exactly when the grid decides so and otherwise changes nothing; it keeps the invariant, so it never harvests |
| FarmTodoApp.App.BuyFromStore | src/components/FarmStore.tsx:24-28 | a store click buys exactly when affordable, leaving a non-negative balance; otherwise nothing changes |
| FarmTodoApp.App.CompleteTask | src/components/FarmTodoApp.tsx:105-111 | forwards to the store's completion and keeps the invariant |
| FarmTodoApp.App.SubmitTaskForm | src/components/TaskManager.tsx:29-35 | a task is added from the form's fields exactly when the title is not blank, and the form is then reset to ""/""/10 with the dialog closed; otherwise the form and the tasks are unchanged; the game state is unchanged |
| FarmTodoApp.App.DeleteTask | src/components/FarmTodoApp.tsx:105-111 | forwards to the store's deletion and keeps the invariant |
| FarmTodoApp.FirstPlanting | src/components/FarmTodoApp.tsx:27-67 | a new player buying carrot seeds and planting at (2, 3) has 85 points and exactly that crop |
| FarmTodoApp.FirstHarvestThroughStore | src/hooks/useGameState.ts:47-124 | after the planting, a completed 10-point task and the store's harvest: 115 points, the one carrot harvested, the task id logged |
| FarmTodoApp.FirstHarvest | src/components/FarmTodoApp.tsx:69-81 | the same session harvested through the app's handler: 140 points (carrot 25 plus 20), the carrot harvested, the task id logged |
| FarmGrid.CellAt | src/components/FarmGrid.tsx:99-101 | every index 0..35 maps to a cell of the 6×6 grid |
| FarmGrid.CellIndex | src/components/FarmGrid.tsx:99-101 | every grid cell has an index in 0..35 |
| FarmGrid.CellAtIsBijective | src/components/FarmGrid.tsx:99-101 | index → (i % 6, ⌊i / 6⌋) and (x, y) → 6y + x are inverse bijections |
| FarmGrid.CellsCoverGridOnce | src/components/FarmGrid.tsx:99-101 | the 36 rendered cells are distinct and cover the grid |
| FarmGrid.KeyDash | src/components/FarmGrid.tsx:20 | an `x-y` key splits at its first dash past position 0 into the two coordinates' renderings |
| FarmGrid.KeyInjective | src/components/FarmGrid.tsx:20-23 | different cells have different `x-y` keys, for all integer coordinates |
| FarmGrid.OccupiedIff | src/components/FarmGrid.tsx:20-23 | a cell is occupied exactly when some item of any stage, harvested included, stands on it |
| FarmGrid.ItemAt | src/components/FarmGrid.tsx:24 | the found item is the first in the list on the cell; nothing is found exactly when no item is on it |
| FarmGrid.ClickHarvestsFirstReadyItem | src/components/FarmGrid.tsx:26-27 | a click harvests exactly when the first item on the cell is ready, and harvests that item |
| FarmGrid.ClickPlacesOnlyOnFreeCell | src/components/FarmGrid.tsx:28-30 | a click places exactly when an item is selected and no item is on the cell |
| FarmGrid.NothingReadyNothingHarvested | src/components/FarmGrid.tsx:26-27 | while no item is ready, no click harvests |
| FarmGrid.ClickPlacementKeepsCellsDistinct | src/components/FarmGrid.tsx:20-30 | placing where a click decided keeps at most one item per cell |
| FarmGrid.CellContentCases | src/components/FarmGrid.tsx:33-60 | blank exactly when the cell is empty or its catalog entry unknown; harvestable image only for a ready crop, seedling only for a growing crop, the catalog image otherwise; every image shown is the catalog entry's own image |
| FarmGrid.CropCellShowsItsStage | src/components/FarmGrid.tsx:41-56 | a crop's cell is never blank, shows the first stage glyph while growing and the last one otherwise |
| FarmGrid.CellStylePriority | src/components/FarmGrid.tsx:62-82 | each style holds exactly under its condition, in the order ready, occupied, hovered target, target, idle |
| FarmGrid.TargetStyleMeansPlacement | src/components/FarmGrid.tsx:62-82 | a cell is styled as a target exactly when a click on it would place |
| FarmStore.OfTypeMembership | src/components/FarmStore.tsx:18-20 | an item is in a tab exactly when it is in the catalog with that type |
| FarmStore.CategoriesPartition | src/components/FarmStore.tsx:18-20 | the three tabs' sizes add up to the list's, and their multisets add up to the list's |
| FarmStore.CatalogCategories | src/components/FarmStore.tsx:18-20 | the tabs list carrot/tomato/wheat, hoe/can/basket and scarecrow/flower bed/fence, in catalog order |
| FarmStore.EnabledButtonForwards | src/components/FarmStore.tsx:57-64 | a click is forwarded exactly when the button is enabled, and then the price is covered |
| TaskManager.PointsFromInput | src/components/TaskManager.tsx:83 | the reward is never 0; input that does not parse, or parses to 0, gives 10; input that parses to a non-zero n gives n |
| TaskManager.PointsInputReadsNumber | src/components/TaskManager.tsx:83 | typing an integer's rendering sets the reward to it, or to 10 for zero |
| TaskManager.NegativeRewardAccepted | src/components/TaskManager.tsx:83 | typing "-5" sets the reward to -5 |
| TaskManager.ActiveCompletedPartition | src/components/TaskManager.tsx:26-27 | each task is in the list its flag says, the two multisets add up to the tasks', and both keep order |
| TaskManager.RecentlyCompleted | src/components/TaskManager.tsx:139 | the last min(3, n) completed tasks, in order |
| TaskManager.TaskForm.constructor | src/components/TaskManager.tsx:19-24 | the form starts empty with reward 10, dialog closed |
| TaskManager.TaskForm.SetTitle | src/components/TaskManager.tsx:64 | only the title changes |
| TaskManager.TaskForm.SetDescription | src/components/TaskManager.tsx:73 | only the description changes |
| TaskManager.TaskForm.SetPoints | src/components/TaskManager.tsx:83 | only the reward changes, to the parsed input |
| TaskManager.TaskForm.SetDialogOpen | src/components/TaskManager.tsx:48 | only the dialog state changes |
| TaskManager.TaskForm.HandleAddTask | src/components/TaskManager.tsx:29-35 | submits exactly when the trimmed title is non-empty, handing over the untrimmed fields and resetting to ""/""/10 with the dialog closed; otherwise nothing changes |
| StoreItems.FindStoreItem | src/components/FarmGrid.tsx:38 | the found entry is in the catalog with the id; nothing is found exactly when no entry has it |
| StoreItems.CatalogIdsDistinct | src/data/storeItems.ts:3-84 | nine entries with pairwise distinct ids |
| StoreItems.CropTableKeysAreCropIds | src/data/storeItems.ts:86-105 | the crop table's keys are exactly the ids of the crop-type catalog entries |
| StoreItems.CropItem | src/data/storeItems.ts:4-28 | every crop key has a crop-type catalog entry with that id |
| StoreItems.FindCropItem | src/data/storeItems.ts:4-28 | looking a crop key up in the catalog finds its entry |
| StoreItems.CropsAreProfitable | src/data/storeItems.ts:86-105 | for every crop, interval < growth time and harvest value > seed price |
| StoreItems.HarvestValueAtLeast25 | src/data/storeItems.ts:86-105 | every crop harvests for at least 25 points |
| StoreItems.CropDescriptionsMatchTable | src/data/storeItems.ts:10-26 | each crop's description ends with "Ready in G hours with watering every W", rendered from its table entry |
| StoreItems.CarrotDescription | src/data/storeItems.ts:10 | the carrot description states its table's growth time and interval |
| StoreItems.TomatoDescription | src/data/storeItems.ts:18 | the tomato description states its table's growth time and interval |
| StoreItems.WheatDescription | src/data/storeItems.ts:26 | the wheat description states its table's growth time and interval |
| StoreItems.OnlyToolsHaveStats | src/data/storeItems.ts:30-56 | an entry has stats exactly when it is a tool, and every multiplier is 1.5, at least 1 |
| StoreItems.CropStagesRunFromSeedlingToImage | src/data/storeItems.ts:86-105 | every crop's stage list is non-empty, starts with the seedling and ends with the crop's catalog image |
| StoreItems.CropStages | src/data/storeItems.ts:86-105 | the same, for one crop key |
| JsString.IntToString | src/components/FarmGrid.tsx:20 | a rendering is non-empty, starts with "-" exactly for negatives and with a digit otherwise, and is digits after its first character |
| JsString.IntToStringInjective | src/components/FarmGrid.tsx:20 | different integers render differently |
| JsString.TrimStart | src/components/TaskManager.tsx:30 | drops only leading white space, and all of it |
| JsString.TrimEnd | src/components/TaskManager.tsx:30 | drops only trailing white space, and all of it |
| JsString.TrimEmptyIff | src/components/TaskManager.tsx:30 | a string trims to "" exactly when it is all white space |
| JsString.ParseIntOfIntToString | src/components/TaskManager.tsx:83 | `parseInt` reads every integer's rendering back as that integer |

## Left out

- Persistence is not modelled: the `localStorage` load and save and the JSON round trip (src/hooks/useGameState.ts:16-37). This is I/O. The store starts from the initial state.
- The clock and the id generator (`new Date()`, `Date.now()`) are parameters. Ids are strings the caller supplies, and duplicates are allowed in every list.
- GameStateHook.GameStore.CompleteTask: takes one `now` that both stamps `completedAt` and drives the watering sweep. The source reads the clock twice (src/hooks/useGameState.ts:52 and :94), so its two instants can differ by the time between the reads.
- Rendering is left out: JSX, the dialog, tab and card widgets, toasts, the hover state and the selected store tab. Hover is a boolean parameter of `FarmGrid.CellStyleAt`.
- The stat badge percentage `Math.round((value - 1) * 100)` is floating-point display formatting and is not modelled.
- src/components/DebugPanel.tsx and src/contexts/DebugContext.tsx are not part of this model. They are a UI panel and a flag that no core code reads.
- React's batching and stale closures are not modelled. `completeTask`'s updates are applied in source order, each on the previous result.
- Points, prices and intervals are integers, and timestamps are integer milliseconds. Fractional JavaScript numbers, rounding in the hours division and `Date` objects that are invalid are not modelled. `GameStateHook.HoursComparisonIsExact` relates the exact comparison to the division over the reals.
- `in cropData` is modelled as membership among the table's own keys. A prototype key such as `"toString"` is not a crop key here. No catalog id is one.
- JsString.ParseInt: models integers exactly. It does not model the loss of precision beyond 2^53, and reads `-0` as 0.
- A task's `recurring` field is carried through unchanged. No core code reads it.
- `farmStats` is carried but never recomputed, as in the source.
- FarmTodoApp.App.HandlePlaceItem: states no cell-occupancy invariant, because the source handler does not check occupancy. Only `App.ClickCell`, which consults the grid first, keeps `App.Valid`.
- The store methods, the form methods and the app handlers change state. Their contracts are stated over old and new state, tying each change to the pure functions above.
