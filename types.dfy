/**
 * The records of the farm-todo game: tasks, catalog entries, placed farm
 * items and the persisted game state. Dates are milliseconds since the epoch
 * (`Date.getTime()`); optional fields are `Option`s.
 */
module Types {
  import opened Wrappers

  /** Milliseconds since the epoch. */
  type Timestamp = int

  datatype RecurrenceKind = Daily | Weekly | Custom

  /** How a task repeats; `interval` is used by custom recurrences. */
  datatype Recurrence = Recurrence(kind: RecurrenceKind, interval: Option<int>)

  datatype Task = Task(
    id: string,
    title: string,
    description: Option<string>,
    completed: bool,
    points: int,
    createdAt: Timestamp,
    completedAt: Option<Timestamp>,
    recurring: Option<Recurrence>)

  /** What a caller of `addTask` supplies: a task without id, creation time and completed flag. */
  datatype NewTask = NewTask(
    title: string,
    description: Option<string>,
    points: int,
    completedAt: Option<Timestamp>,
    recurring: Option<Recurrence>)

  datatype ItemType = Crop | Tool | Decoration

  /** A catalog entry; `stats` maps an effect name to its multiplier. */
  datatype StoreItem = StoreItem(
    id: string,
    name: string,
    itemType: ItemType,
    price: int,
    description: string,
    image: string,
    stats: Option<map<string, real>>)

  datatype Stage = Planted | Growing | Ready | Harvested

  /** A placed item; `wateringInterval` is in hours. */
  datatype FarmItem = FarmItem(
    id: string,
    storeItemId: string,
    x: int,
    y: int,
    plantedAt: Option<Timestamp>,
    lastWatered: Option<Timestamp>,
    wateringInterval: Option<int>,
    readyToHarvest: Option<bool>,
    stage: Stage)

  /** What a caller of `addFarmItem` supplies: a farm item without its id. */
  datatype NewFarmItem = NewFarmItem(
    storeItemId: string,
    x: int,
    y: int,
    plantedAt: Option<Timestamp>,
    lastWatered: Option<Timestamp>,
    wateringInterval: Option<int>,
    readyToHarvest: Option<bool>,
    stage: Stage)

  datatype FarmStats = FarmStats(speed: real, harvestAmount: real, waterEfficiency: real)

  datatype GameState = GameState(
    points: int,
    farmItems: seq<FarmItem>,
    completedTasks: seq<string>,
    farmStats: FarmStats)

  /** Growth parameters of a crop: times in hours, the harvest value in points, and the glyphs of its stages. */
  datatype CropData = CropData(growthTime: int, wateringInterval: int, harvestValue: int, stages: seq<string>)
}
