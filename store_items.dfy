/**
 * The static catalog: the nine purchasable items and the growth table of the
 * three crops, with the facts about their contents that the rest of the game
 * relies on.
 */
module StoreItems {
  import opened Wrappers
  import opened Types
  import JsString
  import Seqs

  /** The seedling glyph: the first stage of every crop, and what the grid shows for a growing crop. */
  const SEEDLING := "\U{1F331}"

  const Carrot := StoreItem("carrot", "Carrot Seeds", Crop, 15,
    "Fast-growing carrots. " + ("Ready in " + "2 hours" + " with watering every " + "hour" + "."), "\U{1F955}", None)
  const Tomato := StoreItem("tomato", "Tomato Seeds", Crop, 25,
    "Juicy tomatoes. " + ("Ready in " + "4 hours" + " with watering every " + "2 hours" + "."), "\U{1F345}", None)
  const Wheat := StoreItem("wheat", "Wheat Seeds", Crop, 40,
    "Golden wheat. " + ("Ready in " + "6 hours" + " with watering every " + "3 hours" + "."), "\U{1F33E}", None)
  const BasicHoe := StoreItem("basic-hoe", "Basic Hoe", Tool, 100,
    "Increases planting speed by 50%.", "\U{1F528}", Some(map["speed" := 1.5]))
  const WaterCan := StoreItem("water-can", "Watering Can", Tool, 150,
    "Improves water efficiency, crops need less frequent watering.", "\U{1FAA3}", Some(map["waterEfficiency" := 1.5]))
  const HarvestBasket := StoreItem("harvest-basket", "Harvest Basket", Tool, 200,
    "Increases harvest amount by 50%.", "\U{1F9FA}", Some(map["harvestAmount" := 1.5]))
  const Scarecrow := StoreItem("scarecrow", "Scarecrow", Decoration, 75,
    "A friendly scarecrow to watch over your crops.", "\U{1F383}", None)
  const FlowerBed := StoreItem("flower-bed", "Flower Bed", Decoration, 60,
    "Beautiful flowers to brighten up your farm.", "\U{1F338}", None)
  const Fence := StoreItem("fence", "Wooden Fence", Decoration, 30,
    "Classic wooden fence for your farm boundaries.", "\U{1FAB5}", None)

  /** `storeItems`, in catalog order. */
  const Catalog: seq<StoreItem> :=
    [Carrot, Tomato, Wheat, BasicHoe, WaterCan, HarvestBasket, Scarecrow, FlowerBed, Fence]

  /** `cropData`, keyed by the catalog id of the crop. */
  const CropTable: map<string, CropData> :=
    map["carrot" := CarrotData, "tomato" := TomatoData, "wheat" := WheatData]

  const CarrotData := CropData(2, 1, 25, [SEEDLING, "\U{1F955}"])
  const TomatoData := CropData(4, 2, 40, [SEEDLING, "\U{1F33F}", "\U{1F345}"])
  const WheatData := CropData(6, 3, 60, [SEEDLING, "\U{1F33F}", "\U{1F33E}"])

  /** `storeItems.find(s => s.id === id)`. */
  function FindStoreItem(id: string): (r: Option<StoreItem>)
    ensures r.Some? ==> r.value in Catalog && r.value.id == id
    ensures r.None? <==> forall k :: 0 <= k < |Catalog| ==> Catalog[k].id != id
  {
    Seqs.Find(Catalog, (s: StoreItem) => s.id == id)
  }

  /** The catalog has nine entries, and no two share an id. */
  lemma CatalogIdsDistinct()
    ensures |Catalog| == 9
    ensures forall i, j :: 0 <= i < j < |Catalog| ==> Catalog[i].id != Catalog[j].id
  {
  }

  /** The crop table is keyed by exactly the ids of the crop-type catalog entries. */
  lemma CropTableKeysAreCropIds()
    ensures CropTable.Keys == set k | 0 <= k < |Catalog| && Catalog[k].itemType == Crop :: Catalog[k].id
  {
    var crops := set k | 0 <= k < |Catalog| && Catalog[k].itemType == Crop :: Catalog[k].id;
    assert Catalog[0].id in crops && Catalog[1].id in crops && Catalog[2].id in crops;
    forall id | id in crops ensures id in CropTable.Keys {
      var k :| 0 <= k < |Catalog| && Catalog[k].itemType == Crop && Catalog[k].id == id;
      assert k < 3;
    }
  }

  /** The catalog entry of the crop with this id. */
  function CropItem(id: string): (r: StoreItem)
    requires id in CropTable
    ensures r in Catalog && r.id == id && r.itemType == Crop
  {
    if id == "carrot" then Carrot else if id == "tomato" then Tomato else Wheat
  }

  /** Looking a crop up in the catalog finds its entry. */
  lemma FindCropItem(id: string)
    requires id in CropTable
    ensures FindStoreItem(id) == Some(CropItem(id))
  {
    var c := CropItem(id);
    var r := FindStoreItem(id);
    var k :| 0 <= k < |Catalog| && Catalog[k] == c;
    var j :| 0 <= j < |Catalog| && Catalog[j] == r.value;
    CatalogIdsDistinct();
    assert j == k;
  }

  /** Every crop needs watering more often than it takes to grow, and harvests for more than its seeds cost. */
  lemma CropsAreProfitable()
    ensures forall id :: id in CropTable ==>
      CropTable[id].wateringInterval < CropTable[id].growthTime
      && CropTable[id].harvestValue > CropItem(id).price
  {
  }

  /** The smallest harvest value is the carrot's 25. */
  lemma HarvestValueAtLeast25(id: string)
    requires id in CropTable
    ensures CropTable[id].harvestValue >= 25
  {
    if id == "carrot" {
      assert CropTable[id] == CarrotData;
    } else if id == "tomato" {
      assert CropTable[id] == TomatoData;
    } else {
      assert CropTable[id] == WheatData;
    }
  }

  /** `n hours`, as the descriptions write a number of hours. */
  function Hours(n: int): string {
    JsString.IntToString(n) + " hours"
  }

  /** The growth sentence a crop's description ends with, built from its growth table entry. */
  function GrowthSentence(c: CropData): string {
    "Ready in " + Hours(c.growthTime) + " with watering every "
    + (if c.wateringInterval == 1 then "hour" else Hours(c.wateringInterval)) + "."
  }

  /** The description ends with `suffix`. */
  predicate EndsWith(description: string, suffix: string) {
    |suffix| <= |description| && description[|description| - |suffix|..] == suffix
  }

  /** Each crop's description states the growth time and watering interval of its table entry. */
  lemma CropDescriptionsMatchTable()
    ensures forall id :: id in CropTable ==> EndsWith(CropItem(id).description, GrowthSentence(CropTable[id]))
  {
    CarrotDescription();
    TomatoDescription();
    WheatDescription();
  }

  lemma CarrotDescription()
    ensures EndsWith(Carrot.description, GrowthSentence(CarrotData))
  {
    CarrotSentence();
    EndsWithConcat("Fast-growing carrots. ", GrowthSentence(CarrotData));
  }

  lemma CarrotSentence()
    ensures GrowthSentence(CarrotData) == "Ready in " + "2 hours" + " with watering every " + "hour" + "."
  {
    assert Hours(2) == "2 hours";
  }

  lemma TomatoDescription()
    ensures EndsWith(Tomato.description, GrowthSentence(TomatoData))
  {
    TomatoSentence();
    EndsWithConcat("Juicy tomatoes. ", GrowthSentence(TomatoData));
  }

  lemma TomatoSentence()
    ensures GrowthSentence(TomatoData) == "Ready in " + "4 hours" + " with watering every " + "2 hours" + "."
  {
    assert Hours(4) == "4 hours" && Hours(2) == "2 hours";
  }

  lemma WheatDescription()
    ensures EndsWith(Wheat.description, GrowthSentence(WheatData))
  {
    WheatSentence();
    EndsWithConcat("Golden wheat. ", GrowthSentence(WheatData));
  }

  lemma WheatSentence()
    ensures GrowthSentence(WheatData) == "Ready in " + "6 hours" + " with watering every " + "3 hours" + "."
  {
    assert Hours(6) == "6 hours" && Hours(3) == "3 hours";
  }

  lemma EndsWithConcat(intro: string, suffix: string)
    ensures EndsWith(intro + suffix, suffix)
  {
    assert (intro + suffix)[|intro|..] == suffix;
  }

  /** Only tools carry stats, and every multiplier a tool has is 1.5, so at least 1. */
  lemma OnlyToolsHaveStats()
    ensures forall k :: 0 <= k < |Catalog| ==> (Catalog[k].stats.Some? <==> Catalog[k].itemType == Tool)
    ensures forall k, e :: 0 <= k < |Catalog| && Catalog[k].stats.Some? && e in Catalog[k].stats.value ==>
      Catalog[k].stats.value[e] == 1.5 >= 1.0
  {
  }

  /** Every crop's stage glyphs start with the seedling and end with the crop's catalog image. */
  lemma CropStagesRunFromSeedlingToImage()
    ensures forall id :: id in CropTable ==>
      var stages := CropTable[id].stages;
      |stages| > 0 && stages[0] == SEEDLING && stages[|stages| - 1] == CropItem(id).image
  {
    forall id | id in CropTable
      ensures |CropTable[id].stages| > 0 && CropTable[id].stages[0] == SEEDLING
      ensures CropTable[id].stages[|CropTable[id].stages| - 1] == CropItem(id).image
    {
      CropStages(id);
    }
  }

  lemma CropStages(id: string)
    requires id in CropTable
    ensures var stages := CropTable[id].stages;
      |stages| > 0 && stages[0] == SEEDLING && stages[|stages| - 1] == CropItem(id).image
  {
    if id == "carrot" {
      assert CropTable[id] == CarrotData;
    } else if id == "tomato" {
      assert CropTable[id] == TomatoData;
    } else {
      assert CropTable[id] == WheatData;
    }
  }
}
