/** The SearchService's catch-up request to the AuctionService: the newest
    UpdatedAt in the read model is the watermark, sent as the `date` query
    value. Date-to-text formatting is a parameter; the HTTP call is not modelled. */
module AuctionServiceHttpClient {
  import opened Common
  import opened SearchModels

  const DeltaPath := "/api/auctions/?date="

  function UpdatedTimes(items: map<string, Item>): set<Time>
  {
    set id | id in items :: items[id].updatedAt
  }

  lemma UpdatedTimesNonEmpty(items: map<string, Item>)
    requires items != map[]
    ensures UpdatedTimes(items) != {}
  {
    var id := PickOne(items.Keys);
    assert items[id].updatedAt in UpdatedTimes(items);
  }

  /** `w` is the UpdatedAt of some item and no item is newer. */
  predicate IsWatermark(items: map<string, Item>, w: Time)
  {
    && (exists id :: id in items && items[id].updatedAt == w)
    && (forall id :: id in items ==> items[id].updatedAt <= w)
  }

  /** The first UpdatedAt in descending order, or nothing for an empty read model. */
  function Watermark(items: map<string, Item>): (w: Option<Time>)
    ensures w.None? <==> items == map[]
    ensures w.Some? ==> IsWatermark(items, w.value)
  {
    if items == map[] then None
    else
      UpdatedTimesNonEmpty(items);
      var m := MaxOf(UpdatedTimes(items));
      assert forall id :: id in items ==> items[id].updatedAt in UpdatedTimes(items);
      Some(m)
  }

  /** The watermark is determined by the read model: any two agree. */
  lemma WatermarkUnique(items: map<string, Item>, v: Time, w: Time)
    requires IsWatermark(items, v) && IsWatermark(items, w)
    ensures v == w
  {
  }

  /** Builds the catch-up request URI from the configured base address; it
      only reads the read model. */
  method GetItemsForSearchDb(db: SearchDb, baseUrl: Option<string>, format: Time -> string)
    returns (uri: string)
    ensures db.items == map[] ==> uri == NullToEmpty(baseUrl) + DeltaPath
    ensures db.items != map[] ==>
      exists w :: IsWatermark(db.items, w) && uri == NullToEmpty(baseUrl) + DeltaPath + format(w)
  {
    var lastUpdated: Option<string> := None;
    var newest := Watermark(db.items);
    if newest.Some? {
      lastUpdated := Some(format(newest.value));
    }
    uri := NullToEmpty(baseUrl) + DeltaPath + NullToEmpty(lastUpdated);
  }
}
