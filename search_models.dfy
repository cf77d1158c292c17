/** The SearchService's read model: one Item document per auction, keyed by
    its id, and the two store operations the consumers use (save = upsert by
    id, delete by id), as the document library is assumed to behave. */
module SearchModels {
  import opened Common

  datatype Item = Item(
    id: string,
    createdAt: Time,
    updatedAt: Time,
    auctionEnd: Time,
    seller: Option<string>,
    winner: Option<string>,
    make: string,
    model: Option<string>,
    year: int,
    color: string,
    mileage: int,
    imageUrl: string)

  /** Every document sits under its own id. */
  predicate KeyedByItemId(m: map<string, Item>)
  {
    forall id :: id in m ==> m[id].id == id
  }

  /** The Item collection of the search database. */
  class SearchDb {
    var items: map<string, Item>

    ghost predicate Valid()
      reads this
    {
      KeyedByItemId(items)
    }

    constructor ()
      ensures Valid() && items == map[]
    {
      items := map[];
    }
  }

  /** `item.SaveAsync()`: insert, or replace the document with the same id. */
  function Upsert(items: map<string, Item>, item: Item): (r: map<string, Item>)
    ensures r.Keys == items.Keys + {item.id}
    ensures r[item.id] == item
    ensures forall id :: id in items && id != item.id ==> r[id] == items[id]
  {
    items[item.id := item]
  }

  /** `DB.DeleteAsync<Item>(id)`: remove the document with that id, if any. */
  function Remove(items: map<string, Item>, id: string): (r: map<string, Item>)
    ensures r.Keys == items.Keys - {id}
    ensures forall other :: other in r ==> r[other] == items[other]
  {
    items - {id}
  }

  /** What applying one event leaves: how the handler ended, and the documents. */
  datatype Applied = Applied(outcome: Outcome, items: map<string, Item>)
}
