/** The AuctionService's authoritative store: an Auction entity with its
    Item, kept in the database context's Auctions set, keyed by id. */
module AuctionEntities {
  import opened Common

  type Guid = int

  datatype Status = Live | Finished | ReserveNotMet

  /** The car being sold; the fields an update may change. */
  datatype Item = Item(make: string, model: string, year: int, color: string, mileage: int, imageUrl: string)

  datatype Auction = Auction(
    id: Guid,
    reservePrice: int,
    seller: string,
    winner: Option<string>,
    soldAmount: Option<int>,
    currentHighBid: Option<int>,
    createdAt: Time,
    updatedAt: Time,
    auctionEnd: Time,
    status: Status,
    item: Item)

  /** Every stored auction sits under its own id. */
  predicate KeyedById(m: map<Guid, Auction>)
  {
    forall id :: id in m ==> m[id].id == id
  }

  /** The database context: its Auctions set, as id -> entity. */
  class AuctionDbContext {
    var auctions: map<Guid, Auction>

    ghost predicate Valid()
      reads this
    {
      KeyedById(auctions)
    }

    constructor ()
      ensures Valid() && auctions == map[]
    {
      auctions := map[];
    }
  }
}
