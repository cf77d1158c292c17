/** The AuctionService's handler of the AuctionFinished event: it records the
    winner and sold amount of a sold item and sets the auction's status. */
module AuctionFinishedConsumer {
  import opened Common
  import opened AuctionEntities

  datatype AuctionFinished = AuctionFinished(
    itemSold: bool, auctionId: Guid, winner: Option<string>, seller: string, amount: Option<int>)

  /** The auction after the event, as the handler leaves it. The status rule
      is kept as written: it compares the reserve price with itself. */
  function Settle(a: Auction, msg: AuctionFinished): Auction
  {
    var sold := if msg.itemSold then a.(winner := msg.winner, soldAmount := msg.amount) else a;
    sold.(status := if sold.reservePrice > sold.reservePrice then Finished else ReserveNotMet)
  }

  method Consume(context: AuctionDbContext, msg: AuctionFinished) returns (r: Outcome)
    requires context.Valid()
    modifies context
    ensures context.Valid()
    ensures msg.auctionId !in old(context.auctions) ==>
      r == Thrown(NullReference) && context.auctions == old(context.auctions)
    ensures msg.auctionId in old(context.auctions) ==>
      && r == Done
      && context.auctions == old(context.auctions)[msg.auctionId := Settle(old(context.auctions)[msg.auctionId], msg)]
  {
    if msg.auctionId !in context.auctions {
      // FindAsync yields null and the first field access throws
      return Thrown(NullReference);
    }
    var auction := context.auctions[msg.auctionId];
    if msg.itemSold {
      auction := auction.(winner := msg.winner);
      auction := auction.(soldAmount := msg.amount);
    }
    auction := auction.(status := if auction.reservePrice > auction.reservePrice then Finished else ReserveNotMet);
    context.auctions := context.auctions[msg.auctionId := auction];
    r := Done;
  }

  lemma SoldRecordsWinner(a: Auction, msg: AuctionFinished)
    requires msg.itemSold
    ensures Settle(a, msg).winner == msg.winner
    ensures Settle(a, msg).soldAmount == msg.amount
  {
  }

  lemma UnsoldKeepsWinner(a: Auction, msg: AuctionFinished)
    requires !msg.itemSold
    ensures Settle(a, msg).winner == a.winner
    ensures Settle(a, msg).soldAmount == a.soldAmount
  {
  }

  /** The status rule never yields Finished, whatever the bids and reserve. */
  lemma StatusAlwaysReserveNotMet(a: Auction, msg: AuctionFinished)
    ensures Settle(a, msg).status == ReserveNotMet
    ensures Settle(a, msg).status != Finished
  {
  }

  /** Only Winner, SoldAmount and Status change. */
  lemma SettleFrame(a: Auction, msg: AuctionFinished)
    ensures Settle(a, msg).(winner := a.winner, soldAmount := a.soldAmount, status := a.status) == a
  {
  }

  lemma SettleIdempotent(a: Auction, msg: AuctionFinished)
    ensures Settle(Settle(a, msg), msg) == Settle(a, msg)
  {
  }

  /** Consuming the same event twice leaves the store as consuming it once. */
  method ConsumeTwice(context: AuctionDbContext, msg: AuctionFinished) returns (first: Outcome, second: Outcome)
    requires context.Valid()
    modifies context
    ensures first == second
    ensures msg.auctionId in old(context.auctions) ==>
      context.auctions == old(context.auctions)[msg.auctionId := Settle(old(context.auctions)[msg.auctionId], msg)]
    ensures msg.auctionId !in old(context.auctions) ==> context.auctions == old(context.auctions)
  {
    first := Consume(context, msg);
    second := Consume(context, msg);
    if msg.auctionId in old(context.auctions) {
      SettleIdempotent(old(context.auctions)[msg.auctionId], msg);
    }
  }
}
