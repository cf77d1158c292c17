/** The SearchService's handler of the AuctionDeleted event: it deletes the
    item with the event's id and raises an error when the database does not
    acknowledge the delete. */
module AuctionDeletedConsumer {
  import opened Common
  import opened SearchModels

  datatype AuctionDeleted = AuctionDeleted(id: string)

  const ProblemMessage := "Problem deleting auction"

  /** The effect of one delivery; `acknowledged` is the database's answer. */
  function ApplyDeleted(items: map<string, Item>, msg: AuctionDeleted, acknowledged: bool): Applied
  {
    if acknowledged then Applied(Done, Remove(items, msg.id))
    else Applied(Thrown(MessageException(ProblemMessage)), items)
  }

  method Consume(db: SearchDb, msg: AuctionDeleted, acknowledged: bool) returns (r: Outcome)
    requires db.Valid()
    modifies db
    ensures db.Valid()
    ensures Applied(r, db.items) == ApplyDeleted(old(db.items), msg, acknowledged)
  {
    if !acknowledged {
      return Thrown(MessageException(ProblemMessage));
    }
    db.items := db.items - {msg.id};
    r := Done;
  }

  /** After a successful delete the id is gone and every other item is kept. */
  lemma DeleteRemovesOnlyTarget(items: map<string, Item>, msg: AuctionDeleted)
    ensures var after := ApplyDeleted(items, msg, true);
      && after.outcome == Done
      && msg.id !in after.items
      && after.items.Keys == items.Keys - {msg.id}
      && forall id :: id in items && id != msg.id ==> after.items[id] == items[id]
  {
  }

  lemma DeleteAbsentIsNoop(items: map<string, Item>, msg: AuctionDeleted)
    requires msg.id !in items
    ensures ApplyDeleted(items, msg, true) == Applied(Done, items)
  {
  }

  lemma DeleteIdempotent(items: map<string, Item>, msg: AuctionDeleted)
    ensures ApplyDeleted(ApplyDeleted(items, msg, true).items, msg, true) == ApplyDeleted(items, msg, true)
  {
  }

  lemma UnacknowledgedRaises(items: map<string, Item>, msg: AuctionDeleted)
    ensures ApplyDeleted(items, msg, false).outcome.Thrown?
    ensures ApplyDeleted(items, msg, false).items == items
  {
  }
}
