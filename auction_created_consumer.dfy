/** The SearchService's handler of the AuctionCreated event: it maps the
    event to an Item, refuses a car whose model is "Foo", and saves the item. */
module AuctionCreatedConsumer {
  import opened Common
  import opened SearchModels

  datatype AuctionCreated = AuctionCreated(
    id: string,
    createdAt: Time,
    updatedAt: Time,
    auctionEnd: Time,
    seller: Option<string>,
    winner: Option<string>,
    make: string,
    model: Option<string>,
    year: int,
    color: string,
    mileage: int,
    imageUrl: string)

  const FooMessage := "Can not sell cars with name of Foo"

  /** The object mapping: a field-by-field copy. */
  function ToItem(msg: AuctionCreated): Item
  {
    Item(msg.id, msg.createdAt, msg.updatedAt, msg.auctionEnd, msg.seller, msg.winner,
         msg.make, msg.model, msg.year, msg.color, msg.mileage, msg.imageUrl)
  }

  /** The effect of one delivery of the event on the read model. */
  function ApplyCreated(items: map<string, Item>, msg: AuctionCreated): Applied
  {
    var item := ToItem(msg);
    if item.model.None? then Applied(Thrown(NullReference), items)
    else if item.model.value == "Foo" then Applied(Thrown(ArgumentException(FooMessage)), items)
    else Applied(Done, Upsert(items, item))
  }

  method Consume(db: SearchDb, msg: AuctionCreated) returns (r: Outcome)
    requires db.Valid()
    modifies db
    ensures db.Valid()
    ensures Applied(r, db.items) == ApplyCreated(old(db.items), msg)
  {
    var item := ToItem(msg);
    if item.model.None? {
      // `item.Model.Equals(...)` on a null Model
      return Thrown(NullReference);
    }
    if item.model.value == "Foo" {
      return Thrown(ArgumentException(FooMessage));
    }
    db.items := db.items[item.id := item];
    r := Done;
  }

  lemma RejectsFoo(items: map<string, Item>, msg: AuctionCreated)
    requires msg.model == Some("Foo")
    ensures ApplyCreated(items, msg) == Applied(Thrown(ArgumentException(FooMessage)), items)
  {
  }

  /** The comparison is exact: other spellings are accepted. */
  lemma FooCheckIsCaseSensitive(items: map<string, Item>, msg: AuctionCreated)
    requires msg.model == Some("foo") || msg.model == Some("FOO")
    ensures ApplyCreated(items, msg).outcome == Done
  {
  }

  lemma NullModelThrows(items: map<string, Item>, msg: AuctionCreated)
    requires msg.model.None?
    ensures ApplyCreated(items, msg) == Applied(Thrown(NullReference), items)
  {
  }

  /** An accepted event stores its item under its id and touches nothing else. */
  lemma AcceptedUpserts(items: map<string, Item>, msg: AuctionCreated)
    requires msg.model.Some? && msg.model.value != "Foo"
    ensures var after := ApplyCreated(items, msg);
      && after.outcome == Done
      && after.items.Keys == items.Keys + {msg.id}
      && after.items[msg.id] == ToItem(msg)
      && forall id :: id in items && id != msg.id ==> after.items[id] == items[id]
  {
  }

  lemma CreatedIdempotent(items: map<string, Item>, msg: AuctionCreated)
    ensures ApplyCreated(ApplyCreated(items, msg).items, msg) == ApplyCreated(items, msg)
  {
  }

  lemma CreatedKeepsKeying(items: map<string, Item>, msg: AuctionCreated)
    requires KeyedByItemId(items)
    ensures KeyedByItemId(ApplyCreated(items, msg).items)
  {
  }
}
