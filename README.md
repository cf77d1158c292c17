# Carsties auction platform: the business rules of the auction and search services

This project models, in Dafny, the hand-written business rules of two services of the
Carsties auction platform, each over an in-memory store.

**AuctionService (the authoritative store).** The database context is the class
`AuctionEntities.AuctionDbContext`. It holds a map from auction id to `Auction`, and each
auction carries its `Item` (make, model, year, color, mileage, image). The controller
operations are methods that take the context and change its map:

- list ordered by make;
- get by id;
- create, which forces the seller to "Test";
- partial update, which merges each nullable field with `??`;
- delete.

The AuctionFinished consumer records the winner and the sold amount, then sets the status.
Each method is proved against a pure function on maps (`ListByMake`, `UpdateStore`,
`Settle`). The properties the source promises are lemmas about those functions.

**SearchService (the read model).** The class `SearchModels.SearchDb` holds a map from
document id to search `Item`. The consumers of AuctionCreated and AuctionDeleted are
methods proved equal to the functions `ApplyCreated` and `ApplyDeleted`:

- AuctionCreated rejects the model "Foo" and a null model, and otherwise upserts by id;
- AuctionDeleted removes by id, or raises when the delete is not acknowledged.

The search endpoint is pure. It is a filter predicate (`Matches`: time window, winner,
seller, full-text match) plus the choice of sort key (`SortKeyFor`). `IsSearchResult` says
what the engine selects: the matching items before paging, in key order when no search
term is given. The catch-up client computes the watermark (the newest `UpdatedAt`)
and builds the request URI from it.

Modelling choices:

- Time is an integer `now` in seconds, and "six hours" is the constant 21600.
- Object mapping is a plain field copy.
- The document library's save and delete are assumed to be a map upsert by id and a map
  removal by id (`SearchModels.Upsert`, `SearchModels.Remove`). This is an assumption about
  the library. Its code is not part of this model.
- Strings are ordered ordinally (by code point), in lexicographic order (`Common.StrLe`).

Two places where the source is not what was evidently meant:

- `src/AuctionService/Controllers/AuctionsController.cs:64` ends in a stray `cd` token, so the
  file does not compile as written. The model gives Color the same `??` merge as the other
  four fields, which is the evident intent.
- `src/AuctionService/Consumers/auctionFinishedConsumer.cs:21` compares `ReservePrice` with
  itself. The comparison is never true, so the status always becomes `ReserveNotMet`. The
  model keeps this comparison as written (`Settle`), and `StatusAlwaysReserveNotMet` proves the
  consequence. The intended rule is not stated in the source, so the model does not invent one.

Behaviour that follows from the code and is easy to miss:

- Update writes a row only when a merged value actually differs. Otherwise `SaveChangesAsync`
  returns 0 and the action answers BadRequest. So an update whose fields are all null, or a
  second identical update, leaves the store unchanged and answers BadRequest. The store-level
  merge is idempotent.
- When the read model is empty, the `date` query value is empty: the projection yields null,
  and C# concatenates null as "". A null base address from configuration also becomes "".

## Model

| member | source | states |
|---|---|---|
| AuctionsController.GetAllAuctions | src/AuctionService/Controllers/AuctionsController.cs:19-24 | answers Ok with every stored auction exactly once (a permutation of the store's values), sorted ascending by Item.Make |
| AuctionsController.ListByMake | src/AuctionService/Controllers/AuctionsController.cs:21 | the ordered listing is sorted by make and, for a store keyed by id, is a permutation of the stored auctions |
| AuctionsController.InsertByMakeOrdered | src/AuctionService/Controllers/AuctionsController.cs:21 | inserting an auction into a make-sorted list keeps it sorted |
| AuctionsController.InsertByMakeMultiset | src/AuctionService/Controllers/AuctionsController.cs:21 | inserting adds exactly that auction and loses none |
| AuctionsController.GetAuctionById | src/AuctionService/Controllers/AuctionsController.cs:27-34 | answers Ok with the stored auction whose Id is the requested one exactly when such an auction is present, and NotFound otherwise |
| AuctionsController.CreateAuction | src/AuctionService/Controllers/AuctionsController.cs:37-51 | stores the mapped auction under its new id with Seller "Test", status Live and the DTO's item, price and end, and changes nothing else; a duplicate key throws and leaves the store unchanged |
| AuctionsController.CreateThenGet | src/AuctionService/Controllers/AuctionsController.cs:39-50 | a created auction is then retrievable by its id, with seller "Test" |
| AuctionsController.UpdateAuction | src/AuctionService/Controllers/AuctionsController.cs:54-73 | an absent id answers NotFound and leaves the store unchanged; otherwise the store becomes the field-wise merge, and the answer is Ok if something changed and BadRequest if nothing did |
| AuctionsController.UpdateTakesGivenFields | src/AuctionService/Controllers/AuctionsController.cs:62-66 | each of Make, Model, Color, Mileage and Year takes the DTO value when it is non-null and keeps the stored value when it is null |
| AuctionsController.UpdateAllNullIsIdentity | src/AuctionService/Controllers/AuctionsController.cs:62-66 | an update whose fields are all null leaves the store as it was |
| AuctionsController.UpdateIdempotent | src/AuctionService/Controllers/AuctionsController.cs:62-66 | applying the same update twice gives the same store as applying it once |
| AuctionsController.UpdateFrame | src/AuctionService/Controllers/AuctionsController.cs:56-66 | the update keeps the same ids and leaves every other auction untouched; in the target, only the five item fields can change (id, seller, status, reserve price, winner and the rest are kept) |
| AuctionsController.UpdatePreservesKeying | src/AuctionService/Controllers/AuctionsController.cs:56-66 | after an update, every auction is still stored under its own id |
| AuctionsController.DeleteAuction | src/AuctionService/Controllers/AuctionsController.cs:76-91 | an absent id answers NotFound and leaves the store unchanged; an existing id is removed, every other id keeps its value, and the answer is Ok |
| AuctionFinishedConsumer.Consume | src/AuctionService/Consumers/auctionFinishedConsumer.cs:11-23 | an absent auction id throws a null reference and leaves the store unchanged; otherwise only the target auction is replaced, by its settled form |
| AuctionFinishedConsumer.SoldRecordsWinner | src/AuctionService/Consumers/auctionFinishedConsumer.cs:15-19 | when the item sold, Winner and SoldAmount become the event's Winner and Amount |
| AuctionFinishedConsumer.UnsoldKeepsWinner | src/AuctionService/Consumers/auctionFinishedConsumer.cs:15-19 | when the item did not sell, Winner and SoldAmount keep their values |
| AuctionFinishedConsumer.StatusAlwaysReserveNotMet | src/AuctionService/Consumers/auctionFinishedConsumer.cs:21 | the status after the event is always ReserveNotMet and never Finished, because the reserve price is compared with itself |
| AuctionFinishedConsumer.SettleFrame | src/AuctionService/Consumers/auctionFinishedConsumer.cs:14-22 | only Winner, SoldAmount and Status of the auction change |
| AuctionFinishedConsumer.SettleIdempotent | src/AuctionService/Consumers/auctionFinishedConsumer.cs:15-22 | settling an auction twice with the same event is the same as settling it once |
| AuctionFinishedConsumer.ConsumeTwice | src/AuctionService/Consumers/auctionFinishedConsumer.cs:11-23 | consuming the same event twice gives the same outcome both times and the same store as consuming it once |
| SearchController.SortKeyFor | src/SearchService/Controller/SearchController.cs:29-34 | OrderBy "make" selects ascending Make, "new" selects descending CreatedAt, and anything else (null included) selects ascending AuctionEnd |
| SearchController.InOrderIsTotalPreorder | src/SearchService/Controller/SearchController.cs:29-34 | each sort key relates any two items, one way or the other, and is transitive, so it is a valid sort order |
| SearchController.FinishedWindow | src/SearchService/Controller/SearchController.cs:38 | "finished" keeps exactly the items with AuctionEnd < now |
| SearchController.EndingSoonWindow | src/SearchService/Controller/SearchController.cs:39 | "endingSoon" keeps exactly the items with now <= AuctionEnd < now + 6h |
| SearchController.DefaultWindow | src/SearchService/Controller/SearchController.cs:40 | any other FilterBy, null included, keeps exactly the items with AuctionEnd > now |
| SearchController.FinishedIsDisjoint | src/SearchService/Controller/SearchController.cs:38-40 | no item is matched both by "finished" and by any other filter |
| SearchController.EndingNowIsOnlyEndingSoon | src/SearchService/Controller/SearchController.cs:38-40 | an item ending exactly now is matched by "endingSoon" and by no other filter |
| SearchController.ParticipantFilters | src/SearchService/Controller/SearchController.cs:43-47 | a non-empty Winner or Seller demands exact equality on that field; a null or empty one imposes no restriction |
| SearchController.SearchResultIsFromStore | src/SearchService/Controller/SearchController.cs:24-52 | every result is a stored, matching, unaltered document, and every stored matching document is in the result before paging |
| AuctionCreatedConsumer.Consume | src/SearchService/Consumers/AuctionCreatedConsumer.cs:12-21 | the outcome and the new read model are those of one application of the event |
| AuctionCreatedConsumer.RejectsFoo | src/SearchService/Consumers/AuctionCreatedConsumer.cs:18 | the model "Foo" throws the argument exception and leaves the read model unchanged |
| AuctionCreatedConsumer.FooCheckIsCaseSensitive | src/SearchService/Consumers/AuctionCreatedConsumer.cs:18 | "foo" and "FOO" are accepted |
| AuctionCreatedConsumer.NullModelThrows | src/SearchService/Consumers/AuctionCreatedConsumer.cs:18 | a null model throws a null reference and leaves the read model unchanged |
| AuctionCreatedConsumer.AcceptedUpserts | src/SearchService/Consumers/AuctionCreatedConsumer.cs:16-20 | an accepted event maps its id to the mapped item, adds no other id and leaves other ids unchanged |
| AuctionCreatedConsumer.CreatedIdempotent | src/SearchService/Consumers/AuctionCreatedConsumer.cs:16-20 | applying the same event twice equals applying it once |
| AuctionCreatedConsumer.CreatedKeepsKeying | src/SearchService/Consumers/AuctionCreatedConsumer.cs:20 | after the event, every document is still stored under its own id |
| AuctionDeletedConsumer.Consume | src/SearchService/Consumers/AuctionDeletedConsumer.cs:18-24 | the outcome and the new read model are those of one application of the event, given the database's acknowledgement |
| AuctionDeletedConsumer.DeleteRemovesOnlyTarget | src/SearchService/Consumers/AuctionDeletedConsumer.cs:22 | after a successful delete, no document with the id remains and every other document is unchanged |
| AuctionDeletedConsumer.DeleteAbsentIsNoop | src/SearchService/Consumers/AuctionDeletedConsumer.cs:22-23 | deleting an absent id succeeds and changes nothing |
| AuctionDeletedConsumer.DeleteIdempotent | src/SearchService/Consumers/AuctionDeletedConsumer.cs:22-23 | deleting twice equals deleting once |
| AuctionDeletedConsumer.UnacknowledgedRaises | src/SearchService/Consumers/AuctionDeletedConsumer.cs:23 | an unacknowledged delete raises an error instead of succeeding |
| AuctionServiceHttpClient.Watermark | src/SearchService/Services/AuctionServiceHttpClient.cs:19 | an empty read model has no watermark; otherwise the watermark is the UpdatedAt of some stored item, and no item's UpdatedAt is larger |
| AuctionServiceHttpClient.WatermarkUnique | src/SearchService/Services/AuctionServiceHttpClient.cs:19 | the read model determines the watermark: any two candidates are equal |
| AuctionServiceHttpClient.GetItemsForSearchDb | src/SearchService/Services/AuctionServiceHttpClient.cs:17-20 | the URI is the configured base, then "/api/auctions/?date=", then the formatted watermark, which is empty for an empty read model; the read model is only read |

## Left out

- SearchController.SearchResultIsFromStore: the answer it describes is every matching item before paging; the engine returns one page of it (`SearchController.cs:49-52`). With a non-empty search term the engine sorts by text score first (`SearchController.cs:27`) and the OrderBy key only breaks ties; the model then places no order on the answer.
- AuctionFinishedConsumer.Consume: the event's AuctionId is taken to have the store's key type. The contract type that declares it is not part of this model; if it were a string, the lookup by key would throw on every event.
- Full-text matching, text-score sorting and pagination (`SearchController.cs:26-27, 49-59`) belong to the search engine. The text match is the parameter `textMatch`; page number, page size and page counts are not modelled.
- The clock: `now` is a parameter. The two readings of `DateTime.UtcNow` inside the "endingSoon" filter are taken to be the same instant.
- Date-to-text formatting (`UpdatedAt.ToString()`) is the parameter `format`. The HTTP call and the JSON decoding of its answer (`AuctionServiceHttpClient.cs:21`) are not modelled.
- Async/await, the message bus, retries, the outbox, and concurrent delivery of events are not modelled. Each handler is one sequential step on the store.
- AutoMapper mappings are field copies. The Auction and Item entity classes are not part of this model. A new auction is assumed to default to status Live, with both timestamps set to the current time.
- The ordering by Make uses ordinal string comparison. The database's collation is not modelled.
- CreateAuction: the new Guid is a parameter. The BadRequest branch after saving cannot happen, because adding an entity always writes a row, so it is not modelled.
- DeleteAuction: the BadRequest branch after saving cannot happen, because removing an entity always writes a row, so it is not modelled.
- AuctionDeletedConsumer.Consume: acknowledgement is a parameter. An unacknowledged delete is taken to leave the read model unchanged.
- The AuctionUpdated consumer is referenced by the search service's bootstrap but its code is not part of this model.
- Logging to the console is not modelled.
