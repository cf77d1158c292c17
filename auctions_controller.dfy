/** The auctions HTTP controller: list, get, create, update and delete over
    the database context. Object mapping (AutoMapper) is a plain field copy. */
module AuctionsController {
  import opened Common
  import opened AuctionEntities

  datatype CreateAuctionDto = CreateAuctionDto(
    make: string, model: string, year: int, color: string, mileage: int,
    imageUrl: string, reservePrice: int, auctionEnd: Time)

  /** Every field is nullable: null means "keep the stored value". */
  datatype UpdateAuctionDto = UpdateAuctionDto(
    make: Option<string>, model: Option<string>, color: Option<string>,
    mileage: Option<int>, year: Option<int>)

  /** The HTTP outcome of an action; Faulted stands for an unhandled exception. */
  datatype ActionResult<T> =
    | Ok(value: T)
    | Created(value: T)
    | NotFound
    | BadRequest(message: string)
    | Faulted(exception: Exception)

  // ---------------------------------------------------------------- listing

  /** Sorted ascending by Item.Make. */
  predicate MakeOrdered(s: seq<Auction>)
  {
    forall i, j :: 0 <= i < j < |s| ==> StrLe(s[i].item.make, s[j].item.make)
  }

  function InsertByMake(s: seq<Auction>, a: Auction): seq<Auction>
  {
    if s == [] then [a]
    else if StrLe(a.item.make, s[0].item.make) then [a] + s
    else [s[0]] + InsertByMake(s[1..], a)
  }

  lemma {:induction false} InsertByMakeMultiset(s: seq<Auction>, a: Auction)
    ensures multiset(InsertByMake(s, a)) == multiset(s) + multiset{a}
  {
    if s != [] && !StrLe(a.item.make, s[0].item.make) {
      InsertByMakeMultiset(s[1..], a);
      assert s == [s[0]] + s[1..];
    }
  }

  /** Putting in front an element no later than all others keeps the order. */
  lemma ConsMakeOrdered(x: Auction, t: seq<Auction>)
    requires MakeOrdered(t)
    requires forall y :: y in multiset(t) ==> StrLe(x.item.make, y.item.make)
    ensures MakeOrdered([x] + t)
  {
  }

  lemma {:induction false} InsertByMakeOrdered(s: seq<Auction>, a: Auction)
    requires MakeOrdered(s)
    ensures MakeOrdered(InsertByMake(s, a))
  {
    if s == [] {
    } else if StrLe(a.item.make, s[0].item.make) {
      forall y | y in multiset(s) ensures StrLe(a.item.make, y.item.make) {
        var k :| 0 <= k < |s| && s[k] == y;
        if k > 0 {
          StrLeTransitive(a.item.make, s[0].item.make, y.item.make);
        }
      }
      ConsMakeOrdered(a, s);
    } else {
      StrLeTotal(a.item.make, s[0].item.make);
      var tail := s[1..];
      InsertByMakeOrdered(tail, a);
      InsertByMakeMultiset(tail, a);
      forall y | y in multiset(InsertByMake(tail, a)) ensures StrLe(s[0].item.make, y.item.make) {
        if y != a {
          assert y in multiset(tail);
          var k :| 0 <= k < |tail| && tail[k] == y;
          assert s[k + 1] == y;
        }
      }
      ConsMakeOrdered(s[0], InsertByMake(tail, a));
    }
  }

  /** What `OrderBy(o => o.Item.Make).ToListAsync()` yields: the stored
      auctions, each once, sorted by make (ties in an unspecified order). */
  function ListByMake(m: map<Guid, Auction>): (r: seq<Auction>)
    ensures MakeOrdered(r)
    ensures KeyedById(m) ==> multiset(r) == multiset(m.Values)
    decreases m.Keys
  {
    if m.Keys == {} then []
    else
      var k := MaxOf(m.Keys);
      var rest := m - {k};
      var listed := ListByMake(rest);
      InsertByMakeOrdered(listed, m[k]);
      InsertByMakeMultiset(listed, m[k]);
      if KeyedById(m) then ValuesWithout(m, k); InsertByMake(listed, m[k])
      else InsertByMake(listed, m[k])
  }

  lemma ValuesWithout(m: map<Guid, Auction>, k: Guid)
    requires k in m && KeyedById(m)
    ensures KeyedById(m - {k})
    ensures multiset((m - {k}).Values) + multiset{m[k]} == multiset(m.Values)
  {
    var rest := m - {k};
    forall v | v in m.Values ensures v in rest.Values || v == m[k] {
      if forall j :: j in m ==> m[j] != v {
        assert false;
      }
      var j :| j in m && m[j] == v;
      if j != k { assert rest[j] == v; }
    }
    assert m.Values == rest.Values + {m[k]};
    forall j | j in rest ensures rest[j] != m[k] {
      assert rest[j].id == j;
    }
    assert m[k] !in rest.Values;
  }

  method GetAllAuctions(context: AuctionDbContext) returns (r: ActionResult<seq<Auction>>)
    requires context.Valid()
    ensures r.Ok?
    ensures MakeOrdered(r.value)
    ensures multiset(r.value) == multiset(context.auctions.Values)
  {
    r := Ok(ListByMake(context.auctions));
  }

  // ---------------------------------------------------------------- get

  method GetAuctionById(context: AuctionDbContext, id: Guid) returns (r: ActionResult<Auction>)
    requires context.Valid()
    ensures r.Ok? <==> id in context.auctions
    ensures r.Ok? ==> r.value == context.auctions[id] && r.value.id == id
    ensures !r.Ok? ==> r == NotFound
  {
    if id !in context.auctions {
      return NotFound;
    }
    r := Ok(context.auctions[id]);
  }

  // ---------------------------------------------------------------- create

  /** The mapped entity, before the seller is set. The id is the freshly
      generated Guid; the entity's own defaults give status Live and both
      timestamps the current time. */
  function FromCreateDto(dto: CreateAuctionDto, id: Guid, now: Time): Auction
  {
    Auction(id, dto.reservePrice, "", None, None, None, now, now, dto.auctionEnd, Live,
            Item(dto.make, dto.model, dto.year, dto.color, dto.mileage, dto.imageUrl))
  }

  method CreateAuction(context: AuctionDbContext, dto: CreateAuctionDto, id: Guid, now: Time)
    returns (r: ActionResult<Auction>)
    requires context.Valid()
    modifies context
    ensures context.Valid()
    ensures id in old(context.auctions) ==>
      r == Faulted(DbUpdateException) && context.auctions == old(context.auctions)
    ensures id !in old(context.auctions) ==>
      && r.Created?
      && r.value.id == id
      && r.value.seller == "Test"
      && r.value.item == Item(dto.make, dto.model, dto.year, dto.color, dto.mileage, dto.imageUrl)
      && r.value.reservePrice == dto.reservePrice
      && r.value.auctionEnd == dto.auctionEnd
      && r.value.status == Live
      && context.auctions == old(context.auctions)[id := r.value]
  {
    var auction := FromCreateDto(dto, id, now);
    auction := auction.(seller := "Test");
    if id in context.auctions {
      // the key is taken: saving the added entity throws
      return Faulted(DbUpdateException);
    }
    context.auctions := context.auctions[id := auction];
    r := Created(auction);
  }

  /** A created auction is then found by its id, with seller "Test". */
  method CreateThenGet(context: AuctionDbContext, dto: CreateAuctionDto, id: Guid, now: Time)
    returns (found: ActionResult<Auction>)
    requires context.Valid() && id !in context.auctions
    modifies context
    ensures found.Ok? && found.value.id == id && found.value.seller == "Test"
    ensures context.auctions == old(context.auctions)[id := found.value]
  {
    var created := CreateAuction(context, dto, id, now);
    found := GetAuctionById(context, id);
  }

  // ---------------------------------------------------------------- update

  /** The field-wise `??` merge of an update into an item. */
  function MergeItem(item: Item, dto: UpdateAuctionDto): Item
  {
    item.(make := Coalesce(dto.make, item.make),
          model := Coalesce(dto.model, item.model),
          color := Coalesce(dto.color, item.color),
          mileage := Coalesce(dto.mileage, item.mileage),
          year := Coalesce(dto.year, item.year))
  }

  /** The store after an update of `id` (unchanged when `id` is absent). */
  function UpdateStore(store: map<Guid, Auction>, id: Guid, dto: UpdateAuctionDto): map<Guid, Auction>
  {
    if id in store then store[id := store[id].(item := MergeItem(store[id].item, dto))]
    else store
  }

  method UpdateAuction(context: AuctionDbContext, id: Guid, dto: UpdateAuctionDto)
    returns (r: ActionResult<()>)
    requires context.Valid()
    modifies context
    ensures context.Valid()
    ensures context.auctions == UpdateStore(old(context.auctions), id, dto)
    ensures id !in old(context.auctions) ==> r == NotFound
    ensures id in old(context.auctions) ==>
      r == if context.auctions == old(context.auctions) then BadRequest("") else Ok(())
  {
    if id !in context.auctions {
      return NotFound;
    }
    var auction := context.auctions[id];
    var item := auction.item;
    item := item.(make := Coalesce(dto.make, item.make));
    item := item.(model := Coalesce(dto.model, item.model));
    item := item.(color := Coalesce(dto.color, item.color));
    item := item.(mileage := Coalesce(dto.mileage, item.mileage));
    item := item.(year := Coalesce(dto.year, item.year));
    context.auctions := context.auctions[id := auction.(item := item)];
    // SaveChanges writes a row only when a tracked value actually changed
    var written := item != auction.item;
    if written {
      r := Ok(());
    } else {
      r := BadRequest("");
    }
  }

  lemma UpdateTakesGivenFields(store: map<Guid, Auction>, id: Guid, dto: UpdateAuctionDto)
    requires id in store
    ensures var it := UpdateStore(store, id, dto)[id].item;
      && (dto.make.Some? ==> it.make == dto.make.value)
      && (dto.make.None? ==> it.make == store[id].item.make)
      && (dto.model.Some? ==> it.model == dto.model.value)
      && (dto.model.None? ==> it.model == store[id].item.model)
      && (dto.color.Some? ==> it.color == dto.color.value)
      && (dto.color.None? ==> it.color == store[id].item.color)
      && (dto.mileage.Some? ==> it.mileage == dto.mileage.value)
      && (dto.mileage.None? ==> it.mileage == store[id].item.mileage)
      && (dto.year.Some? ==> it.year == dto.year.value)
      && (dto.year.None? ==> it.year == store[id].item.year)
  {
  }

  lemma UpdateAllNullIsIdentity(store: map<Guid, Auction>, id: Guid)
    ensures UpdateStore(store, id, UpdateAuctionDto(None, None, None, None, None)) == store
  {
    if id in store {
      assert store[id].(item := MergeItem(store[id].item, UpdateAuctionDto(None, None, None, None, None))) == store[id];
    }
  }

  lemma UpdateIdempotent(store: map<Guid, Auction>, id: Guid, dto: UpdateAuctionDto)
    ensures UpdateStore(UpdateStore(store, id, dto), id, dto) == UpdateStore(store, id, dto)
  {
  }

  /** Only the five item fields of the target change. */
  lemma UpdateFrame(store: map<Guid, Auction>, id: Guid, dto: UpdateAuctionDto)
    ensures var s' := UpdateStore(store, id, dto);
      && s'.Keys == store.Keys
      && (forall other :: other in store && other != id ==> s'[other] == store[other])
      && (id in store ==>
            && s'[id].(item := store[id].item) == store[id]
            && s'[id].item.imageUrl == store[id].item.imageUrl)
  {
  }

  lemma UpdatePreservesKeying(store: map<Guid, Auction>, id: Guid, dto: UpdateAuctionDto)
    requires KeyedById(store)
    ensures KeyedById(UpdateStore(store, id, dto))
  {
  }

  // ---------------------------------------------------------------- delete

  method DeleteAuction(context: AuctionDbContext, id: Guid) returns (r: ActionResult<()>)
    requires context.Valid()
    modifies context
    ensures context.Valid()
    ensures id !in old(context.auctions) ==> r == NotFound && context.auctions == old(context.auctions)
    ensures id in old(context.auctions) ==> r == Ok(()) && context.auctions == old(context.auctions) - {id}
  {
    if id !in context.auctions {
      return NotFound;
    }
    context.auctions := context.auctions - {id};
    r := Ok(());
  }
}
