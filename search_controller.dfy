/** The search endpoint: the query it builds from the request parameters.
    Its filter is a predicate over items and its OrderBy a choice of sort key;
    the engine returns the matching items in that order. `now` is the clock
    reading and `textMatch` the engine's full-text match for the search term. */
module SearchController {
  import opened Common
  import opened SearchModels

  /** `DateTime.UtcNow.AddHours(6)`, in seconds. */
  const SixHours: Time := 6 * 60 * 60

  datatype SearchParams = SearchParams(
    searchTerm: Option<string>,
    pageNumber: int,
    pageSize: int,
    seller: Option<string>,
    winner: Option<string>,
    orderBy: Option<string>,
    filterBy: Option<string>)

  datatype SortKey = MakeAscending | CreatedAtDescending | AuctionEndAscending

  /** The OrderBy switch. */
  function SortKeyFor(orderBy: Option<string>): (k: SortKey)
    ensures k == MakeAscending <==> orderBy == Some("make")
    ensures k == CreatedAtDescending <==> orderBy == Some("new")
  {
    if orderBy == Some("make") then MakeAscending
    else if orderBy == Some("new") then CreatedAtDescending
    else AuctionEndAscending
  }

  /** `a` may come before `b` under the sort key. */
  predicate InOrder(k: SortKey, a: Item, b: Item)
  {
    match k
    case MakeAscending => StrLe(a.make, b.make)
    case CreatedAtDescending => a.createdAt >= b.createdAt
    case AuctionEndAscending => a.auctionEnd <= b.auctionEnd
  }

  predicate SortedBy(k: SortKey, s: seq<Item>)
  {
    forall i, j :: 0 <= i < j < |s| ==> InOrder(k, s[i], s[j])
  }

  /** Each sort key orders all items: any two are comparable, transitively. */
  lemma InOrderIsTotalPreorder(k: SortKey)
    ensures forall a, b :: InOrder(k, a, b) || InOrder(k, b, a)
    ensures forall a, b, c :: InOrder(k, a, b) && InOrder(k, b, c) ==> InOrder(k, a, c)
  {
    forall a, b ensures InOrder(k, a, b) || InOrder(k, b, a) {
      StrLeTotal(a.make, b.make);
    }
    forall a, b, c | InOrder(k, a, b) && InOrder(k, b, c) ensures InOrder(k, a, c) {
      if k == MakeAscending {
        StrLeTransitive(a.make, b.make, c.make);
      }
    }
  }

  /** The FilterBy switch on the auction's end time. */
  predicate InWindow(filterBy: Option<string>, now: Time, auctionEnd: Time)
  {
    if filterBy == Some("finished") then auctionEnd < now
    else if filterBy == Some("endingSoon") then auctionEnd < now + SixHours && auctionEnd >= now
    else auctionEnd > now
  }

  /** Every condition the query puts on an item. */
  predicate Matches(p: SearchParams, now: Time, textMatch: Item -> bool, it: Item)
  {
    && (IsNullOrEmpty(p.searchTerm) || textMatch(it))
    && InWindow(p.filterBy, now, it.auctionEnd)
    && (IsNullOrEmpty(p.winner) || it.winner == p.winner)
    && (IsNullOrEmpty(p.seller) || it.seller == p.seller)
  }

  /** The documents the query selects. */
  function Matching(store: map<string, Item>, p: SearchParams, now: Time, textMatch: Item -> bool)
    : (r: map<string, Item>)
    ensures forall id :: id in r <==> id in store && Matches(p, now, textMatch, store[id])
    ensures forall id :: id in r ==> r[id] == store[id]
  {
    map id | id in store && Matches(p, now, textMatch, store[id]) :: store[id]
  }

  /** `r` is the query's answer before paging: each selected item once. Without
      a search term it is in key order; with one the engine sorts by text score
      first and the key only breaks ties, which is not modelled. */
  predicate IsSearchResult(store: map<string, Item>, p: SearchParams, now: Time, textMatch: Item -> bool, r: seq<Item>)
  {
    && multiset(r) == multiset(Matching(store, p, now, textMatch).Values)
    && (IsNullOrEmpty(p.searchTerm) ==> SortedBy(SortKeyFor(p.orderBy), r))
  }

  lemma FinishedWindow(now: Time, auctionEnd: Time)
    ensures InWindow(Some("finished"), now, auctionEnd) <==> auctionEnd < now
  {
  }

  lemma EndingSoonWindow(now: Time, auctionEnd: Time)
    ensures InWindow(Some("endingSoon"), now, auctionEnd) <==> now <= auctionEnd < now + SixHours
  {
  }

  lemma DefaultWindow(filterBy: Option<string>, now: Time, auctionEnd: Time)
    requires filterBy != Some("finished") && filterBy != Some("endingSoon")
    ensures InWindow(filterBy, now, auctionEnd) <==> auctionEnd > now
  {
  }

  /** "finished" shares no item with "endingSoon" nor with the default filter. */
  lemma FinishedIsDisjoint(filterBy: Option<string>, now: Time, auctionEnd: Time)
    requires filterBy != Some("finished")
    ensures !(InWindow(Some("finished"), now, auctionEnd) && InWindow(filterBy, now, auctionEnd))
  {
  }

  /** An auction ending exactly now is only "ending soon". */
  lemma EndingNowIsOnlyEndingSoon(filterBy: Option<string>, now: Time)
    ensures InWindow(filterBy, now, now) <==> filterBy == Some("endingSoon")
  {
  }

  /** A non-empty Winner or Seller demands equality; a null or empty one is no restriction. */
  lemma ParticipantFilters(p: SearchParams, now: Time, textMatch: Item -> bool, it: Item)
    ensures !IsNullOrEmpty(p.winner) && Matches(p, now, textMatch, it) ==> it.winner == p.winner
    ensures !IsNullOrEmpty(p.seller) && Matches(p, now, textMatch, it) ==> it.seller == p.seller
    ensures IsNullOrEmpty(p.winner) ==>
      (Matches(p, now, textMatch, it) <==> Matches(p.(winner := None), now, textMatch, it))
    ensures IsNullOrEmpty(p.seller) ==>
      (Matches(p, now, textMatch, it) <==> Matches(p.(seller := None), now, textMatch, it))
  {
  }

  /** Searching neither adds nor alters documents: every result is a stored,
      matching item, and every stored matching item is a result. */
  lemma {:induction false} SearchResultIsFromStore(
    store: map<string, Item>, p: SearchParams, now: Time, textMatch: Item -> bool, r: seq<Item>)
    requires KeyedByItemId(store)
    requires IsSearchResult(store, p, now, textMatch, r)
    ensures forall i :: 0 <= i < |r| ==>
      r[i].id in store && store[r[i].id] == r[i] && Matches(p, now, textMatch, r[i])
    ensures forall id :: id in store && Matches(p, now, textMatch, store[id]) ==> store[id] in r
  {
    var sel := Matching(store, p, now, textMatch);
    forall i | 0 <= i < |r|
      ensures r[i].id in store && store[r[i].id] == r[i] && Matches(p, now, textMatch, r[i])
    {
      assert r[i] in multiset(r);
      assert r[i] in sel.Values;
      if forall id :: id in sel ==> sel[id] != r[i] {
        assert false;
      }
      var id :| id in sel && sel[id] == r[i];
      assert store[id].id == id;
    }
    forall id | id in store && Matches(p, now, textMatch, store[id])
      ensures store[id] in r
    {
      assert sel[id] in sel.Values;
      assert store[id] in multiset(r);
    }
  }
}
