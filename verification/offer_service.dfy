/** The offer service: admission of new offers through a fixed chain of
    fail-fast checks, soft deletion of an offer by its creator, and the
    listing of today's listed offers as a scroll or as a page.

    Every operation is a pure transition over a `Ledger`. The clock is a
    parameter: `now` is the current time and `day` the calendar day that
    contains it. */
module OfferService {
  import opened Wrappers
  import opened Queries
  import opened OfferSchema
  import opened Pagination
  import opened Ledger

  const MAX_OFFERS_PER_DAY: nat := 5
  const ITEMS_PER_PAGE: nat := 2

  /** The body of a create-offer request, after request validation. */
  datatype CreateOfferRequest = CreateOfferRequest(walletId: Id, currencyId: Id, amount: real, unitPrice: real)

  /** Request validation lets only positive amounts and unit prices through. */
  predicate ValidRequest(req: CreateOfferRequest) {
    req.amount > 0.0 && req.unitPrice > 0.0
  }

  /** The listing query parameters; `page` and `limit` may be absent. */
  datatype ListOffersParams = ListOffersParams(paginated: bool, page: Option<nat>, limit: Option<nat>)

  /** Request validation lets only positive page numbers and limits through. */
  predicate ValidParams(params: ListOffersParams) {
    && (params.page.Some? ==> params.page.value >= 1)
    && (params.limit.Some? ==> params.limit.value >= 1)
  }

  /** Why a request is refused. */
  datatype Failure =
    | NoDocument(id: Id)        // a wallet, currency or user id resolves to nothing
    | OwnerMissing              // a populated user reference resolves to nothing
    | WalletNotOwned
    | NotEnoughBalance
    | MaxOffersPerDayReached
    | NoOffer(offerId: nat)
    | OfferNotOwned

  /** The exception each refusal is raised as. `OwnerMissing` is not raised
      on purpose: reading `_id` of a null populated reference throws a
      TypeError. */
  datatype ExceptionKind = BadRequest | Unauthorized | TypeError

  function KindOf(f: Failure): (k: ExceptionKind)
    ensures k == Unauthorized <==> f == WalletNotOwned || f == OfferNotOwned
    ensures k == TypeError <==> f == OwnerMissing
  {
    match f
    case WalletNotOwned => Unauthorized
    case OfferNotOwned => Unauthorized
    case OwnerMissing => TypeError
    case _ => BadRequest
  }

  // ---------------------------------------------------------------------
  // createOffer and its checks
  // ---------------------------------------------------------------------

  /** `checkExistingId`: the id must name a stored document. */
  function CheckExistingId<V>(documents: map<Id, V>, id: Id): (o: Outcome<Failure>)
    ensures o.Pass? <==> id in documents
    ensures o.Fail? ==> o.error == NoDocument(id)
  {
    Need(id in documents, NoDocument(id))
  }

  /** `checkIdsInCreateOfferDTO`: the wallet is looked up first, then the currency. */
  function CheckIdsInCreateOfferDTO(l: Ledger, req: CreateOfferRequest): (o: Outcome<Failure>)
    ensures o.Pass? <==> req.walletId in l.wallets && req.currencyId in l.currencies
    ensures o.Fail? ==> o.error == NoDocument(if req.walletId !in l.wallets then req.walletId else req.currencyId)
  {
    var wallet := CheckExistingId(l.wallets, req.walletId);
    if wallet.Fail? then wallet else CheckExistingId(l.currencies, req.currencyId)
  }

  /** `getWalletOwner`: the wallet's user with the reference populated;
      `None` where the store would hand back null. */
  function GetWalletOwner(l: Ledger, walletId: Id): (r: Option<Id>)
    ensures r.Some? <==> walletId in l.wallets && l.wallets[walletId].owner in l.users
    ensures r.Some? ==> r.value == l.wallets[walletId].owner
  {
    if walletId in l.wallets && l.wallets[walletId].owner in l.users
    then Some(l.wallets[walletId].owner)
    else None
  }

  /** `checkIfUserOwnsWallet`: the caller must exist, then must be the
      wallet's owner. */
  function CheckIfUserOwnsWallet(l: Ledger, userId: Id, walletId: Id): (o: Outcome<Failure>)
    ensures o.Pass? <==> userId in l.users && walletId in l.wallets && l.wallets[walletId].owner == userId
    ensures userId !in l.users ==> o == Fail(NoDocument(userId))
    ensures (&& userId in l.users && walletId in l.wallets
             && l.wallets[walletId].owner in l.users
             && l.wallets[walletId].owner != userId) ==> o == Fail(WalletNotOwned)
    ensures (&& userId in l.users
             && (walletId !in l.wallets || l.wallets[walletId].owner !in l.users)) ==> o == Fail(OwnerMissing)
  {
    var caller := CheckExistingId(l.users, userId);
    if caller.Fail? then caller
    else match GetWalletOwner(l, walletId)
      case None => Fail(OwnerMissing)
      case Some(owner) => Need(owner == userId, WalletNotOwned)
  }

  predicate OfAsset(walletId: Id, currencyId: Id, o: Offer) {
    o.wallet == walletId && o.currency == currencyId
  }

  /** `getTotalOfferedByAsset`: the amounts of ALL offers on the pair, listed or not. */
  function TotalOfferedByAsset(offers: seq<Offer>, walletId: Id, currencyId: Id): (r: real)
    ensures (forall j :: 0 <= j < |offers| ==> !OfAsset(walletId, currencyId, offers[j])) ==> r == 0.0
    ensures (forall j :: 0 <= j < |offers| ==> offers[j].amount >= 0.0) ==> r >= 0.0
  {
    var matching := Filter(offers, o => OfAsset(walletId, currencyId, o));
    FilterNone(offers, o => OfAsset(walletId, currencyId, o));
    if forall j :: 0 <= j < |offers| ==> offers[j].amount >= 0.0 then
      SumAmountsNonNegative(matching);
      SumAmounts(matching)
    else
      SumAmounts(matching)
  }

  /** `checkEnoughBalance`: a missing asset and an amount above the asset
      minus everything already offered on it are both "not enough balance". */
  function CheckEnoughBalance(l: Ledger, req: CreateOfferRequest): (o: Outcome<Failure>)
    ensures o.Pass? <==>
      && (req.walletId, req.currencyId) in l.assets
      && TotalOfferedByAsset(l.offers, req.walletId, req.currencyId) + req.amount <= l.assets[(req.walletId, req.currencyId)]
    ensures o.Fail? ==> o.error == NotEnoughBalance
  {
    var key := (req.walletId, req.currencyId);
    if key !in l.assets then Fail(NotEnoughBalance)
    else if req.amount > l.assets[key] - TotalOfferedByAsset(l.offers, req.walletId, req.currencyId)
    then Fail(NotEnoughBalance)
    else Pass
  }

  /** The number of listed offers `userId` created within `day`. */
  function OffersToday(offers: seq<Offer>, userId: Id, day: DayWindow): (r: nat)
    ensures r <= |offers|
    ensures r == 0 <==> forall j :: 0 <= j < |offers| ==>
      !(offers[j].user == userId && offers[j].listed && day.Contains(offers[j].createdAt))
  {
    FilterNone(offers, o => OffersCreatedBy(userId, o) && OffersListed(o) && OffersCreatedToday(day, o));
    |ListedTodayBy(offers, userId, day)|
  }

  /** `checkMaxOffersPerDay`: refuse once the caller has five listed offers today. */
  function CheckMaxOffersPerDay(l: Ledger, userId: Id, day: DayWindow): (o: Outcome<Failure>)
    ensures o.Pass? <==> OffersToday(l.offers, userId, day) < MAX_OFFERS_PER_DAY
    ensures o.Fail? ==> o.error == MaxOffersPerDayReached
  {
    Need(OffersToday(l.offers, userId, day) < MAX_OFFERS_PER_DAY, MaxOffersPerDayReached)
  }

  /** A successful creation: the new ledger and the new offer's id. */
  datatype Created = Created(ledger: Ledger, offerId: nat)

  /** `createOfferFromDTO`: store one new offer; its id is the next free
      position. */
  function CreateOfferFromDTO(l: Ledger, userId: Id, req: CreateOfferRequest, now: int): (r: Created)
    ensures r.offerId == |l.offers|
    ensures r.ledger.offers == l.offers + [NewOffer(r.offerId, userId, req.walletId, req.currencyId, req.amount, req.unitPrice, now)]
    ensures r.ledger == l.(offers := r.ledger.offers)
  {
    var id := |l.offers|;
    Created(l.(offers := l.offers + [NewOffer(id, userId, req.walletId, req.currencyId, req.amount, req.unitPrice, now)]), id)
  }

  /** Every condition `createOffer` demands, stated on the state directly. */
  predicate Admissible(l: Ledger, userId: Id, req: CreateOfferRequest, day: DayWindow) {
    && req.walletId in l.wallets
    && req.currencyId in l.currencies
    && userId in l.users
    && l.wallets[req.walletId].owner == userId
    && (req.walletId, req.currencyId) in l.assets
    && TotalOfferedByAsset(l.offers, req.walletId, req.currencyId) + req.amount <= l.assets[(req.walletId, req.currencyId)]
    && OffersToday(l.offers, userId, day) < MAX_OFFERS_PER_DAY
  }

  /** `createOffer`: ids, ownership, balance, daily limit, in that order;
      the first failing check decides the refusal. On success the new
      ledger and the new offer's id. */
  function CreateOffer(l: Ledger, userId: Id, req: CreateOfferRequest, now: int, day: DayWindow): (r: Result<Created, Failure>)
    requires ValidRequest(req) && day.Contains(now)
    ensures r.Success? <==> Admissible(l, userId, req, day)
    ensures r.Success? ==>
      && r.value.offerId == |l.offers|
      && r.value.ledger.offers == l.offers + [Offer(|l.offers|, userId, req.walletId, req.currencyId, req.amount, req.unitPrice, true, now)]
      && r.value.ledger == l.(offers := r.value.ledger.offers)
  {
    var ids := CheckIdsInCreateOfferDTO(l, req);
    if ids.Fail? then Failure(ids.error) else
    var ownership := CheckIfUserOwnsWallet(l, userId, req.walletId);
    if ownership.Fail? then Failure(ownership.error) else
    var balance := CheckEnoughBalance(l, req);
    if balance.Fail? then Failure(balance.error) else
    var daily := CheckMaxOffersPerDay(l, userId, day);
    if daily.Fail? then Failure(daily.error) else
    Success(CreateOfferFromDTO(l, userId, req, now))
  }

  // ---------------------------------------------------------------------
  // unlistOffer
  // ---------------------------------------------------------------------

  /** `findById` on the offers: the position of the first offer with this id. */
  function FindOffer(offers: seq<Offer>, offerId: nat): (r: Option<nat>)
    ensures r.None? <==> forall j :: 0 <= j < |offers| ==> offers[j].id != offerId
    ensures r.Some? ==> r.value < |offers| && offers[r.value].id == offerId
    ensures r.Some? ==> forall j :: 0 <= j < r.value ==> offers[j].id != offerId
  {
    if |offers| == 0 then None
    else if offers[0].id == offerId then Some(0)
    else match FindOffer(offers[1..], offerId)
      case None => None
      case Some(k) => Some(k + 1)
  }

  /** `softDeleteOffer`: clear the `listed` flag of the offer at position i. */
  function SoftDeleteOffer(l: Ledger, i: nat): (r: Ledger)
    requires i < |l.offers|
    ensures |r.offers| == |l.offers|
    ensures r.offers[i] == l.offers[i].(listed := false)
    ensures forall j :: 0 <= j < |l.offers| && j != i ==> r.offers[j] == l.offers[j]
    ensures r == l.(offers := r.offers)
  {
    l.(offers := l.offers[i := l.offers[i].(listed := false)])
  }

  /** Position i holds the first offer with this id: the one `findById` returns. */
  predicate FirstWithId(offers: seq<Offer>, offerId: nat, i: nat) {
    && i < |offers|
    && offers[i].id == offerId
    && forall j :: 0 <= j < i ==> offers[j].id != offerId
  }

  /** `unlistOffer`: the offer must exist, its populated user must resolve,
      and the caller must be that user. Already unlisted offers are not
      refused. */
  function UnlistOffer(l: Ledger, userId: Id, offerId: nat): (r: Result<Ledger, Failure>)
    ensures r == Failure(NoOffer(offerId)) <==> forall j :: 0 <= j < |l.offers| ==> l.offers[j].id != offerId
    ensures r.Success? ==> exists i :: (
      && 0 <= i < |l.offers| && l.offers[i].id == offerId
      && l.offers[i].user == userId && userId in l.users
      && r.value == l.(offers := l.offers[i := l.offers[i].(listed := false)]))
    ensures r == Failure(OfferNotOwned) ==> exists i :: (
      && 0 <= i < |l.offers| && l.offers[i].id == offerId
      && l.offers[i].user != userId)
    ensures r.Success? <==> exists i: nat :: (
      && FirstWithId(l.offers, offerId, i)
      && l.offers[i].user == userId && userId in l.users)
    ensures r == Failure(OwnerMissing) <==> exists i: nat :: (
      && FirstWithId(l.offers, offerId, i)
      && l.offers[i].user !in l.users)
    ensures r == Failure(OfferNotOwned) <==> exists i: nat :: (
      && FirstWithId(l.offers, offerId, i)
      && l.offers[i].user in l.users && l.offers[i].user != userId)
  {
    match FindOffer(l.offers, offerId)
    case None => Failure(NoOffer(offerId))
    case Some(i) =>
      assert FirstWithId(l.offers, offerId, i);
      assert forall k: nat :: FirstWithId(l.offers, offerId, k) ==> k == i;
      var owner := l.offers[i].user;
      if owner !in l.users then Failure(OwnerMissing)
      else if owner != userId then Failure(OfferNotOwned)
      else Success(SoftDeleteOffer(l, i))
  }

  // ---------------------------------------------------------------------
  // listOffers
  // ---------------------------------------------------------------------

  /** `generateListedOffersQuery`: today's listed offers, newest first. */
  function ListedOffersQuery(l: Ledger, day: DayWindow): (r: seq<Offer>)
    ensures RecentOffersFirst(r)
    ensures forall o :: o in r <==> o in l.offers && o.listed && day.Contains(o.createdAt)
    ensures multiset(r) == multiset(ListedToday(l.offers, day))
    ensures |r| == |ListedToday(l.offers, day)|
    ensures forall o :: multiset(r)[o] == if o.listed && day.Contains(o.createdAt) then multiset(l.offers)[o] else 0
  {
    var today := ListedToday(l.offers, day);
    FilterMultiset(l.offers, o => OffersListed(o) && OffersCreatedToday(day, o));
    var sorted := SortRecentFirst(today);
    forall o ensures o in sorted <==> o in today {
      SortKeepsMembers(today, o);
    }
    assert |sorted| == |multiset(sorted)| == |today|;
    sorted
  }

  /** `countListedOffers`: every listed offer, whatever day it was created. */
  function CountListedOffers(l: Ledger): (r: nat)
    ensures r <= |l.offers|
    ensures r == 0 <==> forall j :: 0 <= j < |l.offers| ==> !l.offers[j].listed
  {
    FilterNone(l.offers, OffersListed);
    |Listed(l.offers)|
  }

  function PageOf(params: ListOffersParams): nat {
    params.page.GetOr(1)
  }

  function LimitOf(params: ListOffersParams): nat {
    params.limit.GetOr(ITEMS_PER_PAGE)
  }

  /** `listOffers`. The caller id does not constrain the listing. */
  function ListOffers(l: Ledger, userId: Id, params: ListOffersParams, day: DayWindow): (r: Paginated<Offer>)
    requires ValidParams(params)
    ensures RecentOffersFirst(r.data)
    ensures forall o :: o in r.data ==> o in l.offers && o.listed && day.Contains(o.createdAt)
    ensures !params.paginated ==> r.IsScroll() && r.data == ListedOffersQuery(l, day)
    ensures params.paginated ==> r.data == Slice(ListedOffersQuery(l, day), PageOf(params), LimitOf(params))
    ensures !params.paginated ==> forall o :: o in l.offers && o.listed && day.Contains(o.createdAt) ==> o in r.data
    ensures params.paginated ==>
      && r.currentPage == Some(PageOf(params))
      && r.lastPage == Some(LastPage(CountListedOffers(l), LimitOf(params)))
      && |r.data| <= LimitOf(params)
  {
    var query := ListedOffersQuery(l, day);
    if !params.paginated then Paginated(query, None, None)
    else
      var page, limit := PageOf(params), LimitOf(params);
      var data := Slice(query, page, limit);
      SliceRecentFirst(query, page, limit);
      Paginated(data, Some(page), Some(LastPage(CountListedOffers(l), limit)))
  }

  /** A page of a newest-first sequence is newest first. */
  lemma SliceRecentFirst(items: seq<Offer>, page: nat, limit: nat)
    requires page >= 1 && limit >= 1
    requires RecentOffersFirst(items)
    ensures RecentOffersFirst(Slice(items, page, limit))
    ensures forall o :: o in Slice(items, page, limit) ==> o in items
  {
  }
}
