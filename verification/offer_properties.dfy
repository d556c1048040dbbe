/** Properties of the offer service that relate several calls or hold for
    every reachable state: the order of the admission checks, the balance
    and daily-limit invariants, the effect of unlisting, and how pages
    relate to the scroll listing. */
module OfferProperties {
  import opened Wrappers
  import opened Queries
  import opened OfferSchema
  import opened Pagination
  import opened Ledger
  import opened OfferService

  // ---------------------------------------------------------------------
  // Order of the admission checks
  // ---------------------------------------------------------------------

  /** The refusal of the first check in `checks` that fails, if any. */
  function FirstFailure(checks: seq<Outcome<Failure>>): (r: Option<Failure>)
    ensures r.None? <==> forall i :: 0 <= i < |checks| ==> checks[i].Pass?
    ensures r.Some? ==> exists i :: (
      && 0 <= i < |checks| && checks[i] == Fail(r.value)
      && forall j :: 0 <= j < i ==> checks[j].Pass?)
  {
    if |checks| == 0 then None
    else if checks[0].Fail? then Some(checks[0].error)
    else
      FirstFailure(checks[1..])
  }

  /** The admission checks, each evaluated on its own, in source order:
      wallet id, currency id, caller id, wallet ownership, balance, daily limit. */
  function AdmissionChecks(l: Ledger, userId: Id, req: CreateOfferRequest, day: DayWindow): seq<Outcome<Failure>> {
    [ CheckExistingId(l.wallets, req.walletId),
      CheckExistingId(l.currencies, req.currencyId),
      CheckExistingId(l.users, userId),
      CheckIfUserOwnsWallet(l, userId, req.walletId),
      CheckEnoughBalance(l, req),
      CheckMaxOffersPerDay(l, userId, day) ]
  }

  /** `createOffer` fails exactly when one of its checks fails, and then
      with the refusal of the first failing check. */
  lemma CreateOfferFailsAtFirstFailingCheck(l: Ledger, userId: Id, req: CreateOfferRequest, now: int, day: DayWindow)
    requires ValidRequest(req) && day.Contains(now)
    ensures var r := CreateOffer(l, userId, req, now, day);
      && (r.Failure? <==> FirstFailure(AdmissionChecks(l, userId, req, day)).Some?)
      && (r.Failure? ==> r.error == FirstFailure(AdmissionChecks(l, userId, req, day)).value)
  {
    var checks := AdmissionChecks(l, userId, req, day);
    var f := FirstFailure(checks);
    if f.Some? {
      var i :| 0 <= i < |checks| && checks[i] == Fail(f.value) && forall j :: 0 <= j < i ==> checks[j].Pass?;
      if i == 0 {
      } else if i == 1 {
        assert checks[0].Pass?;
      } else if i == 2 {
        assert checks[0].Pass? && checks[1].Pass?;
      } else if i == 3 {
        assert checks[0].Pass? && checks[1].Pass? && checks[2].Pass?;
      } else if i == 4 {
        assert checks[0].Pass? && checks[1].Pass? && checks[2].Pass? && checks[3].Pass?;
      } else {
        assert checks[0].Pass? && checks[1].Pass? && checks[2].Pass? && checks[3].Pass? && checks[4].Pass?;
      }
    } else {
      assert checks[0].Pass? && checks[1].Pass? && checks[2].Pass? && checks[3].Pass? && checks[4].Pass?;
      assert checks[5].Pass?;
    }
  }

  /** A caller who exists but does not own an existing wallet is refused as
      unauthorized, whatever the balance and the daily count. */
  lemma ForeignWalletIsUnauthorized(l: Ledger, userId: Id, req: CreateOfferRequest, now: int, day: DayWindow)
    requires ValidRequest(req) && day.Contains(now)
    requires req.walletId in l.wallets && req.currencyId in l.currencies && userId in l.users
    requires l.wallets[req.walletId].owner in l.users && l.wallets[req.walletId].owner != userId
    ensures CreateOffer(l, userId, req, now, day) == Failure(WalletNotOwned)
    ensures KindOf(WalletNotOwned) == Unauthorized
  {
  }

  /** An unknown wallet is reported before anything else is looked at. */
  lemma UnknownWalletReportedFirst(l: Ledger, userId: Id, req: CreateOfferRequest, now: int, day: DayWindow)
    requires ValidRequest(req) && day.Contains(now)
    requires req.walletId !in l.wallets
    ensures CreateOffer(l, userId, req, now, day) == Failure(NoDocument(req.walletId))
    ensures KindOf(NoDocument(req.walletId)) == BadRequest
  {
  }

  // ---------------------------------------------------------------------
  // Balance accounting
  // ---------------------------------------------------------------------

  /** No asset is committed beyond its amount: the offers on each pair that
      has an asset, listed or not, add up to at most the asset's amount. */
  predicate BalanceInvariant(l: Ledger) {
    forall k :: k in l.assets ==> TotalOfferedByAsset(l.offers, k.0, k.1) <= l.assets[k]
  }

  /** Storing offer `o` adds its amount to the total of its own pair only. */
  lemma TotalOfferedSnoc(offers: seq<Offer>, o: Offer, walletId: Id, currencyId: Id)
    ensures TotalOfferedByAsset(offers + [o], walletId, currencyId)
         == TotalOfferedByAsset(offers, walletId, currencyId)
            + (if o.wallet == walletId && o.currency == currencyId then o.amount else 0.0)
  {
    var p := o => OfAsset(walletId, currencyId, o);
    FilterSnoc(offers, o, p);
    SumAmountsConcat(Filter(offers, p), if p(o) then [o] else []);
  }

  /** Clearing the `listed` flag of an offer does not change any pair's total. */
  lemma TotalOfferedIgnoresListed(offers: seq<Offer>, i: nat, walletId: Id, currencyId: Id)
    requires i < |offers|
    ensures TotalOfferedByAsset(offers[i := offers[i].(listed := false)], walletId, currencyId)
         == TotalOfferedByAsset(offers, walletId, currencyId)
  {
    SumFilterUpdate(offers, i, offers[i].(listed := false), o => OfAsset(walletId, currencyId, o));
  }

  lemma CreateOfferPreservesBalance(l: Ledger, userId: Id, req: CreateOfferRequest, now: int, day: DayWindow)
    requires ValidRequest(req) && day.Contains(now)
    requires BalanceInvariant(l)
    requires CreateOffer(l, userId, req, now, day).Success?
    ensures BalanceInvariant(CreateOffer(l, userId, req, now, day).value.ledger)
  {
    var l' := CreateOffer(l, userId, req, now, day).value.ledger;
    var o := l'.offers[|l.offers|];
    assert l'.offers == l.offers + [o];
    forall k | k in l'.assets
      ensures TotalOfferedByAsset(l'.offers, k.0, k.1) <= l'.assets[k]
    {
      TotalOfferedSnoc(l.offers, o, k.0, k.1);
    }
  }

  lemma UnlistOfferPreservesBalance(l: Ledger, userId: Id, offerId: nat)
    requires BalanceInvariant(l)
    requires UnlistOffer(l, userId, offerId).Success?
    ensures BalanceInvariant(UnlistOffer(l, userId, offerId).value)
  {
    var l' := UnlistOffer(l, userId, offerId).value;
    var i :| 0 <= i < |l.offers| && l' == l.(offers := l.offers[i := l.offers[i].(listed := false)]);
    forall k | k in l'.assets
      ensures TotalOfferedByAsset(l'.offers, k.0, k.1) <= l'.assets[k]
    {
      TotalOfferedIgnoresListed(l.offers, i, k.0, k.1);
    }
  }

  /** Unlisting an offer frees no balance: every later balance check on any
      pair has the same outcome as before the unlisting. */
  lemma UnlistDoesNotFreeBalance(l: Ledger, userId: Id, offerId: nat, req: CreateOfferRequest)
    requires UnlistOffer(l, userId, offerId).Success?
    ensures CheckEnoughBalance(UnlistOffer(l, userId, offerId).value, req) == CheckEnoughBalance(l, req)
  {
    var l' := UnlistOffer(l, userId, offerId).value;
    var i :| 0 <= i < |l.offers| && l' == l.(offers := l.offers[i := l.offers[i].(listed := false)]);
    TotalOfferedIgnoresListed(l.offers, i, req.walletId, req.currencyId);
  }

  // ---------------------------------------------------------------------
  // Runs of requests
  // ---------------------------------------------------------------------

  /** A request reaching the service: create at time `now` within `day`, or unlist. */
  datatype Command =
    | Create(userId: Id, req: CreateOfferRequest, now: int, day: DayWindow)
    | Unlist(userId: Id, offerId: nat)

  predicate WellFormedCommand(c: Command) {
    c.Create? ==> ValidRequest(c.req) && c.day.Contains(c.now)
  }

  /** The ledger after one request; a refused request changes nothing. */
  function Apply(l: Ledger, c: Command): (r: Ledger)
    requires WellFormedCommand(c)
    ensures r.users == l.users && r.wallets == l.wallets
    ensures r.currencies == l.currencies && r.assets == l.assets
  {
    match c
    case Create(userId, req, now, day) =>
      var r := CreateOffer(l, userId, req, now, day);
      if r.Success? then r.value.ledger else l
    case Unlist(userId, offerId) =>
      var r := UnlistOffer(l, userId, offerId);
      if r.Success? then r.value else l
  }

  function Run(l: Ledger, cs: seq<Command>): (r: Ledger)
    requires forall i :: 0 <= i < |cs| ==> WellFormedCommand(cs[i])
    ensures r.assets == l.assets
    decreases |cs|
  {
    if |cs| == 0 then l else Run(Apply(l, cs[0]), cs[1..])
  }

  /** The balance invariant holds after any sequence of requests. */
  lemma {:induction false} RunPreservesBalance(l: Ledger, cs: seq<Command>)
    requires forall i :: 0 <= i < |cs| ==> WellFormedCommand(cs[i])
    requires BalanceInvariant(l)
    ensures BalanceInvariant(Run(l, cs))
    decreases |cs|
  {
    if |cs| > 0 {
      match cs[0] {
        case Create(userId, req, now, day) =>
          if CreateOffer(l, userId, req, now, day).Success? {
            CreateOfferPreservesBalance(l, userId, req, now, day);
          }
        case Unlist(userId, offerId) =>
          if UnlistOffer(l, userId, offerId).Success? {
            UnlistOfferPreservesBalance(l, userId, offerId);
          }
      }
      RunPreservesBalance(Apply(l, cs[0]), cs[1..]);
    }
  }

  // ---------------------------------------------------------------------
  // Offer identifiers and unlisting
  // ---------------------------------------------------------------------

  /** With ids equal to positions, looking an offer up by id is indexing. */
  lemma FindOfferByPosition(l: Ledger, offerId: nat)
    requires IdsArePositions(l)
    ensures FindOffer(l.offers, offerId) == if offerId < |l.offers| then Some(offerId) else None
  {
    var r := FindOffer(l.offers, offerId);
    if offerId < |l.offers| {
      assert l.offers[offerId].id == offerId;
    }
    if r.Some? {
      assert l.offers[r.value].id == r.value;
    }
  }

  lemma CreateOfferKeepsIdsPositions(l: Ledger, userId: Id, req: CreateOfferRequest, now: int, day: DayWindow)
    requires ValidRequest(req) && day.Contains(now)
    requires IdsArePositions(l)
    requires CreateOffer(l, userId, req, now, day).Success?
    ensures IdsArePositions(CreateOffer(l, userId, req, now, day).value.ledger)
    ensures var c := CreateOffer(l, userId, req, now, day).value;
      FindOffer(c.ledger.offers, c.offerId) == Some(c.offerId)
  {
    var c := CreateOffer(l, userId, req, now, day).value;
    FindOfferByPosition(c.ledger, c.offerId);
  }

  /** The outcome of `unlistOffer` when ids are positions, case by case. */
  lemma UnlistOfferOutcome(l: Ledger, userId: Id, offerId: nat)
    requires IdsArePositions(l)
    ensures offerId >= |l.offers| ==> UnlistOffer(l, userId, offerId) == Failure(NoOffer(offerId))
    ensures offerId < |l.offers| && l.offers[offerId].user !in l.users
      ==> UnlistOffer(l, userId, offerId) == Failure(OwnerMissing)
    ensures offerId < |l.offers| && l.offers[offerId].user in l.users && l.offers[offerId].user != userId
      ==> UnlistOffer(l, userId, offerId) == Failure(OfferNotOwned)
    ensures offerId < |l.offers| && l.offers[offerId].user == userId && userId in l.users
      ==> UnlistOffer(l, userId, offerId) == Success(SoftDeleteOffer(l, offerId))
    ensures UnlistOffer(l, userId, offerId).Success? ==> IdsArePositions(UnlistOffer(l, userId, offerId).value)
  {
  }

  /** Clearing a `listed` flag leaves every id where it was. */
  lemma {:induction false} FindOfferIgnoresListed(offers: seq<Offer>, i: nat, offerId: nat)
    requires i < |offers|
    ensures FindOffer(offers[i := offers[i].(listed := false)], offerId) == FindOffer(offers, offerId)
  {
    var t := offers[i := offers[i].(listed := false)];
    if i > 0 {
      assert t[1..] == offers[1..][i - 1 := offers[1..][i - 1].(listed := false)];
      FindOfferIgnoresListed(offers[1..], i - 1, offerId);
    }
  }

  /** Unlisting twice is unlisting once: the repeated call succeeds and
      leaves the ledger as the first call left it. */
  lemma UnlistOfferIdempotent(l: Ledger, userId: Id, offerId: nat)
    requires UnlistOffer(l, userId, offerId).Success?
    ensures UnlistOffer(UnlistOffer(l, userId, offerId).value, userId, offerId)
         == UnlistOffer(l, userId, offerId)
  {
    var i := FindOffer(l.offers, offerId).value;
    var l' := UnlistOffer(l, userId, offerId).value;
    FindOfferIgnoresListed(l.offers, i, offerId);
    assert l'.offers[i := l'.offers[i].(listed := false)] == l'.offers;
  }

  /** After a successful unlisting the offer is gone from every listing. */
  lemma UnlistedOfferLeavesListing(l: Ledger, userId: Id, offerId: nat, caller: Id, params: ListOffersParams, day: DayWindow)
    requires IdsArePositions(l) && ValidParams(params)
    requires UnlistOffer(l, userId, offerId).Success?
    ensures forall o :: o in ListOffers(UnlistOffer(l, userId, offerId).value, caller, params, day).data ==> o.id != offerId
  {
  }

  // ---------------------------------------------------------------------
  // Daily limit
  // ---------------------------------------------------------------------

  /** Nobody has more than the daily maximum of listed offers in `day`. */
  ghost predicate DailyLimitRespected(l: Ledger, day: DayWindow) {
    forall u :: OffersToday(l.offers, u, day) <= MAX_OFFERS_PER_DAY
  }

  /** A stored offer raises its creator's count for the day it was created in. */
  lemma OffersTodaySnoc(offers: seq<Offer>, o: Offer, u: Id, day: DayWindow)
    ensures OffersToday(offers + [o], u, day)
         == OffersToday(offers, u, day) + (if o.user == u && o.listed && day.Contains(o.createdAt) then 1 else 0)
  {
    FilterSnoc(offers, o, o => OffersCreatedBy(u, o) && OffersListed(o) && OffersCreatedToday(day, o));
  }

  /** An unlisted offer no longer counts towards anyone's daily limit. */
  lemma OffersTodayAfterSoftDelete(offers: seq<Offer>, i: nat, u: Id, day: DayWindow)
    requires i < |offers|
    ensures OffersToday(offers[i := offers[i].(listed := false)], u, day)
         == OffersToday(offers, u, day)
            - (if offers[i].user == u && offers[i].listed && day.Contains(offers[i].createdAt) then 1 else 0)
  {
    FilterUpdateCount(offers, i, offers[i].(listed := false),
      o => OffersCreatedBy(u, o) && OffersListed(o) && OffersCreatedToday(day, o));
  }

  /** A successful creation raises the caller's count for today by one. */
  lemma CreateOfferCountsToday(l: Ledger, userId: Id, req: CreateOfferRequest, now: int, day: DayWindow)
    requires ValidRequest(req) && day.Contains(now)
    requires CreateOffer(l, userId, req, now, day).Success?
    ensures OffersToday(CreateOffer(l, userId, req, now, day).value.ledger.offers, userId, day)
         == OffersToday(l.offers, userId, day) + 1
    ensures OffersToday(l.offers, userId, day) < MAX_OFFERS_PER_DAY
  {
    var l' := CreateOffer(l, userId, req, now, day).value.ledger;
    OffersTodaySnoc(l.offers, l'.offers[|l.offers|], userId, day);
    assert l'.offers == l.offers + [l'.offers[|l.offers|]];
  }

  /** Once the caller has five listed offers today, creation is refused,
      and with the daily-limit refusal when every earlier check passes. */
  lemma SixthOfferOfTheDayRefused(l: Ledger, userId: Id, req: CreateOfferRequest, now: int, day: DayWindow)
    requires ValidRequest(req) && day.Contains(now)
    requires OffersToday(l.offers, userId, day) >= MAX_OFFERS_PER_DAY
    ensures CreateOffer(l, userId, req, now, day).Failure?
    ensures (&& req.walletId in l.wallets && req.currencyId in l.currencies && userId in l.users
             && l.wallets[req.walletId].owner == userId
             && CheckEnoughBalance(l, req).Pass?)
      ==> CreateOffer(l, userId, req, now, day) == Failure(MaxOffersPerDayReached)
  {
  }

  /** A creation checked against the window `day` keeps everyone within the
      daily limit for that window; one in a window that does not contain
      `day`'s times touches no count of `day`. */
  lemma CreateOfferPreservesDailyLimit(l: Ledger, userId: Id, req: CreateOfferRequest, now: int, checkDay: DayWindow, day: DayWindow)
    requires ValidRequest(req) && checkDay.Contains(now)
    requires checkDay == day || !day.Contains(now)
    requires DailyLimitRespected(l, day)
    requires CreateOffer(l, userId, req, now, checkDay).Success?
    ensures DailyLimitRespected(CreateOffer(l, userId, req, now, checkDay).value.ledger, day)
  {
    var l' := CreateOffer(l, userId, req, now, checkDay).value.ledger;
    var o := l'.offers[|l.offers|];
    assert l'.offers == l.offers + [o];
    forall u ensures OffersToday(l'.offers, u, day) <= MAX_OFFERS_PER_DAY {
      OffersTodaySnoc(l.offers, o, u, day);
    }
  }

  lemma UnlistOfferPreservesDailyLimit(l: Ledger, userId: Id, offerId: nat, day: DayWindow)
    requires DailyLimitRespected(l, day)
    requires UnlistOffer(l, userId, offerId).Success?
    ensures DailyLimitRespected(UnlistOffer(l, userId, offerId).value, day)
  {
    var l' := UnlistOffer(l, userId, offerId).value;
    var i :| 0 <= i < |l.offers| && l' == l.(offers := l.offers[i := l.offers[i].(listed := false)]);
    forall u ensures OffersToday(l'.offers, u, day) <= MAX_OFFERS_PER_DAY {
      OffersTodayAfterSoftDelete(l.offers, i, u, day);
    }
  }

  /** Calendar days partition time: a creation checked against another
      day's window happened outside `day`. */
  predicate SameDayOrOutside(c: Command, day: DayWindow) {
    c.Create? ==> c.day == day || !day.Contains(c.now)
  }

  /** The daily limit holds after any sequence of requests. */
  lemma {:induction false} RunPreservesDailyLimit(l: Ledger, cs: seq<Command>, day: DayWindow)
    requires forall i :: 0 <= i < |cs| ==> WellFormedCommand(cs[i]) && SameDayOrOutside(cs[i], day)
    requires DailyLimitRespected(l, day)
    ensures DailyLimitRespected(Run(l, cs), day)
    decreases |cs|
  {
    if |cs| > 0 {
      match cs[0] {
        case Create(userId, req, now, checkDay) =>
          if CreateOffer(l, userId, req, now, checkDay).Success? {
            CreateOfferPreservesDailyLimit(l, userId, req, now, checkDay, day);
          }
        case Unlist(userId, offerId) =>
          if UnlistOffer(l, userId, offerId).Success? {
            UnlistOfferPreservesDailyLimit(l, userId, offerId, day);
          }
      }
      RunPreservesDailyLimit(Apply(l, cs[0]), cs[1..], day);
    }
  }

  // ---------------------------------------------------------------------
  // Listing
  // ---------------------------------------------------------------------

  /** A page is the matching slice of the scroll listing. */
  lemma PageIsSliceOfScroll(l: Ledger, userId: Id, page: nat, limit: nat, day: DayWindow)
    requires page >= 1 && limit >= 1
    ensures ListOffers(l, userId, ListOffersParams(true, Some(page), Some(limit)), day).data
         == Slice(ListOffers(l, userId, ListOffersParams(false, None, None), day).data, page, limit)
  {
  }

  /** The caller's id does not constrain the listing. */
  lemma ListingIgnoresCaller(l: Ledger, userId: Id, otherId: Id, params: ListOffersParams, day: DayWindow)
    requires ValidParams(params)
    ensures ListOffers(l, userId, params, day) == ListOffers(l, otherId, params, day)
  {
  }

  /** Without `page` and `limit` the listing shows page 1 of two offers. */
  lemma DefaultPageIsFirstPageOfTwo(l: Ledger, userId: Id, day: DayWindow)
    ensures ListOffers(l, userId, ListOffersParams(true, None, None), day)
         == ListOffers(l, userId, ListOffersParams(true, Some(1), Some(2)), day)
    ensures ListOffers(l, userId, ListOffersParams(true, None, None), day).currentPage == Some(1)
  {
  }

  lemma {:induction false} LastPageMonotone(a: nat, b: nat, limit: nat)
    requires limit >= 1 && a <= b
    ensures LastPage(a, limit) <= LastPage(b, limit)
  {
    var pa, pb := LastPage(a, limit), LastPage(b, limit);
    if pa > 0 {
      MulLess(pa - 1, pb, limit);
    }
  }

  /** Paging up to `lastPage` shows every offer of the scroll listing: the
      offer at position i of the scroll listing is on the page whose range
      holds i, and that page is not past the reported last page. The last
      page is never too small; counting listed offers of every day, it can
      be too large. */
  lemma EveryListedOfferTodayIsOnSomePage(l: Ledger, userId: Id, page: nat, limit: nat, day: DayWindow, i: nat)
    requires page >= 1 && limit >= 1
    requires i < |ListedToday(l.offers, day)|
    requires Skip(page, limit) <= i < Skip(page, limit) + limit
    ensures ListedOffersQuery(l, day)[i] in ListOffers(l, userId, ListOffersParams(true, Some(page), Some(limit)), day).data
    ensures page <= LastPage(CountListedOffers(l), limit)
  {
    var query := ListedOffersQuery(l, day);
    PagedListing(l, userId, page, limit, day);
    PageOfIndex(i, page, limit);
    PagesCoverItems(query, limit, i);
    var slice, k := Slice(query, page, limit), i - Skip(page, limit);
    assert k < |slice| && slice[k] == query[i];
    TodayNoMoreThanListed(l, day);
    LastPageMonotone(|query|, CountListedOffers(l), limit);
  }

  /** Without two candidates created at the same instant, the newest-first
      order is determined: any newest-first arrangement of today's listed
      offers that a query of the store may return is the listing itself. */
  lemma StoreOrderDeterminedWithoutTies(l: Ledger, day: DayWindow, order: seq<Offer>)
    requires RecentOffersFirst(order) && DistinctTimes(order)
    requires multiset(order) == multiset(ListedToday(l.offers, day))
    ensures order == ListedOffersQuery(l, day)
  {
    SortedWithoutTiesIsUnique(ListedOffersQuery(l, day), order);
  }

  /** What a paginated listing returns, written out. */
  lemma PagedListing(l: Ledger, userId: Id, page: nat, limit: nat, day: DayWindow)
    requires page >= 1 && limit >= 1
    ensures var r := ListOffers(l, userId, ListOffersParams(true, Some(page), Some(limit)), day);
      && r.data == Slice(ListedOffersQuery(l, day), page, limit)
      && r.lastPage == Some(LastPage(CountListedOffers(l), limit))
  {
  }

  /** Storing one more offer raises the count of listed offers by one
      exactly when the offer is listed, whatever day it was created. */
  lemma CountListedOffersSnoc(l: Ledger, o: Offer)
    ensures CountListedOffers(l.(offers := l.offers + [o])) == CountListedOffers(l) + (if o.listed then 1 else 0)
  {
    FilterSnoc(l.offers, o, OffersListed);
  }

  /** Today's listed offers are among all listed offers. */
  lemma TodayNoMoreThanListed(l: Ledger, day: DayWindow)
    ensures |ListedOffersQuery(l, day)| <= CountListedOffers(l)
  {
    var today := ListedToday(l.offers, day);
    assert |ListedOffersQuery(l, day)| == |multiset(ListedOffersQuery(l, day))| == |today|;
    FilterSubsequence(l.offers, o => OffersListed(o) && OffersCreatedToday(day, o), OffersListed);
  }

  /** With 22 listed offers all created today and pages of 10: page 1 holds
      10 offers and the last page is 3, page 3 holds 2, page 4 is empty. */
  lemma TwentyTwoOffersInPagesOfTen(l: Ledger, userId: Id, day: DayWindow)
    requires forall i :: 0 <= i < |l.offers| && l.offers[i].listed ==> day.Contains(l.offers[i].createdAt)
    requires CountListedOffers(l) == 22
    ensures var r := ListOffers(l, userId, ListOffersParams(true, Some(1), Some(10)), day);
      |r.data| == 10 && r.currentPage == Some(1) && r.lastPage == Some(3)
    ensures |ListOffers(l, userId, ListOffersParams(true, Some(3), Some(10)), day).data| == 2
    ensures ListOffers(l, userId, ListOffersParams(true, Some(4), Some(10)), day).data == []
  {
    AllListedToday(l, day);
    var query := ListedOffersQuery(l, day);
    assert LastPage(22, 10) == 3;
    PagedListing(l, userId, 1, 10, day);
    assert Skip(1, 10) == 0;
    assert |Slice(query, 1, 10)| == 10;
    PagedListing(l, userId, 3, 10, day);
    assert Skip(3, 10) == 20;
    assert |Slice(query, 3, 10)| == 2;
    PagedListing(l, userId, 4, 10, day);
    assert Skip(4, 10) == 30;
    assert Slice(query, 4, 10) == [];
  }

  /** When every listed offer was created within the day, the listing's
      candidates are all the listed offers. */
  lemma AllListedToday(l: Ledger, day: DayWindow)
    requires forall i :: 0 <= i < |l.offers| && l.offers[i].listed ==> day.Contains(l.offers[i].createdAt)
    ensures |ListedOffersQuery(l, day)| == CountListedOffers(l)
  {
    FilterAgree(l.offers, o => OffersListed(o) && OffersCreatedToday(day, o), OffersListed);
    var query := ListedOffersQuery(l, day);
    assert |query| == |multiset(query)| == |ListedToday(l.offers, day)|;
  }

  /** The last page counts listed offers of every day: one offer listed
      yesterday and none today gives an empty page 1 that is also the last page. */
  lemma LastPageCountsEveryDay()
    ensures var l := Ledger(map[], map[], map[], map[], [Offer(0, "u", "w", "c", 1.0, 1.0, true, 0)]);
      var r := ListOffers(l, "u", ListOffersParams(true, None, None), DayWindow(100, 199));
      r.data == [] && r.lastPage == Some(1)
  {
    var l := Ledger(map[], map[], map[], map[], [Offer(0, "u", "w", "c", 1.0, 1.0, true, 0)]);
    assert Listed(l.offers) == l.offers;
    assert ListedOffersQuery(l, DayWindow(100, 199)) == [];
  }
}
