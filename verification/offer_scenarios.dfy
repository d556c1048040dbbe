/** Concrete situations evaluated on the model: the mock state of the
    service's unit tests, the boundaries of the balance and daily checks,
    and a create, unlist, create sequence on one asset. */
module OfferScenarios {
  import opened Wrappers
  import opened OfferSchema
  import opened Ledger
  import opened OfferService
  import opened OfferProperties

  function PriorOffers(): seq<Offer> {
    [ Offer(0, "userId", "walletId", "currencyId", 1.0, 1234.56, true, 0),
      Offer(1, "userId", "walletId", "currencyId", 1.0, 1234.56, true, 0),
      Offer(2, "userId", "walletId", "currencyId", 1.0, 1234.56, true, 0) ]
  }

  lemma PriorOffersTotal()
    ensures TotalOfferedByAsset(PriorOffers(), "walletId", "currencyId") == 3.0
  {
  }

  /** With three offers of 1 already on the pair, an offer of 2 fits an
      asset of 15 and does not fit an asset of 4. */
  lemma MockBalanceCases()
    ensures var req := CreateOfferRequest("walletId", "currencyId", 2.0, 1234.56);
      && CheckEnoughBalance(Ledger(map[], map[], map[], map[("walletId", "currencyId") := 15.0], PriorOffers()), req).Pass?
      && CheckEnoughBalance(Ledger(map[], map[], map[], map[("walletId", "currencyId") := 4.0], PriorOffers()), req)
         == Fail(NotEnoughBalance)
      && CheckEnoughBalance(Ledger(map[], map[], map[], map[], PriorOffers()), req) == Fail(NotEnoughBalance)
  {
  }

  /** An offer of exactly the available balance is accepted. */
  lemma ExactBalanceAccepted(l: Ledger, req: CreateOfferRequest)
    requires (req.walletId, req.currencyId) in l.assets
    requires req.amount == l.assets[(req.walletId, req.currencyId)] - TotalOfferedByAsset(l.offers, req.walletId, req.currencyId)
    ensures CheckEnoughBalance(l, req).Pass?
  {
  }

  /** Four listed offers today still admit a fifth; five do not. */
  lemma DailyLimitBoundary(l: Ledger, userId: Id, day: DayWindow)
    ensures OffersToday(l.offers, userId, day) == 4 ==> CheckMaxOffersPerDay(l, userId, day).Pass?
    ensures OffersToday(l.offers, userId, day) == 5 ==> CheckMaxOffersPerDay(l, userId, day) == Fail(MaxOffersPerDayReached)
  {
  }

  function Start(): Ledger {
    Ledger(
      map["A" := User("Alice")],
      map["W1" := Wallet("A", "Wallet 1")],
      map["C1" := Currency("Bitcoin")],
      map[("W1", "C1") := 15.0],
      [])
  }

  function Sell(amount: real): CreateOfferRequest {
    CreateOfferRequest("W1", "C1", amount, 100.0)
  }

  /** Asset 15: selling 10 succeeds, selling 6 more is refused, and after
      the first offer is unlisted selling 10 is STILL refused, because
      unlisted offers keep counting against the asset. */
  lemma UnlistingDoesNotRestoreBalance()
    ensures var day := DayWindow(0, 99);
      var r1 := CreateOffer(Start(), "A", Sell(10.0), 10, day);
      && r1.Success? && r1.value.offerId == 0
      && CreateOffer(r1.value.ledger, "A", Sell(6.0), 11, day) == Failure(NotEnoughBalance)
      && UnlistOffer(r1.value.ledger, "A", 0).Success?
      && CreateOffer(UnlistOffer(r1.value.ledger, "A", 0).value, "A", Sell(10.0), 12, day) == Failure(NotEnoughBalance)
  {
  }
}
