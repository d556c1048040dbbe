# Offer admission engine of a marketplace ledger — Dafny model

Users own wallets, a wallet holds an asset amount per currency, and a user
lists offers to sell part of an asset at a unit price. This project models
the offer service of that marketplace as pure transitions over an immutable
ledger value, and proves what the service guarantees:

- `createOffer` runs a fixed chain of fail-fast checks, in this order: wallet id, currency id, caller id, wallet ownership, balance, daily limit.
- `unlistOffer` soft-deletes an offer by clearing its `listed` flag.
- `listOffers` returns today's listed offers, newest first, as a scroll or as a page.
- Around the service sit the offer record with its query fragments, the page arithmetic, and the string-to-boolean query parser.

Files (one module each):

| file | module | models |
|---|---|---|
| wrappers.dfy | `Wrappers` | `Option`, `Result`, `Outcome` (a check's pass/fail) |
| data_transformation.dfy | `DataTransformation` | `stringToBoolean` |
| pagination.dfy | `Pagination` | `Paginated<T>`, skip / last-page arithmetic, the skip+limit slice |
| queries.dfy | `Queries` | the store's `find`: an order-preserving filter |
| offer_schema.dfy | `OfferSchema` | the `Offer` record, its query fragments, the newest-first sort |
| ledger.dfy | `Ledger` | users, wallets, currencies, assets per (wallet, currency), offers |
| offer_service.dfy | `OfferService` | `createOffer`, `unlistOffer`, `listOffers` and their private steps |
| offer_properties.dfy | `OfferProperties` | check order, balance and daily-limit invariants over runs, unlisting, paging |
| offer_scenarios.dfy | `OfferScenarios` | the unit tests' mock situations, check boundaries, and a create-unlist-create sequence |

Modelling choices:

- The clock is a parameter. `now` is the current time, and `day` is the window `[startOfDay(now), endOfDay(now)]`, inclusive at both ends, with `day.Contains(now)`.
- Offer ids are positions: the store assigns the next free id, `|offers|`. `IdsArePositions` is preserved by both write operations.
- Amounts and unit prices are `real`: comparisons are exact and there is no float rounding.
- A populated reference that resolves to nothing gives JavaScript `null`. Reading `_id` of it throws a `TypeError`, which is modelled as the refusal `OwnerMissing`, whose kind is `TypeError`. Two places can hit this: a wallet whose owner is not a stored user, and an offer whose user is not a stored user.
- Errors are modelled by what the code throws. Every refusal is a `BadRequest` except the two ownership refusals, which are `Unauthorized`, and `OwnerMissing`, which is a `TypeError`. `KindOf` states this.

Where the code differs from its unit tests or its API annotations, the model follows the code:

- Unlisted offers still count against an asset. The total offered on a pair sums every offer on it, listed or not (`src/offer/offer.service.ts:189-199`). Unlisting therefore never frees balance (`UnlistDoesNotFreeBalance`, `UnlistingDoesNotRestoreBalance`).
- The paginated `lastPage` counts all listed offers of every day (`src/offer/offer.service.ts:113-115`), while the data holds only today's offers. The unit test expects the count to be filtered by day as well (`src/offer/tests/offer.service.spec.ts:28-31`). The last page can therefore be too large, though never too small (`LastPageCountsEveryDay`, `EveryListedOfferTodayIsOnSomePage`).
- The default page size is 2 (`src/offer/offer.service.ts:14`). The unit test's paginated parameters give `limit: 10` explicitly (`src/offer/tests/offer.mock.ts:133-137`), so it does not exercise the default.
- The caller of `createOffer` must exist as a user before ownership is compared (`src/offer/offer.service.ts:141`).

## Model

| member | source | states |
|---|---|---|
| DataTransformation.StringToBoolean | src/common/dataTransformation.ts:5-18 | the result is true exactly for "true" and "1", false exactly for "false" and "0", and null for every other string |
| DataTransformation.ParseExamples | src/common/tests/dataTransformation.spec.ts:24-43 | the five unit-test inputs parse to true, false, true, false, null |
| Pagination.LastPage | src/common/tests/pagination.spec.ts:6-9 | the last page is the least page count whose pages of `limit` hold `total` items (ceiling of total/limit); 0 exactly when there are no items |
| Pagination.Slice | src/offer/offer.service.ts:101-104 | a page holds the items from position Skip(page, limit) on, in order: `limit` of them while a whole page remains, the rest of the items on a partial last page, none once Skip reaches the end |
| Pagination.Skip | src/common/tests/pagination.spec.ts:6-9 | page p is preceded by (p − 1) pages of `limit` items: the skip is 0 exactly on page 1, and the skipped items fill exactly p − 1 pages |
| Pagination.PageOfIndex | src/common/tests/pagination.spec.ts:6-8 | item i lies in the range of page p iff p = i / limit + 1, so every item is on exactly one page |
| Pagination.PagesCoverItems | src/offer/offer.service.ts:96-111 | every item appears, at its offset, on a page not past the last page |
| Pagination.PastLastPageIsEmpty | src/common/tests/pagination.spec.ts:9 | the page is not clamped: a page past the last page is an empty slice, not an error |
| Pagination.PaginationExamples | src/common/tests/pagination.spec.ts:6-9 | skip/lastPage of the four unit-test cases: 0/3, 10/3, 8/4, 495/1 |
| OfferSchema.NewOffer | src/offer/model/offer.schema.ts:55-57 | a new offer is listed by default and carries the request's fields and the insertion time |
| OfferSchema.Listed | src/offer/model/offer.schema.ts:11-13 | the query keeps exactly the offers whose `listed` is true |
| OfferSchema.ListedToday | src/offer/model/offer.schema.ts:19-24 | the query keeps exactly the listed offers whose createdAt lies within the day, both ends included |
| OfferSchema.ListedTodayBy | src/offer/model/offer.schema.ts:15-17 | the query keeps exactly the listed offers of that user created within the day |
| OfferSchema.SortRecentFirst | src/offer/model/offer.schema.ts:26 | the sort returns a permutation of its input in which each offer is at least as recent as the next |
| OfferSchema.SortedWithoutTiesIsUnique | src/offer/model/offer.schema.ts:26 | when no two offers share a creation time, two newest-first arrangements of the same offers are equal: the sort order is then fully determined |
| Queries.Filter | src/offer/offer.service.ts:122-129 | a query's result keeps exactly the stored documents the predicate accepts, and no more of them than are stored |
| Queries.FilterMultiset | src/offer/offer.service.ts:122-129 | a query returns each accepted document as often as it is stored, and no rejected document |
| OfferService.KindOf | src/offer/offer.service.ts:138-147 | only the wallet- and offer-ownership refusals are Unauthorized; a dangling owner reference is a TypeError; all other refusals are BadRequest |
| OfferService.CheckExistingId | src/offer/offer.service.ts:84-89 | passes iff the id names a stored document, else refuses naming that id |
| OfferService.CheckIdsInCreateOfferDTO | src/offer/offer.service.ts:77-82 | passes iff both the wallet and the currency exist; an unknown wallet is reported before an unknown currency |
| OfferService.GetWalletOwner | src/offer/offer.service.ts:149-156 | yields the wallet's owner exactly when the wallet exists and its owner is a stored user |
| OfferService.CheckIfUserOwnsWallet | src/offer/offer.service.ts:138-156 | passes iff the caller exists and owns the wallet; an unknown caller is reported as a missing document; for an existing caller, a missing wallet or an owner that does not resolve is the TypeError refusal, and an existing owner other than the caller is refused as not owning the wallet |
| OfferService.TotalOfferedByAsset | src/offer/offer.service.ts:189-199 | the total is 0 when no offer is on the pair and is never negative when no amount is; with `TotalOfferedSnoc` this fixes the total for every store |
| OfferService.CheckEnoughBalance | src/offer/offer.service.ts:171-187 | passes iff an asset exists for the pair and the amount plus everything already offered on the pair is at most the asset amount; otherwise "not enough balance" |
| OfferService.OffersToday | src/offer/offer.service.ts:202-211 | the daily count is at most the number of stored offers, and is 0 exactly when the caller has no listed offer created within the day |
| OfferService.CheckMaxOffersPerDay | src/offer/offer.service.ts:201-216 | passes iff the caller has fewer than 5 listed offers created today |
| OfferService.CreateOfferFromDTO | src/offer/offer.service.ts:158-169 | exactly one offer is appended, carrying the caller and the request's fields, listed, created now; its id is the next free position and nothing else changes |
| OfferService.CreateOffer | src/offer/offer.service.ts:46-62 | succeeds iff every admission condition holds on the state; on success exactly one listed offer with the request's fields is appended, its id is returned, and nothing else changes |
| OfferService.FindOffer | src/offer/offer.service.ts:218-229 | finds the first offer with the id, or reports that no offer has it |
| OfferService.SoftDeleteOffer | src/offer/offer.service.ts:239-242 | only that offer's `listed` flag becomes false; every other offer and field is unchanged |
| OfferService.UnlistOffer | src/offer/offer.service.ts:64-75 | refuses with "no offer" iff no offer has the id; for the first offer with the id, succeeds iff its user is the caller and exists, refuses with a dangling user iff its user does not exist, and refuses as not owned iff its user exists and is not the caller; a success only clears that offer's flag |
| OfferService.ListedOffersQuery | src/offer/offer.service.ts:117-136 | the candidates are the listed offers created today, each as often as it is stored, newest first |
| OfferService.CountListedOffers | src/offer/offer.service.ts:113-115 | the count is at most the number of stored offers, and is 0 exactly when no stored offer is listed |
| OfferService.ListOffers | src/offer/offer.service.ts:26-44 | data is newest first and holds only today's listed offers; a scroll is the whole candidate query and has no page numbers; a page is the skip/limit slice of that query, with currentPage = page and lastPage computed from the count of all listed offers |
| OfferProperties.CreateOfferFailsAtFirstFailingCheck | src/offer/offer.service.ts:46-62 | createOffer fails iff some check in the order wallet, currency, caller, ownership, balance, daily limit fails, and then with the first failing check's refusal |
| OfferProperties.ForeignWalletIsUnauthorized | src/offer/offer.service.ts:138-147 | an existing caller who does not own an existing wallet is refused Unauthorized, whatever the balance and daily count |
| OfferProperties.UnknownWalletReportedFirst | src/offer/offer.service.ts:77-82 | an unknown wallet id is the refusal, before anything else is checked |
| OfferProperties.TotalOfferedSnoc | src/offer/offer.service.ts:189-199 | a new offer adds its amount to its own pair's total and to no other pair's |
| OfferProperties.TotalOfferedIgnoresListed | src/offer/offer.service.ts:190-192 | clearing an offer's `listed` flag changes no pair's total: unlisted offers keep counting |
| OfferProperties.CreateOfferPreservesBalance | src/offer/offer.service.ts:184-186 | after a successful creation the offers on each pair with an asset still add up to at most the asset |
| OfferProperties.UnlistOfferPreservesBalance | src/offer/offer.service.ts:239-242 | unlisting preserves the balance invariant |
| OfferProperties.UnlistDoesNotFreeBalance | src/offer/offer.service.ts:189-196 | after an unlisting every balance check has the same outcome as before |
| OfferProperties.Apply | src/offer/offer.service.ts:158-169 | no request changes users, wallets, currencies or assets |
| OfferProperties.RunPreservesBalance | src/offer/offer.service.ts:184-186 | across any sequence of create and unlist requests, no asset is ever committed beyond its amount |
| OfferProperties.FindOfferByPosition | src/offer/offer.service.ts:218-229 | when ids are positions, looking an offer up by id finds it exactly when the id is below the number of offers |
| OfferProperties.CreateOfferKeepsIdsPositions | src/offer/offer.service.ts:158-169 | creation keeps ids equal to positions, and the returned id finds the new offer |
| OfferProperties.UnlistOfferOutcome | src/offer/offer.service.ts:64-75 | when ids are positions, the outcome case by case: unknown id, dangling user, other user's offer, or a soft delete of exactly that offer |
| OfferProperties.UnlistOfferIdempotent | src/offer/offer.service.ts:239-242 | unlisting again succeeds and leaves the ledger as the first unlisting left it |
| OfferProperties.UnlistedOfferLeavesListing | src/offer/offer.service.ts:122-129 | after a successful unlisting the offer appears in no listing, scroll or page |
| OfferProperties.OffersTodaySnoc | src/offer/offer.service.ts:202-210 | a stored offer raises its creator's daily count only if it is listed and created in that day |
| OfferProperties.OffersTodayAfterSoftDelete | src/offer/offer.service.ts:202-210 | an unlisted offer stops counting towards its creator's daily limit |
| OfferProperties.CreateOfferCountsToday | src/offer/offer.service.ts:58-61 | a successful creation was below the limit and raises the caller's count for today by exactly one |
| OfferProperties.SixthOfferOfTheDayRefused | src/offer/offer.service.ts:213-215 | with five listed offers today the next creation is refused, with the daily-limit refusal when every earlier check passes |
| OfferProperties.CreateOfferPreservesDailyLimit | src/offer/offer.service.ts:201-216 | creations keep every user at or below 5 listed offers per day |
| OfferProperties.UnlistOfferPreservesDailyLimit | src/offer/offer.service.ts:239-242 | unlisting keeps every user at or below 5 listed offers per day |
| OfferProperties.RunPreservesDailyLimit | src/offer/offer.service.ts:201-216 | across any sequence of requests, no user ever has more than 5 listed offers in one day |
| OfferProperties.PageIsSliceOfScroll | src/offer/offer.service.ts:96-111 | a page is the skip/limit slice of the scroll listing |
| OfferProperties.ListingIgnoresCaller | src/offer/offer.service.ts:26-29 | two callers see the same listing for the same parameters and day |
| OfferProperties.DefaultPageIsFirstPageOfTwo | src/offer/offer.service.ts:30 | a paginated listing without page and limit is page 1 with limit 2 |
| OfferProperties.StoreOrderDeterminedWithoutTies | src/offer/offer.service.ts:92-104 | when no two candidates share a creation time, any newest-first arrangement of them that a store query may return is the listing, so separate page queries agree |
| OfferProperties.PagedListing | src/offer/offer.service.ts:96-111 | a page's data is the slice of today's candidates and its last page comes from the count of all listed offers |
| OfferProperties.CountListedOffersSnoc | src/offer/offer.service.ts:113-115 | a stored offer raises the count behind lastPage by one exactly when it is listed, whatever its creation day |
| OfferProperties.TodayNoMoreThanListed | src/offer/offer.service.ts:113-115 | the listing's candidates are no more than the listed offers the last page is computed from |
| OfferProperties.EveryListedOfferTodayIsOnSomePage | src/offer/offer.service.ts:96-115 | every candidate is on the page whose range holds its position, and that page is not past the reported last page |
| OfferProperties.TwentyTwoOffersInPagesOfTen | src/offer/tests/offer.service.spec.ts:20-41 | with 22 listed offers all from today and pages of 10: page 1 has 10 offers with currentPage 1 and lastPage 3, page 3 has 2, page 4 is empty |
| OfferProperties.LastPageCountsEveryDay | src/offer/offer.service.ts:113-115 | one listed offer from another day gives lastPage 1 with an empty first page |
| OfferScenarios.PriorOffersTotal | src/offer/tests/offer.mock.ts:29-33 | three prior offers of 1 on the pair total 3 |
| OfferScenarios.MockBalanceCases | src/offer/tests/offer.mock.ts:21-33 | with those offers, an offer of 2 passes against an asset of 15, is refused against 4, and is refused without an asset |
| OfferScenarios.ExactBalanceAccepted | src/offer/offer.service.ts:184-186 | an amount exactly equal to the available balance is accepted |
| OfferScenarios.DailyLimitBoundary | src/offer/tests/offer.mock.ts:66-68 | four listed offers today pass the daily check; five are refused |
| OfferScenarios.UnlistingDoesNotRestoreBalance | src/offer/offer.service.ts:189-196 | asset 15: selling 10 succeeds, 6 more is refused, and after unlisting the first offer selling 10 is still refused |

## Left out

- Controllers, Nest modules, bootstrap and the database module: these are transport and dependency wiring.
- Database seeding (`src/database/database.service.ts`): this is I/O only.
- The unwired `src/order` draft: it is not imported by the application module.
- Population and projection of listed offers: the listing returns whole `Offer` records. The source hides `listed`, `__v` and `updatedAt` and populates `user` and `currency`; these read-side projections do not affect which offers are returned or their order.
- Ids are plain strings, and offer ids are positions rather than ObjectId strings. The `isValidObjectId` pipe is left out.
- The un-awaited `save()` in `createOfferFromDTO`: the model treats the insert as completed before the id is returned.
- The race between the balance check and the insert: there is no concurrency in a sequential model.
- Floating-point amounts and prices: these are modelled as exact reals.
- `stringToNumber` (unary `+`, NaN): it depends on JavaScript number parsing.
- date-fns `startOfDay`/`endOfDay`, time zones, and the module-load freezing of `offersCreatedToday`. The day window is a parameter. The service recomputes the window per call, and the model takes it once per call.
- Request validation (class-validator decorators): it becomes the preconditions `ValidRequest` (amount > 0, unitPrice > 0) and `ValidParams` (page ≥ 1, limit ≥ 1). The listing takes `paginated` as an already-parsed boolean.
- The `Pagination` class: the service imports it from `src/common/pagination.ts` (`src/offer/offer.service.ts:8`, `99`), but that file defines only `Paginated<T>`. `Skip` and `LastPage` are reconstructed from `src/common/tests/pagination.spec.ts`.
- OfferSchema.SortRecentFirst: ties in `createdAt` come out in insertion order. The store promises no order for ties, so the contract states only the newest-first order and the permutation.
- OfferProperties.PageIsSliceOfScroll: assumes every query of the store orders offers with equal `createdAt` the same way. The scroll and each page are separate queries (`src/offer/offer.service.ts:92`, `101-104`), and `sort({ createdAt: -1 })` promises nothing for ties. `StoreOrderDeterminedWithoutTies` shows that the assumption is needed only when two candidates share a creation time.
- OfferProperties.EveryListedOfferTodayIsOnSomePage: makes the same assumption across the page queries. With ties ordered differently by different queries, a tied offer could appear on two pages or on none.
- One asset per (wallet, currency) pair: `assets` is a map. The source reads the asset with `findOne({ wallet, currency })` (`src/offer/offer.service.ts:174-176`), and `src/database/model/asset.schema.ts` declares no unique index. If the store held duplicates, `findOne` would pick one of them, and the model does not say which.
- `updatedAt` and `__v` timestamps and versioning are left out.
