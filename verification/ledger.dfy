/** The state the offer service reads and writes: users, wallets, currencies,
    the asset balance of each (wallet, currency) pair, and the offers in the
    order they were stored. */
module Ledger {
  import opened OfferSchema

  datatype User = User(name: string)

  datatype Currency = Currency(name: string)

  /** A wallet belongs to the user `owner`. */
  datatype Wallet = Wallet(owner: Id, name: string)

  /** `assets` maps a (wallet, currency) pair to the amount the wallet holds. */
  datatype Ledger = Ledger(
    users: map<Id, User>,
    wallets: map<Id, Wallet>,
    currencies: map<Id, Currency>,
    assets: map<(Id, Id), real>,
    offers: seq<Offer>)

  /** Each offer's identifier is its position in the store. Identifiers
      are therefore unique and the next free one is |offers|. */
  predicate IdsArePositions(l: Ledger) {
    forall i :: 0 <= i < |l.offers| ==> l.offers[i].id == i
  }
}
