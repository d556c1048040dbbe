/** The offer record and the query fragments the service composes: listed,
    created by a user, created within today's window, newest first. */
module OfferSchema {
  import opened Queries

  /** Store identifiers of users, wallets and currencies. */
  type Id = string

  /** An offer to sell `amount` of `currency` from `wallet` at `unitPrice`.
      `id` is the identifier the store assigns on insertion and `createdAt`
      the insertion timestamp it records. */
  datatype Offer = Offer(
    id: nat,
    user: Id,
    wallet: Id,
    currency: Id,
    amount: real,
    unitPrice: real,
    listed: bool,
    createdAt: int)

  /** The closed interval [startOfDay(now), endOfDay(now)] of one calendar day. */
  datatype DayWindow = DayWindow(start: int, end: int) {
    predicate Contains(t: int) {
      start <= t <= end
    }
  }

  /** A freshly stored offer: `listed` takes its schema default (true) and
      the creation timestamp is the insertion time. */
  function NewOffer(id: nat, user: Id, wallet: Id, currency: Id, amount: real, unitPrice: real, now: int): (o: Offer)
    ensures o.listed
    ensures o.createdAt == now && o.id == id
    ensures o.user == user && o.wallet == wallet && o.currency == currency
    ensures o.amount == amount && o.unitPrice == unitPrice
  {
    Offer(id, user, wallet, currency, amount, unitPrice, true, now)
  }

  predicate OffersListed(o: Offer) {
    o.listed
  }

  predicate OffersCreatedBy(user: Id, o: Offer) {
    o.user == user
  }

  /** Both ends of the day window are inclusive. */
  predicate OffersCreatedToday(day: DayWindow, o: Offer) {
    day.Contains(o.createdAt)
  }

  /** Sort order `{ createdAt: -1 }`: each offer is at least as recent as the next. */
  predicate RecentOffersFirst(s: seq<Offer>) {
    forall i :: 0 < i < |s| ==> s[i - 1].createdAt >= s[i].createdAt
  }

  /** The listed offers. */
  function Listed(offers: seq<Offer>): (r: seq<Offer>)
    ensures forall o :: o in r <==> o in offers && o.listed
  {
    Filter(offers, OffersListed)
  }

  /** The listed offers created within `day`: the candidates of the listing. */
  function ListedToday(offers: seq<Offer>, day: DayWindow): (r: seq<Offer>)
    ensures forall o :: o in r <==> o in offers && o.listed && day.start <= o.createdAt <= day.end
  {
    Filter(offers, o => OffersListed(o) && OffersCreatedToday(day, o))
  }

  /** The listed offers `user` created within `day`: what the daily limit counts. */
  function ListedTodayBy(offers: seq<Offer>, user: Id, day: DayWindow): (r: seq<Offer>)
    ensures forall o :: o in r <==> o in offers && o.user == user && o.listed && day.start <= o.createdAt <= day.end
  {
    Filter(offers, o => OffersCreatedBy(user, o) && OffersListed(o) && OffersCreatedToday(day, o))
  }

  /** Inserting `o` into a newest-first sequence keeps it newest first. An
      offer goes before the offers it ties with. */
  function InsertRecentFirst(o: Offer, s: seq<Offer>): (r: seq<Offer>)
    requires RecentOffersFirst(s)
    ensures RecentOffersFirst(r)
    ensures multiset(r) == multiset(s) + multiset{o}
    ensures |r| > 0 && (r[0] == o || (|s| > 0 && r[0] == s[0]))
  {
    if |s| == 0 || o.createdAt >= s[0].createdAt then
      ConsRecentFirst(o, s);
      [o] + s
    else
      assert s == [s[0]] + s[1..];
      var rest := InsertRecentFirst(o, s[1..]);
      ConsRecentFirst(s[0], rest);
      assert multiset([s[0]] + rest) == multiset{s[0]} + multiset(rest);
      [s[0]] + rest
  }

  /** An offer at least as recent as the head of a newest-first sequence
      can go in front of it. */
  lemma ConsRecentFirst(x: Offer, t: seq<Offer>)
    requires RecentOffersFirst(t)
    requires |t| == 0 || x.createdAt >= t[0].createdAt
    ensures RecentOffersFirst([x] + t)
  {
    var r := [x] + t;
    forall i | 0 < i < |r|
      ensures r[i - 1].createdAt >= r[i].createdAt
    {
      assert r[i] == t[i - 1];
      if i > 1 {
        assert r[i - 1] == t[i - 2];
      }
    }
  }

  /** The store's `sort({ createdAt: -1 })`: a newest-first permutation. */
  function SortRecentFirst(s: seq<Offer>): (r: seq<Offer>)
    ensures RecentOffersFirst(r)
    ensures multiset(r) == multiset(s)
  {
    if |s| == 0 then []
    else
      assert s == [s[0]] + s[1..];
      InsertRecentFirst(s[0], SortRecentFirst(s[1..]))
  }

  /** No two offers share a creation time. */
  predicate DistinctTimes(s: seq<Offer>) {
    forall i, j :: 0 <= i < j < |s| ==> s[i].createdAt != s[j].createdAt
  }

  /** The head of a newest-first sequence is its most recent offer. */
  lemma {:induction false} HeadIsMostRecent(s: seq<Offer>, k: nat)
    requires RecentOffersFirst(s) && k < |s|
    ensures s[k].createdAt <= s[0].createdAt
  {
    if k > 0 {
      HeadIsMostRecent(s, k - 1);
    }
  }

  /** Without ties there is exactly one newest-first arrangement of a
      collection of offers. */
  lemma {:induction false} SortedWithoutTiesIsUnique(a: seq<Offer>, b: seq<Offer>)
    requires RecentOffersFirst(a) && RecentOffersFirst(b)
    requires multiset(a) == multiset(b) && DistinctTimes(b)
    ensures a == b
    decreases |b|
  {
    assert |a| == |multiset(a)| == |b|;
    if |b| > 0 {
      assert b[0] in multiset(a);
      var k :| 0 <= k < |a| && a[k] == b[0];
      assert a[0] in multiset(b);
      var m :| 0 <= m < |b| && b[m] == a[0];
      HeadIsMostRecent(a, k);
      HeadIsMostRecent(b, m);
      assert b[m].createdAt == b[0].createdAt;
      assert m == 0;
      SameTails(a, b);
      SortedWithoutTiesIsUnique(a[1..], b[1..]);
    }
  }

  /** Two arrangements of the same offers with the same head have
      arrangements of the same offers as tails. */
  lemma SameTails(a: seq<Offer>, b: seq<Offer>)
    requires |a| > 0 && |b| > 0 && a[0] == b[0]
    requires multiset(a) == multiset(b)
    ensures multiset(a[1..]) == multiset(b[1..])
  {
    assert a == [a[0]] + a[1..];
    assert multiset(a) == multiset{a[0]} + multiset(a[1..]);
    assert b == [b[0]] + b[1..];
    assert multiset(b) == multiset{b[0]} + multiset(b[1..]);
    forall x
      ensures multiset(a[1..])[x] == multiset(b[1..])[x]
    {
      assert multiset(a)[x] == multiset{a[0]}[x] + multiset(a[1..])[x];
      assert multiset(b)[x] == multiset{a[0]}[x] + multiset(b[1..])[x];
    }
  }

  /** Sorting keeps exactly the offers it was given. */
  lemma SortKeepsMembers(s: seq<Offer>, o: Offer)
    ensures o in SortRecentFirst(s) <==> o in s
  {
    assert o in multiset(SortRecentFirst(s)) <==> o in multiset(s);
  }

  /** The sum of `amount` over `offers`, as the store results are reduced from 0. */
  function SumAmounts(offers: seq<Offer>): real {
    if |offers| == 0 then 0.0 else offers[0].amount + SumAmounts(offers[1..])
  }

  /** Non-negative amounts have a non-negative sum. */
  lemma {:induction false} SumAmountsNonNegative(offers: seq<Offer>)
    requires forall o :: o in offers ==> o.amount >= 0.0
    ensures SumAmounts(offers) >= 0.0
  {
    if |offers| > 0 {
      assert offers[0] in offers;
      SumAmountsNonNegative(offers[1..]);
    }
  }

  lemma {:induction false} SumAmountsConcat(a: seq<Offer>, b: seq<Offer>)
    ensures SumAmounts(a + b) == SumAmounts(a) + SumAmounts(b)
  {
    if |a| == 0 {
      assert a + b == b;
    } else {
      assert (a + b)[1..] == a[1..] + b;
      SumAmountsConcat(a[1..], b);
    }
  }

  /** Replacing offer i by one with the same amount that the query treats the
      same way leaves the sum of the query's amounts unchanged. */
  lemma {:induction false} SumFilterUpdate(s: seq<Offer>, i: nat, x: Offer, p: Offer -> bool)
    requires i < |s|
    requires p(x) == p(s[i]) && x.amount == s[i].amount
    ensures SumAmounts(Filter(s[i := x], p)) == SumAmounts(Filter(s, p))
  {
    var t := s[i := x];
    assert s == [s[0]] + s[1..];
    assert t == [t[0]] + t[1..];
    if i == 0 {
      assert t[1..] == s[1..];
      SumAmountsConcat(if p(x) then [x] else [], Filter(s[1..], p));
      SumAmountsConcat(if p(s[0]) then [s[0]] else [], Filter(s[1..], p));
    } else {
      assert t[1..] == s[1..][i - 1 := x];
      SumFilterUpdate(s[1..], i - 1, x, p);
      SumAmountsConcat(if p(s[0]) then [s[0]] else [], Filter(t[1..], p));
      SumAmountsConcat(if p(s[0]) then [s[0]] else [], Filter(s[1..], p));
    }
  }
}
