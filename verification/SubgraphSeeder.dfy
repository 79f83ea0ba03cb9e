/** Paginated discovery of users (SubgraphSeeder.ts) over a listing that does not change meanwhile. */
module SubgraphSeeder {
  import opened Ordered
  import opened Arithmetic

  /** What the subgraph lists for one kind of position, and which page requests fail (by offset). */
  datatype Listing = Listing(users: seq<string>, fails: nat -> bool)

  function Page(l: Listing, first: nat, skip: nat): seq<string> {
    if skip >= |l.users| then []
    else if skip + first <= |l.users| then l.users[skip..skip + first]
    else l.users[skip..]
  }

  /** ⌈max / pageSize⌉ whole pages, or the whole listing. */
  function FetchLimit(l: Listing, pageSize: nat, maxCandidates: nat): nat
    requires pageSize > 0
  {
    var whole := pageSize * ((maxCandidates + pageSize - 1) / pageSize);
    if whole < |l.users| then whole else |l.users|
  }

  /** A prefix of the listing up to the limit, or up to a page whose request fails. */
  predicate Fetched(l: Listing, pageSize: nat, maxCandidates: nat, users: seq<string>)
    requires pageSize > 0
  {
    && |users| <= FetchLimit(l, pageSize, maxCandidates) && users <= l.users
    && (|users| < FetchLimit(l, pageSize, maxCandidates) ==> l.fails(|users|))
  }

  ghost predicate NeverFails(l: Listing) {
    forall n :: !l.fails(n)
  }

  /** The first users of the listing, up to the limit. */
  function Prefix(l: Listing, pageSize: nat, maxCandidates: nat): seq<string>
    requires pageSize > 0
  {
    l.users[..FetchLimit(l, pageSize, maxCandidates)]
  }

  lemma FetchedIsPrefix(l: Listing, pageSize: nat, maxCandidates: nat, users: seq<string>)
    requires pageSize > 0 && Fetched(l, pageSize, maxCandidates, users)
    ensures NeverFails(l) ==> users == Prefix(l, pageSize, maxCandidates)
  {
    if NeverFails(l) {
      assert |users| == FetchLimit(l, pageSize, maxCandidates);
    }
  }

  lemma WholePages(pageSize: nat, maxCandidates: nat, k: nat)
    requires pageSize > 0
    requires pageSize * k >= maxCandidates
    requires k == 0 || pageSize * (k - 1) < maxCandidates
    ensures (maxCandidates + pageSize - 1) / pageSize == k
  {
    var q := (maxCandidates + pageSize - 1) / pageSize;
    FloorBounds(maxCandidates + pageSize - 1, pageSize);
    if k > 0 { assert pageSize * (k - 1) == pageSize * k - pageSize; }
    if q < k { MulMono(q + 1, k, pageSize); }
    if q > k { MulMono(k + 1, q, pageSize); }
  }

  lemma PagesBelowLimit(pageSize: nat, maxCandidates: nat, k: nat)
    requires pageSize > 0
    requires k == 0 || pageSize * (k - 1) < maxCandidates
    ensures pageSize * k <= pageSize * ((maxCandidates + pageSize - 1) / pageSize)
  {
    var q := (maxCandidates + pageSize - 1) / pageSize;
    FloorBounds(maxCandidates + pageSize - 1, pageSize);
    if k > 0 { assert pageSize * (k - 1) == pageSize * k - pageSize; }
    if q < k { MulMono(q + 1, k, pageSize); }
    MulMono(k, q, pageSize);
  }

  lemma NextMultiple(a: nat, k: nat)
    ensures a * (k + 1) == a * k + a
  {
  }

  /** Where the loop stops after k whole pages, `n` users in. */
  lemma FetchedToTheLimit(l: Listing, pageSize: nat, maxCandidates: nat, k: nat, n: nat)
    requires pageSize > 0
    requires n == (if pageSize * k < |l.users| then pageSize * k else |l.users|)
    requires k == 0 || pageSize * k - pageSize < maxCandidates
    requires n >= maxCandidates || n == |l.users| || (l.fails(n) && n == pageSize * k)
    ensures n <= FetchLimit(l, pageSize, maxCandidates)
    ensures n < FetchLimit(l, pageSize, maxCandidates) ==> l.fails(n) && n % pageSize == 0
  {
    if k > 0 { NextMultiple(pageSize, k - 1); }
    PagesBelowLimit(pageSize, maxCandidates, k);
    if pageSize * k >= maxCandidates {
      WholePages(pageSize, maxCandidates, k);
    }
    if n == pageSize * k { MultipleOf(pageSize, k); }
  }

  class SubgraphSeeder {
    const maxCandidates: nat
    const pageSize: nat

    constructor (maxCandidates: nat, pageSize: nat)
      ensures this.maxCandidates == (if maxCandidates == 0 then 10000 else maxCandidates) && this.maxCandidates > 0
      ensures this.pageSize == (if pageSize == 0 then 1000 else pageSize) && this.pageSize > 0
    {
      this.maxCandidates := if maxCandidates == 0 then 10000 else maxCandidates;
      this.pageSize := if pageSize == 0 then 1000 else pageSize;
    }

    /**
     Fetches a prefix of the listing: exactly the first min(|L|, pageSize * ⌈max / pageSize⌉) users, or fewer
     if a page request fails.
     */
    method FetchUsersPaginated(l: Listing) returns (users: seq<string>)
      requires pageSize > 0
      ensures Fetched(l, pageSize, maxCandidates, users)
      ensures |users| < FetchLimit(l, pageSize, maxCandidates) ==> |users| % pageSize == 0
    {
      users := [];
      var skip := 0;
      var hasMore := true;
      ghost var k, total := 0, 0;
      while hasMore && |users| < maxCandidates
        invariant skip == |users| <= |l.users| && users == l.users[..skip]
        invariant total == pageSize * k && (k == 0 || total - pageSize < maxCandidates)
        invariant skip == (if total < |l.users| then total else |l.users|)
        invariant !hasMore ==> skip == |l.users| || (l.fails(skip) && skip == total)
        decreases hasMore, |l.users| - skip
      {
        if l.fails(skip) {
          hasMore := false;
        } else {
          var pageUsers := Page(l, pageSize, skip);
          if |pageUsers| == 0 {
            hasMore := false;
            break;
          }
          users := users + pageUsers;
          skip := skip + |pageUsers|;
          NextMultiple(pageSize, k);
          k, total := k + 1, total + pageSize;
          if |pageUsers| < pageSize {
            hasMore := false;
          }
        }
      }
      FetchedToTheLimit(l, pageSize, maxCandidates, k, skip);
    }

    /** Unions the three listings in order, without repetitions, and caps the result. */
    method Seed(variableDebt: Listing, stableDebt: Listing, collateral: Listing)
      returns (seeded: seq<string>, ghost v: seq<string>, ghost s: seq<string>, ghost c: seq<string>)
      requires pageSize > 0
      ensures Fetched(variableDebt, pageSize, maxCandidates, v)
      ensures Fetched(stableDebt, pageSize, maxCandidates, s)
      ensures Fetched(collateral, pageSize, maxCandidates, c)
      ensures seeded == Seeded(v, s, c, maxCandidates)
      ensures NeverFails(variableDebt) && NeverFails(stableDebt) && NeverFails(collateral) ==>
        seeded == Seeded(Prefix(variableDebt, pageSize, maxCandidates), Prefix(stableDebt, pageSize, maxCandidates),
                         Prefix(collateral, pageSize, maxCandidates), maxCandidates)
    {
      var variableDebtors := FetchUsersPaginated(variableDebt);
      var allUsers := InsertAll([], variableDebtors);
      var stableDebtors := FetchUsersPaginated(stableDebt);
      allUsers := InsertAll(allUsers, stableDebtors);
      var collateralHolders := FetchUsersPaginated(collateral);
      allUsers := InsertAll(allUsers, collateralHolders);
      v, s, c := variableDebtors, stableDebtors, collateralHolders;
      FetchedIsPrefix(variableDebt, pageSize, maxCandidates, v);
      FetchedIsPrefix(stableDebt, pageSize, maxCandidates, s);
      FetchedIsPrefix(collateral, pageSize, maxCandidates, c);
      seeded := if |allUsers| > maxCandidates then allUsers[..maxCandidates] else allUsers;
    }
  }

  lemma MultipleOf(a: nat, b: nat)
    requires a > 0
    ensures a * b % a == 0
  {
    FloorBounds(a * b, a);
    MulThenDiv(b, a);
  }

  function Union(v: seq<string>, s: seq<string>, c: seq<string>): seq<string> {
    InsertAll(InsertAll(InsertAll([], v), s), c)
  }

  function Seeded(v: seq<string>, s: seq<string>, c: seq<string>, maxCandidates: nat): seq<string> {
    if |Union(v, s, c)| > maxCandidates then Union(v, s, c)[..maxCandidates] else Union(v, s, c)
  }

  /**
   The seeded list is free of repetitions, within the cap, made of fetched users only and all of them if
   they fit; a capped list drops users found for collateral alone before any debtor, and stable debtors
   before any variable debtor.
   */
  lemma SeedingKeepsDebtorsFirst(v: seq<string>, s: seq<string>, c: seq<string>, maxCandidates: nat)
    ensures var r := Seeded(v, s, c, maxCandidates);
      && Distinct(r) && |r| <= maxCandidates
      && (forall u :: u in r ==> u in v || u in s || u in c)
      && (|Union(v, s, c)| <= maxCandidates ==> forall u :: u in v || u in s || u in c ==> u in r)
      && (|Union(v, s, c)| > maxCandidates ==> |r| == maxCandidates)
      && (forall u :: u in v && u !in r ==> forall x :: x in r ==> x in v)
      && (forall u :: u in s && u !in r ==> forall x :: x in r ==> x in v || x in s)
  {
    var a := InsertAll([], v);
    var b := InsertAll(a, s);
    var all := InsertAll(b, c);
    InsertAllKeepsDistinct([], v);
    InsertAllKeepsDistinct(a, s);
    InsertAllKeepsDistinct(b, c);
    var r := Seeded(v, s, c, maxCandidates);
    assert r <= all && a <= b <= all;
    forall u | u in v && u !in r ensures forall x :: x in r ==> x in v {
      DroppedFromPrefix(all, a, |r|, u);
    }
    forall u | u in s && u !in r ensures forall x :: x in r ==> x in v || x in s {
      DroppedFromPrefix(all, b, |r|, u);
    }
  }

  /** If the cut loses an element of a prefix, it keeps nothing but elements of that prefix. */
  lemma DroppedFromPrefix(all: seq<string>, prefix: seq<string>, cut: nat, u: string)
    requires prefix <= all && cut <= |all|
    requires u in prefix && u !in all[..cut]
    ensures forall x :: x in all[..cut] ==> x in prefix
  {
    var i :| 0 <= i < |prefix| && prefix[i] == u;
    assert all[i] == u;
    assert i >= cut;
    forall x | x in all[..cut] ensures x in prefix {
      var j :| 0 <= j < cut && all[j] == x;
      assert prefix[j] == all[j];
    }
  }
}
