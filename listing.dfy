/**
 * The `/transactions` route: the records whose title or description
 * matches `search`, the number of them, and one page of them.
 */
module ListingRoute {
  import opened Transactions
  import opened Search

  const DefaultSearch: string := ""
  const DefaultPage: int := 1
  const DefaultPerPage: int := 10

  /** The route's answer: one page of matches and the number of all matches. */
  datatype Listing = Listing(transactions: seq<Transaction>, total: nat)

  /**
   * The documents selected by the listing query, in the store's order
   * (MatchesAppend states the order).
   */
  function Matches(store: seq<Transaction>, search: string): (m: seq<Transaction>)
    ensures |m| <= |store|
    ensures forall t :: t in m <==> t in store && MatchesSearch(t, search)
  {
    if store == [] then []
    else (if MatchesSearch(store[0], search) then [store[0]] else []) + Matches(store[1..], search)
  }

  /** Selection keeps the store's order: it distributes over concatenation. */
  lemma {:induction false} MatchesAppend(a: seq<Transaction>, b: seq<Transaction>, search: string)
    ensures Matches(a + b, search) == Matches(a, search) + Matches(b, search)
  {
    if a == [] {
      assert a + b == b;
    } else {
      assert (a + b)[0] == a[0];
      assert (a + b)[1..] == a[1..] + b;
      MatchesAppend(a[1..], b, search);
    }
  }

  /** With the default, empty, search text every record is selected. */
  lemma {:induction false} EmptySearchSelectsAll(store: seq<Transaction>)
    ensures Matches(store, DefaultSearch) == store
  {
    if store != [] {
      EmptySearchMatches(store[0]);
      EmptySearchSelectsAll(store[1..]);
    }
  }

  /** `cursor.skip(k)`: everything after the first `k` documents. */
  function Skip(s: seq<Transaction>, k: nat): (r: seq<Transaction>)
    ensures |r| == if k >= |s| then 0 else |s| - k
    ensures forall i :: 0 <= i < |r| ==> r[i] == s[k + i]
  {
    if k >= |s| then [] else s[k..]
  }

  /** `cursor.limit(n)` for `n >= 1`: at most the first `n` documents. */
  function Limit(s: seq<Transaction>, n: nat): (r: seq<Transaction>)
    requires n >= 1
    ensures |r| == Min(n, |s|)
    ensures r <= s
  {
    if n >= |s| then s else s[..n]
  }

  /** Page `page` of `m` at `perPage` entries a page: `skip((page-1)*perPage).limit(perPage)`. */
  function PageOf(m: seq<Transaction>, page: int, perPage: int): (r: seq<Transaction>)
    requires page >= 1 && perPage >= 1
    ensures (page - 1) * perPage >= 0
    ensures |r| == if (page - 1) * perPage >= |m| then 0 else Min(perPage, |m| - (page - 1) * perPage)
    ensures forall i :: 0 <= i < |r| ==> r[i] == m[(page - 1) * perPage + i]
  {
    assert (page - 1) * perPage >= 0;
    Limit(Skip(m, (page - 1) * perPage), perPage)
  }

  /** A page holds only entries of the sequence it is cut from. */
  lemma PageWithin(m: seq<Transaction>, page: int, perPage: int)
    requires page >= 1 && perPage >= 1
    ensures forall t :: t in PageOf(m, page, perPage) ==> t in m
  {
    var r, off := PageOf(m, page, perPage), (page - 1) * perPage;
    forall t | t in r ensures t in m {
      var i :| 0 <= i < |r| && r[i] == t;
      assert r[i] == m[off + i];
    }
  }

  /** Pages 1 to `k`, one after the other. */
  function Pages(m: seq<Transaction>, perPage: int, k: nat): seq<Transaction>
    requires perPage >= 1
  {
    if k == 0 then [] else Pages(m, perPage, k - 1) + PageOf(m, k, perPage)
  }

  /** The first `k` pages together are the first `k * perPage` matches (or all of them). */
  lemma {:induction false} PagesArePrefix(m: seq<Transaction>, perPage: int, k: nat)
    requires perPage >= 1
    ensures k * perPage >= 0
    ensures Pages(m, perPage, k) == m[..Min(k * perPage, |m|)]
  {
    if k > 0 {
      PagesArePrefix(m, perPage, k - 1);
      var before := Min((k - 1) * perPage, |m|);
      var page := PageOf(m, k, perPage);
      assert k * perPage == (k - 1) * perPage + perPage;
      assert m[..before] + page == m[..Min(k * perPage, |m|)];
    }
  }

  /** Once the pages reach past the last match, together they hold every match exactly once. */
  lemma PagesCoverMatches(m: seq<Transaction>, perPage: int, k: nat)
    requires perPage >= 1
    requires k * perPage >= |m|
    ensures Pages(m, perPage, k) == m
  {
    PagesArePrefix(m, perPage, k);
  }

  /** Match number `j` (from 0) is entry `j % perPage` of page `j / perPage + 1`. */
  lemma MatchOnItsPage(m: seq<Transaction>, perPage: int, j: int)
    requires perPage >= 1 && 0 <= j < |m|
    ensures var r := PageOf(m, j / perPage + 1, perPage);
      j % perPage < |r| && r[j % perPage] == m[j]
  {
    var q, rem := j / perPage, j % perPage;
    assert j == q * perPage + rem;
    assert (q + 1 - 1) * perPage == q * perPage;
  }

  /**
   * `GET /transactions`: `search` defaults to the empty text, `page` to 1
   * and `per_page` to 10; `total` counts every match and the list is the
   * requested page of them.
   */
  function ListTransactions(store: seq<Transaction>, search: Option<string>,
                            page: Option<int>, perPage: Option<int>): (r: Listing)
    requires page.Some? ==> page.value >= 1
    requires perPage.Some? ==> perPage.value >= 1
    ensures var s := if search.Some? then search.value else DefaultSearch;
      && r.total == |Matches(store, s)|
      && (forall t :: t in r.transactions ==> t in store && MatchesSearch(t, s))
    ensures var s := if search.Some? then search.value else DefaultSearch;
            var p := if page.Some? then page.value else DefaultPage;
            var n := if perPage.Some? then perPage.value else DefaultPerPage;
      r.transactions == PageOf(Matches(store, s), p, n)
  {
    var s := if search.Some? then search.value else DefaultSearch;
    var p := if page.Some? then page.value else DefaultPage;
    var n := if perPage.Some? then perPage.value else DefaultPerPage;
    var m := Matches(store, s);
    PageWithin(m, p, n);
    Listing(PageOf(m, p, n), |m|)
  }
}
