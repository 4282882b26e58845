/** Keyset pagination over keys alone: pages, and walks from page to page. */
module KeyPages {
  import opened Common
  import opened KeyOrder

  datatype KeyPage = KeyPage(items: seq<Key>, next: Option<Key>)

  function TakeUpTo<T>(n: nat, s: seq<T>): seq<T> {
    s[..Min(n, |s|)]
  }

  function Beyond(keys: set<Key>, cursor: Option<Key>): set<Key> {
    if cursor.None? then keys else After(true, keys, cursor.value)
  }

  /** One key more than a page is fetched, to learn whether there is a next page. */
  function PageOf(keys: set<Key>, cursor: Option<Key>, limit: nat): KeyPage
    requires limit >= 1
  {
    var records := TakeUpTo(limit + 1, Sorted(true, Beyond(keys, cursor)));
    var items := TakeUpTo(limit, records);
    KeyPage(items, if |records| > limit then Some(items[|items| - 1]) else None)
  }

  /** A page holds the first `limit` keys past the cursor; it offers a next page exactly when that is
      not all of them, and then the next page starts after its last item. */
  lemma PageIsPrefix(keys: set<Key>, cursor: Option<Key>, limit: nat)
    requires limit >= 1
    ensures var page := PageOf(keys, cursor, limit);
            var all := Sorted(true, Beyond(keys, cursor));
            && page.items == TakeUpTo(limit, all)
            && (page.next.Some? <==> |all| > limit)
            && (page.next.Some? ==> |page.items| == limit && page.next.value == all[limit - 1])
            && (forall k :: k in page.items ==> k in Beyond(keys, cursor))
            && Ordered(true, page.items)
  {
    var all := Sorted(true, Beyond(keys, cursor));
    SortedIsListing(true, Beyond(keys, cursor));
    assert forall k :: k in TakeUpTo(limit, all) ==> k in all;
  }

  /** What is past the cursor is on the page or past the next cursor. */
  lemma PageSplits(keys: set<Key>, cursor: Option<Key>, limit: nat, k: Key)
    requires limit >= 1 && k in Beyond(keys, cursor)
    ensures var page := PageOf(keys, cursor, limit);
            k in page.items || (page.next.Some? && k in Beyond(keys, page.next))
  {
    var page := PageOf(keys, cursor, limit);
    var all := Sorted(true, Beyond(keys, cursor));
    SortedIsListing(true, Beyond(keys, cursor));
    PageIsPrefix(keys, cursor, limit);
    var at :| 0 <= at < |all| && all[at] == k;
    if at < |page.items| {
      assert page.items[at] == k;
    }
  }

  lemma BeyondBeyond(keys: set<Key>, cursor: Option<Key>, k: Key)
    requires k in Beyond(keys, cursor)
    ensures After(true, Beyond(keys, cursor), k) == Beyond(keys, Some(k))
  {
  }

  /** The pages a client sees that follows the cursor, the i-th against the i-th key set: between two
      pages anything may have been inserted, changed or deleted. */
  function Walk(tables: seq<set<Key>>, cursor: Option<Key>, limit: nat): seq<KeyPage>
    requires limit >= 1
    decreases |tables|
  {
    if tables == [] then [] else
    var page := PageOf(tables[0], cursor, limit);
    [page] + if page.next.None? then [] else Walk(tables[1..], page.next, limit)
  }

  function AllItems(pages: seq<KeyPage>): seq<Key> {
    if pages == [] then [] else pages[0].items + AllItems(pages[1..])
  }

  /** The first page and the rest of a walk. */
  lemma WalkUnfolds(tables: seq<set<Key>>, cursor: Option<Key>, limit: nat)
    requires limit >= 1 && tables != []
    ensures var page := PageOf(tables[0], cursor, limit);
            var rest := if page.next.None? then [] else Walk(tables[1..], page.next, limit);
            && Walk(tables, cursor, limit) == [page] + rest
            && AllItems(Walk(tables, cursor, limit)) == page.items + AllItems(rest)
  {
  }

  lemma JoinOrdered(a: seq<Key>, b: seq<Key>)
    requires Ordered(true, a) && Ordered(true, b)
    requires a != [] ==> forall k :: k in b ==> Before(true, a[|a| - 1], k)
    ensures Ordered(true, a + b)
  {
    var c := a + b;
    forall i, j | 0 <= i < j < |c| ensures Before(true, c[i], c[j]) {
      if i < |a| <= j {
        assert c[j] == b[j - |a|] && c[j] in b;
        assert i == |a| - 1 || Before(true, a[i], a[|a| - 1]);
      }
    }
  }

  /** Whatever happens to the table between the pages, the walk lists strictly older tickets from one
      item to the next, so none twice, and none at or before the cursor it started from. */
  lemma {:induction false} WalkIsStrictlyDescending(tables: seq<set<Key>>, cursor: Option<Key>, limit: nat)
    requires limit >= 1
    ensures Ordered(true, AllItems(Walk(tables, cursor, limit)))
    ensures cursor.Some? ==> forall k :: k in AllItems(Walk(tables, cursor, limit)) ==> Before(true, cursor.value, k)
    decreases |tables|
  {
    if tables != [] {
      var page := PageOf(tables[0], cursor, limit);
      PageIsPrefix(tables[0], cursor, limit);
      WalkUnfolds(tables, cursor, limit);
      if page.next.Some? {
        WalkIsStrictlyDescending(tables[1..], page.next, limit);
        JoinOrdered(page.items, AllItems(Walk(tables[1..], page.next, limit)));
        assert page.next.value in page.items;
      }
    }
  }

  /** The walk has reached its end: its last page offers no next one. */
  predicate Finished(pages: seq<KeyPage>) {
    pages != [] && pages[|pages| - 1].next.None?
  }

  /** A key present past the starting cursor at the time of every page is listed by the finished walk;
      in a walk still going on, it is listed or still to come. */
  lemma {:induction false} WalkMissesNothing(tables: seq<set<Key>>, cursor: Option<Key>, limit: nat, k: Key)
    requires limit >= 1 && tables != []
    requires forall i :: 0 <= i < |tables| ==> k in Beyond(tables[i], cursor)
    ensures var pages := Walk(tables, cursor, limit);
            && pages != []
            && (Finished(pages) ==> k in AllItems(pages))
            && (!Finished(pages) ==>
                  k in AllItems(pages) || Before(true, pages[|pages| - 1].next.value, k))
    decreases |tables|
  {
    var page := PageOf(tables[0], cursor, limit);
    WalkUnfolds(tables, cursor, limit);
    assert k in Beyond(tables[0], cursor);
    PageSplits(tables[0], cursor, limit, k);
    if k !in page.items && |tables| > 1 {
      forall i | 0 <= i < |tables[1..]| ensures k in Beyond(tables[1..][i], page.next) {
        assert k in Beyond(tables[i + 1], cursor);
      }
      WalkMissesNothing(tables[1..], page.next, limit, k);
    }
  }

  /** Pages needed for `n` rows. */
  function PageCount(n: nat, limit: nat): (pages: nat)
    requires limit >= 1
    ensures pages >= 1
  {
    if n <= limit then 1 else 1 + PageCount(n - limit, limit)
  }

  /** It is `max(1, ceil(n / limit))`: enough pages, and one less would not do. */
  lemma {:induction false} PageCountIsCeiling(n: nat, limit: nat)
    requires limit >= 1
    ensures n <= PageCount(n, limit) * limit
    ensures PageCount(n, limit) == 1 || (PageCount(n, limit) - 1) * limit < n
  {
    if n > limit {
      PageCountIsCeiling(n - limit, limit);
      OneMore(PageCount(n - limit, limit), limit);
      OneMore(PageCount(n - limit, limit) - 1, limit);
    }
  }

  lemma OneMore(a: int, d: int)
    ensures (a + 1) * d == a * d + d
  {
  }

  lemma NextPageKeys(keys: set<Key>, cursor: Option<Key>, limit: nat)
    requires limit >= 1 && |Sorted(true, Beyond(keys, cursor))| > limit
    ensures var all := Sorted(true, Beyond(keys, cursor));
            && PageOf(keys, cursor, limit).next == Some(all[limit - 1])
            && Sorted(true, Beyond(keys, Some(all[limit - 1]))) == all[limit..]
            && all == PageOf(keys, cursor, limit).items + all[limit..]
  {
    var all := Sorted(true, Beyond(keys, cursor));
    PageIsPrefix(keys, cursor, limit);
    TailIsListing(true, Beyond(keys, cursor), limit);
    assert all[limit - 1] in PageOf(keys, cursor, limit).items;
    BeyondBeyond(keys, cursor, all[limit - 1]);
  }

  /** On a table that does not change, the walk ends after exactly the pages needed, and the pages put
      together are the whole sorted list `all`. */
  lemma {:induction false} FixedWalkIsWholeListing(keys: set<Key>, cursor: Option<Key>, limit: nat,
                                                   tables: seq<set<Key>>, all: seq<Key>)
    requires limit >= 1
    requires forall i :: 0 <= i < |tables| ==> tables[i] == keys
    requires all == Sorted(true, Beyond(keys, cursor))
    requires |tables| >= PageCount(|all|, limit)
    ensures Finished(Walk(tables, cursor, limit))
    ensures |Walk(tables, cursor, limit)| == PageCount(|all|, limit)
    ensures AllItems(Walk(tables, cursor, limit)) == all
    decreases |tables|
  {
    assert tables[0] == keys;
    PageIsPrefix(keys, cursor, limit);
    WalkUnfolds(tables, cursor, limit);
    if |all| > limit {
      NextPageKeys(keys, cursor, limit);
      forall i | 0 <= i < |tables[1..]| ensures tables[1..][i] == keys {
        assert tables[1..][i] == tables[i + 1];
      }
      FixedWalkIsWholeListing(keys, Some(all[limit - 1]), limit, tables[1..], all[limit..]);
    }
  }
}
