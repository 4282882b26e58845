/** The ticket listing: newest first, one page after another by `next_cursor`. */
module TicketPaging {
  import opened Common
  import opened TicketKinds
  import opened KeyOrder
  import KeyPages

  datatype Ticket = Ticket(
    createdAt: int,
    tenant: int,
    creator: int,
    assignee: Option<int>,
    status: Status,
    priority: Priority,
    subject: string,
    description: string)

  type Table = map<int, Ticket>

  /** What a request filters by; `lower` is how the database folds the case of a text. */
  datatype Filters = Filters(
    creator: Option<int>,
    status: Option<Status>,
    assignee: Option<int>,
    priority: Option<Priority>,
    createdFrom: Option<int>,
    createdTo: Option<int>,
    keyword: Option<string>,
    lower: string -> string)

  datatype Listing = Listing(tenant: int, filters: Filters, limit: nat)

  datatype Row = Row(id: int, ticket: Ticket)

  datatype Page = Page(items: seq<Row>, next: Option<Key>)

  predicate FoundAt(text: string, keyword: string, i: int) {
    0 <= i <= |text| - |keyword| && text[i..i + |keyword|] == keyword
  }

  predicate Contains(text: string, keyword: string) {
    exists i | 0 <= i <= |text| - |keyword| :: FoundAt(text, keyword, i)
  }

  predicate IContains(text: string, keyword: string, lower: string -> string) {
    Contains(lower(text), lower(keyword))
  }

  /** The text has `part` somewhere in it. */
  ghost predicate Within(part: string, text: string) {
    exists before, after :: text == before + part + after
  }

  lemma ContainsIsWithin(text: string, keyword: string)
    ensures Contains(text, keyword) <==> Within(keyword, text)
  {
    if Contains(text, keyword) {
      var i :| 0 <= i <= |text| - |keyword| && FoundAt(text, keyword, i);
      assert text == text[..i] + keyword + text[i + |keyword|..];
    }
    if Within(keyword, text) {
      var before, after :| text == before + keyword + after;
      assert text[|before|..|before| + |keyword|] == keyword;
      assert FoundAt(text, keyword, |before|);
    }
  }

  predicate Matches(t: Ticket, tenant: int, f: Filters) {
    && t.tenant == tenant
    && (f.creator.Some? ==> t.creator == f.creator.value)
    && (f.status.Some? ==> t.status == f.status.value)
    && (f.assignee.Some? ==> t.assignee == f.assignee)
    && (f.priority.Some? ==> t.priority == f.priority.value)
    && (f.createdFrom.Some? ==> t.createdAt >= f.createdFrom.value)
    && (f.createdTo.Some? ==> t.createdAt <= f.createdTo.value)
    && (f.keyword.Some? ==>
          IContains(t.subject, f.keyword.value, f.lower) || IContains(t.description, f.keyword.value, f.lower))
  }

  /** A ticket is one of the listing's by its own columns: its tenant, and each column a filter is given for. */
  lemma MatchesByColumns(t: Ticket, q: Listing)
    ensures Matches(t, q.tenant, q.filters) <==>
            && t.tenant == q.tenant
            && (q.filters.creator.Some? ==> t.creator == q.filters.creator.value)
            && (q.filters.status.Some? ==> t.status == q.filters.status.value)
            && (q.filters.assignee.Some? ==> t.assignee == q.filters.assignee)
            && (q.filters.priority.Some? ==> t.priority == q.filters.priority.value)
            && (q.filters.createdFrom.Some? ==> q.filters.createdFrom.value <= t.createdAt)
            && (q.filters.createdTo.Some? ==> t.createdAt <= q.filters.createdTo.value)
            && (q.filters.keyword.Some? ==>
                  var keyword := q.filters.lower(q.filters.keyword.value);
                  Within(keyword, q.filters.lower(t.subject)) || Within(keyword, q.filters.lower(t.description)))
  {
    if q.filters.keyword.Some? {
      ContainsIsWithin(q.filters.lower(t.subject), q.filters.lower(q.filters.keyword.value));
      ContainsIsWithin(q.filters.lower(t.description), q.filters.lower(q.filters.keyword.value));
    }
  }

  function KeyOf(row: Row): Key {
    Key(row.ticket.createdAt, row.id)
  }

  /** The (created_at, id) keys of the tickets a listing is about. */
  function Matching(table: Table, q: Listing): set<Key> {
    set id | id in table && Matches(table[id], q.tenant, q.filters) :: Key(table[id].createdAt, id)
  }

  function RowsAt(table: Table, keys: seq<Key>): (rows: seq<Row>)
    requires forall k :: k in keys ==> k.id in table && table[k.id].createdAt == k.at
    ensures |rows| == |keys|
    ensures forall i :: 0 <= i < |keys| ==> KeyOf(rows[i]) == keys[i] && rows[i].ticket == table[keys[i].id]
  {
    seq(|keys|, i requires 0 <= i < |keys| => Row(keys[i].id, table[keys[i].id]))
  }

  lemma MatchingRows(table: Table, q: Listing, keys: seq<Key>, cursor: Option<Key>)
    requires forall k :: k in keys ==> k in KeyPages.Beyond(Matching(table, q), cursor)
    ensures forall k :: k in keys ==>
                          k.id in table && table[k.id].createdAt == k.at && Matches(table[k.id], q.tenant, q.filters)
  {
  }

  lemma RowsByColumns(table: Table, q: Listing, rows: seq<Row>)
    requires forall row :: row in rows ==>
                             row.id in table && row.ticket == table[row.id] && Matches(row.ticket, q.tenant, q.filters)
    ensures forall row :: row in rows ==>
                            && row.ticket.tenant == q.tenant
                            && (q.filters.creator.Some? ==> row.ticket.creator == q.filters.creator.value)
                            && (q.filters.status.Some? ==> row.ticket.status == q.filters.status.value)
                            && (q.filters.assignee.Some? ==> row.ticket.assignee == q.filters.assignee)
                            && (q.filters.priority.Some? ==> row.ticket.priority == q.filters.priority.value)
                            && (q.filters.createdFrom.Some? ==> q.filters.createdFrom.value <= row.ticket.createdAt)
                            && (q.filters.createdTo.Some? ==> row.ticket.createdAt <= q.filters.createdTo.value)
                            && (q.filters.keyword.Some? ==>
                                  var keyword := q.filters.lower(q.filters.keyword.value);
                                  Within(keyword, q.filters.lower(row.ticket.subject))
                                  || Within(keyword, q.filters.lower(row.ticket.description)))
  {
    forall row | row in rows {
      MatchesByColumns(row.ticket, q);
    }
  }

  /** The rows one query fetches: filtered, past the cursor, newest first, at most `limit`. */
  function Select(table: Table, q: Listing, cursor: Option<Key>, limit: nat): (rows: seq<Row>)
    ensures Keys(rows) == KeyPages.TakeUpTo(limit, Sorted(true, KeyPages.Beyond(Matching(table, q), cursor)))
    ensures forall row :: row in rows ==> row.id in table && row.ticket == table[row.id]
    ensures forall row :: row in rows ==>
                            && row.ticket.tenant == q.tenant
                            && (q.filters.creator.Some? ==> row.ticket.creator == q.filters.creator.value)
                            && (q.filters.status.Some? ==> row.ticket.status == q.filters.status.value)
                            && (q.filters.assignee.Some? ==> row.ticket.assignee == q.filters.assignee)
                            && (q.filters.priority.Some? ==> row.ticket.priority == q.filters.priority.value)
                            && (q.filters.createdFrom.Some? ==> q.filters.createdFrom.value <= row.ticket.createdAt)
                            && (q.filters.createdTo.Some? ==> row.ticket.createdAt <= q.filters.createdTo.value)
                            && (q.filters.keyword.Some? ==>
                                  var keyword := q.filters.lower(q.filters.keyword.value);
                                  Within(keyword, q.filters.lower(row.ticket.subject))
                                  || Within(keyword, q.filters.lower(row.ticket.description)))
  {
    var all := Sorted(true, KeyPages.Beyond(Matching(table, q), cursor));
    var keys := KeyPages.TakeUpTo(limit, all);
    SortedIsListing(true, KeyPages.Beyond(Matching(table, q), cursor));
    assert forall k :: k in keys ==> k in all;
    MatchingRows(table, q, keys, cursor);
    RowsByColumns(table, q, RowsAt(table, keys));
    RowsAt(table, keys)
  }

  function Keys(rows: seq<Row>): (keys: seq<Key>)
    ensures |keys| == |rows| && forall i :: 0 <= i < |rows| ==> keys[i] == KeyOf(rows[i])
  {
    seq(|rows|, i requires 0 <= i < |rows| => KeyOf(rows[i]))
  }

  lemma KeysOfPrefix(rows: seq<Row>, n: nat)
    ensures Keys(KeyPages.TakeUpTo(n, rows)) == KeyPages.TakeUpTo(n, Keys(rows))
    ensures forall row :: row in KeyPages.TakeUpTo(n, rows) ==> row in rows
  {
  }

  function List(table: Table, q: Listing, cursor: Option<Key>): (page: Page)
    requires q.limit >= 1
    ensures KeyPages.KeyPage(Keys(page.items), page.next) == KeyPages.PageOf(Matching(table, q), cursor, q.limit)
    ensures forall row :: row in page.items ==> row.id in table && row.ticket == table[row.id]
    ensures forall row :: row in page.items ==>
                            && row.ticket.tenant == q.tenant
                            && (q.filters.creator.Some? ==> row.ticket.creator == q.filters.creator.value)
                            && (q.filters.status.Some? ==> row.ticket.status == q.filters.status.value)
                            && (q.filters.assignee.Some? ==> row.ticket.assignee == q.filters.assignee)
                            && (q.filters.priority.Some? ==> row.ticket.priority == q.filters.priority.value)
                            && (q.filters.createdFrom.Some? ==> q.filters.createdFrom.value <= row.ticket.createdAt)
                            && (q.filters.createdTo.Some? ==> row.ticket.createdAt <= q.filters.createdTo.value)
                            && (q.filters.keyword.Some? ==>
                                  var keyword := q.filters.lower(q.filters.keyword.value);
                                  Within(keyword, q.filters.lower(row.ticket.subject))
                                  || Within(keyword, q.filters.lower(row.ticket.description)))
  {
    var records := Select(table, q, cursor, q.limit + 1);
    var items := KeyPages.TakeUpTo(q.limit, records);
    KeysOfPrefix(records, q.limit);
    Page(items, if |records| > q.limit then Some(KeyOf(items[|items| - 1])) else None)
  }

  /** Following `next_cursor`, the i-th page read from the i-th state of the table. */
  function Browse(tables: seq<Table>, q: Listing, cursor: Option<Key>): seq<Page>
    requires q.limit >= 1
    decreases |tables|
  {
    if tables == [] then [] else
    var page := List(tables[0], q, cursor);
    [page] + if page.next.None? then [] else Browse(tables[1..], q, page.next)
  }

  function AllRows(pages: seq<Page>): seq<Row> {
    if pages == [] then [] else pages[0].items + AllRows(pages[1..])
  }

  function KeySets(tables: seq<Table>, q: Listing): (sets: seq<set<Key>>)
    ensures |sets| == |tables| && forall i :: 0 <= i < |tables| ==> sets[i] == Matching(tables[i], q)
  {
    seq(|tables|, i requires 0 <= i < |tables| => Matching(tables[i], q))
  }

  function Shape(pages: seq<Page>): (shape: seq<KeyPages.KeyPage>)
    ensures |shape| == |pages|
    ensures forall i :: 0 <= i < |pages| ==> shape[i] == KeyPages.KeyPage(Keys(pages[i].items), pages[i].next)
  {
    seq(|pages|, i requires 0 <= i < |pages| => KeyPages.KeyPage(Keys(pages[i].items), pages[i].next))
  }

  lemma {:induction false} ShapeOfRows(pages: seq<Page>)
    ensures Keys(AllRows(pages)) == KeyPages.AllItems(Shape(pages))
  {
    if pages == [] {
      assert Shape(pages) == [];
    } else {
      ShapeOfRows(pages[1..]);
      assert Shape(pages)[1..] == Shape(pages[1..]);
      assert Keys(AllRows(pages)) == Keys(pages[0].items) + Keys(AllRows(pages[1..]));
    }
  }

  lemma ShapeUnfolds(page: Page, rest: seq<Page>)
    ensures Shape([page] + rest) == [KeyPages.KeyPage(Keys(page.items), page.next)] + Shape(rest)
  {
  }

  /** Browsing tickets is walking over their keys. */
  lemma {:induction false} BrowseIsWalk(tables: seq<Table>, q: Listing, cursor: Option<Key>)
    requires q.limit >= 1
    ensures Shape(Browse(tables, q, cursor)) == KeyPages.Walk(KeySets(tables, q), cursor, q.limit)
    decreases |tables|
  {
    if tables != [] {
      var page := List(tables[0], q, cursor);
      var rest := if page.next.None? then [] else Browse(tables[1..], q, page.next);
      var sets := KeySets(tables, q);
      assert sets[1..] == KeySets(tables[1..], q) && sets[0] == Matching(tables[0], q);
      ShapeUnfolds(page, rest);
      KeyPages.WalkUnfolds(sets, cursor, q.limit);
      if page.next.Some? {
        BrowseIsWalk(tables[1..], q, page.next);
      } else {
        assert Shape(rest) == [];
      }
    }
  }

  predicate Finished(pages: seq<Page>) {
    pages != [] && pages[|pages| - 1].next.None?
  }

  lemma SameEnd(pages: seq<Page>)
    ensures Finished(pages) <==> KeyPages.Finished(Shape(pages))
  {
  }

  predicate ShownBy(table: Table, q: Listing, row: Row) {
    row.id in table && row.ticket == table[row.id] && Matches(row.ticket, q.tenant, q.filters)
  }

  predicate PageShows(table: Table, q: Listing, page: Page) {
    forall row | row in page.items :: ShownBy(table, q, row)
  }

  lemma ListShowsItsTable(table: Table, q: Listing, cursor: Option<Key>)
    requires q.limit >= 1
    ensures PageShows(table, q, List(table, q, cursor))
  {
    forall row | row in List(table, q, cursor).items ensures Matches(row.ticket, q.tenant, q.filters) {
      MatchesByColumns(row.ticket, q);
    }
  }

  ghost predicate AllShow(tables: seq<Table>, q: Listing, pages: seq<Page>) {
    |pages| <= |tables| && forall i :: 0 <= i < |pages| ==> PageShows(tables[i], q, pages[i])
  }

  lemma OneMoreShows(tables: seq<Table>, q: Listing, page: Page, pages: seq<Page>)
    requires tables != [] && PageShows(tables[0], q, page) && AllShow(tables[1..], q, pages)
    ensures AllShow(tables, q, [page] + pages)
  {
    hide PageShows;
  }

  /** The i-th page lists rows of the i-th table that match the filter. */
  lemma {:induction false} PagesShowTheirTables(tables: seq<Table>, q: Listing, cursor: Option<Key>)
    requires q.limit >= 1
    ensures AllShow(tables, q, Browse(tables, q, cursor))
    decreases |tables|
  {
    hide List, PageShows;
    if tables != [] {
      var page := List(tables[0], q, cursor);
      var rest := if page.next.None? then [] else Browse(tables[1..], q, page.next);
      ListShowsItsTable(tables[0], q, cursor);
      if page.next.Some? {
        PagesShowTheirTables(tables[1..], q, page.next);
      }
      OneMoreShows(tables, q, page, rest);
    }
  }

  lemma {:induction false} RowsComeFromPages(pages: seq<Page>, row: Row)
    requires row in AllRows(pages)
    ensures exists i :: 0 <= i < |pages| && row in pages[i].items
  {
    if row !in pages[0].items {
      RowsComeFromPages(pages[1..], row);
      var i :| 0 <= i < |pages[1..]| && row in pages[1..][i].items;
      assert row in pages[i + 1].items;
    }
  }

  /** Every listed row is a row of one of the tables. */
  lemma RowsComeFromTables(tables: seq<Table>, q: Listing, cursor: Option<Key>, row: Row)
    requires q.limit >= 1 && row in AllRows(Browse(tables, q, cursor))
    ensures exists i :: 0 <= i < |tables| && ShownBy(tables[i], q, row)
  {
    hide Browse, AllRows, ShownBy;
    var pages := Browse(tables, q, cursor);
    PagesShowTheirTables(tables, q, cursor);
    RowsComeFromPages(pages, row);
    var i :| 0 <= i < |pages| && row in pages[i].items;
    assert PageShows(tables[i], q, pages[i]);
  }

  /** A ticket keeps its creation time: no code writes it, and an id is never used twice. */
  predicate KeepsCreationTime(tables: seq<Table>, id: int) {
    forall i, j | 0 <= i < |tables| && 0 <= j < |tables| && id in tables[i] && id in tables[j] ::
      tables[i][id].createdAt == tables[j][id].createdAt
  }

  lemma RowsDescend(tables: seq<Table>, q: Listing)
    requires q.limit >= 1
    ensures var rows := AllRows(Browse(tables, q, None));
            forall i, j :: 0 <= i < j < |rows| ==> Less(KeyOf(rows[j]), KeyOf(rows[i]))
  {
    var rows := AllRows(Browse(tables, q, None));
    BrowseIsWalk(tables, q, None);
    ShapeOfRows(Browse(tables, q, None));
    KeyPages.WalkIsStrictlyDescending(KeySets(tables, q), None, q.limit);
    assert Ordered(true, Keys(rows));
    forall i, j | 0 <= i < j < |rows| ensures Less(KeyOf(rows[j]), KeyOf(rows[i])) {
      assert Before(true, Keys(rows)[i], Keys(rows)[j]);
    }
  }

  /** Whatever is inserted, changed or deleted between the pages: the listed tickets are strictly
      descending in (created_at, id), and a ticket that keeps its creation time comes at most once. */
  lemma BrowseListsAtMostOnce(tables: seq<Table>, q: Listing, i: nat, j: nat)
    requires q.limit >= 1 && i < j < |AllRows(Browse(tables, q, None))|
    ensures var rows := AllRows(Browse(tables, q, None));
            && (|| rows[i].ticket.createdAt > rows[j].ticket.createdAt
                || (rows[i].ticket.createdAt == rows[j].ticket.createdAt && rows[i].id > rows[j].id))
            && (KeepsCreationTime(tables, rows[i].id) ==> rows[i].id != rows[j].id)
  {
    var rows := AllRows(Browse(tables, q, None));
    RowsDescend(tables, q);
    RowsComeFromTables(tables, q, None, rows[i]);
    RowsComeFromTables(tables, q, None, rows[j]);
  }

  lemma PageOfTwo(table: Table, q: Listing, newer: Key, older: Key)
    requires q.limit == 1 && Matching(table, q) == {newer, older} && Less(older, newer)
    ensures Keys(List(table, q, None).items) == [newer] && List(table, q, None).next == Some(newer)
  {
    ListingIsUnique(true, {newer, older}, [newer, older]);
  }

  lemma PageOfOne(table: Table, q: Listing, cursor: Key, last: Key)
    requires q.limit == 1 && Matching(table, q) == {last} && Before(true, cursor, last)
    ensures Keys(List(table, q, Some(cursor)).items) == [last] && List(table, q, Some(cursor)).next == None
  {
    assert KeyPages.Beyond({last}, Some(cursor)) == {last};
    ListingIsUnique(true, {last}, [last]);
  }

  lemma BrowseTwo(first: Table, second: Table, q: Listing, cursor: Key)
    requires q.limit >= 1 && List(first, q, None).next == Some(cursor) && List(second, q, Some(cursor)).next == None
    ensures AllRows(Browse([first, second], q, None))
         == List(first, q, None).items + List(second, q, Some(cursor)).items
  {
    hide List;
    var one, two := List(first, q, None), List(second, q, Some(cursor));
    assert [first, second][1..] == [second];
    assert Browse([second], q, Some(cursor)) == [two];
    assert Browse([first, second], q, None) == [one, two];
    assert [one, two][1..] == [two] && [two][1..] == [];
    assert AllRows([two]) == two.items + AllRows([]);
    assert AllRows([one, two]) == one.items + AllRows([two]);
  }

  /** The condition is needed: a ticket whose creation time were moved back between two pages would come
      on both. */
  lemma MovedTicketComesTwice(a: Ticket, q: Listing)
    requires q.limit == 1
    requires Matches(a, q.tenant, q.filters) && Matches(a.(createdAt := a.createdAt - 1), q.tenant, q.filters)
    ensures var moved := a.(createdAt := a.createdAt - 1);
            var rows := AllRows(Browse([map[7 := a, 8 := moved], map[7 := moved]], q, None));
            |rows| == 2 && rows[0].id == rows[1].id == 7
  {
    var moved := a.(createdAt := a.createdAt - 1);
    var first: Table, second: Table := map[7 := a, 8 := moved], map[7 := moved];
    var newer, older, last := Key(a.createdAt, 7), Key(a.createdAt - 1, 8), Key(a.createdAt - 1, 7);
    MatchingPair(first, q, 7, 8);
    MatchingOne(second, q, 7);
    hide List, Browse, Matching, AllRows, Matches;
    PageOfTwo(first, q, newer, older);
    PageOfOne(second, q, newer, last);
    BrowseTwo(first, second, q, newer);
    var one, two := List(first, q, None).items, List(second, q, Some(newer)).items;
    assert KeyOf(one[0]) == Keys(one)[0] && KeyOf(two[0]) == Keys(two)[0];
  }

  lemma MatchingPair(table: Table, q: Listing, x: int, y: int)
    requires table.Keys == {x, y} && Matches(table[x], q.tenant, q.filters) && Matches(table[y], q.tenant, q.filters)
    ensures Matching(table, q) == {Key(table[x].createdAt, x), Key(table[y].createdAt, y)}
  {
    assert forall id :: id in table <==> id in table.Keys;
  }

  lemma MatchingOne(table: Table, q: Listing, x: int)
    requires table.Keys == {x} && Matches(table[x], q.tenant, q.filters)
    ensures Matching(table, q) == {Key(table[x].createdAt, x)}
  {
    assert forall id :: id in table <==> id in table.Keys;
  }

  lemma WatchedTicketComes(tables: seq<Table>, q: Listing, id: int, createdAt: int)
    requires q.limit >= 1 && tables != [] && Finished(Browse(tables, q, None))
    requires forall i :: 0 <= i < |tables| ==>
                           id in tables[i] && tables[i][id].createdAt == createdAt
                           && Matches(tables[i][id], q.tenant, q.filters)
    ensures var rows := AllRows(Browse(tables, q, None));
            exists i :: 0 <= i < |rows| && KeyOf(rows[i]) == Key(createdAt, id)
  {
    var rows, sets := AllRows(Browse(tables, q, None)), KeySets(tables, q);
    BrowseIsWalk(tables, q, None);
    ShapeOfRows(Browse(tables, q, None));
    SameEnd(Browse(tables, q, None));
    forall i | 0 <= i < |sets| ensures Key(createdAt, id) in KeyPages.Beyond(sets[i], None) {
      assert id in tables[i];
    }
    KeyPages.WalkMissesNothing(sets, None, q.limit, Key(createdAt, id));
    assert Key(createdAt, id) in Keys(rows);
    var i :| 0 <= i < |Keys(rows)| && Keys(rows)[i] == Key(createdAt, id);
    assert KeyOf(rows[i]) == Key(createdAt, id);
  }

  lemma OnlyOnce(tables: seq<Table>, q: Listing, rows: seq<Row>, i: nat, j: nat)
    requires q.limit >= 1 && rows == AllRows(Browse(tables, q, None)) && i < j < |rows|
    requires KeepsCreationTime(tables, rows[i].id)
    ensures rows[i].id != rows[j].id
  {
    BrowseListsAtMostOnce(tables, q, i, j);
  }

  /** In a finished walk every ticket that was there, matched the filter and kept its creation time at the
      time of every page comes exactly once. */
  lemma BrowseListsExactlyOnce(tables: seq<Table>, q: Listing, id: int, createdAt: int)
    requires q.limit >= 1 && tables != []
    requires forall i :: 0 <= i < |tables| ==>
                           id in tables[i] && tables[i][id].createdAt == createdAt
                           && Matches(tables[i][id], q.tenant, q.filters)
    ensures var rows := AllRows(Browse(tables, q, None));
            Finished(Browse(tables, q, None)) ==>
              exists i :: 0 <= i < |rows| && rows[i].id == id
                          && forall j :: 0 <= j < |rows| && j != i ==> rows[j].id != id
  {
    var rows := AllRows(Browse(tables, q, None));
    if Finished(Browse(tables, q, None)) {
      WatchedTicketComes(tables, q, id, createdAt);
      var i :| 0 <= i < |rows| && KeyOf(rows[i]) == Key(createdAt, id);
      forall j | 0 <= j < |rows| && j != i ensures rows[j].id != id {
        if rows[j].id == id {
          OnlyOnce(tables, q, rows, Min(i, j), Max(i, j));
        }
      }
    }
  }

  /** With the table left alone, the pages are its sorted, filtered listing `all`, cut into
      `max(1, ceil(n / limit))` pieces. */
  lemma FixedTableBrowse(table: Table, q: Listing, tables: seq<Table>, all: seq<Key>)
    requires q.limit >= 1
    requires forall i :: 0 <= i < |tables| ==> tables[i] == table
    requires all == Sorted(true, Matching(table, q))
    requires |tables| >= KeyPages.PageCount(|all|, q.limit)
    ensures var pages := Browse(tables, q, None);
            && Finished(pages)
            && |pages| == KeyPages.PageCount(|all|, q.limit)
            && Keys(AllRows(pages)) == all
  {
    var pages, sets := Browse(tables, q, None), KeySets(tables, q);
    BrowseIsWalk(tables, q, None);
    ShapeOfRows(pages);
    SameEnd(pages);
    KeyPages.FixedWalkIsWholeListing(Matching(table, q), None, q.limit, sets, all);
  }

  /** And it lists exactly the tickets that the columns say: those of the tenant that pass every filter given. */
  lemma ListedExactlyWhen(table: Table, q: Listing, tables: seq<Table>, id: int)
    requires q.limit >= 1
    requires forall i :: 0 <= i < |tables| ==> tables[i] == table
    requires |tables| >= KeyPages.PageCount(|Sorted(true, Matching(table, q))|, q.limit)
    ensures var rows := AllRows(Browse(tables, q, None));
            (exists i :: 0 <= i < |rows| && rows[i].id == id) <==>
            && id in table
            && table[id].tenant == q.tenant
            && (q.filters.creator.Some? ==> table[id].creator == q.filters.creator.value)
            && (q.filters.status.Some? ==> table[id].status == q.filters.status.value)
            && (q.filters.assignee.Some? ==> table[id].assignee == q.filters.assignee)
            && (q.filters.priority.Some? ==> table[id].priority == q.filters.priority.value)
            && (q.filters.createdFrom.Some? ==> q.filters.createdFrom.value <= table[id].createdAt)
            && (q.filters.createdTo.Some? ==> table[id].createdAt <= q.filters.createdTo.value)
            && (q.filters.keyword.Some? ==>
                  var keyword := q.filters.lower(q.filters.keyword.value);
                  Within(keyword, q.filters.lower(table[id].subject))
                  || Within(keyword, q.filters.lower(table[id].description)))
  {
    var rows, all := AllRows(Browse(tables, q, None)), Sorted(true, Matching(table, q));
    FixedTableBrowse(table, q, tables, all);
    SortedIsListing(true, Matching(table, q));
    if id in table {
      MatchesByColumns(table[id], q);
    }
    hide Browse, AllRows, Matches, Less;
    if id in table && Matches(table[id], q.tenant, q.filters) {
      assert Key(table[id].createdAt, id) in Keys(rows);
      var i :| 0 <= i < |Keys(rows)| && Keys(rows)[i] == Key(table[id].createdAt, id);
      assert KeyOf(rows[i]) == Keys(rows)[i];
    }
    if i :| 0 <= i < |rows| && rows[i].id == id {
      assert Keys(rows)[i] in Matching(table, q);
    }
  }

  /** The listing a member asks for: without the permission to read all, only what it created. */
  function ListingFor(tenant: int, member: int, readAll: bool, options: Filters, limit: nat): Listing {
    Listing(tenant, options.(creator := if readAll then None else Some(member)), limit)
  }

  /** Whatever a member asks for, every ticket on its page is one it may open: of its tenant, and its own
      unless it may read all. */
  lemma MembersListWhatTheyMayOpen(table: Table, tenant: int, member: int, readAll: bool, options: Filters, limit: nat,
                                   cursor: Option<Key>, row: Row)
    requires limit >= 1 && row in List(table, ListingFor(tenant, member, readAll, options, limit), cursor).items
    ensures row.id in table && row.ticket == table[row.id]
    ensures row.ticket.tenant == tenant && (row.ticket.creator == member || readAll)
  {
  }

  /** And without filters of its own it gets all of those. */
  lemma MembersListAllTheyMayOpen(table: Table, tenant: int, member: int, readAll: bool, options: Filters, limit: nat,
                                  tables: seq<Table>, id: int)
    requires limit >= 1 && forall i :: 0 <= i < |tables| ==> tables[i] == table
    requires var q := ListingFor(tenant, member, readAll, options, limit);
             |tables| >= KeyPages.PageCount(|Sorted(true, Matching(table, q))|, limit)
    requires id in table && table[id].tenant == tenant && (table[id].creator == member || readAll)
    requires options.status.None? && options.assignee.None? && options.priority.None?
    requires options.createdFrom.None? && options.createdTo.None? && options.keyword.None?
    ensures var rows := AllRows(Browse(tables, ListingFor(tenant, member, readAll, options, limit), None));
            exists i :: 0 <= i < |rows| && rows[i].id == id
  {
    ListedExactlyWhen(table, ListingFor(tenant, member, readAll, options, limit), tables, id);
  }
}
