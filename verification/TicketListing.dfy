/** The listing as a client sees it: pages with a cursor text, sent back for the next page. */
module TicketListing {
  import opened Common
  import opened KeyOrder
  import opened TicketPaging
  import opened TicketCursor
  import opened Calendar

  datatype TextPage = TextPage(items: seq<Row>, next: Option<string>)

  datatype Listed = Listed(page: TextPage) | InvalidCursor

  /** What the columns can hold: ids of 128 bits, creation times the calendar can write. */
  predicate Storable(table: Table) {
    forall id | id in table :: 0 <= id < IDS && InCalendar(table[id].createdAt)
  }

  function CursorOf(k: Key): Cursor
    requires k.at >= 0 && k.id >= 0
  {
    Cursor(StampOf(k.at), k.id)
  }

  function KeyOfCursor(c: Cursor): Key
    requires c.createdAt.offset.Some?
  {
    Key(Instant(c.createdAt), c.ticketId)
  }

  /** The next cursor of a page is the key of its last row. */
  lemma NextIsRowKey(table: Table, q: Listing, cursor: Option<Key>)
    requires q.limit >= 1 && Storable(table) && List(table, q, cursor).next.Some?
    ensures var k := List(table, q, cursor).next.value; 0 <= k.id < IDS && InCalendar(k.at)
  {
    var page := List(table, q, cursor);
    assert page.items[|page.items| - 1] in page.items;
  }

  function PageText(table: Table, q: Listing, cursor: Option<Key>): TextPage
    requires q.limit >= 1 && Storable(table)
  {
    var page := List(table, q, cursor);
    TextPage(page.items,
             if page.next.None? then None
             else
               NextIsRowKey(table, q, cursor);
               Some(EncodeTicketCursor(CursorOf(page.next.value))))
  }

  function ListText(table: Table, q: Listing, text: Option<string>): Listed
    requires q.limit >= 1 && Storable(table)
  {
    if text.None? then Listed(PageText(table, q, None))
    else
      var c := DecodeTicketCursor(text.value);
      if c.None? then InvalidCursor
      else
        AcceptedIsValidAndAware(text.value);
        Listed(PageText(table, q, Some(KeyOfCursor(c.value))))
  }

  /** Sending back a cursor text resumes after the very key it was made from. */
  lemma TextMeansItsKey(k: Key)
    requires 0 <= k.id < IDS && InCalendar(k.at)
    ensures var c := DecodeTicketCursor(EncodeTicketCursor(CursorOf(k)));
            c.Some? && c.value.createdAt.offset.Some? && KeyOfCursor(c.value) == k
  {
    StampDenotesInstant(k.at);
    CursorIsRead(CursorOf(k));
  }

  /** Following the cursor texts, the i-th page read from the i-th state of the table. */
  function BrowseText(tables: seq<Table>, q: Listing, text: Option<string>): seq<Listed>
    requires q.limit >= 1 && forall i :: 0 <= i < |tables| ==> Storable(tables[i])
    decreases |tables|
  {
    if tables == [] then []
    else
      var listed := ListText(tables[0], q, text);
      [listed] + if listed.InvalidCursor? || listed.page.next.None? then []
      else BrowseText(tables[1..], q, listed.page.next)
  }

  /** The cursor text stands for the cursor key. */
  ghost predicate StandsFor(text: Option<string>, cursor: Option<Key>) {
    if text.None? then cursor.None?
    else
      var c := DecodeTicketCursor(text.value);
      c.Some? && c.value.createdAt.offset.Some? && cursor == Some(KeyOfCursor(c.value))
  }

  predicate SamePage(listed: Listed, page: Page) {
    listed.Listed? && listed.page.items == page.items && (listed.page.next.Some? <==> page.next.Some?)
  }

  lemma PageTextStands(table: Table, q: Listing, cursor: Option<Key>)
    requires q.limit >= 1 && Storable(table)
    ensures var shown, page := PageText(table, q, cursor), List(table, q, cursor);
            shown.items == page.items && StandsFor(shown.next, page.next)
  {
    if List(table, q, cursor).next.Some? {
      NextIsRowKey(table, q, cursor);
      hide List, EncodeTicketCursor, DecodeTicketCursor, StampOf, Instant;
      TextMeansItsKey(List(table, q, cursor).next.value);
    }
  }

  lemma PageTextIsPage(table: Table, q: Listing, text: Option<string>, cursor: Option<Key>)
    requires q.limit >= 1 && Storable(table) && StandsFor(text, cursor)
    ensures var listed, page := ListText(table, q, text), List(table, q, cursor);
            SamePage(listed, page) && StandsFor(listed.page.next, page.next)
  {
    hide PageText, List, EncodeTicketCursor, DecodeTicketCursor, StampOf, Instant, InCalendar;
    PageTextStands(table, q, cursor);
  }

  lemma OnePageMore(listed: Listed, page: Page, seen: seq<Listed>, pages: seq<Page>)
    requires SamePage(listed, page) && |seen| == |pages| && forall i :: 0 <= i < |pages| ==> SamePage(seen[i], pages[i])
    ensures |[listed] + seen| == |[page] + pages|
    ensures forall i :: 0 <= i < |[page] + pages| ==> SamePage(([listed] + seen)[i], ([page] + pages)[i])
  {
  }

  /** A client that follows cursor texts sees exactly the pages that following keys gives: no text it was
      handed is refused, and what holds of `Browse` holds of what it sees. */
  lemma {:induction false} TextBrowseIsBrowse(tables: seq<Table>, q: Listing, text: Option<string>, cursor: Option<Key>)
    requires q.limit >= 1 && forall i :: 0 <= i < |tables| ==> Storable(tables[i])
    requires StandsFor(text, cursor)
    ensures var seen, pages := BrowseText(tables, q, text), Browse(tables, q, cursor);
            |seen| == |pages| && forall i :: 0 <= i < |pages| ==> SamePage(seen[i], pages[i])
    decreases |tables|
  {
    hide ListText, List, StandsFor, Storable;
    if tables != [] {
      var listed, page := ListText(tables[0], q, text), List(tables[0], q, cursor);
      PageTextIsPage(tables[0], q, text, cursor);
      if page.next.Some? {
        var seen, pages := BrowseText(tables[1..], q, listed.page.next), Browse(tables[1..], q, page.next);
        assert Browse(tables, q, cursor) == [page] + pages && BrowseText(tables, q, text) == [listed] + seen;
        TextBrowseIsBrowse(tables[1..], q, listed.page.next, page.next);
        OnePageMore(listed, page, seen, pages);
      } else {
        assert Browse(tables, q, cursor) == [page];
        assert BrowseText(tables, q, text) == [listed];
      }
    }
  }

  function RowsSeen(seen: seq<Listed>): seq<Row> {
    if seen == [] then [] else (if seen[0].Listed? then seen[0].page.items else []) + RowsSeen(seen[1..])
  }

  lemma {:induction false} SeenIsListed(seen: seq<Listed>, pages: seq<Page>)
    requires |seen| == |pages| && forall i :: 0 <= i < |pages| ==> SamePage(seen[i], pages[i])
    ensures RowsSeen(seen) == AllRows(pages)
  {
    if seen != [] {
      assert SamePage(seen[0], pages[0]);
      SeenIsListed(seen[1..], pages[1..]);
    }
  }

  /** A client that follows the cursor texts to the end sees every ticket that was there, matched the filter
      and kept its creation time at the time of every page, exactly once. */
  lemma ClientSeesEachTicketOnce(tables: seq<Table>, q: Listing, id: int, createdAt: int)
    requires q.limit >= 1 && tables != [] && forall i :: 0 <= i < |tables| ==> Storable(tables[i])
    requires forall i :: 0 <= i < |tables| ==>
                           id in tables[i] && tables[i][id].createdAt == createdAt
                           && Matches(tables[i][id], q.tenant, q.filters)
    ensures var seen := BrowseText(tables, q, None);
            var rows := RowsSeen(seen);
            && seen != [] && seen[|seen| - 1].Listed?
            && (seen[|seen| - 1].page.next.None? ==>
                  exists i :: 0 <= i < |rows| && rows[i].id == id
                              && forall j :: 0 <= j < |rows| && j != i ==> rows[j].id != id)
  {
    hide List, ListText, AllRows, RowsSeen, Matches, Storable;
    var seen, pages := BrowseText(tables, q, None), Browse(tables, q, None);
    TextBrowseIsBrowse(tables, q, None, None);
    SeenIsListed(seen, pages);
    assert SamePage(seen[|seen| - 1], pages[|pages| - 1]);
    BrowseListsExactlyOnce(tables, q, id, createdAt);
  }
}
