/** Keyset paging of child listings and queries. */
module Paging {
  import opened Types
  import opened Ids

  datatype Direction = Asc | Desc

  /** A name sorts byte-wise; a time or a size (minus one for a folder) sorts
      as a number. A metadata query sorts by id alone: every key is the same. */
  datatype SortKey = ByName(name: Text) | ByNumber(n: int)

  datatype Item = Item(key: SortKey, id: Id)

  /** The rows a listing's filter admits at one moment, with their sort keys. */
  type Snapshot = map<Id, SortKey>

  datatype Page = Page(items: seq<Item>, next: Option<Item>, hasMore: bool)

  function ClampLimit(limit: Option<nat>, default: nat, most: nat): (n: nat)
    requires most >= 1
    ensures 1 <= n <= most
    ensures limit.Some? && 1 <= limit.value <= most ==> n == limit.value
    ensures limit.Some? && limit.value > most ==> n == most
    ensures limit.None? && 1 <= default <= most ==> n == default
  {
    var l := if limit.Some? then limit.value else default;
    if l < 1 then 1 else if l > most then most else l
  }

  // ---------------------------------------------------------------------
  // Row order
  // ---------------------------------------------------------------------

  predicate KeyLess(a: SortKey, b: SortKey) {
    if a.ByName? && b.ByName? then LexLess(a.name, b.name)
    else if a.ByNumber? && b.ByNumber? then a.n < b.n
    else a.ByNumber? && b.ByName?
  }

  predicate RowLess(a: Item, b: Item) {
    KeyLess(a.key, b.key) || (a.key == b.key && a.id < b.id)
  }

  predicate Precedes(dir: Direction, a: Item, b: Item) {
    if dir.Asc? then RowLess(a, b) else RowLess(b, a)
  }

  lemma KeyOrder(a: SortKey, b: SortKey, c: SortKey)
    ensures a == b || KeyLess(a, b) || KeyLess(b, a)
    ensures !(KeyLess(a, b) && KeyLess(b, a)) && !KeyLess(a, a)
    ensures KeyLess(a, b) && KeyLess(b, c) ==> KeyLess(a, c)
  {
    if a.ByName? && b.ByName? {
      LexTotal(a.name, b.name);
      if c.ByName? && LexLess(a.name, b.name) && LexLess(b.name, c.name) {
        LexTransitive(a.name, b.name, c.name);
      }
    }
    if a.ByName? { LexTotal(a.name, a.name); }
  }

  /** Rows are totally ordered: ids break ties between equal keys. */
  lemma RowOrder(dir: Direction, a: Item, b: Item, c: Item)
    ensures a == b || Precedes(dir, a, b) || Precedes(dir, b, a)
    ensures !(Precedes(dir, a, b) && Precedes(dir, b, a)) && !Precedes(dir, a, a)
    ensures Precedes(dir, a, b) && Precedes(dir, b, c) ==> Precedes(dir, a, c)
  {
    KeyOrder(a.key, b.key, c.key);
    KeyOrder(c.key, b.key, a.key);
  }

  // ---------------------------------------------------------------------
  // Listings and pages
  // ---------------------------------------------------------------------

  ghost predicate Ascending(dir: Direction, es: seq<Item>) {
    forall i, j :: 0 <= i < j < |es| ==> Precedes(dir, es[i], es[j])
  }

  ghost predicate Lists(dir: Direction, es: seq<Item>, items: set<Item>) {
    Ascending(dir, es) && forall x :: x in es <==> x in items
  }

  function InsertItem(dir: Direction, es: seq<Item>, x: Item): seq<Item> {
    if es == [] || Precedes(dir, x, es[0]) then [x] + es else [es[0]] + InsertItem(dir, es[1..], x)
  }

  lemma {:induction false} InsertLists(dir: Direction, es: seq<Item>, items: set<Item>, x: Item)
    requires Lists(dir, es, items) && x !in items
    ensures Lists(dir, InsertItem(dir, es, x), items + {x})
    decreases |es|
  {
    if es != [] {
      assert es == [es[0]] + es[1..];
      RowOrder(dir, x, es[0], x);
      if Precedes(dir, x, es[0]) {
        forall j | 0 <= j < |es| ensures Precedes(dir, x, es[j]) {
          RowOrder(dir, x, es[0], es[j]);
        }
      } else {
        RowOrder(dir, es[0], es[0], es[0]);
        InsertLists(dir, es[1..], items - {es[0]}, x);
        var rest := InsertItem(dir, es[1..], x);
        forall j | 0 <= j < |rest| ensures Precedes(dir, es[0], rest[j]) {
          assert rest[j] in items - {es[0]} + {x};
          if rest[j] != x {
            assert rest[j] in es && rest[j] != es[0];
          }
        }
        assert Ascending(dir, [es[0]] + rest);
      }
    }
  }

  lemma {:induction false} ListingExists(dir: Direction, items: set<Item>)
    ensures exists es :: Lists(dir, es, items)
    decreases |items|
  {
    if items == {} {
      assert Lists(dir, [], items);
    } else {
      var x :| x in items;
      ListingExists(dir, items - {x});
      var es :| Lists(dir, es, items - {x});
      InsertLists(dir, es, items - {x}, x);
      assert items - {x} + {x} == items;
      assert Lists(dir, InsertItem(dir, es, x), items);
    }
  }

  lemma {:induction false} ListingUnique(dir: Direction, a: seq<Item>, b: seq<Item>, items: set<Item>)
    requires Lists(dir, a, items) && Lists(dir, b, items)
    ensures a == b
    decreases |a|
  {
    assert a != [] ==> a[0] in items;
    assert b != [] ==> b[0] in items;
    if a != [] {
      assert a[0] in b && b[0] in a;
      RowOrder(dir, a[0], b[0], a[0]);
      assert a[0] == b[0];
      RowOrder(dir, a[0], a[0], a[0]);
      assert a == [a[0]] + a[1..] && b == [b[0]] + b[1..];
      ListingUnique(dir, a[1..], b[1..], items - {a[0]});
    }
  }

  /** `ORDER BY key, id` over a set of rows. */
  ghost function Listing(dir: Direction, items: set<Item>): (es: seq<Item>)
    ensures Lists(dir, es, items)
  {
    ListingExists(dir, items);
    var es :| Lists(dir, es, items);
    es
  }

  function Items(snap: Snapshot): set<Item> {
    set i | i in snap :: Item(snap[i], i)
  }

  predicate Beyond(dir: Direction, cursor: Option<Item>, x: Item) {
    cursor.Some? ==> Precedes(dir, cursor.value, x)
  }

  /** The rows strictly after the cursor's values, whether or not its row still exists. */
  function Rest(dir: Direction, snap: Snapshot, cursor: Option<Item>): set<Item> {
    set x | x in Items(snap) && Beyond(dir, cursor, x)
  }

  function Take(es: seq<Item>, n: nat): seq<Item> {
    if |es| <= n then es else es[..n]
  }

  /** Drops the look-ahead row and issues a cursor on the last row kept. */
  function FinishPage(rows: seq<Item>, limit: nat): Page {
    var items := Take(rows, limit);
    var more := |rows| > limit;
    Page(items, if more && items != [] then Some(items[|items| - 1]) else None, more)
  }

  ghost function PageOf(dir: Direction, snap: Snapshot, cursor: Option<Item>, limit: nat): Page {
    FinishPage(Take(Listing(dir, Rest(dir, snap, cursor)), limit + 1), limit)
  }

  /** One listing request. */
  method ListPage(dir: Direction, snap: Snapshot, cursor: Option<Item>, limit: nat) returns (page: Page)
    ensures page == PageOf(dir, snap, cursor, limit)
  {
    var todo := Rest(dir, snap, cursor);
    var rows := [];
    ghost var done := {};
    while todo != {}
      invariant Lists(dir, rows, done) && done !! todo
      invariant done + todo == Rest(dir, snap, cursor)
      decreases |todo|
    {
      var x :| x in todo;
      InsertLists(dir, rows, done, x);
      rows := InsertItem(dir, rows, x);
      todo, done := todo - {x}, done + {x};
    }
    assert done == Rest(dir, snap, cursor);
    ListingUnique(dir, rows, Listing(dir, done), done);
    rows := Take(rows, limit + 1);
    page := FinishPage(rows, limit);
  }

  /** What a page holds: in order, exactly the rows between its cursor and the
      next one, or all the rest when there is no next one. */
  ghost predicate PageOk(dir: Direction, snap: Snapshot, cursor: Option<Item>, p: Page) {
    && Ascending(dir, p.items)
    && (p.hasMore <==> p.next.Some?)
    && (p.hasMore ==> p.next.value in p.items)
    && forall x :: x in p.items <==>
         x in Rest(dir, snap, cursor) && (p.next.Some? ==> !Precedes(dir, p.next.value, x))
  }

  lemma PageExact(dir: Direction, snap: Snapshot, cursor: Option<Item>, limit: nat)
    requires limit >= 1
    ensures PageOk(dir, snap, cursor, PageOf(dir, snap, cursor, limit))
    ensures PageOf(dir, snap, cursor, limit).hasMore ==> |PageOf(dir, snap, cursor, limit).items| == limit
  {
    var p := PageOf(dir, snap, cursor, limit);
    var es := Listing(dir, Rest(dir, snap, cursor));
    assert p.items == Take(es, limit);
    if p.hasMore {
      var last := p.next.value;
      assert last == es[limit - 1];
      forall x | x in es ensures x in p.items <==> !Precedes(dir, last, x) {
        var k :| 0 <= k < |es| && es[k] == x;
        RowOrder(dir, x, last, x);
        if x in p.items {
          var m :| 0 <= m < limit && es[m] == x;
          assert m < limit - 1 ==> Precedes(dir, es[m], es[limit - 1]);
        }
      }
    }
  }

  /** The order a page comes in: by name byte by byte, by number numerically, ties by
      id, and the other way round when descending. */
  lemma PageOrder(dir: Direction, snap: Snapshot, cursor: Option<Item>, limit: nat, i: int, j: int)
    requires limit >= 1 && 0 <= i < j < |PageOf(dir, snap, cursor, limit).items|
    ensures var items := PageOf(dir, snap, cursor, limit).items;
            var a, b := if dir.Asc? then items[i] else items[j], if dir.Asc? then items[j] else items[i];
            && (a.key.ByName? && b.key.ByName? ==>
                  LexLess(a.key.name, b.key.name) || (a.key.name == b.key.name && a.id < b.id))
            && (a.key.ByNumber? && b.key.ByNumber? ==>
                  a.key.n < b.key.n || (a.key.n == b.key.n && a.id < b.id))
  {
    PageExact(dir, snap, cursor, limit);
    hide PageOf;
  }

  // ---------------------------------------------------------------------
  // Traversals
  // ---------------------------------------------------------------------

  datatype Visit = Visit(snap: Snapshot, limit: nat)

  ghost function CursorAt(pages: seq<Page>, k: nat): Option<Item>
    requires k <= |pages|
  {
    if k == 0 then None else pages[k - 1].next
  }

  /** The `k`-th request: it carries the cursor of the page before, and is
      followed by another only if there is more. */
  ghost predicate IsVisit(dir: Direction, visits: seq<Visit>, pages: seq<Page>, k: nat)
    requires |visits| == |pages| && k < |pages|
  {
    && visits[k].limit >= 1
    && pages[k] == PageOf(dir, visits[k].snap, CursorAt(pages, k), visits[k].limit)
    && (k < |pages| - 1 ==> pages[k].hasMore)
  }

  /** A client follows next cursors while there is more. The rows may change
      in any way between pages. */
  ghost predicate IsTraversal(dir: Direction, visits: seq<Visit>, pages: seq<Page>) {
    |visits| == |pages| && forall k :: 0 <= k < |pages| ==> IsVisit(dir, visits, pages, k)
  }

  ghost predicate Finished(pages: seq<Page>) {
    pages != [] && !pages[|pages| - 1].hasMore
  }

  ghost predicate Returned(pages: seq<Page>, k: int, j: int, i: Id) {
    0 <= k < |pages| && 0 <= j < |pages[k].items| && pages[k].items[j].id == i
  }

  ghost predicate Link(dir: Direction, visits: seq<Visit>, pages: seq<Page>, k: nat)
    requires |visits| == |pages| && k < |pages|
  {
    PageOk(dir, visits[k].snap, CursorAt(pages, k), pages[k]) && (k < |pages| - 1 ==> pages[k].hasMore)
  }

  ghost predicate Chained(dir: Direction, visits: seq<Visit>, pages: seq<Page>) {
    |visits| == |pages| && forall k :: 0 <= k < |pages| ==> Link(dir, visits, pages, k)
  }

  lemma TraversalChained(dir: Direction, visits: seq<Visit>, pages: seq<Page>)
    requires IsTraversal(dir, visits, pages)
    ensures Chained(dir, visits, pages)
  {
    forall k | 0 <= k < |pages| ensures Link(dir, visits, pages, k) {
      assert IsVisit(dir, visits, pages, k);
      PageExact(dir, visits[k].snap, CursorAt(pages, k), visits[k].limit);
    }
  }

  ghost predicate Passed(dir: Direction, cursor: Option<Item>, x: Item) {
    cursor.Some? && !Precedes(dir, cursor.value, x)
  }

  lemma CursorStep(dir: Direction, snap: Snapshot, cursor: Option<Item>, p: Page, x: Item)
    requires PageOk(dir, snap, cursor, p) && p.hasMore
    requires x in p.items || Passed(dir, cursor, x)
    ensures Passed(dir, p.next, x)
  {
    if x !in p.items {
      RowOrder(dir, cursor.value, p.next.value, x);
    }
  }

  /** Cursors only move forward, past everything returned so far. */
  lemma {:induction false} CursorsAdvance(dir: Direction, visits: seq<Visit>, pages: seq<Page>, j: nat, k: nat, x: Item)
    requires Chained(dir, visits, pages) && j < k < |pages| && x in pages[j].items
    ensures Passed(dir, CursorAt(pages, k), x)
    decreases k - j
  {
    if j < k - 1 {
      CursorsAdvance(dir, visits, pages, j, k - 1, x);
    }
    assert Link(dir, visits, pages, k - 1);
    CursorStep(dir, visits[k - 1].snap, CursorAt(pages, k - 1), pages[k - 1], x);
  }

  /** Every row of a later page comes after every row of an earlier one. */
  lemma PagesAscend(dir: Direction, visits: seq<Visit>, pages: seq<Page>, j: nat, k: nat, x: Item, y: Item)
    requires Chained(dir, visits, pages) && j < k < |pages|
    requires x in pages[j].items && y in pages[k].items
    ensures Precedes(dir, x, y)
  {
    CursorsAdvance(dir, visits, pages, j, k, x);
    assert Link(dir, visits, pages, k);
    RowOrder(dir, x, CursorAt(pages, k).value, y);
  }

  ghost predicate ReturnedBefore(pages: seq<Page>, n: nat, x: Item)
    requires n <= |pages|
  {
    exists k :: 0 <= k < n && x in pages[k].items
  }

  lemma StayAhead(dir: Direction, snap: Snapshot, cursor: Option<Item>, p: Page, x: Item)
    requires PageOk(dir, snap, cursor, p) && x in Rest(dir, snap, cursor)
    ensures x in p.items || (p.next.Some? && Beyond(dir, p.next, x))
  {
  }

  /** A row that stays put is either still ahead of the cursor or was returned. */
  lemma {:induction false} AheadOrReturned(dir: Direction, visits: seq<Visit>, pages: seq<Page>, x: Item, n: nat)
    requires Chained(dir, visits, pages) && n < |pages|
    requires forall k :: 0 <= k < |pages| ==> x in Items(visits[k].snap)
    ensures ReturnedBefore(pages, n, x) || Beyond(dir, CursorAt(pages, n), x)
    decreases n
  {
    if n > 0 {
      AheadOrReturned(dir, visits, pages, x, n - 1);
      if !ReturnedBefore(pages, n - 1, x) {
        assert Link(dir, visits, pages, n - 1);
        StayAhead(dir, visits[n - 1].snap, CursorAt(pages, n - 1), pages[n - 1], x);
      }
    }
  }

  /** However the other rows are created, deleted, renamed or moved between
      pages, a child whose membership and sort key stay unchanged is returned
      exactly once by a finished traversal. */
  lemma StableChildOnce(dir: Direction, visits: seq<Visit>, pages: seq<Page>, i: Id, key: SortKey)
    requires IsTraversal(dir, visits, pages) && Finished(pages)
    requires forall k :: 0 <= k < |visits| ==> i in visits[k].snap && visits[k].snap[i] == key
    ensures exists k, j :: Returned(pages, k, j, i)
    ensures forall k, j, k', j' :: Returned(pages, k, j, i) && Returned(pages, k', j', i) ==> k == k' && j == j'
  {
    var x := Item(key, i);
    TraversalChained(dir, visits, pages);
    var n := |pages| - 1;
    AheadOrReturned(dir, visits, pages, x, n);
    assert Link(dir, visits, pages, n);
    var k :| 0 <= k < |pages| && x in pages[k].items;
    var j :| 0 <= j < |pages[k].items| && pages[k].items[j] == x;
    assert Returned(pages, k, j, i);
    forall k, j, k', j' | Returned(pages, k, j, i) && Returned(pages, k', j', i) ensures k == k' && j == j' {
      OnlyAsItself(dir, visits, pages, i, key, k, j);
      OnlyAsItself(dir, visits, pages, i, key, k', j');
      SameRowSamePlace(dir, visits, pages, k, j, k', j');
    }
  }

  /** A row can come back only on a later page, and only after its sort key moved
      forward in the traversal's direction. */
  lemma ReturnedAgainFurtherOn(dir: Direction, visits: seq<Visit>, pages: seq<Page>, i: Id,
                               k: int, j: int, k': int, j': int)
    requires IsTraversal(dir, visits, pages) && k < k'
    requires Returned(pages, k, j, i) && Returned(pages, k', j', i)
    ensures var a, b := pages[k].items[j].key, pages[k'].items[j'].key;
            if dir.Asc? then KeyLess(a, b) else KeyLess(b, a)
  {
    TraversalChained(dir, visits, pages);
    var x, y := pages[k].items[j], pages[k'].items[j'];
    assert x in pages[k].items && y in pages[k'].items;
    PagesAscend(dir, visits, pages, k, k', x, y);
  }

  /** One page never holds a row twice. */
  lemma OncePerPage(dir: Direction, visits: seq<Visit>, pages: seq<Page>, i: Id, k: int, j: int, j': int)
    requires IsTraversal(dir, visits, pages) && Returned(pages, k, j, i) && Returned(pages, k, j', i)
    ensures j == j'
  {
    TraversalChained(dir, visits, pages);
    assert Link(dir, visits, pages, k);
    var x, y := pages[k].items[j], pages[k].items[j'];
    assert x in pages[k].items && y in pages[k].items;
    RowOrder(dir, x, x, x);
  }

  /** Such a return does happen: row 1 is read first, its key moves from 1 to 9,
      and the next page reads it again. */
  lemma MovedRowReturnsAgain()
    ensures exists visits, pages ::
              && IsTraversal(Asc, visits, pages) && Finished(pages)
              && Returned(pages, 0, 0, 1) && Returned(pages, 1, 1, 1)
  {
    var one, nine, five := Item(ByNumber(1), 1), Item(ByNumber(9), 1), Item(ByNumber(5), 2);
    var before := Visit(map[1 := ByNumber(1), 2 := ByNumber(5)], 1);
    var after := Visit(map[1 := ByNumber(9), 2 := ByNumber(5)], 5);
    TwoRows(before.snap, one, five);
    TwoRows(after.snap, nine, five);
    assert Rest(Asc, before.snap, None) == {one, five};
    assert Rest(Asc, after.snap, Some(one)) == {five, nine};
    ListingIs(Asc, before.snap, None, [one, five]);
    ListingIs(Asc, after.snap, Some(one), [five, nine]);
    var visits, pages := [before, after], [Page([one], Some(one), true), Page([five, nine], None, false)];
    assert Take([one, five], 2) == [one, five] && Take([one, five], 1) == [one];
    assert IsVisit(Asc, visits, pages, 0) && IsVisit(Asc, visits, pages, 1);
    assert IsTraversal(Asc, visits, pages);
  }

  lemma TwoRows(snap: Snapshot, a: Item, b: Item)
    requires snap == map[a.id := a.key, b.id := b.key] && a.id != b.id
    ensures Items(snap) == {a, b}
  {
    assert a.id in snap && b.id in snap;
    forall x ensures x in Items(snap) <==> x in {a, b} {
      if x in {a, b} { assert x.id in snap && x == Item(snap[x.id], x.id); }
    }
  }

  lemma ListingIs(dir: Direction, snap: Snapshot, cursor: Option<Item>, es: seq<Item>)
    requires Lists(dir, es, Rest(dir, snap, cursor))
    ensures Listing(dir, Rest(dir, snap, cursor)) == es
  {
    ListingUnique(dir, Listing(dir, Rest(dir, snap, cursor)), es, Rest(dir, snap, cursor));
  }

  lemma OnlyAsItself(dir: Direction, visits: seq<Visit>, pages: seq<Page>, i: Id, key: SortKey, k: int, j: int)
    requires Chained(dir, visits, pages) && Returned(pages, k, j, i)
    requires i in visits[k].snap && visits[k].snap[i] == key
    ensures pages[k].items[j] == Item(key, i)
  {
    assert Link(dir, visits, pages, k);
    assert pages[k].items[j] in pages[k].items;
  }

  /** Whatever changed between pages, no row is returned twice with the same sort key. */
  lemma SameRowSamePlace(dir: Direction, visits: seq<Visit>, pages: seq<Page>, k: int, j: int, k': int, j': int)
    requires IsTraversal(dir, visits, pages)
    requires 0 <= k < |pages| && 0 <= j < |pages[k].items|
    requires 0 <= k' < |pages| && 0 <= j' < |pages[k'].items|
    requires pages[k].items[j] == pages[k'].items[j']
    ensures k == k' && j == j'
  {
    var x := pages[k].items[j];
    TraversalChained(dir, visits, pages);
    RowOrder(dir, x, x, x);
    assert Link(dir, visits, pages, k);
    if k < k' { PagesAscend(dir, visits, pages, k, k', x, x); }
    if k' < k { PagesAscend(dir, visits, pages, k', k, x, x); }
  }

  // ---------------------------------------------------------------------
  // Fixed data
  // ---------------------------------------------------------------------

  function Flatten(pages: seq<Page>): seq<Item> {
    if pages == [] then [] else Flatten(pages[..|pages| - 1]) + pages[|pages| - 1].items
  }

  /** On unchanging rows, a page and what lies beyond it make up the rest. */
  lemma PageThenRest(dir: Direction, snap: Snapshot, cursor: Option<Item>, limit: nat)
    requires limit >= 1 && PageOf(dir, snap, cursor, limit).hasMore
    ensures var p := PageOf(dir, snap, cursor, limit);
            p.items + Listing(dir, Rest(dir, snap, p.next)) == Listing(dir, Rest(dir, snap, cursor))
  {
    var p := PageOf(dir, snap, cursor, limit);
    var es := Listing(dir, Rest(dir, snap, cursor));
    assert es == p.items + es[limit..];
    var beyond := Rest(dir, snap, p.next);
    PageExact(dir, snap, cursor, limit);
    forall x ensures x in es[limit..] <==> x in beyond {
      if x in es[limit..] {
        var k :| limit <= k < |es| && es[k] == x;
        assert Precedes(dir, es[limit - 1], es[k]);
        assert x in es;
      }
      if x in beyond {
        BeyondNext(dir, snap, cursor, limit, x);
      }
    }
    ListingUnique(dir, es[limit..], Listing(dir, beyond), beyond);
  }

  lemma BeyondNext(dir: Direction, snap: Snapshot, cursor: Option<Item>, limit: nat, x: Item)
    requires limit >= 1 && PageOf(dir, snap, cursor, limit).hasMore
    requires x in Rest(dir, snap, PageOf(dir, snap, cursor, limit).next)
    ensures x in Listing(dir, Rest(dir, snap, cursor))[limit..]
  {
    var p := PageOf(dir, snap, cursor, limit);
    PageExact(dir, snap, cursor, limit);
    if cursor.Some? { RowOrder(dir, cursor.value, p.next.value, x); }
    var es := Listing(dir, Rest(dir, snap, cursor));
    assert x in es && x !in p.items && p.items == es[..limit];
    assert es == es[..limit] + es[limit..];
  }

  ghost function Remaining(dir: Direction, snap: Snapshot, pages: seq<Page>, n: nat): seq<Item>
    requires n <= |pages|
  {
    Listing(dir, Rest(dir, snap, CursorAt(pages, n)))
  }

  lemma OnePageOn(dir: Direction, visits: seq<Visit>, pages: seq<Page>, snap: Snapshot, n: nat)
    requires IsTraversal(dir, visits, pages) && n < |pages| && visits[n].snap == snap && pages[n].hasMore
    ensures pages[n].items + Remaining(dir, snap, pages, n + 1) == Remaining(dir, snap, pages, n)
    ensures |pages[n].items| >= 1
    ensures Remaining(dir, snap, pages, n + 1) != []
  {
    assert IsVisit(dir, visits, pages, n);
    PageThenRest(dir, snap, CursorAt(pages, n), visits[n].limit);
    PageExact(dir, snap, CursorAt(pages, n), visits[n].limit);
  }

  lemma FlattenOneMore(pages: seq<Page>, n: nat)
    requires n < |pages|
    ensures Flatten(pages[..n + 1]) == Flatten(pages[..n]) + pages[n].items
  {
    assert pages[..n + 1][..n] == pages[..n];
  }

  lemma {:induction false} PagesThenRest(dir: Direction, visits: seq<Visit>, pages: seq<Page>, snap: Snapshot, n: nat)
    requires IsTraversal(dir, visits, pages) && n < |pages|
    requires forall k :: 0 <= k < |visits| ==> visits[k].snap == snap
    ensures Flatten(pages[..n]) + Remaining(dir, snap, pages, n) == Listing(dir, Items(snap))
    ensures |Flatten(pages[..n])| >= n && (n > 0 ==> Remaining(dir, snap, pages, n) != [])
    decreases n
  {
    if n == 0 {
      NothingYet(dir, snap);
    } else {
      PagesThenRest(dir, visits, pages, snap, n - 1);
      assert IsVisit(dir, visits, pages, n - 1);
      OnePageOn(dir, visits, pages, snap, n - 1);
      FlattenOneMore(pages, n - 1);
    }
  }

  lemma NothingYet(dir: Direction, snap: Snapshot)
    ensures Listing(dir, Rest(dir, snap, None)) == Listing(dir, Items(snap))
  {
    assert Rest(dir, snap, None) == Items(snap);
  }

  lemma {:induction false} AscendingSize(dir: Direction, es: seq<Item>, items: set<Item>)
    requires Lists(dir, es, items)
    ensures |es| == |items|
    decreases |es|
  {
    if es == [] {
      assert items == {};
    } else {
      assert es == [es[0]] + es[1..];
      RowOrder(dir, es[0], es[0], es[0]);
      AscendingSize(dir, es[1..], items - {es[0]});
    }
  }

  lemma {:induction false} ItemsSize(snap: Snapshot)
    ensures |Items(snap)| == |snap|
    decreases |snap|
  {
    if snap != map[] {
      var i :| i in snap;
      ItemsSize(snap - {i});
      var fewer := snap - {i};
      forall x ensures x in Items(snap) <==> x in Items(fewer) + {Item(snap[i], i)} {
          if x in Items(snap) && x.id != i { assert x.id in fewer; }
      }
      assert Items(snap) == Items(fewer) + {Item(snap[i], i)};
      assert fewer.Keys == snap.Keys - {i};
    } else {
      assert Items(snap) == {};
    }
  }

  /** On fixed data the pages concatenate to the full sorted listing, and there
      are at most as many of them as rows (one for an empty listing). */
  lemma FixedDataListsAll(dir: Direction, visits: seq<Visit>, pages: seq<Page>, snap: Snapshot)
    requires IsTraversal(dir, visits, pages) && pages != []
    requires forall k :: 0 <= k < |visits| ==> visits[k].snap == snap
    ensures Finished(pages) ==> Flatten(pages) == Listing(dir, Items(snap))
    ensures |pages| <= if snap == map[] then 1 else |snap|
  {
    var n := |pages| - 1;
    PagesThenRest(dir, visits, pages, snap, n);
    AscendingSize(dir, Listing(dir, Items(snap)), Items(snap));
    ItemsSize(snap);
    FlattenOneMore(pages, n);
    assert pages[..n + 1] == pages;
    if Finished(pages) {
      LastPage(dir, visits, pages, n);
    }
  }

  lemma LastPage(dir: Direction, visits: seq<Visit>, pages: seq<Page>, n: nat)
    requires IsTraversal(dir, visits, pages) && n < |pages| && !pages[n].hasMore
    ensures pages[n].items == Remaining(dir, visits[n].snap, pages, n)
  {
    assert IsVisit(dir, visits, pages, n);
  }

  // ---------------------------------------------------------------------
  // The children of a folder, by name
  // ---------------------------------------------------------------------

  function ChildrenByName(o: Objects, parent: Id): Snapshot {
    map i | i in o && !o[i].deleted && o[i].parent == Some(parent) :: ByName(o[i].name)
  }

  /** A live child that keeps its name and parent while a listing by name is
      read page by page from the store is listed exactly once. */
  lemma StableNamedChildOnce(dir: Direction, seen: seq<Objects>, visits: seq<Visit>, pages: seq<Page>,
                             parent: Id, i: Id, name: Text)
    requires IsTraversal(dir, visits, pages) && Finished(pages) && |seen| == |visits|
    requires forall k :: 0 <= k < |seen| ==> visits[k].snap == ChildrenByName(seen[k], parent)
    requires forall k :: 0 <= k < |seen| ==>
               Live(seen[k], i) && seen[k][i].parent == Some(parent) && seen[k][i].name == name
    ensures exists k, j :: Returned(pages, k, j, i)
    ensures forall k, j, k', j' :: Returned(pages, k, j, i) && Returned(pages, k', j', i) ==> k == k' && j == j'
  {
    StableChildOnce(dir, visits, pages, i, ByName(name));
  }
}
