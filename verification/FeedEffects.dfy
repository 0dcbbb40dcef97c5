/** What reads and purges of the Changes feed deliver and leave behind, in terms of
    rows and positions. */
module FeedEffects {
  import opened Types
  import opened Store
  import opened StoreTheorems
  import opened Feed
  import opened FeedTheorems

  /** The Changes numbered above a position. */
  function Above(cs: seq<Change>, position: int): set<Change> {
    set c | c in cs && c.seqNo > position
  }

  function Elements(cs: seq<Change>): set<Change> {
    set c | c in cs
  }

  lemma {:induction false} DistinctSize(cs: seq<Change>)
    requires Increasing(cs)
    ensures |Elements(cs)| == |cs|
    decreases |cs|
  {
    if cs != [] {
      var n := |cs| - 1;
      DistinctSize(cs[..n]);
      assert cs == cs[..n] + [cs[n]];
      assert Elements(cs) == Elements(cs[..n]) + {cs[n]};
    } else {
      assert Elements(cs) == {};
    }
  }

  // ---------------------------------------------------------------------
  // Reads
  // ---------------------------------------------------------------------

  /** A page of the Changes after `position`: in order and without gaps, as many as
      there are up to the limit; `end` is the last one's number. */
  ghost predicate Delivers(cs: seq<Change>, position: int, limit: nat, items: seq<Change>, end: int) {
    && Increasing(items)
    && (forall c :: c in items <==> c in cs && position < c.seqNo <= end)
    && |items| == (if |Above(cs, position)| < limit then |Above(cs, position)| else limit)
    && end == if items == [] then position else items[|items| - 1].seqNo
  }

  lemma WithinAll(cs: seq<Change>, position: int)
    requires Increasing(cs)
    ensures Elements(Within(cs, position, MaxSeq(cs, position))) == Above(cs, position)
    ensures |Within(cs, position, MaxSeq(cs, position))| == |Above(cs, position)|
  {
    var all := Within(cs, position, MaxSeq(cs, position));
    WithinSorted(cs, position, MaxSeq(cs, position));
    forall c | c in cs && c.seqNo > position ensures c.seqNo <= MaxSeq(cs, position) {
      var k :| 0 <= k < |cs| && cs[k] == c;
      assert k < |cs| - 1 ==> cs[k].seqNo < cs[|cs| - 1].seqNo;
    }
    DistinctSize(all);
  }

  lemma BuildDelivers(cs: seq<Change>, position: int, limit: nat)
    requires Increasing(cs)
    ensures var b := BuildPage(cs, position, limit);
            && Delivers(cs, position, limit, b.items, b.pageEnd)
            && (b.hasMore <==> Above(cs, b.pageEnd) != {})
            && b.lag == |Above(cs, b.pageEnd)|
  {
    var b := BuildPage(cs, position, limit);
    var snap := MaxSeq(cs, position);
    WithinAll(cs, position);
    PageIsRange(cs, position, snap, limit);
    WithinSorted(cs, position, b.pageEnd);
    WithinAll(cs, b.pageEnd);
    WithinSorted(cs, b.pageEnd, snap);
    MoreBeyond(cs, position, b.pageEnd);
  }

  lemma MoreBeyond(cs: seq<Change>, position: int, end: int)
    requires Increasing(cs) && position <= end
    ensures Within(cs, end, MaxSeq(cs, position)) != [] <==> Above(cs, end) != {}
  {
    var rest := Within(cs, end, MaxSeq(cs, position));
    WithinSorted(cs, end, MaxSeq(cs, position));
    if rest != [] {
      assert rest[0] in Above(cs, end);
    }
    if c :| c in Above(cs, end) {
      var k :| 0 <= k < |cs| && cs[k] == c;
      assert k < |cs| - 1 ==> cs[k].seqNo < cs[|cs| - 1].seqNo;
      assert c in rest;
    }
  }

  /** A page built by this read: it delivers from `position`, and its continuation is
      a new cursor, not yet read, at the page's end. */
  ghost predicate FreshPage(s: FeedState, s': FeedState, position: int, limit: nat, newId: CursorId, expiresAt: int,
                            page: Page)
  {
    && page.next == newId && newId in s'.cursors
    && var end := s'.cursors[newId].after;
    && s'.cursors[newId] == CursorRow(end, None, expiresAt)
    && Delivers(s.changes, position, limit, page.items, end)
    && (page.hasMore <==> Above(s.full, end) != {})
    && page.lag == |Above(s.changes, end)|
    && s'.issued == s.issued[newId := end]
    && s' == s.(cursors := s'.cursors, issued := s'.issued)
  }

  /** A page of a cursor read before: the same range, and the stored continuation. */
  ghost predicate StoredPage(s: FeedState, row: CursorRow, mark: PageMark, page: Page) {
    && Increasing(page.items)
    && (forall c :: c in page.items <==> c in s.changes && row.after < c.seqNo <= mark.pageEnd)
    && page.next == mark.next && page.hasMore == mark.hasMore
    && page.lag == |Above(s.changes, mark.pageEnd)|
  }

  ghost predicate CursorGone(s: FeedState, c: CursorId, now: int) {
    c !in s.cursors || s.cursors[c].expiresAt <= now || s.cursors[c].after < s.watermark
  }

  /** What one read answers and writes. */
  ghost predicate ReadOutcome(s: FeedState, s': FeedState, from: From, limit: nat, now: int, newId: CursorId,
                              expiresAt: int, r: ReadResult)
  {
    match from
    case Malformed => s' == s && r == PageErr(InvalidCursor)
    case Oldest =>
      && r.PageOk? && FreshPage(s, s', s.watermark, limit, newId, expiresAt, r.page)
      && s'.cursors == s.cursors[newId := s'.cursors[newId]]
    case At(c) =>
      if CursorGone(s, c, now) then s' == s && r == PageErr(CursorExpired)
      else
        var row := s.cursors[c];
        match row.mark
        case Some(mark) =>
          && s' == s
          && if mark.limit != limit then r == PageErr(DifferentLimit)
             else r.PageOk? && StoredPage(s, row, mark, r.page)
        case None =>
          && r.PageOk? && FreshPage(s, s', row.after, limit, newId, expiresAt, r.page)
          && var mark := PageMark(limit, s'.cursors[newId].after, r.page.hasMore, newId);
          s'.cursors == s.cursors[newId := s'.cursors[newId]][c := row.(mark := Some(mark))]
  }

  lemma FullAbove(s: FeedState, position: int)
    requires FeedInv(s) && s.watermark <= position
    ensures Above(s.full, position) == Above(s.changes, position)
  {
    KeepMembers(s.full, s.dropped);
  }

  lemma FreshPageBuilt(s: FeedState, position: int, limit: nat, newId: CursorId, expiresAt: int)
    requires FeedInv(s) && s.watermark <= position
    ensures var b := BuildPage(s.changes, position, limit);
            FreshPage(s, IssuePage(s, b, newId, expiresAt), position, limit, newId, expiresAt,
                      Page(b.items, newId, b.hasMore, b.lag))
  {
    KeepSorted(s.full, s.dropped);
    BuildDelivers(s.changes, position, limit);
    PageIsRange(s.changes, position, MaxSeq(s.changes, position), limit);
    FullAbove(s, BuildPage(s.changes, position, limit).pageEnd);
    hide Delivers, BuildPage, FeedInv;
  }

  /** Every read has the outcome its cursor calls for. */
  lemma ReadHasOutcome(s: FeedState, from: From, limit: nat, now: int, newId: CursorId, expiresAt: int)
    requires FeedInv(s) && newId !in s.issued
    ensures var (s', r) := Read(s, from, limit, now, newId, expiresAt);
            ReadOutcome(s, s', from, limit, now, newId, expiresAt, r)
  {
    match from
    case Malformed =>
    case Oldest =>
      FreshPageBuilt(s, s.watermark, limit, newId, expiresAt);
      hide FeedInv, Delivers, BuildPage;
    case At(c) =>
      if !CursorGone(s, c, now) {
        var row := s.cursors[c];
        assert CursorOk(s, c);
        if row.mark.Some? {
          KeepSorted(s.full, s.dropped);
          WithinSorted(s.changes, row.after, row.mark.value.pageEnd);
          WithinAll(s.changes, row.mark.value.pageEnd);
        } else {
          FreshPageBuilt(s, row.after, limit, newId, expiresAt);
          hide FeedInv, Delivers, BuildPage;
        }
      }
  }

  /** A page that says there is more is full, and its continuation is strictly further on. */
  lemma MoreMeansProgress(cs: seq<Change>, position: int, limit: nat, items: seq<Change>, end: int)
    requires Delivers(cs, position, limit, items, end) && limit >= 1 && Above(cs, end) != {}
    ensures |items| == limit && position < end
  {
    var c :| c in Above(cs, end);
    assert items == [] ==> c in Above(cs, position);
    assert items != [] ==> items[|items| - 1] in items;
    if |items| < limit {
      ElementsAbove(cs, position, items, end, c);
    }
  }

  lemma ElementsAbove(cs: seq<Change>, position: int, items: seq<Change>, end: int, c: Change)
    requires Increasing(items) && forall x :: x in items <==> x in cs && position < x.seqNo <= end
    requires c in cs && end < c.seqNo && position <= end
    ensures |items| < |Above(cs, position)|
  {
    DistinctSize(items);
    assert Elements(items) + {c} <= Above(cs, position);
    assert |Elements(items) + {c}| == |items| + 1;
    Smaller(Elements(items) + {c}, Above(cs, position));
  }

  lemma Smaller(a: set<Change>, b: set<Change>)
    requires a <= b
    ensures |a| <= |b|
  {
    assert b == a + (b - a);
  }

  // ---------------------------------------------------------------------
  // Purges
  // ---------------------------------------------------------------------

  /** The Changes recorded before a time. */
  function OlderThan(cs: seq<Change>, time: int): set<Change> {
    set c | c in cs && c.at < time
  }

  /** Exactly the Changes older than the bound are gone, and the watermark covers the
      highest of them. */
  ghost predicate PurgeOutcome(s: FeedState, s': FeedState, olderThan: int, count: int) {
    && (forall c :: c in s'.changes <==> c in s.changes && c.at >= olderThan)
    && Increasing(s'.changes)
    && count == |OlderThan(s.changes, olderThan)|
    && s.watermark <= s'.watermark
    && (forall c :: c in OlderThan(s.changes, olderThan) ==> c.seqNo <= s'.watermark)
    && (s'.watermark == s.watermark
        || exists c :: c in OlderThan(s.changes, olderThan) && c.seqNo == s'.watermark)
    && s'.cursors == s.cursors && s'.full == s.full && s'.issued == s.issued
  }

  lemma {:induction false} WatermarkExact(cs: seq<Change>, olderThan: int, watermark: int)
    ensures var m := DoomedMax(cs, olderThan, watermark);
            && watermark <= m
            && (forall c :: c in OlderThan(cs, olderThan) ==> c.seqNo <= m)
            && (m == watermark || exists c :: c in OlderThan(cs, olderThan) && c.seqNo == m)
    decreases |cs|
  {
    if cs != [] {
      var n := |cs| - 1;
      WatermarkExact(cs[..n], olderThan, watermark);
      assert cs == cs[..n] + [cs[n]];
      var before := DoomedMax(cs[..n], olderThan, watermark);
      if before != watermark {
        var c :| c in OlderThan(cs[..n], olderThan) && c.seqNo == before;
        assert c in OlderThan(cs, olderThan);
      }
      if cs[n].at < olderThan { assert cs[n] in OlderThan(cs, olderThan); }
    }
  }

  lemma NumbersAreDistinct(cs: seq<Change>, j: int, k: int)
    requires Increasing(cs) && 0 <= j < |cs| && 0 <= k < |cs| && cs[j].seqNo == cs[k].seqNo
    ensures j == k
  {
  }

  lemma DoomedMembers(cs: seq<Change>, olderThan: int)
    requires Increasing(cs)
    ensures forall c :: c in cs ==> (c.seqNo in Doomed(cs, olderThan) <==> c.at < olderThan)
  {
    forall c | c in cs ensures c.seqNo in Doomed(cs, olderThan) <==> c.at < olderThan {
      var k :| 0 <= k < |cs| && cs[k] == c;
      if c.seqNo in Doomed(cs, olderThan) {
        var j :| 0 <= j < |cs| && cs[j].at < olderThan && cs[j].seqNo == c.seqNo;
        NumbersAreDistinct(cs, j, k);
      }
    }
  }

  lemma Partition<T>(all: set<T>, kept: set<T>, gone: set<T>)
    requires all == kept + gone && kept !! gone
    ensures |gone| == |all| - |kept|
  {
  }

  lemma KeptCount(cs: seq<Change>, kept: seq<Change>, olderThan: int)
    requires Increasing(cs) && Increasing(kept)
    requires forall c :: c in kept <==> c in cs && c.at >= olderThan
    ensures |OlderThan(cs, olderThan)| == |cs| - |kept|
  {
    DistinctSize(cs);
    DistinctSize(kept);
    Partition(Elements(cs), Elements(kept), OlderThan(cs, olderThan));
  }

  lemma PurgeHasOutcome(s: FeedState, olderThan: int)
    requires Increasing(s.changes)
    ensures PurgeOutcome(s, Purge(s, olderThan), olderThan, |s.changes| - |Purge(s, olderThan).changes|)
  {
    var doomed := Doomed(s.changes, olderThan);
    var kept := Keep(s.changes, doomed);
    DoomedMembers(s.changes, olderThan);
    KeepMembers(s.changes, doomed);
    KeepSorted(s.changes, doomed);
    WatermarkExact(s.changes, olderThan, s.watermark);
    hide Doomed, DoomedMax, Keep;
    KeptCount(s.changes, kept, olderThan);
    hide OlderThan;
  }

  function ExpiredCursors(cursors: map<CursorId, CursorRow>, now: int): set<CursorId> {
    set c | c in cursors && cursors[c].expiresAt <= now
  }

  /** Exactly the cursors whose time is up are gone. */
  ghost predicate CursorPurgeOutcome(s: FeedState, s': FeedState, now: int, count: int) {
    && (forall c :: c in s'.cursors <==> c in s.cursors && s.cursors[c].expiresAt > now)
    && (forall c :: c in s'.cursors ==> s'.cursors[c] == s.cursors[c])
    && count == |ExpiredCursors(s.cursors, now)|
    && s' == s.(cursors := s'.cursors)
  }

  lemma KeptCursors(all: map<CursorId, CursorRow>, kept: map<CursorId, CursorRow>, now: int)
    requires forall c :: c in kept <==> c in all && all[c].expiresAt > now
    ensures |ExpiredCursors(all, now)| == |all| - |kept|
  {
    Partition(all.Keys, kept.Keys, ExpiredCursors(all, now));
    assert |all| == |all.Keys| && |kept| == |kept.Keys|;
  }

  lemma CursorPurgeHasOutcome(s: FeedState, now: int)
    ensures var s' := PurgeCursors(s, now);
            CursorPurgeOutcome(s, s', now, |s.cursors| - |s'.cursors|)
  {
    KeptCursors(s.cursors, PurgeCursors(s, now).cursors, now);
    hide ExpiredCursors;
  }

  // ---------------------------------------------------------------------
  // Catching up
  // ---------------------------------------------------------------------

  /** What a follower has still to receive. */
  function Remaining(w: World): set<Change>
    requires w.follower.Following? && w.follower.cursor in w.feed.issued
  {
    Above(w.feed.full, w.feed.issued[w.follower.cursor])
  }

  /** The follower's cursor is stored and nobody has read it yet. */
  ghost predicate AtFreshCursor(w: World) {
    && w.follower.Following? && w.follower.cursor in w.feed.issued
    && w.follower.cursor in w.feed.cursors && w.feed.cursors[w.follower.cursor].mark.None?
  }

  /** The event is a read by the follower that is answered with a page. */
  ghost predicate IsRead(w: World, e: Event) {
    && e.FollowerRead? && e.limit >= 1 && w.follower.Following?
    && Read(w.feed, At(w.follower.cursor), e.limit, e.now, e.newId, e.expiresAt).1.PageOk?
  }

  lemma SmallerRest(cs: seq<Change>, position: int, limit: nat, items: seq<Change>, end: int)
    requires Delivers(cs, position, limit, items, end) && limit >= 1
    ensures |Above(cs, end)| <= |Above(cs, position)|
    ensures Above(cs, position) != {} ==> |Above(cs, end)| < |Above(cs, position)|
  {
    var rest, all := Above(cs, end), Above(cs, position);
    if all != {} {
      assert items != [];
      assert items[0] in items && items[|items| - 1] in items;
      assert items[0] in all && items[0] !in rest;
      Smaller(rest + {items[0]}, all);
    }
  }

  lemma FreshReadRest(s: FeedState, s': FeedState, position: int, limit: nat, newId: CursorId, expiresAt: int,
                      page: Page)
    requires FeedInv(s) && s.watermark <= position && limit >= 1
    requires FreshPage(s, s', position, limit, newId, expiresAt, page)
    ensures newId in s'.issued && newId in s'.cursors && s'.cursors[newId].mark.None? && s'.full == s.full
    ensures |Above(s.full, s'.issued[newId])| <= |Above(s.full, position)|
    ensures Above(s.full, position) != {} ==> |Above(s.full, s'.issued[newId])| < |Above(s.full, position)|
  {
    var end := s'.cursors[newId].after;
    FullAbove(s, position);
    assert position <= end by {
      if page.items != [] { assert page.items[|page.items| - 1] in page.items; }
    }
    FullAbove(s, end);
    SmallerRest(s.changes, position, limit, page.items, end);
  }

  /** One read of a fresh cursor: the follower moves to another fresh cursor and has
      strictly less to receive, if it had anything. */
  lemma ReadCatchesUp(w: World, e: Event)
    requires FollowerInv(w) && Enabled(w, e) && AtFreshCursor(w) && IsRead(w, e)
    ensures var w' := WorldNext(w, e);
            && AtFreshCursor(w') && w'.feed.full == w.feed.full && w'.follower.start == w.follower.start
            && |Remaining(w')| <= |Remaining(w)|
            && (Remaining(w) != {} ==> |Remaining(w')| < |Remaining(w)|)
  {
    var s, c := w.feed, w.follower.cursor;
    var (s', r) := Read(s, At(c), e.limit, e.now, e.newId, e.expiresAt);
    assert CursorOk(s, c);
    ReadHasOutcome(s, At(c), e.limit, e.now, e.newId, e.expiresAt);
    hide Read, FreshPage;
    FreshReadRest(s, s', s.cursors[c].after, e.limit, e.newId, e.expiresAt, r.page);
    hide FeedInv, Above;
  }

  /** A follower that keeps reading, with nothing appended, has after as many reads as
      there were Changes left for it received everything committed above its start. */
  lemma {:induction false} FollowerCatchesUp(run: seq<World>, events: seq<Event>, j: nat, n: nat)
    requires IsHistory(run, events) && j + n < |run| && AtFreshCursor(run[j])
    requires forall m :: j <= m < j + n ==> IsRead(run[m], events[m])
    ensures AtFreshCursor(run[j + n]) && run[j + n].feed.full == run[j].feed.full
    ensures run[j + n].follower.start == run[j].follower.start
    ensures |Remaining(run[j + n])| <= if |Remaining(run[j])| > n then |Remaining(run[j])| - n else 0
    decreases n
  {
    hide Enabled, WorldNext, EmptyFeed, IsRead, Remaining;
    if n > 0 {
      var m := j + n - 1;
      FollowerCatchesUp(run, events, j, n - 1);
      HistoryInv(run, events, m);
      assert Enabled(run[m], events[m]) && run[m + 1] == WorldNext(run[m], events[m]);
      assert IsRead(run[m], events[m]);
      ReadCatchesUp(run[m], events[m]);
      assert Remaining(run[m]) == {} ==> |Remaining(run[m])| == 0;
    }
  }

  lemma CaughtUpHoldsAll(run: seq<World>, events: seq<Event>, j: nat, n: nat)
    requires IsHistory(run, events) && j + n < |run| && AtFreshCursor(run[j])
    requires forall m :: j <= m < j + n ==> IsRead(run[m], events[m])
    requires n >= |Remaining(run[j])|
    ensures run[j + n].follower.Following?
    ensures forall c :: c in run[j].feed.full && c.seqNo > run[j].follower.start ==> c in run[j + n].follower.got
  {
    FollowerCatchesUp(run, events, j, n);
    FollowerExact(run, events, j + n);
    var w := run[j + n];
    assert Remaining(w) == {};
    forall c | c in w.feed.full && c.seqNo > w.follower.start ensures c in w.follower.got {
      assert c !in Remaining(w);
    }
  }
}
