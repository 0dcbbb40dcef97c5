/** What the Changes feed promises its readers over every run. */
module FeedTheorems {
  import opened Types
  import opened Ids
  import opened Store
  import opened StoreTheorems
  import opened Feed

  // ---------------------------------------------------------------------
  // The feed invariant
  // ---------------------------------------------------------------------

  ghost predicate CursorOk(s: FeedState, c: CursorId)
    requires c in s.cursors
  {
    var row := s.cursors[c];
    && c in s.issued && s.issued[c] == row.after
    && (row.mark.Some? ==>
          var m := row.mark.value;
          && m.next in s.issued && s.issued[m.next] == m.pageEnd && row.after <= m.pageEnd)
  }

  /** Rows above the watermark are never purged, and no cursor is ahead of the log. */
  ghost predicate FeedInv(s: FeedState) {
    && Increasing(s.full)
    && s.changes == Keep(s.full, s.dropped)
    && (forall d :: d in s.dropped ==> d <= s.watermark)
    && 0 <= s.watermark <= MaxSeq(s.full, 0)
    && (forall c :: c in s.issued ==> 0 <= s.issued[c] <= MaxSeq(s.full, 0))
    && (forall c :: c in s.cursors ==> CursorOk(s, c))
  }

  /** New Changes are numbered above everything committed before. */
  ghost predicate CanAppend(full: seq<Change>, batch: seq<Change>) {
    && Increasing(batch)
    && forall k :: 0 <= k < |batch| ==> MaxSeq(full, 0) < batch[k].seqNo
  }

  lemma MaxSeqBounds(cs: seq<Change>, c: Change)
    requires Increasing(cs) && c in cs
    ensures c.seqNo <= MaxSeq(cs, 0)
  {
    var k :| 0 <= k < |cs| && cs[k] == c;
    assert k < |cs| - 1 ==> cs[k].seqNo < cs[|cs| - 1].seqNo;
  }

  /** A page read from at or above the watermark is the full log's range up to
      the page's end; without more, nothing committed lies beyond it. */
  lemma PageComplete(s: FeedState, after: int, limit: nat)
    requires FeedInv(s) && s.watermark <= after <= MaxSeq(s.full, 0)
    ensures var b := BuildPage(s.changes, after, limit);
            && b.items == Within(s.full, after, b.pageEnd)
            && after <= b.pageEnd <= MaxSeq(s.full, 0)
            && (b.hasMore <==> exists c :: c in s.full && c.seqNo > b.pageEnd)
  {
    var b := BuildPage(s.changes, after, limit);
    var snap := MaxSeq(s.changes, after);
    KeepSorted(s.full, s.dropped);
    KeepMembers(s.full, s.dropped);
    PageIsRange(s.changes, after, snap, limit);
    KeepWithin(s.full, s.dropped, after, b.pageEnd);
    WithinSorted(s.changes, after, snap);
    if b.items != [] {
      var last := b.items[|b.items| - 1];
      assert last in Within(s.changes, after, snap);
      MaxSeqBounds(s.full, last);
    }
    MoreIsExact(s, after, b.pageEnd);
  }

  /** Something retained lies beyond a position at or above the watermark exactly
      when something committed does. */
  lemma MoreIsExact(s: FeedState, after: int, pageEnd: int)
    requires FeedInv(s) && s.watermark <= after <= pageEnd
    ensures Within(s.changes, pageEnd, MaxSeq(s.changes, after)) != [] <==>
            exists c :: c in s.full && c.seqNo > pageEnd
  {
    var snap := MaxSeq(s.changes, after);
    var rest := Within(s.changes, pageEnd, snap);
    KeepSorted(s.full, s.dropped);
    KeepMembers(s.full, s.dropped);
    WithinSorted(s.changes, pageEnd, snap);
    if rest != [] {
      assert rest[0] in s.full;
    }
    forall c | c in s.full && c.seqNo > pageEnd ensures rest != [] {
      MaxSeqBounds(s.changes, c);
      assert c in rest;
    }
  }

  /** The statements of one read may see later commits than its snapshot maximum:
      items, position and `has_more` come out as from a single snapshot. */
  lemma SnapshotBoundsPage(rows: seq<Change>, later: seq<Change>, after: int, limit: nat)
    requires Increasing(rows)
    requires forall k :: 0 <= k < |later| ==> MaxSeq(rows, after) < later[k].seqNo
    ensures var one := BuildPage(rows, after, limit);
            var two := BuildFrom(rows + later, MaxSeq(rows, after), after, limit);
            one.items == two.items && one.pageEnd == two.pageEnd && one.hasMore == two.hasMore
  {
    var snap := MaxSeq(rows, after);
    WithinIgnoresLater(rows, later, after, snap);
    WithinIgnoresLater(rows, later, BuildPage(rows, after, limit).pageEnd, snap);
  }

  // ---------------------------------------------------------------------
  // Every operation keeps the invariant
  // ---------------------------------------------------------------------

  lemma IssueKeepsInv(s: FeedState, after: int, limit: nat, newId: CursorId, expiresAt: int)
    requires FeedInv(s) && s.watermark <= after <= MaxSeq(s.full, 0) && newId !in s.issued
    ensures FeedInv(IssuePage(s, BuildPage(s.changes, after, limit), newId, expiresAt))
  {
    PageComplete(s, after, limit);
    var s' := IssuePage(s, BuildPage(s.changes, after, limit), newId, expiresAt);
    forall c | c in s'.cursors ensures CursorOk(s', c) {
      assert c != newId ==> CursorOk(s, c);
    }
  }

  lemma ReadKeepsInv(s: FeedState, from: From, limit: nat, now: int, newId: CursorId, expiresAt: int)
    requires FeedInv(s) && newId !in s.issued
    ensures FeedInv(Read(s, from, limit, now, newId, expiresAt).0)
  {
    match from
    case Malformed =>
    case Oldest => IssueKeepsInv(s, s.watermark, limit, newId, expiresAt);
    case At(c) =>
      if c in s.cursors && s.cursors[c].after >= s.watermark && s.cursors[c].mark.None? {
        assert CursorOk(s, c);
        var row := s.cursors[c];
        var b := BuildPage(s.changes, row.after, limit);
        PageComplete(s, row.after, limit);
        IssueKeepsInv(s, row.after, limit, newId, expiresAt);
        var s1 := IssuePage(s, b, newId, expiresAt);
        var s2 := s1.(cursors := s1.cursors[c := row.(mark := Some(PageMark(limit, b.pageEnd, b.hasMore, newId)))]);
        forall d | d in s2.cursors ensures CursorOk(s2, d) {
          assert CursorOk(s1, d);
        }
      }
  }

  lemma AppendKeepsInv(s: FeedState, batch: seq<Change>)
    requires FeedInv(s) && CanAppend(s.full, batch)
    ensures FeedInv(Append(s, batch))
  {
    var s' := Append(s, batch);
    KeepConcat(s.full, batch, s.dropped);
    if batch == [] { assert s.full + batch == s.full; }
    forall j, k | 0 <= j < k < |s'.full| ensures s'.full[j].seqNo < s'.full[k].seqNo {
      if j < |s.full| { MaxSeqBounds(s.full, s.full[j]); }
    }
    forall c | c in s'.cursors ensures CursorOk(s', c) { assert CursorOk(s, c); }
  }

  lemma {:induction false} DoomedMaxBounds(cs: seq<Change>, olderThan: int, watermark: int)
    ensures DoomedMax(cs, olderThan, watermark) >= watermark
    ensures forall d :: d in Doomed(cs, olderThan) ==> d <= DoomedMax(cs, olderThan, watermark)
    ensures DoomedMax(cs, olderThan, watermark) == watermark ||
            exists k :: 0 <= k < |cs| && cs[k].seqNo == DoomedMax(cs, olderThan, watermark)
    decreases |cs|
  {
    if cs != [] {
      var n := |cs| - 1;
      DoomedMaxBounds(cs[..n], olderThan, watermark);
      forall d | d in Doomed(cs, olderThan) ensures d <= DoomedMax(cs, olderThan, watermark) {
        var k :| 0 <= k < |cs| && cs[k].at < olderThan && cs[k].seqNo == d;
        if k < n { assert cs[..n][k] == cs[k]; assert d in Doomed(cs[..n], olderThan); }
      }
      if k :| 0 <= k < n && cs[..n][k].seqNo == DoomedMax(cs[..n], olderThan, watermark) {
        assert cs[k].seqNo == cs[..n][k].seqNo;
      }
    }
  }

  /** Purging by time may leave older sequence numbers behind, but the watermark
      covers everything it removed. */
  lemma PurgeKeepsInv(s: FeedState, olderThan: int)
    requires FeedInv(s)
    ensures FeedInv(Purge(s, olderThan))
  {
    var s' := Purge(s, olderThan);
    DoomedMaxBounds(s.changes, olderThan, s.watermark);
    KeepKeep(s.full, s.dropped, Doomed(s.changes, olderThan));
    KeepMembers(s.full, s.dropped);
    if s'.watermark != s.watermark {
      var k :| 0 <= k < |s.changes| && s.changes[k].seqNo == s'.watermark;
      assert s.changes[k] in s.full;
      MaxSeqBounds(s.full, s.changes[k]);
    }
    forall c | c in s'.cursors ensures CursorOk(s', c) { assert CursorOk(s, c); }
  }

  lemma PurgeCursorsKeepsInv(s: FeedState, now: int)
    requires FeedInv(s)
    ensures FeedInv(PurgeCursors(s, now))
  {
    var s' := PurgeCursors(s, now);
    forall c | c in s'.cursors ensures CursorOk(s', c) { assert CursorOk(s, c); }
  }

  // ---------------------------------------------------------------------
  // Runs with one distinguished follower
  // ---------------------------------------------------------------------

  /** A client that starts from the oldest retained Change and chains
      `next_cursor`; `got` is everything it has received since `start`. */
  datatype Follower = Idle | Following(start: int, got: seq<Change>, cursor: CursorId) | Lost

  datatype World = World(feed: FeedState, follower: Follower)

  datatype Event =
    | Appended(batch: seq<Change>)
    | OtherRead(from: From, limit: nat, now: int, newId: CursorId, expiresAt: int)
    | FollowerRead(limit: nat, now: int, newId: CursorId, expiresAt: int)
    | Purged(olderThan: int)
    | CursorsPurged(now: int)

  ghost predicate Enabled(w: World, e: Event) {
    match e
    case Appended(batch) => CanAppend(w.feed.full, batch)
    case OtherRead(_, _, _, newId, _) => newId !in w.feed.issued
    case FollowerRead(_, _, newId, _) => newId !in w.feed.issued
    case _ => true
  }

  function Receive(f: Follower, start: int, r: ReadResult): Follower {
    match r
    case PageOk(page) =>
      (match f
       case Idle => Following(start, page.items, page.next)
       case Following(s, got, _) => Following(s, got + page.items, page.next)
       case Lost => Lost)
    case PageErr(CursorExpired) => Lost
    case PageErr(_) => f
  }

  function WorldNext(w: World, e: Event): World {
    match e
    case Appended(batch) => w.(feed := Append(w.feed, batch))
    case OtherRead(from, limit, now, newId, expiresAt) =>
      w.(feed := Read(w.feed, from, limit, now, newId, expiresAt).0)
    case FollowerRead(limit, now, newId, expiresAt) =>
      if w.follower.Lost? then w else
      var from := if w.follower.Idle? then Oldest else At(w.follower.cursor);
      var (feed, r) := Read(w.feed, from, limit, now, newId, expiresAt);
      World(feed, Receive(w.follower, w.feed.watermark, r))
    case Purged(olderThan) => w.(feed := Purge(w.feed, olderThan))
    case CursorsPurged(now) => w.(feed := PurgeCursors(w.feed, now))
  }

  ghost predicate EmptyFeed(s: FeedState) {
    s.changes == [] && s.full == [] && s.cursors == map[] && s.watermark == 0 && s.dropped == {} && s.issued == map[]
  }

  ghost predicate IsHistory(run: seq<World>, events: seq<Event>) {
    && |run| == |events| + 1
    && EmptyFeed(run[0].feed) && run[0].follower == Idle
    && forall k :: 0 <= k < |events| ==> Enabled(run[k], events[k]) && run[k + 1] == WorldNext(run[k], events[k])
  }

  /** The follower holds exactly the committed Changes between its start and its cursor. */
  ghost predicate FollowerInv(w: World) {
    && FeedInv(w.feed)
    && (w.follower.Following? ==>
          && w.follower.cursor in w.feed.issued
          && w.follower.start <= w.feed.issued[w.follower.cursor]
          && w.follower.got == Within(w.feed.full, w.follower.start, w.feed.issued[w.follower.cursor]))
  }

  lemma WorldKeepsFeedInv(w: World, e: Event)
    requires FeedInv(w.feed) && Enabled(w, e)
    ensures FeedInv(WorldNext(w, e).feed)
  {
    match e
    case Appended(batch) => AppendKeepsInv(w.feed, batch);
    case OtherRead(from, limit, now, newId, expiresAt) => ReadKeepsInv(w.feed, from, limit, now, newId, expiresAt);
    case FollowerRead(limit, now, newId, expiresAt) =>
      if !w.follower.Lost? {
        ReadKeepsInv(w.feed, if w.follower.Idle? then Oldest else At(w.follower.cursor), limit, now, newId, expiresAt);
      }
    case Purged(olderThan) => PurgeKeepsInv(w.feed, olderThan);
    case CursorsPurged(now) => PurgeCursorsKeepsInv(w.feed, now);
  }

  /** What a successful cursor read returns, first time or again: the log's range
      from the cursor's position to the continuation's position. */
  lemma CursorReadIsRange(s: FeedState, c: CursorId, limit: nat, now: int, newId: CursorId, expiresAt: int)
    requires FeedInv(s) && newId !in s.issued && c in s.issued
    ensures var (s', r) := Read(s, At(c), limit, now, newId, expiresAt);
            r.PageOk? ==>
              && c in s.cursors && s'.full == s.full
              && r.page.next in s'.issued && s.issued[c] <= s'.issued[r.page.next]
              && r.page.items == Within(s.full, s.issued[c], s'.issued[r.page.next])
  {
    if c in s.cursors && s.cursors[c].after >= s.watermark {
      var row := s.cursors[c];
      assert CursorOk(s, c);
      if row.mark.Some? {
        KeepWithin(s.full, s.dropped, row.after, row.mark.value.pageEnd);
      } else {
        PageComplete(s, row.after, limit);
      }
    }
  }

  lemma FollowerReads(w: World, e: Event)
    requires FollowerInv(w) && Enabled(w, e) && e.FollowerRead?
    ensures FollowerInv(WorldNext(w, e))
  {
    WorldKeepsFeedInv(w, e);
    var s := w.feed;
    match w.follower
    case Lost =>
    case Idle => PageComplete(s, s.watermark, e.limit);
    case Following(start, got, cursor) =>
      CursorReadIsRange(s, cursor, e.limit, e.now, e.newId, e.expiresAt);
      var (s', r) := Read(s, At(cursor), e.limit, e.now, e.newId, e.expiresAt);
      if r.PageOk? {
        WithinSplit(s.full, start, s.issued[cursor], s'.issued[r.page.next]);
      }
  }

  lemma OthersKeepFollower(w: World, e: Event)
    requires FollowerInv(w) && Enabled(w, e) && !e.FollowerRead?
    ensures FollowerInv(WorldNext(w, e))
  {
    WorldKeepsFeedInv(w, e);
    if w.follower.Following? && e.Appended? {
      WithinIgnoresLater(w.feed.full, e.batch, w.follower.start, w.feed.issued[w.follower.cursor]);
    }
  }

  lemma {:induction false} HistoryInv(run: seq<World>, events: seq<Event>, k: nat)
    requires IsHistory(run, events) && k < |run|
    ensures FollowerInv(run[k])
    decreases k
  {
    if k > 0 {
      HistoryInv(run, events, k - 1);
      assert Enabled(run[k - 1], events[k - 1]) && run[k - 1 + 1] == WorldNext(run[k - 1], events[k - 1]);
      if events[k - 1].FollowerRead? {
        FollowerReads(run[k - 1], events[k - 1]);
      } else {
        OthersKeepFollower(run[k - 1], events[k - 1]);
      }
    }
  }

  /** In every history a follower that has not been told its cursor expired holds
      every committed Change above its start and up to its cursor, exactly once,
      in commit order and in strictly increasing change id order. */
  lemma FollowerExact(run: seq<World>, events: seq<Event>, k: nat)
    requires IsHistory(run, events) && k < |run| && run[k].follower.Following?
    ensures run[k].follower.cursor in run[k].feed.issued
    ensures var w := run[k];
            var pos := w.feed.issued[w.follower.cursor];
            && (forall c :: c in w.follower.got <==> c in w.feed.full && w.follower.start < c.seqNo <= pos)
            && Increasing(w.follower.got)
            && forall i, j :: 0 <= i < j < |w.follower.got| && w.follower.got[j].seqNo < I64_LIMIT ==>
                 LexLess(ChangeId(w.follower.got[i].seqNo), ChangeId(w.follower.got[j].seqNo))
  {
    HistoryInv(run, events, k);
    var w := run[k];
    WithinSorted(w.feed.full, w.follower.start, w.feed.issued[w.follower.cursor]);
    forall i, j | 0 <= i < j < |w.follower.got| && w.follower.got[j].seqNo < I64_LIMIT
      ensures LexLess(ChangeId(w.follower.got[i].seqNo), ChangeId(w.follower.got[j].seqNo))
    {
      ChangeIdOrder(w.follower.got[i].seqNo, w.follower.got[j].seqNo);
    }
  }

  /** Later histories extend earlier ones above every position already issued. */
  lemma HistoryGrows(run: seq<World>, events: seq<Event>, j: nat, k: nat)
    requires IsHistory(run, events) && j <= k < |run|
    ensures var a, b := run[j].feed, run[k].feed;
            && a.full <= b.full
            && (forall n :: |a.full| <= n < |b.full| ==> MaxSeq(a.full, 0) < b.full[n].seqNo)
            && (forall c :: c in a.issued ==> c in b.issued && b.issued[c] == a.issued[c])
            && a.watermark <= b.watermark
    decreases k
  {
    hide Enabled, WorldNext, EmptyFeed;
    if j < k {
      HistoryGrows(run, events, j, k - 1);
      HistoryInv(run, events, k - 1);
      assert Enabled(run[k - 1], events[k - 1]) && run[k - 1 + 1] == WorldNext(run[k - 1], events[k - 1]);
      WorldGrows(run[k - 1], events[k - 1]);
      MaxSeqOfPrefix(run[j].feed.full, run[k - 1].feed.full);
    }
  }

  lemma MaxSeqOfPrefix(a: seq<Change>, b: seq<Change>)
    requires a <= b && Increasing(b)
    ensures MaxSeq(a, 0) <= MaxSeq(b, 0)
  {
    if a != [] {
      assert b[|a| - 1] == a[|a| - 1];
      MaxSeqBounds(b, b[|a| - 1]);
    }
  }

  lemma WorldGrows(w: World, e: Event)
    requires FeedInv(w.feed) && Enabled(w, e)
    ensures var a, b := w.feed, WorldNext(w, e).feed;
            && a.full <= b.full
            && (forall n :: |a.full| <= n < |b.full| ==> MaxSeq(a.full, 0) < b.full[n].seqNo)
            && (forall c :: c in a.issued ==> c in b.issued && b.issued[c] == a.issued[c])
            && a.watermark <= b.watermark
  {
    if e.Purged? { DoomedMaxBounds(w.feed.changes, e.olderThan, w.feed.watermark); }
  }

  /** No Change ever commits behind a cursor: the range up to any position issued
      by state `j` is the same in every later state. */
  lemma NothingBehindCursor(run: seq<World>, events: seq<Event>, j: nat, k: nat, c: CursorId, from: int)
    requires IsHistory(run, events) && j <= k < |run| && c in run[j].feed.issued
    ensures var pos := run[j].feed.issued[c];
            Within(run[k].feed.full, from, pos) == Within(run[j].feed.full, from, pos)
  {
    HistoryInv(run, events, j);
    HistoryGrows(run, events, j, k);
    var a, b := run[j].feed.full, run[k].feed.full;
    assert b == a + b[|a|..];
    WithinIgnoresLater(a, b[|a|..], from, run[j].feed.issued[c]);
  }

  // ---------------------------------------------------------------------
  // Reading a materialised cursor again
  // ---------------------------------------------------------------------

  lemma MarkPersistsStep(w: World, e: Event, c: CursorId)
    requires FeedInv(w.feed) && Enabled(w, e) && c in w.feed.issued
    requires c in w.feed.cursors ==> w.feed.cursors[c].mark.Some?
    ensures c in WorldNext(w, e).feed.cursors ==>
              c in w.feed.cursors && WorldNext(w, e).feed.cursors[c] == w.feed.cursors[c]
  {
    hide Receive, BuildPage, BuildFrom, Within, Keep, Doomed, DoomedMax, MaxSeq;
  }

  lemma IssuedPersists(run: seq<World>, events: seq<Event>, j: nat, k: nat, c: CursorId)
    requires IsHistory(run, events) && j <= k < |run| && c in run[j].feed.cursors
    ensures FeedInv(run[k].feed) && c in run[k].feed.issued
  {
    HistoryInv(run, events, j);
    HistoryInv(run, events, k);
    HistoryGrows(run, events, j, k);
    assert CursorOk(run[j].feed, c);
  }

  /** A materialised cursor's row never changes again; it can only be purged. */
  lemma MarkPersists(run: seq<World>, events: seq<Event>, j: nat, k: nat, c: CursorId)
    requires IsHistory(run, events) && j <= k < |run|
    requires c in run[j].feed.cursors && run[j].feed.cursors[c].mark.Some?
    ensures c in run[k].feed.cursors ==> run[k].feed.cursors[c] == run[j].feed.cursors[c]
    decreases k
  {
    hide Enabled, WorldNext, EmptyFeed;
    if j < k {
      MarkPersists(run, events, j, k - 1, c);
      IssuedPersists(run, events, j, k - 1, c);
      assert Enabled(run[k - 1], events[k - 1]) && run[k - 1 + 1] == WorldNext(run[k - 1], events[k - 1]);
      MarkPersistsStep(run[k - 1], events[k - 1], c);
    }
  }

  /** Once a read of cursor `c` succeeded with some limit, reading it again with
      that limit, after any appends and purges, returns the same items, the same
      continuation and the same `has_more`, or reports the cursor expired. */
  lemma RereadIsStable(run: seq<World>, events: seq<Event>, j: nat, k: nat, c: CursorId, limit: nat,
                       now: int, newId: CursorId, expiresAt: int, now': int, newId': CursorId, expiresAt': int)
    requires IsHistory(run, events) && j < k < |run|
    requires events[j] == OtherRead(At(c), limit, now, newId, expiresAt)
    requires Read(run[j].feed, At(c), limit, now, newId, expiresAt).1.PageOk?
    ensures var first := Read(run[j].feed, At(c), limit, now, newId, expiresAt).1.page;
            var again := Read(run[k].feed, At(c), limit, now', newId', expiresAt').1;
            || again == PageErr(CursorExpired)
            || (&& again.PageOk? && again.page.items == first.items
                && again.page.next == first.next && again.page.hasMore == first.hasMore)
  {
    assert Enabled(run[j], events[j]) && run[j + 1] == WorldNext(run[j], events[j]);
    HistoryInv(run, events, j);
    HistoryInv(run, events, j + 1);
    HistoryInv(run, events, k);
    assert CursorOk(run[j].feed, c);
    CursorReadIsRange(run[j].feed, c, limit, now, newId, expiresAt);
    MarkPersists(run, events, j + 1, k, c);
    var s, t := run[j + 1].feed, run[k].feed;
    var row := s.cursors[c];
    var m := row.mark.value;
    assert CursorOk(s, c);
    NothingBehindCursor(run, events, j + 1, k, m.next, row.after);
    if c in t.cursors && row.after >= t.watermark {
      KeepWithin(t.full, t.dropped, row.after, m.pageEnd);
    }
  }
}
