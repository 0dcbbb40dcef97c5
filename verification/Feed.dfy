/** The Changes feed: materialised cursors, the retention watermark, and what a
    follower that chains cursors receives. */
module Feed {
  import opened Types
  import opened Store
  import opened StoreTheorems

  type CursorId = nat

  datatype PageMark = PageMark(limit: nat, pageEnd: int, hasMore: bool, next: CursorId)

  /** `mark` is `Some` once the cursor has been materialised by its first read. */
  datatype CursorRow = CursorRow(after: int, mark: Option<PageMark>, expiresAt: int)

  datatype Page = Page(items: seq<Change>, next: CursorId, hasMore: bool, lag: nat)

  datatype From = Oldest | Malformed | At(cursor: CursorId)

  datatype ReadError = CursorExpired | DifferentLimit | InvalidCursor

  datatype ReadResult = PageOk(page: Page) | PageErr(error: ReadError)

  /** The tables, plus three histories: every Change ever committed, the sequence
      numbers purged, and the position of every cursor ever issued. */
  datatype FeedState = FeedState(
    changes: seq<Change>,
    cursors: map<CursorId, CursorRow>,
    watermark: int,
    full: seq<Change>,
    dropped: set<int>,
    issued: map<CursorId, int>)

  function Within(cs: seq<Change>, after: int, upTo: int): seq<Change> {
    if cs == [] then []
    else
      var c := cs[|cs| - 1];
      var rest := Within(cs[..|cs| - 1], after, upTo);
      if after < c.seqNo <= upTo then rest + [c] else rest
  }

  function Keep(cs: seq<Change>, dropped: set<int>): seq<Change> {
    if cs == [] then []
    else
      var c := cs[|cs| - 1];
      var rest := Keep(cs[..|cs| - 1], dropped);
      if c.seqNo in dropped then rest else rest + [c]
  }

  /** `COALESCE(MAX(seq), after)`, raised to `after`; rows are kept in sequence order. */
  function MaxSeq(cs: seq<Change>, after: int): int {
    if cs == [] || cs[|cs| - 1].seqNo <= after then after else cs[|cs| - 1].seqNo
  }

  function Take(cs: seq<Change>, limit: nat): seq<Change> {
    if |cs| <= limit then cs else cs[..limit]
  }

  function PageEnd(items: seq<Change>, after: int): int {
    if items == [] then after else items[|items| - 1].seqNo
  }

  datatype Built = Built(items: seq<Change>, pageEnd: int, hasMore: bool, lag: nat)

  /** `rows` may be read by a later statement than the snapshot maximum `snap`. */
  function BuildFrom(rows: seq<Change>, snap: int, after: int, limit: nat): Built {
    var items := Take(Within(rows, after, snap), limit);
    var pageEnd := PageEnd(items, after);
    Built(items, pageEnd, Within(rows, pageEnd, snap) != [], |Within(rows, pageEnd, MaxSeq(rows, pageEnd))|)
  }

  function BuildPage(rows: seq<Change>, after: int, limit: nat): Built {
    BuildFrom(rows, MaxSeq(rows, after), after, limit)
  }

  function IssuePage(s: FeedState, b: Built, newId: CursorId, expiresAt: int): FeedState {
    s.(cursors := s.cursors[newId := CursorRow(b.pageEnd, None, expiresAt)],
       issued := s.issued[newId := b.pageEnd])
  }

  /** One `read_changes` transaction; `newId` is the id generated for its continuation cursor. */
  function Read(s: FeedState, from: From, limit: nat, now: int, newId: CursorId, expiresAt: int)
    : (FeedState, ReadResult)
  {
    match from
    case Malformed => (s, PageErr(InvalidCursor))
    case Oldest =>
      var b := BuildPage(s.changes, s.watermark, limit);
      (IssuePage(s, b, newId, expiresAt), PageOk(Page(b.items, newId, b.hasMore, b.lag)))
    case At(c) =>
      if c !in s.cursors then (s, PageErr(CursorExpired)) else
      var row := s.cursors[c];
      if row.expiresAt <= now || row.after < s.watermark then (s, PageErr(CursorExpired)) else
      match row.mark
      case Some(m) =>
        if m.limit != limit then (s, PageErr(DifferentLimit))
        else
          (s, PageOk(Page(Within(s.changes, row.after, m.pageEnd), m.next, m.hasMore,
                          |Within(s.changes, m.pageEnd, MaxSeq(s.changes, m.pageEnd))|)))
      case None =>
        var b := BuildPage(s.changes, row.after, limit);
        var s' := IssuePage(s, b, newId, expiresAt);
        (s'.(cursors := s'.cursors[c := row.(mark := Some(PageMark(limit, b.pageEnd, b.hasMore, newId)))]),
         PageOk(Page(b.items, newId, b.hasMore, b.lag)))
  }

  function Append(s: FeedState, batch: seq<Change>): FeedState {
    s.(changes := s.changes + batch, full := s.full + batch)
  }

  function Doomed(cs: seq<Change>, olderThan: int): set<int> {
    set k | 0 <= k < |cs| && cs[k].at < olderThan :: cs[k].seqNo
  }

  /** The greatest purged sequence number; purging by time need not remove a prefix. */
  function DoomedMax(cs: seq<Change>, olderThan: int, watermark: int): int {
    if cs == [] then watermark
    else
      var c := cs[|cs| - 1];
      var m := DoomedMax(cs[..|cs| - 1], olderThan, watermark);
      if c.at < olderThan && m < c.seqNo then c.seqNo else m
  }

  function Purge(s: FeedState, olderThan: int): FeedState {
    var doomed := Doomed(s.changes, olderThan);
    s.(changes := Keep(s.changes, doomed),
       dropped := s.dropped + doomed,
       watermark := DoomedMax(s.changes, olderThan, s.watermark))
  }

  function PurgeCursors(s: FeedState, now: int): FeedState {
    s.(cursors := map c | c in s.cursors && s.cursors[c].expiresAt > now :: s.cursors[c])
  }

  // ---------------------------------------------------------------------
  // Filtering facts
  // ---------------------------------------------------------------------

  lemma {:induction false} KeepWithin(cs: seq<Change>, dropped: set<int>, after: int, upTo: int)
    requires forall d :: d in dropped ==> d <= after
    ensures Within(Keep(cs, dropped), after, upTo) == Within(cs, after, upTo)
    decreases |cs|
  {
    if cs != [] {
      var n := |cs| - 1;
      KeepWithin(cs[..n], dropped, after, upTo);
      if cs[n].seqNo !in dropped {
        var kept := Keep(cs[..n], dropped) + [cs[n]];
        assert kept[..|kept| - 1] == Keep(cs[..n], dropped);
      }
    }
  }

  lemma {:induction false} KeepKeep(cs: seq<Change>, a: set<int>, b: set<int>)
    ensures Keep(Keep(cs, a), b) == Keep(cs, a + b)
    decreases |cs|
  {
    if cs != [] {
      var n := |cs| - 1;
      KeepKeep(cs[..n], a, b);
      if cs[n].seqNo !in a {
        var kept := Keep(cs[..n], a) + [cs[n]];
        assert kept[..|kept| - 1] == Keep(cs[..n], a);
      }
    }
  }

  lemma {:induction false} KeepConcat(cs: seq<Change>, batch: seq<Change>, dropped: set<int>)
    requires forall k :: 0 <= k < |batch| ==> batch[k].seqNo !in dropped
    ensures Keep(cs + batch, dropped) == Keep(cs, dropped) + batch
    decreases |batch|
  {
    if batch == [] {
      assert cs + batch == cs && Keep(cs, dropped) + batch == Keep(cs, dropped);
    } else {
      var n := |batch| - 1;
      assert (cs + batch)[..|cs + batch| - 1] == cs + batch[..n];
      KeepConcat(cs, batch[..n], dropped);
      assert batch == batch[..n] + [batch[n]];
    }
  }

  lemma {:induction false} KeepMembers(cs: seq<Change>, dropped: set<int>)
    ensures forall c :: c in Keep(cs, dropped) <==> c in cs && c.seqNo !in dropped
    decreases |cs|
  {
    if cs != [] {
      var n := |cs| - 1;
      KeepMembers(cs[..n], dropped);
      assert cs == cs[..n] + [cs[n]];
    }
  }

  lemma {:induction false} KeepSorted(cs: seq<Change>, dropped: set<int>)
    requires Increasing(cs)
    ensures Increasing(Keep(cs, dropped))
    decreases |cs|
  {
    if cs != [] {
      var n := |cs| - 1;
      KeepSorted(cs[..n], dropped);
      KeepMembers(cs[..n], dropped);
      var rest := Keep(cs[..n], dropped);
      forall k | 0 <= k < |rest| ensures rest[k].seqNo < cs[n].seqNo {
        assert rest[k] in cs[..n];
      }
    }
  }

  /** Later Changes do not enter a range that ends below them. */
  lemma {:induction false} WithinIgnoresLater(cs: seq<Change>, batch: seq<Change>, after: int, upTo: int)
    requires forall k :: 0 <= k < |batch| ==> upTo < batch[k].seqNo
    ensures Within(cs + batch, after, upTo) == Within(cs, after, upTo)
    decreases |batch|
  {
    if batch == [] {
      assert cs + batch == cs;
    } else {
      var n := |batch| - 1;
      assert (cs + batch)[..|cs + batch| - 1] == cs + batch[..n];
      WithinIgnoresLater(cs, batch[..n], after, upTo);
    }
  }

  lemma {:induction false} WithinEmpty(cs: seq<Change>, after: int, upTo: int)
    requires Increasing(cs) && (upTo <= after || cs == [] || cs[|cs| - 1].seqNo <= after)
    ensures Within(cs, after, upTo) == []
    decreases |cs|
  {
    if cs != [] {
      WithinEmpty(cs[..|cs| - 1], after, upTo);
    }
  }

  /** Adjacent ranges concatenate. */
  lemma {:induction false} WithinSplit(cs: seq<Change>, a: int, m: int, b: int)
    requires Increasing(cs) && a <= m <= b
    ensures Within(cs, a, m) + Within(cs, m, b) == Within(cs, a, b)
    decreases |cs|
  {
    if cs != [] {
      var n := |cs| - 1;
      var c := cs[n];
      WithinSplit(cs[..n], a, m, b);
      if a < c.seqNo <= m {
        WithinEmpty(cs[..n], m, b);
      }
    }
  }

  lemma {:induction false} WithinMembers(cs: seq<Change>, a: int, b: int)
    ensures forall c :: c in Within(cs, a, b) <==> c in cs && a < c.seqNo <= b
    decreases |cs|
  {
    if cs != [] {
      var n := |cs| - 1;
      WithinMembers(cs[..n], a, b);
      assert cs == cs[..n] + [cs[n]];
    }
  }

  lemma {:induction false} WithinIncreasing(cs: seq<Change>, a: int, b: int)
    requires Increasing(cs)
    ensures Increasing(Within(cs, a, b))
    decreases |cs|
  {
    if cs != [] {
      var n := |cs| - 1;
      WithinIncreasing(cs[..n], a, b);
      WithinMembers(cs[..n], a, b);
      var rest := Within(cs[..n], a, b);
      forall k | 0 <= k < |rest| ensures rest[k].seqNo < cs[n].seqNo {
        assert rest[k] in cs[..n];
      }
    }
  }

  lemma WithinSorted(cs: seq<Change>, a: int, b: int)
    requires Increasing(cs)
    ensures Increasing(Within(cs, a, b))
    ensures forall c :: c in Within(cs, a, b) <==> c in cs && a < c.seqNo <= b
  {
    WithinIncreasing(cs, a, b);
    WithinMembers(cs, a, b);
  }

  /** A page of at most `limit` rows is the range up to its own last row. */
  lemma {:induction false} PageIsRange(cs: seq<Change>, after: int, upTo: int, limit: nat)
    requires Increasing(cs)
    ensures var items := Take(Within(cs, after, upTo), limit);
            && items == Within(cs, after, PageEnd(items, after))
            && after <= PageEnd(items, after)
            && (items != [] ==> PageEnd(items, after) <= upTo)
    decreases |cs|
  {
    var all := Within(cs, after, upTo);
    var items := Take(all, limit);
    WithinSorted(cs, after, upTo);
    if items == [] {
      WithinEmpty(cs, after, after);
    } else {
      var e := PageEnd(items, after);
      assert items[|items| - 1] in all;
      WithinSplit(cs, after, e, upTo);
      WithinSorted(cs, after, e);
      WithinSorted(cs, e, upTo);
      SplitPoint(Within(cs, after, e), Within(cs, e, upTo), e, |items|);
    }
  }

  lemma ElementSide(low: seq<Change>, high: seq<Change>, k: int)
    requires 0 <= k < |low + high|
    ensures k < |low| ==> (low + high)[k] in low
    ensures k >= |low| ==> (low + high)[k] in high
  {
  }

  /** In a sorted sequence the elements up to `e` are the prefix ending at `e`. */
  lemma SplitPoint(low: seq<Change>, high: seq<Change>, e: int, n: nat)
    requires Increasing(low + high) && 0 < n <= |low + high| && (low + high)[n - 1].seqNo == e
    requires forall c :: c in low ==> c.seqNo <= e
    requires forall c :: c in high ==> e < c.seqNo
    ensures low == (low + high)[..n]
  {
    ElementSide(low, high, n - 1);
    if n < |low + high| {
      ElementSide(low, high, n);
      assert (low + high)[n - 1].seqNo < (low + high)[n].seqNo;
    }
  }
}
