/** The feed's tables as an object, updated in place. */
module FeedStore {
  import opened Types
  import opened Store
  import opened StoreTheorems
  import opened Feed
  import opened FeedTheorems
  import opened FeedEffects

  class ChangeStore {
    var changes: seq<Change>
    var cursors: map<CursorId, CursorRow>
    var purgedThrough: int
    ghost var full: seq<Change>
    ghost var dropped: set<int>
    ghost var issued: map<CursorId, int>

    ghost function Value(): FeedState
      reads this
    {
      FeedState(changes, cursors, purgedThrough, full, dropped, issued)
    }

    ghost predicate Valid()
      reads this
    {
      FeedInv(Value())
    }

    constructor ()
      ensures Valid() && EmptyFeed(Value())
    {
      changes, cursors, purgedThrough := [], map[], 0;
      full, dropped, issued := [], {}, map[];
    }

    method AppendChanges(batch: seq<Change>)
      requires Valid() && CanAppend(full, batch)
      modifies this
      ensures Valid() && Value() == Append(old(Value()), batch)
    {
      AppendKeepsInv(Value(), batch);
      changes := changes + batch;
      full := full + batch;
    }

    /** Stores a cursor under an id never issued before. */
    method CreateCursor(after: int, newId: CursorId, expiresAt: int)
      requires newId !in issued
      modifies this`cursors, this`issued
      ensures cursors == old(cursors)[newId := CursorRow(after, None, expiresAt)]
      ensures issued == old(issued)[newId := after]
    {
      cursors := cursors[newId := CursorRow(after, None, expiresAt)];
      issued := issued[newId := after];
    }

    method ReadChanges(from: From, limit: nat, now: int, newId: CursorId, expiresAt: int) returns (r: ReadResult)
      requires Valid() && newId !in issued
      modifies this
      ensures Valid()
      ensures (Value(), r) == Read(old(Value()), from, limit, now, newId, expiresAt)
      ensures ReadOutcome(old(Value()), Value(), from, limit, now, newId, expiresAt, r)
    {
      ReadKeepsInv(Value(), from, limit, now, newId, expiresAt);
      ReadHasOutcome(Value(), from, limit, now, newId, expiresAt);
      hide FeedInv, ReadOutcome, Within, MaxSeq, BuildPage;
      if from.Malformed? {
        return PageErr(InvalidCursor);
      }
      if from.Oldest? {
        var first := BuildPage(changes, purgedThrough, limit);
        CreateCursor(first.pageEnd, newId, expiresAt);
        return PageOk(Page(first.items, newId, first.hasMore, first.lag));
      }
      var c := from.cursor;
      if c !in cursors {
        return PageErr(CursorExpired);
      }
      var row := cursors[c];
      if row.expiresAt <= now || row.after < purgedThrough {
        return PageErr(CursorExpired);
      }
      if row.mark.Some? {
        var m := row.mark.value;
        if m.limit != limit {
          return PageErr(DifferentLimit);
        }
        var lag := |Within(changes, m.pageEnd, MaxSeq(changes, m.pageEnd))|;
        return PageOk(Page(Within(changes, row.after, m.pageEnd), m.next, m.hasMore, lag));
      }
      var built := BuildPage(changes, row.after, limit);
      CreateCursor(built.pageEnd, newId, expiresAt);
      cursors := cursors[c := row.(mark := Some(PageMark(limit, built.pageEnd, built.hasMore, newId)))];
      return PageOk(Page(built.items, newId, built.hasMore, built.lag));
    }

    method PurgeChanges(olderThan: int) returns (count: nat)
      requires Valid()
      modifies this
      ensures Valid() && Value() == Purge(old(Value()), olderThan)
      ensures PurgeOutcome(old(Value()), Value(), olderThan, count)
    {
      KeepSorted(full, dropped);
      hide Keep, Doomed, DoomedMax, PurgeOutcome;
      PurgeKeepsInv(Value(), olderThan);
      PurgeHasOutcome(Value(), olderThan);
      hide FeedInv;
      var doomed := Doomed(changes, olderThan);
      var kept := Keep(changes, doomed);
      KeepShrinks(changes, doomed);
      count := |changes| - |kept|;
      purgedThrough := DoomedMax(changes, olderThan, purgedThrough);
      changes := kept;
      dropped := dropped + doomed;
    }

    method PurgeChangeCursors(now: int) returns (count: nat)
      requires Valid()
      modifies this
      ensures Valid() && Value() == PurgeCursors(old(Value()), now)
      ensures CursorPurgeOutcome(old(Value()), Value(), now, count)
    {
      PurgeCursorsKeepsInv(Value(), now);
      CursorPurgeHasOutcome(Value(), now);
      hide FeedInv, CursorPurgeOutcome;
      var kept := map c | c in cursors && cursors[c].expiresAt > now :: cursors[c];
      FewerKeys(kept, cursors);
      count := |cursors| - |kept|;
      cursors := kept;
    }
  }

  lemma FewerKeys<K, V>(a: map<K, V>, b: map<K, V>)
    requires a.Keys <= b.Keys
    ensures |a| <= |b|
  {
    assert b.Keys == a.Keys + (b.Keys - a.Keys);
    assert |a| == |a.Keys| && |b| == |b.Keys|;
  }

  lemma {:induction false} KeepShrinks(cs: seq<Change>, dropped: set<int>)
    ensures |Keep(cs, dropped)| <= |cs|
    decreases |cs|
  {
    if cs != [] { KeepShrinks(cs[..|cs| - 1], dropped); }
  }
}
