/** One maintenance pass: batches of expiry and collection until the backlog is
    empty or the deadline passes. */
module Maintenance {
  import opened Types
  import opened Store
  import opened MetaStore
  import opened StoreInvariants
  import opened StoreTheorems
  import Idempotency
  import Feed
  import FeedTheorems
  import FeedEffects
  import FeedStore

  /** What the blob store answers when asked to delete: an unknown backend leaves
      the lease in place, a success finishes the entry, a failure backs it off. */
  datatype BlobOutcome = NoBackend | Removed | Failed

  datatype Report = Report(
    uploadsExpired: nat,
    blobsDeleted: nat,
    blobsFailed: nat,
    idempotencyPurged: nat,
    cursorsPurged: nat,
    changesPurged: nat,
    drained: bool)

  function Pow2(n: nat): (r: nat)
    ensures r >= 1
  {
    if n == 0 then 1 else 2 * Pow2(n - 1)
  }

  /** Exponential backoff in seconds, its exponent clamped to ten. */
  function Backoff(attempts: nat): (r: nat)
    ensures 60 <= r <= 60 * 1024
  {
    assert Pow2(10) == 1024;
    Pow2Monotone(if attempts > 10 then 10 else attempts, 10);
    60 * Pow2(if attempts > 10 then 10 else attempts)
  }

  /** The delay starts at a minute and doubles with every attempt, ten times at most. */
  lemma BackoffDoubles(attempts: nat)
    ensures Backoff(0) == 60
    ensures Backoff(attempts + 1) == if attempts < 10 then 2 * Backoff(attempts) else Backoff(attempts)
    ensures attempts >= 10 ==> Backoff(attempts) == 61440
  {
    assert Pow2(10) == 1024;
  }

  lemma {:induction false} Pow2Monotone(a: nat, b: nat)
    requires a <= b
    ensures Pow2(a) <= Pow2(b)
    decreases b - a
  {
    if a < b { Pow2Monotone(a + 1, b); }
  }

  lemma DueAfterBackOff(gc: map<Blob, GcRow>, b: Blob, row: GcRow, now: int)
    requires b in gc && b !in DueEntries(gc, now) && row.notBefore > now
    ensures DueEntries(gc[b := row], now) == DueEntries(gc, now)
  {
  }

  lemma DueAfterFinish(gc: map<Blob, GcRow>, b: Blob, now: int)
    requires b !in DueEntries(gc, now)
    ensures DueEntries(gc - {b}, now) == DueEntries(gc, now)
  {
  }

  // ---------------------------------------------------------------------
  // What handling an entry does to the queue
  // ---------------------------------------------------------------------

  datatype Queue = Queue(gc: map<Blob, GcRow>, collected: set<Blob>)

  /** How an entry that was in `q` at the claim ends up in `q'`: removed and collected;
      backed off, its attempts counted; or left leased for five minutes when its
      backend is not known. */
  ghost predicate Handled(q: Queue, q': Queue, b: Blob, outcome: BlobOutcome, now: int) {
    && b in q.gc
    && match outcome
       case Removed => b in q'.collected && b !in q'.gc
       case Failed =>
         && b in q'.gc
         && q'.gc[b] == GcRow(now + Backoff(q.gc[b].attempts), q.gc[b].attempts + 1)
       case NoBackend => b in q'.gc && q'.gc[b] == GcRow(now + 300, q.gc[b].attempts)
  }

  ghost predicate AllHandled(q: Queue, q': Queue, bs: set<Blob>, outcome: Blob -> BlobOutcome, now: int) {
    forall b :: b in bs ==> Handled(q, q', b, outcome(b), now)
  }

  function Removable(bs: set<Blob>, outcome: Blob -> BlobOutcome): set<Blob> {
    set b | b in bs && outcome(b).Removed?
  }

  /** From `q` to `q'` only entries of `bs` changed, and what was collected stays so. */
  ghost predicate OnlyTouches(q: Queue, q': Queue, bs: set<Blob>) {
    && q.collected <= q'.collected
    && (forall v :: v !in bs ==> (v in q.gc <==> v in q'.gc))
    && (forall v :: v !in bs && v in q.gc ==> q'.gc[v] == q.gc[v])
  }

  lemma NothingHandled(q: Queue, outcome: Blob -> BlobOutcome, now: int)
    ensures AllHandled(q, q, {}, outcome, now) && Removable({}, outcome) == {} && OnlyTouches(q, q, {})
  {
  }

  /** Handling more entries leaves those handled before as they are, and the new ones
      are handled as they were found at the start. */
  lemma HandledJoin(q: Queue, m: Queue, q': Queue, done: set<Blob>, more: set<Blob>, outcome: Blob -> BlobOutcome,
                    now: int)
    requires AllHandled(q, m, done, outcome, now) && OnlyTouches(q, m, done)
    requires AllHandled(m, q', more, outcome, now) && OnlyTouches(m, q', more)
    requires done !! more
    ensures AllHandled(q, q', done + more, outcome, now) && OnlyTouches(q, q', done + more)
    ensures |Removable(done + more, outcome)| == |Removable(done, outcome)| + |Removable(more, outcome)|
  {
    forall b | b in done + more ensures Handled(q, q', b, outcome(b), now) {
      if b in more { assert Handled(m, q', b, outcome(b), now); }
      if b in done { assert Handled(q, m, b, outcome(b), now); }
    }
    hide Handled;
    assert Removable(done + more, outcome) == Removable(done, outcome) + Removable(more, outcome);
  }

  lemma OneHandled(q: Queue, q': Queue, b: Blob, outcome: Blob -> BlobOutcome, now: int)
    requires Handled(q, q', b, outcome(b), now)
    ensures AllHandled(q, q', {b}, outcome, now)
    ensures |Removable({b}, outcome)| == if outcome(b).Removed? then 1 else 0
  {
    assert Removable({b}, outcome) == if outcome(b).Removed? then {b} else {};
  }

  /** What was handled comes due only after `now`, so no later batch claims it again. */
  lemma HandledNotDue(q: Queue, q': Queue, done: set<Blob>, outcome: Blob -> BlobOutcome, now: int)
    requires AllHandled(q, q', done, outcome, now)
    ensures done !! DueEntries(q'.gc, now)
  {
    forall b | b in done ensures b !in DueEntries(q'.gc, now) {
      assert Handled(q, q', b, outcome(b), now);
    }
  }

  /** A claim changes nothing but the times of what it claims. */
  ghost predicate Claimed(q: Queue, m: Queue, bs: set<Blob>, now: int) {
    && m.collected == q.collected && m.gc.Keys == q.gc.Keys && bs <= q.gc.Keys
    && forall b :: b in q.gc ==> m.gc[b] == if b in bs then GcRow(now + 300, q.gc[b].attempts) else q.gc[b]
  }

  lemma HandledSinceClaim(q: Queue, m: Queue, q': Queue, bs: set<Blob>, outcome: Blob -> BlobOutcome, now: int)
    requires Claimed(q, m, bs, now) && AllHandled(m, q', bs, outcome, now) && OnlyTouches(m, q', bs)
    ensures AllHandled(q, q', bs, outcome, now) && OnlyTouches(q, q', bs)
  {
    forall b | b in bs ensures Handled(q, q', b, outcome(b), now) {
      assert Handled(m, q', b, outcome(b), now);
    }
  }

  // ---------------------------------------------------------------------
  // What expiry does to the queue
  // ---------------------------------------------------------------------

  function BlobsOfSessions(us: set<UploadId>): set<Blob> {
    set u | u in us :: Blob(u)
  }

  lemma {:induction false} AsManyBlobs(us: set<UploadId>)
    ensures |BlobsOfSessions(us)| == |us|
    decreases |us|
  {
    if us != {} {
      var u :| u in us;
      AsManyBlobs(us - {u});
      assert BlobsOfSessions(us) == BlobsOfSessions(us - {u}) + {Blob(u)};
    }
  }

  lemma DueWithQueue(ups: map<UploadId, Upload>, us: set<UploadId>, gc: map<Blob, GcRow>, now: int)
    requires ExpiredBlobs(ups, us) !! gc.Keys
    ensures DueEntries(ExpiredQueue(ups, us, now) + gc, now) == DueEntries(gc, now) + ExpiredBlobs(ups, us)
  {
    hide ExpiredBlobs;
  }

  /** A session that can still expire has a blob that is not queued. */
  lemma ExpiringIdle(s: State, us: set<UploadId>, now: int)
    requires BlobInv(s) && SideEnabled(s, ExpireUploads(us, now))
    ensures ExpiredBlobs(s.uploads, us) == BlobsOfSessions(us) && BlobsOfSessions(us) !! s.gc.Keys
  {
    ExpiredExactly(s, us);
    hide ExpiredBlobs;
    forall u | u in us ensures u in s.uploads && Blob(u) !in s.gc {
      assert UploadOk(s, u);
    }
    forall b ensures b in BlobsOfSessions(us) <==> b.upload in us {
      assert b == Blob(b.upload);
    }
  }

  /** What expiry does to the queue: entries stay, and new ones are due at once. */
  ghost predicate Grew(gc: map<Blob, GcRow>, gc': map<Blob, GcRow>, now: int) {
    && (forall b :: b in gc ==> b in gc' && gc'[b] == gc[b])
    && forall b :: b in gc' && b !in gc ==> gc'[b] == GcRow(now, 0)
  }

  /** Every expired session adds one due entry. */
  lemma ExpiryAddsDue(s: State, us: set<UploadId>, now: int)
    requires BlobInv(s) && SideEnabled(s, ExpireUploads(us, now))
    ensures |DueEntries(SideApply(s, ExpireUploads(us, now)).gc, now)| == |DueEntries(s.gc, now)| + |us|
  {
    ExpiringIdle(s, us, now);
    DueWithQueue(s.uploads, us, s.gc, now);
    AsManyBlobs(us);
    hide BlobInv, ExpiredQueue, ExpiredBlobs, BlobsOfSessions;
    assert DueEntries(s.gc, now) !! BlobsOfSessions(us);
  }

  lemma ExpiryMovesBacklog(s: State, us: set<UploadId>, now: int)
    requires Inv(s) && us <= DueUploads(s.uploads, now)
    ensures |DueUploads(s.uploads, now) - us| == |DueUploads(s.uploads, now)| - |us|
    ensures |DueEntries(SideApply(s, ExpireUploads(us, now)).gc, now)| == |DueEntries(s.gc, now)| + |us|
  {
    hide BlobInv, SideApply, DueEntries;
    ExpiryAddsDue(s, us, now);
  }

  // ---------------------------------------------------------------------
  // What the purges remove
  // ---------------------------------------------------------------------

  /** Exactly the cursors expired at `now` and the Changes older than the retention
      bound are gone from the feed, and both are counted. */
  ghost predicate FeedPurged(s: Feed.FeedState, s': Feed.FeedState, now: int, olderThan: int, cursors: int,
                             changes: int)
  {
    && (forall c :: c in s'.changes <==> c in s.changes && c.at >= olderThan)
    && Increasing(s'.changes)
    && changes == |FeedEffects.OlderThan(s.changes, olderThan)|
    && (forall c :: c in s'.cursors <==> c in s.cursors && s.cursors[c].expiresAt > now)
    && (forall c :: c in s'.cursors ==> s'.cursors[c] == s.cursors[c])
    && cursors == |FeedEffects.ExpiredCursors(s.cursors, now)|
    && s'.full == s.full
  }

  lemma BothPurged(s: Feed.FeedState, m: Feed.FeedState, s': Feed.FeedState, now: int, olderThan: int, cursors: int,
                   changes: int)
    requires FeedEffects.CursorPurgeOutcome(s, m, now, cursors)
    requires FeedEffects.PurgeOutcome(m, s', olderThan, changes)
    ensures FeedPurged(s, s', now, olderThan, cursors, changes)
  {
  }

  class MaintenanceService {
    const store: InMemoryMetaStore
    const records: Idempotency.IdempotencyStore
    const feed: FeedStore.ChangeStore
    const changesRetention: int
    const gcBatchSize: nat
    var running: bool

    constructor (store: InMemoryMetaStore, records: Idempotency.IdempotencyStore, feed: FeedStore.ChangeStore,
                 changesRetention: int, batchSize: nat)
      ensures this.store == store && this.records == records && this.feed == feed
      ensures this.changesRetention == changesRetention
      ensures gcBatchSize >= 1 && (batchSize >= 1 ==> gcBatchSize == batchSize) && !running
    {
      this.store, this.records, this.feed := store, records, feed;
      this.changesRetention := changesRetention;
      gcBatchSize := if batchSize < 1 then 1 else batchSize;
      running := false;
    }

    ghost function Queued(): Queue
      reads store
    {
      Queue(store.gc, store.collected)
    }

    method AbortExpiredUploads(now: int) returns (expired: nat)
      requires store.Valid()
      modifies store
      ensures store.Valid()
      ensures expired <= gcBatchSize
      ensures |DueUploads(store.uploads, now)| == |DueUploads(old(store.uploads), now)| - expired
      ensures |DueEntries(store.gc, now)| == |DueEntries(old(store.gc), now)| + expired
      ensures Grew(old(store.gc), store.gc, now) && store.collected == old(store.collected)
      ensures expired < gcBatchSize ==> DueUploads(store.uploads, now) == {}
    {
      hide Inv, Numbered, SideApply, DueEntries, DueUploads;
      ghost var s := store.Value();
      var us := store.ClaimExpiredUploads(now, gcBatchSize);
      expired := |us|;
      ExpiryMovesBacklog(s, us, now);
    }

    /** Handles one claimed entry according to what the blob store answered. */
    method CollectOne(b: Blob, attempts: nat, now: int, outcome: BlobOutcome) returns (deleted: bool)
      requires store.Valid() && b in store.claimed && b in store.gc && b !in DueEntries(store.gc, now)
      requires store.gc[b] == GcRow(now + 300, attempts)
      modifies store
      ensures store.Valid() && store.uploads == old(store.uploads) && store.claimed == old(store.claimed)
      ensures DueEntries(store.gc, now) == DueEntries(old(store.gc), now)
      ensures deleted <==> outcome.Removed?
      ensures Handled(old(Queued()), Queued(), b, outcome, now) && OnlyTouches(old(Queued()), Queued(), {b})
    {
      hide Inv;
      match outcome {
        case NoBackend =>
          return false;
        case Removed =>
          DueAfterFinish(store.gc, b, now);
          store.FinishCollection(b);
          return true;
        case Failed =>
          DueAfterBackOff(store.gc, b, GcRow(now + Backoff(attempts), store.gc[b].attempts + 1), now);
          store.FailCollection(b, now + Backoff(attempts));
          return false;
      }
    }

    /** Handles every entry of a claimed batch. */
    method HandleBatch(claimed: set<Blob>, now: int, outcome: Blob -> BlobOutcome) returns (deleted: nat, failed: nat)
      requires store.Valid() && claimed <= store.claimed && claimed <= store.gc.Keys
      requires DueEntries(store.gc, now) !! claimed
      requires forall b :: b in claimed ==> store.gc[b].notBefore == now + 300
      modifies store
      ensures store.Valid() && store.uploads == old(store.uploads)
      ensures DueEntries(store.gc, now) == DueEntries(old(store.gc), now)
      ensures AllHandled(old(Queued()), Queued(), claimed, outcome, now)
      ensures OnlyTouches(old(Queued()), Queued(), claimed)
      ensures deleted == |Removable(claimed, outcome)| && deleted + failed == |claimed|
    {
      hide Inv, Numbered, DueEntries, Handled, AllHandled, Removable;
      ghost var due := DueEntries(store.gc, now);
      deleted, failed := 0, 0;
      var todo := claimed;
      ghost var done: set<Blob> := {};
      NothingHandled(Queued(), outcome, now);
      while todo != {}
        invariant store.Valid() && store.uploads == old(store.uploads)
        invariant claimed <= store.claimed && done !! todo && done + todo == claimed && todo <= store.gc.Keys
        invariant DueEntries(store.gc, now) == due && due !! claimed
        invariant deleted == |Removable(done, outcome)| && deleted + failed == |done|
        invariant AllHandled(old(Queued()), Queued(), done, outcome, now)
        invariant OnlyTouches(old(Queued()), Queued(), done)
        invariant forall b :: b in todo ==> store.gc[b].notBefore == now + 300
        decreases |todo|
      {
        var b :| b in todo;
        ghost var before := Queued();
        var removed := CollectOne(b, store.gc[b].attempts, now, outcome(b));
        OneHandled(before, Queued(), b, outcome, now);
        HandledJoin(old(Queued()), before, Queued(), done, {b}, outcome, now);
        if removed { deleted := deleted + 1; } else { failed := failed + 1; }
        done := done + {b};
        todo := todo - {b};
      }
    }

    method CollectBlobs(now: int, outcome: Blob -> BlobOutcome)
      returns (deleted: nat, failed: nat, ghost batch: set<Blob>)
      requires store.Valid()
      modifies store
      ensures store.Valid() && store.uploads == old(store.uploads)
      ensures batch <= DueEntries(old(store.gc), now)
      ensures AllHandled(old(Queued()), Queued(), batch, outcome, now) && OnlyTouches(old(Queued()), Queued(), batch)
      ensures deleted == |Removable(batch, outcome)| && deleted + failed == |batch| <= gcBatchSize
      ensures |DueEntries(store.gc, now)| == |DueEntries(old(store.gc), now)| - (deleted + failed)
      ensures deleted + failed < gcBatchSize ==> DueEntries(store.gc, now) == {}
    {
      hide Inv, AllHandled, Removable;
      var claimed := store.ClaimGcBatch(now, gcBatchSize);
      batch := claimed;
      ghost var leased := Queued();
      assert Claimed(old(Queued()), leased, batch, now);
      deleted, failed := HandleBatch(claimed, now, outcome);
      HandledSinceClaim(old(Queued()), leased, Queued(), batch, outcome, now);
    }

    /** Expires due sessions batch by batch. */
    method ExpireAll(now: int, late: nat -> bool) returns (expired: nat, looks: nat, drained: bool)
      requires store.Valid() && gcBatchSize >= 1
      modifies store
      ensures store.Valid()
      ensures expired == |DueUploads(old(store.uploads), now)| - |DueUploads(store.uploads, now)|
      ensures |DueEntries(store.gc, now)| == |DueEntries(old(store.gc), now)| + expired
      ensures Grew(old(store.gc), store.gc, now) && store.collected == old(store.collected)
      ensures drained ==> DueUploads(store.uploads, now) == {}
      ensures (forall k :: !late(k)) ==> drained
    {
      hide Inv;
      expired, looks, drained := 0, 0, true;
      var more := true;
      while more
        invariant store.Valid()
        invariant expired == |DueUploads(old(store.uploads), now)| - |DueUploads(store.uploads, now)|
        invariant |DueEntries(store.gc, now)| == |DueEntries(old(store.gc), now)| + expired
        invariant Grew(old(store.gc), store.gc, now) && store.collected == old(store.collected)
        invariant !more && drained ==> DueUploads(store.uploads, now) == {}
        invariant more ==> drained
        invariant (forall k :: !late(k)) ==> drained
        decreases more, |DueUploads(store.uploads, now)|
      {
        var batch := AbortExpiredUploads(now);
        expired := expired + batch;
        if batch < gcBatchSize {
          more := false;
        } else {
          if late(looks) {
            drained := false;
            more := false;
          }
          looks := looks + 1;
        }
      }
    }

    /** Collects due blobs batch by batch; no entry is handled twice. */
    method CollectAll(now: int, looked: nat, late: nat -> bool, outcome: Blob -> BlobOutcome)
      returns (deleted: nat, failed: nat, drained: bool, ghost handled: set<Blob>)
      requires store.Valid() && gcBatchSize >= 1
      modifies store
      ensures store.Valid() && store.uploads == old(store.uploads)
      ensures AllHandled(old(Queued()), Queued(), handled, outcome, now)
      ensures OnlyTouches(old(Queued()), Queued(), handled)
      ensures deleted == |Removable(handled, outcome)| && deleted + failed == |handled|
      ensures |DueEntries(store.gc, now)| == |DueEntries(old(store.gc), now)| - (deleted + failed)
      ensures drained ==> DueEntries(store.gc, now) == {}
      ensures (forall k :: !late(k)) ==> drained
    {
      hide Inv, DueEntries, Handled, AllHandled, Removable, OnlyTouches;
      deleted, failed, drained, handled := 0, 0, true, {};
      NothingHandled(Queued(), outcome, now);
      var looks := looked;
      var more := true;
      while more
        invariant store.Valid() && store.uploads == old(store.uploads)
        invariant AllHandled(old(Queued()), Queued(), handled, outcome, now)
        invariant OnlyTouches(old(Queued()), Queued(), handled)
        invariant deleted == |Removable(handled, outcome)| && deleted + failed == |handled|
        invariant |DueEntries(store.gc, now)| == |DueEntries(old(store.gc), now)| - (deleted + failed)
        invariant !more && drained ==> DueEntries(store.gc, now) == {}
        invariant more ==> drained
        invariant (forall k :: !late(k)) ==> drained
        decreases more, |DueEntries(store.gc, now)|
      {
        ghost var before := Queued();
        HandledNotDue(old(Queued()), before, handled, outcome, now);
        var d, f, batch := CollectBlobs(now, outcome);
        HandledJoin(old(Queued()), before, Queued(), handled, batch, outcome, now);
        deleted, failed, handled := deleted + d, failed + f, handled + batch;
        if d + f < gcBatchSize {
          more := false;
        } else {
          if late(looks) {
            drained := false;
            more := false;
          }
          looks := looks + 1;
        }
      }
    }

    /** Purges expired records, expired cursors and Changes past their retention. */
    method PurgeAll(now: int) returns (purgedRecords: nat, purgedCursors: nat, purgedChanges: nat)
      requires feed.Valid()
      modifies records, feed
      ensures feed.Valid()
      ensures records.records == old(records.records) - Idempotency.ExpiredKeys(old(records.records), now)
      ensures purgedRecords == |Idempotency.ExpiredKeys(old(records.records), now)|
      ensures feed.Value() == Feed.Purge(Feed.PurgeCursors(old(feed.Value()), now), now - changesRetention)
      ensures Idempotency.PurgeOutcome(old(records.records), records.records, now, purgedRecords)
      ensures FeedPurged(old(feed.Value()), feed.Value(), now, now - changesRetention, purgedCursors, purgedChanges)
    {
      hide FeedTheorems.FeedInv, Idempotency.ExpiredKeys, Idempotency.PurgeOutcome, FeedPurged;
      hide FeedEffects.CursorPurgeOutcome, FeedEffects.PurgeOutcome, Feed.Purge, Feed.PurgeCursors;
      purgedRecords := records.Purge(now);
      ghost var before := feed.Value();
      purgedCursors := feed.PurgeChangeCursors(now);
      ghost var middle := feed.Value();
      purgedChanges := feed.PurgeChanges(now - changesRetention);
      BothPurged(before, middle, feed.Value(), now, now - changesRetention, purgedCursors, purgedChanges);
    }

    /** `late(k)` says whether the deadline has passed at the `k`-th look at the
        clock. A pass ends whatever `late` says; when it reports `drained`, nothing
        due at `now` is left, and with no deadline it always drains. Then it purges
        expired records, expired cursors and Changes past their retention. */
    method Run(now: int, late: nat -> bool, outcome: Blob -> BlobOutcome)
      returns (result: Option<Report>, ghost found: Queue, ghost handled: set<Blob>)
      requires store.Valid() && feed.Valid() && gcBatchSize >= 1
      modifies store, records, feed, this`running
      ensures store.Valid() && feed.Valid()
      ensures old(running) ==>
                && result == None && running && store.Value() == old(store.Value())
                && records.records == old(records.records) && feed.Value() == old(feed.Value())
      ensures !old(running) ==> result.Some? && !running
      ensures result.Some? && result.value.drained ==>
                DueUploads(store.uploads, now) == {} && DueEntries(store.gc, now) == {}
      ensures result.Some? && (forall k :: !late(k)) ==> result.value.drained
      ensures result.Some? ==>
                result.value.uploadsExpired == |DueUploads(old(store.uploads), now)| - |DueUploads(store.uploads, now)|
      ensures result.Some? ==>
                && Grew(old(store.gc), found.gc, now) && found.collected == old(store.collected)
                && AllHandled(found, Queued(), handled, outcome, now) && OnlyTouches(found, Queued(), handled)
                && result.value.blobsDeleted == |Removable(handled, outcome)|
                && result.value.blobsDeleted + result.value.blobsFailed == |handled|
      ensures result.Some? ==>
                |DueEntries(old(store.gc), now)| + result.value.uploadsExpired
                == |handled| + |DueEntries(store.gc, now)|
      ensures result.Some? ==>
                && records.records == old(records.records) - Idempotency.ExpiredKeys(old(records.records), now)
                && Idempotency.PurgeOutcome(old(records.records), records.records, now, result.value.idempotencyPurged)
      ensures result.Some? ==>
                && feed.Value() == Feed.Purge(Feed.PurgeCursors(old(feed.Value()), now), now - changesRetention)
                && FeedPurged(old(feed.Value()), feed.Value(), now, now - changesRetention,
                              result.value.cursorsPurged, result.value.changesPurged)
    {
      hide Inv, AllHandled, OnlyTouches, Removable, DueUploads, DueEntries;
      hide FeedTheorems.FeedInv, Feed.Purge, Feed.PurgeCursors,
           Idempotency.ExpiredKeys, Idempotency.PurgeOutcome, FeedPurged;
      found, handled := Queued(), {};
      if running {
        return None, found, handled;
      }
      running := true;
      var expired, looks, uploadsDrained := ExpireAll(now, late);
      found := Queued();
      var deleted, failed, blobsDrained, batch := CollectAll(now, looks, late, outcome);
      handled := batch;
      var purgedRecords, purgedCursors, purgedChanges := PurgeAll(now);
      running := false;
      result := Some(Report(expired, deleted, failed, purgedRecords, purgedCursors, purgedChanges,
                            uploadsDrained && blobsDrained));
    }
  }
}
