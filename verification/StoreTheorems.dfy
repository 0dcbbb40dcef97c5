/** What every run of the store keeps, and what that means for readers of the
    log, for blobs and for uploads. */
module StoreTheorems {
  import opened Types
  import opened Tree
  import opened Store
  import opened TreeInvariants
  import opened StoreInvariants

  // ---------------------------------------------------------------------
  // Completed uploads and content records
  // ---------------------------------------------------------------------

  function CompletedFor(ups: map<UploadId, Upload>, i: Id): set<UploadId> {
    set u | u in ups && ups[u].state.Completed? && ups[u].oid == i
  }

  predicate IsContent(c: Change) {
    c.action == ContentReady || c.action == ContentReplaced
  }

  predicate IsContentRecord(c: Change, i: Id) {
    c.oid == i && IsContent(c)
  }

  function ContentRecords(log: seq<Change>, i: Id): nat {
    if log == [] then 0
    else ContentRecords(log[..|log| - 1], i) + (if IsContentRecord(log[|log| - 1], i) then 1 else 0)
  }

  /** Per object, completed uploads and content records are equally many. */
  ghost predicate CountInv(ups: map<UploadId, Upload>, log: seq<Change>) {
    forall i: Id :: |CompletedFor(ups, i)| == ContentRecords(log, i)
  }

  lemma {:induction false} NoContentAppended(log: seq<Change>, cs: seq<Change>, i: Id)
    requires forall k :: 0 <= k < |cs| ==> !IsContentRecord(cs[k], i)
    ensures ContentRecords(log + cs, i) == ContentRecords(log, i)
    decreases |cs|
  {
    if cs == [] {
      assert log + cs == log;
    } else {
      assert (log + cs)[..|log + cs| - 1] == log + cs[..|cs| - 1];
      NoContentAppended(log, cs[..|cs| - 1], i);
    }
  }

  lemma QuietKeepsCount(ups: map<UploadId, Upload>, ups': map<UploadId, Upload>, log: seq<Change>, cs: seq<Change>)
    requires CountInv(ups, log)
    requires forall i: Id :: CompletedFor(ups', i) == CompletedFor(ups, i)
    requires forall k :: 0 <= k < |cs| ==> cs[k].action != ContentReady && cs[k].action != ContentReplaced
    ensures CountInv(ups', log + cs)
  {
    forall i: Id ensures |CompletedFor(ups', i)| == ContentRecords(log + cs, i) {
      NoContentAppended(log, cs, i);
    }
  }

  lemma CommitKeepsCount(ups: map<UploadId, Upload>, u: UploadId, log: seq<Change>, c: Change)
    requires CountInv(ups, log) && u in ups && !ups[u].state.Completed?
    requires IsContentRecord(c, ups[u].oid)
    ensures CountInv(ups[u := ups[u].(state := Completed)], log + [c])
  {
    var ups' := ups[u := ups[u].(state := Completed)];
    forall i: Id ensures |CompletedFor(ups', i)| == ContentRecords(log + [c], i) {
      assert (log + [c])[..|log|] == log;
      if i == ups[u].oid {
        assert CompletedFor(ups', i) == CompletedFor(ups, i) + {u};
      } else {
        assert CompletedFor(ups', i) == CompletedFor(ups, i);
      }
    }
  }

  // ---------------------------------------------------------------------
  // The store invariant over every run
  // ---------------------------------------------------------------------

  ghost predicate Increasing(log: seq<Change>) {
    forall j, k :: 0 <= j < k < |log| ==> log[j].seqNo < log[k].seqNo
  }

  ghost predicate Inv(s: State) {
    && TreeInv(s.objects)
    && NamesInv(s.objects)
    && LogInv(s.objects, s.log)
    && BlobInv(s)
    && CountInv(s.uploads, s.log)
    && Increasing(s.log)
  }

  lemma InitialInv(s: State)
    requires Initial(s)
    ensures Inv(s)
  {
    assert AtDepth(s.objects, ROOT, 0);
    forall i: Id ensures |CompletedFor(s.uploads, i)| == ContentRecords(s.log, i) {
      assert CompletedFor(s.uploads, i) == {};
    }
  }

  lemma MergeKeepsObjects(s: State, now: int, cmd: Cmd, es: seq<Entry>, d: Delta, base: nat)
    requires Inv(s) && Accepts(s, now, cmd, es, d)
    ensures var s' := Merge(s, d, base, now);
            TreeInv(s'.objects) && NamesInv(s'.objects) && LogInv(s'.objects, s'.log)
  {
    match cmd
    case Create(_, _, _, _, _) =>
      CreateKeepsTree(s, now, cmd, es, d);
      CreateKeepsLog(s, now, cmd, es, d, base);
    case Patch(_, _, _, _, _) =>
      PatchKeepsTree(s, now, cmd, es, d);
      PatchKeepsLog(s, now, cmd, es, d, base);
    case Delete(id, _, _) =>
      var o, o' := s.objects, s.objects + d.rows;
      ListedInStore(o, id, es);
      DeleteTombstones(o, es);
      DeleteKeepsTree(o, o', id, es);
      DeleteKeepsNames(o, o', Ids(es));
      ListingHasNoRepeats(o, id, es);
      DeleteKeepsLog(o, o', s.log, es, base, now);
    case Commit(_, _, _, _, _) =>
      CommitKeepsTree(s, now, cmd, es, d);
      CommitKeepsLog(s, now, cmd, es, d, base);
  }

  lemma DeletedQueue(o: Objects, es: seq<Entry>, b: Blob)
    ensures b in DeletedBlobs(o, es) <==> exists i :: i in Ids(es) && i in o && o[i].blob == Some(b)
  {
    if i :| i in Ids(es) && i in o && o[i].blob == Some(b) {
      var k :| 0 <= k < |es| && es[k].id == i;
    }
  }

  /** The rows and the queue a delete commits. */
  lemma DeletedParts(s: State, now: int, es: seq<Entry>, base: nat)
    requires forall k :: 0 <= k < |es| ==> es[k].id in s.objects && Live(s.objects, es[k].id)
    ensures var d := DeleteDelta(s.objects, es, now);
            var s' := Merge(s, d, base, now);
            && TombstonedIn(s.objects, s'.objects, Ids(es))
            && s'.uploads == s.uploads && s'.gc == d.enqueue + s.gc
            && forall i :: i in Ids(es) ==> Live(s.objects, i)
  {
    var d := DeleteDelta(s.objects, es, now);
    DeleteTombstones(s.objects, es);
    hide DeletedBlobs, Tombstones, Stamp;
    var s' := Merge(s, d, base, now);
    assert s'.uploads == s.uploads && s'.gc == d.enqueue + s.gc;
  }

  lemma DeletedQueueExactly(o: Objects, now: int, es: seq<Entry>)
    requires forall k :: 0 <= k < |es| ==> es[k].id in o
    ensures forall b :: b in DeleteDelta(o, es, now).enqueue <==>
              exists i :: i in Ids(es) && i in o && o[i].blob == Some(b)
  {
    hide DeletedRows, Tombstones, DeletedBlobs;
    forall b: Blob
      ensures b in DeleteDelta(o, es, now).enqueue <==> exists i :: i in Ids(es) && i in o && o[i].blob == Some(b)
    {
      DeletedQueue(o, es, b);
    }
  }

  lemma DeleteMergeKeepsBlobs(s: State, now: int, id: Id, es: seq<Entry>, base: nat)
    requires BlobInv(s) && IsListing(s.objects, id, es)
    requires forall k :: 0 <= k < |es| ==> Live(s.objects, es[k].id)
    ensures BlobInv(Merge(s, DeleteDelta(s.objects, es, now), base, now))
  {
    hide BlobInv, IsListing;
    var o, d := s.objects, DeleteDelta(s.objects, es, now);
    DeletedParts(s, now, es, base);
    DeletedQueueExactly(o, now, es);
    hide DeleteDelta, DeletedBlobs, Tombstones, Ids;
    var s' := Merge(s, d, base, now);
    DeleteKeepsBlobs(s, s', Ids(es), d.enqueue);
  }

  lemma MergeKeepsBlobs(s: State, now: int, cmd: Cmd, es: seq<Entry>, d: Delta, base: nat)
    requires Inv(s) && Accepts(s, now, cmd, es, d)
    ensures BlobInv(Merge(s, d, base, now))
  {
    match cmd
    case Create(_, _, _, _, _) => CreateKeepsBlobs(s, now, cmd, es, d, base);
    case Patch(_, _, _, _, _) => PatchKeepsBlobs(s, now, cmd, es, d, base);
    case Delete(id, _, _) =>
      ListedInStore(s.objects, id, es);
      DeleteMergeKeepsBlobs(s, now, id, es, base);
    case Commit(upload, id, _, _, _) =>
      if s.uploads[upload].state.Completed? {
        NoDeltaKeepsBlobs(s, base, now);
      } else {
        CommitIsContentStep(s, now, cmd, es, d, base);
        ContentStepKeepsBlobs(s, Merge(s, d, base, now), cmd);
      }
  }

  lemma NoDeltaKeepsBlobs(s: State, base: nat, now: int)
    ensures Merge(s, NO_DELTA, base, now) == s
  {
    var s' := Merge(s, NO_DELTA, base, now);
    assert s'.objects == s.objects && s'.uploads == s.uploads && s'.gc == s.gc && s'.log == s.log;
  }

  /** Only a content commit of an uncompleted session writes an upload or a content record. */
  lemma QuietDelta(s: State, now: int, cmd: Cmd, es: seq<Entry>, d: Delta)
    requires Accepts(s, now, cmd, es, d) && (cmd.Commit? ==> s.uploads[cmd.upload].state.Completed?)
    ensures d.uploads == map[]
    ensures forall k :: 0 <= k < |d.pending| ==>
              d.pending[k].action != ContentReady && d.pending[k].action != ContentReplaced
  {
  }

  lemma MergeKeepsCount(s: State, now: int, cmd: Cmd, es: seq<Entry>, d: Delta, base: nat)
    requires CountInv(s.uploads, s.log) && Accepts(s, now, cmd, es, d)
    ensures CountInv(s.uploads + d.uploads, s.log + Stamp(d.pending, base, now))
  {
    var cs := Stamp(d.pending, base, now);
    if cmd.Commit? && !s.uploads[cmd.upload].state.Completed? {
      var u := cmd.upload;
      assert s.uploads + d.uploads == s.uploads[u := s.uploads[u].(state := Completed)];
      assert cs == [cs[0]];
      CommitKeepsCount(s.uploads, u, s.log, cs[0]);
    } else {
      QuietDelta(s, now, cmd, es, d);
      assert s.uploads + d.uploads == s.uploads;
      QuietKeepsCount(s.uploads, s.uploads, s.log, cs);
    }
  }

  /** A mutation that takes its sequence numbers above the log keeps the store invariant. */
  lemma MutationKeepsInv(s: State, s': State, now: int, cmd: Cmd, es: seq<Entry>, d: Delta, base: nat)
    requires Inv(s) && Mutates(s, s', now, cmd, es, d, base)
    ensures Inv(s')
  {
    hide Accepts, BlobInv, LogInv, TreeInv, NamesInv;
    MergeKeepsObjects(s, now, cmd, es, d, base);
    MergeKeepsBlobs(s, now, cmd, es, d, base);
    MergeKeepsCount(s, now, cmd, es, d, base);
  }

  lemma SideKeepsInv(s: State, op: SideOp)
    requires Inv(s) && SideEnabled(s, op)
    ensures Inv(SideApply(s, op))
  {
    var s' := SideApply(s, op);
    SideKeepsBlobs(s, op);
    forall i: Id ensures CompletedFor(s'.uploads, i) == CompletedFor(s.uploads, i) {
      CompletedUntouched(s, op, i);
    }
    QuietKeepsCount(s.uploads, s'.uploads, s.log, []);
    assert s.log + [] == s.log;
  }

  /** Opening, advancing, aborting and expiring sessions never complete one and
      never undo a completion. */
  lemma CompletedUntouched(s: State, op: SideOp, i: Id)
    requires SideEnabled(s, op)
    ensures CompletedFor(SideApply(s, op).uploads, i) == CompletedFor(s.uploads, i)
    ensures SideApply(s, op).objects == s.objects && SideApply(s, op).log == s.log
  {
    var s' := SideApply(s, op);
    forall u | u in s'.uploads || u in s.uploads
      ensures u in CompletedFor(s'.uploads, i) <==> u in CompletedFor(s.uploads, i)
    {
    }
  }

  ghost predicate IsRun(run: seq<State>) {
    && run != []
    && Initial(run[0])
    && forall k :: 0 <= k < |run| - 1 ==> AtomicStep(run[k], run[k + 1])
  }

  lemma StepKeepsInv(s: State, s': State)
    requires Inv(s) && AtomicStep(s, s')
    ensures Inv(s')
  {
    if s' != s {
      if now, cmd, es, d, base: nat :| Mutates(s, s', now, cmd, es, d, base) {
        MutationKeepsInv(s, s', now, cmd, es, d, base);
      } else {
        var op :| SideEnabled(s, op) && s' == SideApply(s, op);
        SideKeepsInv(s, op);
      }
    }
  }

  /** Every state of every run satisfies the store invariant. */
  lemma {:induction false} RunInv(run: seq<State>, k: nat)
    requires IsRun(run) && k < |run|
    ensures Inv(run[k])
    decreases k
  {
    if k == 0 {
      InitialInv(run[0]);
    } else {
      RunInv(run, k - 1);
      assert AtomicStep(run[k - 1], run[k - 1 + 1]);
      StepKeepsInv(run[k - 1], run[k]);
    }
  }

  // ---------------------------------------------------------------------
  // Consequences for blobs
  // ---------------------------------------------------------------------

  ghost predicate IsPending(s: State, u: UploadId) {
    u in s.uploads && PendingUpload(s.uploads[u].state)
  }

  ghost predicate IsCurrent(s: State, u: UploadId) {
    u in s.uploads && PointsAt(s.objects, s.uploads[u].oid, s.uploads[u].blob)
  }

  ghost predicate IsRetired(s: State, u: UploadId) {
    u in s.uploads && QueuedOrCollected(s, s.uploads[u].blob)
  }

  /** Each upload's blob is in exactly one class, so none leaks and none is live and queued. */
  lemma BlobClasses(s: State, u: UploadId)
    requires Inv(s) && u in s.uploads
    ensures IsPending(s, u) || IsCurrent(s, u) || IsRetired(s, u)
    ensures !(IsPending(s, u) && IsCurrent(s, u))
    ensures !(IsPending(s, u) && IsRetired(s, u))
    ensures !(IsCurrent(s, u) && IsRetired(s, u))
  {
    assert UploadOk(s, u);
    assert PointerOk(s, s.uploads[u].oid);
  }

  /** A blob is the pointer of at most one object, and never of one when the
      collector has it queued, claimed or collected. */
  lemma LiveBlobsAreSafe(s: State, b: Blob)
    requires Inv(s)
    ensures LiveBlob(s.objects, b) ==> Idle(s, b)
    ensures forall i, j :: PointsAt(s.objects, i, b) && PointsAt(s.objects, j, b) ==> i == j
  {
    forall i | PointsAt(s.objects, i, b) ensures Idle(s, b) && s.uploads[b.upload].oid == i {
      assert PointerOk(s, i);
      assert UploadOk(s, b.upload);
    }
  }

  lemma ClaimedGrows(run: seq<State>, j: nat, k: nat)
    requires IsRun(run) && j <= k < |run|
    ensures run[j].claimed <= run[k].claimed
    decreases k
  {
    hide AtomicStep, Initial;
    if j < k {
      ClaimedGrows(run, j, k - 1);
      assert AtomicStep(run[k - 1], run[k - 1 + 1]);
      StepClaims(run[k - 1], run[k]);
    }
  }

  lemma StepClaims(s: State, s': State)
    requires AtomicStep(s, s')
    ensures s.claimed <= s'.claimed
  {
    hide Accepts, SideEnabled, Stamp;
  }

  /** Once claimed, a blob is never a live object's content again. */
  lemma ClaimedNeverLive(run: seq<State>, j: nat, k: nat, b: Blob)
    requires IsRun(run) && j <= k < |run| && b in run[j].claimed
    ensures !LiveBlob(run[k].objects, b)
  {
    ClaimedGrows(run, j, k);
    RunInv(run, k);
    LiveBlobsAreSafe(run[k], b);
  }

  /** Retrying a completed upload's commit changes nothing. */
  lemma RetriedCompletionIsInert(s: State, now: int, cmd: Cmd, es: seq<Entry>, d: Delta, base: nat)
    requires cmd.Commit? && Accepts(s, now, cmd, es, d) && s.uploads[cmd.upload].state.Completed?
    ensures Merge(s, d, base, now) == s
  {
    NoDeltaKeepsBlobs(s, base, now);
  }

  // ---------------------------------------------------------------------
  // Consequences for readers of the log
  // ---------------------------------------------------------------------

  /** Two stores with the same log agree on every object's existence, revision,
      liveness and content state. */
  lemma LogDeterminesStore(s: State, t: State, i: Id)
    requires LogInv(s.objects, s.log) && LogInv(t.objects, t.log) && s.log == t.log
    ensures i in s.objects <==> i in t.objects
    ensures i in s.objects ==>
              && s.objects[i].revision == t.objects[i].revision
              && s.objects[i].deleted == t.objects[i].deleted
              && s.objects[i].blob.Some? == t.objects[i].blob.Some?
  {
    assert Describes(Fold(s.log, i), s.objects, i);
    assert Describes(Fold(t.log, i), t.objects, i);
  }

  function Rank(a: Action): nat {
    match a
    case Renamed => 1
    case Moved => 2
    case MetadataUpdated => 3
    case _ => 0
  }

  /** How one object's track can develop between two prefixes of the log. */
  ghost predicate Develops(t: Track, t': Track) {
    t.Known? ==>
      && t'.Known?
      && t.revision <= t'.revision
      && (t.ready ==> t'.ready)
      && (!t.live ==> t' == t)
      && (t'.revision == t.revision ==> t' == t || 0 < Rank(t.last) < Rank(t'.last))
  }

  lemma {:induction false} FoldDevelops(t: Track, cs: seq<Change>, i: Id)
    requires !FoldFrom(t, cs, i).Bad?
    ensures Develops(t, FoldFrom(t, cs, i))
    decreases |cs|
  {
    if cs != [] {
      FoldDevelops(t, cs[..|cs| - 1], i);
    }
  }

  lemma {:induction false} BadPersists(cs: seq<Change>, i: Id)
    ensures FoldFrom(Bad, cs, i) == Bad
    decreases |cs|
  {
    if cs != [] {
      BadPersists(cs[..|cs| - 1], i);
    }
  }

  /** The track just before and just after position `k`, which holds a record of `i`. */
  lemma FoldAround(log: seq<Change>, i: Id, k: int)
    requires 0 <= k < |log| && log[k].oid == i && !Fold(log, i).Bad?
    ensures var before := Fold(log[..k], i);
            var after := Fold(log[..k + 1], i);
            && after == Follow(before, log[k])
            && after.Known? && after.revision == log[k].revision && after.last == log[k].action
            && Fold(log, i) == FoldFrom(after, log[k + 1..], i)
  {
    var after := Fold(log[..k + 1], i);
    assert log[..k + 1][..k] == log[..k];
    assert log == log[..k + 1] + log[k + 1..];
    FoldConcat(Start(i), log[..k + 1], log[k + 1..], i);
    if after.Bad? { BadPersists(log[k + 1..], i); }
  }

  lemma TracksBetween(log: seq<Change>, i: Id, j: int, k: int)
    requires 0 <= j < k < |log| && log[j].oid == i && log[k].oid == i && !Fold(log, i).Bad?
    ensures Develops(Fold(log[..j + 1], i), Fold(log[..k], i))
  {
    var middle := log[j + 1..k];
    FoldAround(log, i, k);
    assert log[..k] == log[..j + 1] + middle;
    FoldConcat(Start(i), log[..j + 1], middle, i);
    FoldDevelops(Fold(log[..j + 1], i), middle, i);
  }

  /** The shape of one object's records: revisions never fall, a shared revision
      is renamed, moved, metadata updated in that order, creation is first, a
      tombstone is last, and the one `content_ready` precedes every replacement. */
  lemma RecordsShape(s: State, i: Id, j: int, k: int)
    requires LogInv(s.objects, s.log)
    requires 0 <= j < k < |s.log| && s.log[j].oid == i && s.log[k].oid == i
    ensures var a, b := s.log[j], s.log[k];
            && a.revision <= b.revision
            && (a.revision == b.revision ==> 0 < Rank(a.action) < Rank(b.action))
            && a.action != Deleted
            && b.action != Created
            && (b.action == ContentReady ==> a.action != ContentReady && a.action != ContentReplaced)
  {
    assert Describes(Fold(s.log, i), s.objects, i);
    FoldAround(s.log, i, j);
    FoldAround(s.log, i, k);
    TracksBetween(s.log, i, j, k);
    RecordsFromTracks(Fold(s.log[..j], i), Fold(s.log[..k], i), s.log[j], s.log[k]);
  }

  lemma RecordsFromTracks(before: Track, later: Track, a: Change, b: Change)
    requires Follow(before, a).Known? && Develops(Follow(before, a), later) && Follow(later, b).Known?
    ensures a.revision <= b.revision
    ensures a.revision == b.revision ==> 0 < Rank(a.action) < Rank(b.action)
    ensures a.action != Deleted && b.action != Created
    ensures b.action == ContentReady ==> a.action != ContentReady && a.action != ContentReplaced
  {
  }

  lemma {:induction false} ReadyHasRecord(log: seq<Change>, i: Id)
    requires Fold(log, i).Known? && Fold(log, i).ready
    ensures exists m :: 0 <= m < |log| && log[m].oid == i && log[m].action == ContentReady
    decreases |log|
  {
    var n := |log| - 1;
    var before := Fold(log[..n], i);
    if before.Known? && before.ready {
      ReadyHasRecord(log[..n], i);
    } else {
      assert log[n].oid == i && log[n].action == ContentReady;
    }
  }

  /** Every replacement comes after a `content_ready` of the same file. */
  lemma ReplacementNeedsReady(s: State, i: Id, k: int)
    requires LogInv(s.objects, s.log) && 0 <= k < |s.log|
    requires s.log[k].oid == i && s.log[k].action == ContentReplaced
    ensures exists m :: 0 <= m < k && s.log[m].oid == i && s.log[m].action == ContentReady
  {
    assert Describes(Fold(s.log, i), s.objects, i);
    FoldAround(s.log, i, k);
    ReadyHasRecord(s.log[..k], i);
    var m :| 0 <= m < k && s.log[..k][m].oid == i && s.log[..k][m].action == ContentReady;
    assert s.log[m].oid == i;
  }

  /** Records of other objects leave an object's track alone. */
  lemma SameTrack(log: seq<Change>, i: Id, j: nat, k: nat)
    requires j <= k <= |log| && forall m :: j <= m < k ==> log[m].oid != i
    ensures Fold(log[..k], i) == Fold(log[..j], i)
  {
    assert log[..k] == log[..j] + log[j..k];
    FoldConcat(Start(i), log[..j], log[j..k], i);
    FoldSkips(Fold(log[..j], i), log[j..k], i);
  }

  /** Consecutive records of one object step the revision by at most one, and a
      non-root object's first record is its creation at revision 1. */
  lemma RevisionsStepByOne(s: State, i: Id, j: int, k: int)
    requires LogInv(s.objects, s.log) && -1 <= j < k < |s.log|
    requires j >= 0 ==> s.log[j].oid == i
    requires s.log[k].oid == i && forall m :: j < m < k ==> s.log[m].oid != i
    ensures j >= 0 ==> s.log[k].revision <= s.log[j].revision + 1
    ensures j < 0 && i != ROOT ==> s.log[k].action == Created && s.log[k].revision == 1
    ensures j < 0 && i == ROOT ==> s.log[k].revision == 2
  {
    var log := s.log;
    assert Describes(Fold(log, i), s.objects, i);
    FoldAround(log, i, k);
    if j >= 0 { FoldAround(log, i, j); }
    SameTrack(log, i, j + 1, k);
  }

  // ---------------------------------------------------------------------
  // Consequences for deletes
  // ---------------------------------------------------------------------

  /** `s'` is `s` with the listed subtree of `x` tombstoned, one record per member. */
  ghost predicate SubtreeDeleted(s: State, s': State, x: Id, es: seq<Entry>) {
    && IsListing(s.objects, x, es)
    && TombstonedIn(s.objects, s'.objects, Ids(es))
    && |s'.log| == |s.log| + |es|
    && s.log <= s'.log
    && forall k :: 0 <= k < |es| ==>
         && es[k].id in s.objects
         && s'.log[|s.log| + k].oid == es[k].id
         && s'.log[|s.log| + k].revision == s.objects[es[k].id].revision + 1
         && s'.log[|s.log| + k].action == Deleted
  }

  lemma DeleteTombstonesSubtree(s: State, s': State, now: int, cmd: Cmd, es: seq<Entry>, d: Delta, base: nat)
    requires cmd.Delete? && Mutates(s, s', now, cmd, es, d, base)
    ensures SubtreeDeleted(s, s', cmd.id, es)
  {
    AcceptedDelete(s, now, cmd, es, d);
    MergedDelete(s, cmd.id, es, base, now);
  }

  lemma AcceptedDelete(s: State, now: int, cmd: Cmd, es: seq<Entry>, d: Delta)
    requires cmd.Delete? && Accepts(s, now, cmd, es, d)
    ensures IsListing(s.objects, cmd.id, es)
    ensures forall k :: 0 <= k < |es| ==> es[k].id in s.objects
    ensures d == DeleteDelta(s.objects, es, now)
  {
  }

  lemma MergedDelete(s: State, x: Id, es: seq<Entry>, base: nat, now: int)
    requires IsListing(s.objects, x, es) && forall k :: 0 <= k < |es| ==> es[k].id in s.objects
    ensures SubtreeDeleted(s, Merge(s, DeleteDelta(s.objects, es, now), base, now), x, es)
  {
    DeleteTombstones(s.objects, es);
    hide DeletedBlobs, IsListing;
  }

  lemma {:induction false} ListedIsBeneath(o: Objects, x: Id, es: seq<Entry>, i: Id)
    requires IsListing(o, x, es)
    ensures i in Ids(es) <==> Beneath(o, i, x)
  {
    if i in Ids(es) {
      var k :| 0 <= k < |es| && es[k].id == i;
      assert LivePath(o, i, x, es[k].depth);
    }
    if Beneath(o, i, x) {
      var n: nat :| LivePath(o, i, x, n);
      var k :| 0 <= k < |es| && es[k] == Entry(n, i);
      assert es[k].id in Ids(es);
    }
  }

  /** A delete removes exactly the live objects at or beneath its target. */
  lemma DeleteRemovesExactly(s: State, s': State, x: Id, es: seq<Entry>, i: Id)
    requires SubtreeDeleted(s, s', x, es) && Live(s.objects, i)
    ensures !Live(s'.objects, i) <==> Beneath(s.objects, i, x)
  {
    ListedIsBeneath(s.objects, x, es, i);
  }

  /** It writes one tombstone per member, every child before its parent. */
  lemma TombstonesChildFirst(s: State, s': State, x: Id, es: seq<Entry>, c: int, p: int)
    requires Rooted(s.objects) && SubtreeDeleted(s, s', x, es)
    requires |s.log| <= c < |s'.log| && |s.log| <= p < |s'.log|
    requires s'.log[c].oid in s.objects && s.objects[s'.log[c].oid].parent == Some(s'.log[p].oid)
    ensures s'.log[c].action == Deleted && s'.log[p].action == Deleted && c < p
    ensures s'.log[c].revision == s.objects[s'.log[c].oid].revision + 1
    ensures forall k :: |s.log| <= k < |s'.log| && k != c ==> s'.log[k].oid != s'.log[c].oid
  {
    var n := |s.log|;
    assert s'.log[n + (c - n)] == s'.log[c] && s'.log[n + (p - n)] == s'.log[p];
    ListingChildFirst(s.objects, x, es, c - n, p - n);
    ListingHasNoRepeats(s.objects, x, es);
    hide Rooted, IsListing, TombstonedIn;
    forall k | n <= k < |s'.log| && k != c ensures s'.log[k].oid != s'.log[c].oid {
      assert s'.log[n + (k - n)] == s'.log[k];
      if k < c {
        assert es[k - n].id != es[c - n].id;
      } else {
        assert es[c - n].id != es[k - n].id;
      }
    }
  }
}
