/** What each committed operation finds and leaves behind, field by field. */
module Effects {
  import opened Types
  import opened Tree
  import opened TreeInvariants
  import opened Store
  import opened StoreInvariants
  import opened StoreTheorems

  // ---------------------------------------------------------------------
  // Mutations
  // ---------------------------------------------------------------------

  /** `j` is a live object called `name` under `parent`. */
  predicate Named(o: Objects, j: Id, parent: Option<Id>, name: Text) {
    j in o && !o[j].deleted && o[j].parent == parent && o[j].name == name
  }

  /** Nothing but rows and records changed. */
  ghost predicate SessionsKept(s: State, s': State) {
    && s'.uploads == s.uploads && s'.gc == s.gc
    && s'.claimed == s.claimed && s'.collected == s.collected
  }

  /** The appended records carry the time of the mutation and consecutive numbers. */
  ghost predicate Appends(s: State, s': State, now: int, base: nat) {
    && s.log <= s'.log
    && forall m :: |s.log| <= m < |s'.log| ==> s'.log[m].at == now && s'.log[m].seqNo == base + (m - |s.log|)
  }

  ghost predicate CreateWrites(s: State, s': State, cmd: Cmd)
    requires cmd.Create?
  {
    && cmd.id !in s.objects
    && cmd.parent in s.objects && !s.objects[cmd.parent].deleted && s.objects[cmd.parent].kind == Folder
    && (forall j :: j in s.objects ==> !Named(s.objects, j, Some(cmd.parent), cmd.name))
    && s'.objects == s.objects[cmd.id := Row(1, cmd.kind, cmd.name, Some(cmd.parent), cmd.metadata, None, false)]
    && |s'.log| == |s.log| + 1
    && s'.log[|s.log|].oid == cmd.id && s'.log[|s.log|].revision == 1 && s'.log[|s.log|].action == Created
    && SessionsKept(s, s')
  }

  /** Removal wins over setting, and setting over the old value. */
  ghost predicate MetadataPatched(before: map<Text, Value>, after: map<Text, Value>, p: Option<MetadataPatch>) {
    match p
    case None => after == before
    case Some(patch) =>
      && (forall k :: k in after <==> k !in patch.remove && (k in patch.assign || k in before))
      && forall k :: k in after ==> after[k] == if k in patch.assign then patch.assign[k] else before[k]
  }

  /** A patched row: each field is the one asked for, or the old one. */
  ghost predicate RowPatched(row: Row, row': Row, cmd: Cmd)
    requires cmd.Patch?
  {
    && row'.name == (match cmd.newName case Some(name) => name case None => row.name)
    && row'.parent == (match cmd.newParent case Some(p) => Some(p) case None => row.parent)
    && MetadataPatched(row.metadata, row'.metadata, cmd.patch)
    && row'.kind == row.kind && row'.blob == row.blob && row'.deleted == row.deleted
    && row'.revision == row.revision +
         if row'.name != row.name || row'.parent != row.parent || row'.metadata != row.metadata then 1 else 0
  }

  /** The kinds of record a change from `row` to `row'` calls for. */
  predicate CallsFor(row: Row, row': Row, a: Action) {
    || (a == Renamed && row'.name != row.name)
    || (a == Moved && row'.parent != row.parent)
    || (a == MetadataUpdated && row'.metadata != row.metadata)
  }

  /** Exactly the records called for, once each, at the row's new revision. */
  ghost predicate RecordsPatched(s: State, s': State, id: Id, row: Row, row': Row) {
    && s.log <= s'.log
    && (forall m :: |s.log| <= m < |s'.log| ==>
          s'.log[m].oid == id && s'.log[m].revision == row'.revision && CallsFor(row, row', s'.log[m].action))
    && (forall a :: CallsFor(row, row', a) ==> exists m :: |s.log| <= m < |s'.log| && s'.log[m].action == a)
    && forall m, n :: |s.log| <= m < n < |s'.log| ==> s'.log[m].action != s'.log[n].action
  }

  ghost predicate PatchGuards(o: Objects, cmd: Cmd)
    requires cmd.Patch?
  {
    && cmd.id in o && !o[cmd.id].deleted
    && (cmd.ifMatch.Some? ==> o[cmd.id].revision == cmd.ifMatch.value)
    && (cmd.id == ROOT ==> cmd.newName.None? && cmd.newParent.None?)
  }

  /** A changed place in the tree is a live folder, not beneath a folder that moves
      there, and no other live object has the name in it. */
  ghost predicate PlaceGuards(o: Objects, id: Id, row: Row, row': Row) {
    && (row'.parent != row.parent ==>
          && row'.parent.Some? && row'.parent.value in o
          && !o[row'.parent.value].deleted && o[row'.parent.value].kind == Folder
          && (row.kind == Folder ==> !Under(o, row'.parent.value, id)))
    && (row' != row ==> forall j :: j in o && j != id ==> !Named(o, j, row'.parent, row'.name))
  }

  ghost predicate PatchWrites(s: State, s': State, cmd: Cmd)
    requires cmd.Patch?
  {
    && PatchGuards(s.objects, cmd)
    && s'.objects.Keys == s.objects.Keys
    && (forall i :: i in s.objects && i != cmd.id ==> s'.objects[i] == s.objects[i])
    && RowPatched(s.objects[cmd.id], s'.objects[cmd.id], cmd)
    && PlaceGuards(s.objects, cmd.id, s.objects[cmd.id], s'.objects[cmd.id])
    && RecordsPatched(s, s', cmd.id, s.objects[cmd.id], s'.objects[cmd.id])
    && SessionsKept(s, s')
  }

  /** A deleted subtree held `b` as some member's content. */
  ghost predicate Frees(o: Objects, x: Id, b: Blob) {
    exists i :: i in o && Beneath(o, i, x) && o[i].blob == Some(b)
  }

  ghost predicate RowsDeleted(o: Objects, o': Objects, x: Id) {
    && o'.Keys == o.Keys
    && forall i :: i in o ==>
         if Beneath(o, i, x)
         then o'[i] == Row(o[i].revision + 1, o[i].kind, o[i].name, o[i].parent, o[i].metadata, o[i].blob, true)
         else o'[i] == o[i]
  }

  ghost predicate RecordsDeleted(s: State, s': State, x: Id) {
    && s.log <= s'.log
    && (forall m :: |s.log| <= m < |s'.log| ==>
          && s'.log[m].action == Deleted && s'.log[m].oid in s.objects
          && Beneath(s.objects, s'.log[m].oid, x)
          && s'.log[m].revision == s.objects[s'.log[m].oid].revision + 1)
    && (forall i :: i in s.objects && Beneath(s.objects, i, x) ==>
          exists m :: |s.log| <= m < |s'.log| && s'.log[m].oid == i)
    && forall m, n :: |s.log| <= m < n < |s'.log| ==> s'.log[m].oid != s'.log[n].oid
  }

  /** Queued blobs keep their entries; each freed one is due at once. */
  ghost predicate QueueDeleted(s: State, s': State, x: Id, now: int) {
    forall b: Blob ::
      && (b in s'.gc <==> b in s.gc || Frees(s.objects, x, b))
      && (b in s'.gc ==> s'.gc[b] == if b in s.gc then s.gc[b] else GcRow(now, 0))
  }

  ghost predicate DeleteGuards(o: Objects, cmd: Cmd)
    requires cmd.Delete?
  {
    && cmd.id in o && !o[cmd.id].deleted && cmd.id != ROOT
    && (cmd.ifMatch.Some? ==> o[cmd.id].revision == cmd.ifMatch.value)
    && (!cmd.recursive ==> forall i :: i in o && !o[i].deleted ==> o[i].parent != Some(cmd.id))
  }

  ghost predicate DeleteWrites(s: State, s': State, cmd: Cmd, now: int)
    requires cmd.Delete?
  {
    && DeleteGuards(s.objects, cmd)
    && RowsDeleted(s.objects, s'.objects, cmd.id)
    && RecordsDeleted(s, s', cmd.id)
    && QueueDeleted(s, s', cmd.id, now)
    && s'.uploads == s.uploads && s'.claimed == s.claimed && s'.collected == s.collected
  }

  ghost predicate CommitGuards(s: State, cmd: Cmd)
    requires cmd.Commit?
  {
    && cmd.upload in s.uploads
    && s.uploads[cmd.upload].oid == cmd.id && s.uploads[cmd.upload].blob == cmd.blob
    && (s.uploads[cmd.upload].state in {Ready, Completing, Completed})
    && cmd.id in s.objects && !s.objects[cmd.id].deleted && s.objects[cmd.id].kind == File
    && (cmd.ifMatch.Some? ==> s.objects[cmd.id].revision == cmd.ifMatch.value)
  }

  ghost predicate ContentWrites(s: State, s': State, cmd: Cmd)
    requires cmd.Commit? && cmd.upload in s.uploads && cmd.id in s.objects
  {
    var row := s.objects[cmd.id];
    && s'.objects == s.objects[cmd.id :=
         Row(row.revision + 1, row.kind, row.name, row.parent, row.metadata, Some(cmd.blob), row.deleted)]
    && s'.uploads == s.uploads[cmd.upload := s.uploads[cmd.upload].(state := Completed)]
    && s.log <= s'.log && |s'.log| == |s.log| + 1
    && s'.log[|s.log|].oid == cmd.id && s'.log[|s.log|].revision == row.revision + 1
    && s'.log[|s.log|].action == (if row.blob.None? then ContentReady else ContentReplaced)
    && (forall b :: b in s'.gc <==> b != cmd.blob && (b in s.gc || row.blob == Some(b)))
    && (forall b :: b in s'.gc ==> s'.gc[b] == if b in s.gc then s.gc[b] else GcRow(cmd.gcNotBefore, 0))
    && s'.claimed == s.claimed && s'.collected == s.collected
  }

  ghost predicate CommitWrites(s: State, s': State, cmd: Cmd)
    requires cmd.Commit?
  {
    CommitGuards(s, cmd) && if s.uploads[cmd.upload].state == Completed then s' == s else ContentWrites(s, s', cmd)
  }

  ghost predicate Writes(s: State, s': State, cmd: Cmd, now: int) {
    match cmd
    case Create(_, _, _, _, _) => CreateWrites(s, s', cmd)
    case Patch(_, _, _, _, _) => PatchWrites(s, s', cmd)
    case Delete(_, _, _) => DeleteWrites(s, s', cmd, now)
    case Commit(_, _, _, _, _) => CommitWrites(s, s', cmd)
  }

  // ---------------------------------------------------------------------
  // Every mutation has its effect
  // ---------------------------------------------------------------------

  lemma MergeAppends(s: State, d: Delta, base: nat, now: int)
    ensures Appends(s, Merge(s, d, base, now), now, base)
  {
  }

  lemma CreateEffect(s: State, s': State, now: int, cmd: Cmd, es: seq<Entry>, d: Delta, base: nat)
    requires cmd.Create? && Mutates(s, s', now, cmd, es, d, base)
    ensures CreateWrites(s, s', cmd)
  {
    forall j | j in s.objects ensures !Named(s.objects, j, Some(cmd.parent), cmd.name) {
      assert j != cmd.id;
    }
  }

  lemma RowIsPatched(row: Row, cmd: Cmd)
    requires cmd.Patch?
    ensures RowPatched(row, if PatchIsNoOp(row, cmd) then row else PatchedRow(row, cmd), cmd)
  {
    if cmd.patch.Some? {
      var after := ApplyPatch(row.metadata, cmd.patch);
      assert forall k :: k in after <==>
               k !in cmd.patch.value.remove && (k in cmd.patch.value.assign || k in row.metadata);
    }
  }

  lemma PendingOnce(id: Id, row: Row, cmd: Cmd)
    requires cmd.Patch?
    ensures var ps, t := PatchPending(id, row, cmd), PatchedRow(row, cmd);
            && (forall k :: 0 <= k < |ps| ==>
                  ps[k].oid == id && ps[k].revision == t.revision && CallsFor(row, t, ps[k].action))
            && forall m, n :: 0 <= m < n < |ps| ==> ps[m].action != ps[n].action
  {
    hide PatchedRow;
  }

  /** Where a called-for record stands. */
  function PendingAt(row: Row, t: Row, a: Action): nat {
    var renamed := if t.name != row.name then 1 else 0;
    var moved := if t.parent != row.parent then 1 else 0;
    match a
    case Renamed => 0
    case Moved => renamed
    case _ => renamed + moved
  }

  lemma PendingCovers(id: Id, row: Row, cmd: Cmd, a: Action)
    requires cmd.Patch? && CallsFor(row, PatchedRow(row, cmd), a)
    ensures var ps, k := PatchPending(id, row, cmd), PendingAt(row, PatchedRow(row, cmd), a);
            k < |ps| && ps[k].action == a
  {
    hide PatchedRow;
  }

  lemma StampedRecord(s: State, d: Delta, base: nat, now: int, k: nat)
    requires k < |d.pending|
    ensures var log := Merge(s, d, base, now).log;
            && |log| == |s.log| + |d.pending|
            && log[|s.log| + k].oid == d.pending[k].oid
            && log[|s.log| + k].revision == d.pending[k].revision
            && log[|s.log| + k].action == d.pending[k].action
  {
  }

  lemma PatchRecords(s: State, id: Id, row: Row, cmd: Cmd, d: Delta, base: nat, now: int)
    requires cmd.Patch? && d.pending == PatchPending(id, row, cmd)
    ensures RecordsPatched(s, Merge(s, d, base, now), id, row, PatchedRow(row, cmd))
  {
    var s', t := Merge(s, d, base, now), PatchedRow(row, cmd);
    var n := |s.log|;
    assert s.log <= s'.log && |s'.log| == n + |d.pending|;
    PendingOnce(id, row, cmd);
    forall m | n <= m < |s'.log| ensures s'.log[m].oid == d.pending[m - n].oid
                                         && s'.log[m].revision == d.pending[m - n].revision
                                         && s'.log[m].action == d.pending[m - n].action {
      StampedRecord(s, d, base, now, m - n);
    }
    hide PatchedRow, PatchPending, Merge;
    forall a | CallsFor(row, t, a) ensures exists m :: n <= m < |s'.log| && s'.log[m].action == a {
      PendingCovers(id, row, cmd, a);
      assert s'.log[n + PendingAt(row, t, a)].action == a;
    }
  }

  lemma NoRecords(s: State, id: Id, row: Row)
    ensures RecordsPatched(s, s, id, row, row)
  {
  }

  lemma AcceptedPatch(s: State, now: int, cmd: Cmd, es: seq<Entry>, d: Delta)
    requires cmd.Patch? && Accepts(s, now, cmd, es, d)
    ensures PatchGuards(s.objects, cmd) && d == PatchDelta(s.objects[cmd.id], cmd)
    ensures !PatchIsNoOp(s.objects[cmd.id], cmd) ==>
              PlaceGuards(s.objects, cmd.id, s.objects[cmd.id], PatchedRow(s.objects[cmd.id], cmd))
  {
    var o, row := s.objects, s.objects[cmd.id];
    var t := PatchedRow(row, cmd);
    if t.parent.Some? {
      AncestorWalkExact(o, t.parent.value, cmd.id);
    }
    hide Under, IsSelfOrDescendant, ApplyPatch, PatchPending;
    if !PatchIsNoOp(row, cmd) {
      forall j | j in o && j != cmd.id ensures !Named(o, j, t.parent, t.name) {
      }
    }
  }

  lemma MergedPatch(s: State, cmd: Cmd, d: Delta, base: nat, now: int)
    requires cmd.Patch? && cmd.id in s.objects && d == PatchDelta(s.objects[cmd.id], cmd)
    ensures var row := s.objects[cmd.id];
            && Merge(s, d, base, now).objects ==
                 s.objects[cmd.id := if PatchIsNoOp(row, cmd) then row else PatchedRow(row, cmd)]
            && SessionsKept(s, Merge(s, d, base, now))
            && (PatchIsNoOp(row, cmd) ==> Merge(s, d, base, now) == s)
  {
    hide PatchedRow, Stamp;
    if PatchIsNoOp(s.objects[cmd.id], cmd) {
      NoDeltaKeepsBlobs(s, base, now);
    }
  }

  lemma PatchEffect(s: State, s': State, now: int, cmd: Cmd, es: seq<Entry>, d: Delta, base: nat)
    requires cmd.Patch? && Mutates(s, s', now, cmd, es, d, base)
    ensures PatchWrites(s, s', cmd)
  {
    hide Accepts, Merge, RowPatched, RecordsPatched, SessionsKept;
    AcceptedPatch(s, now, cmd, es, d);
    MergedPatch(s, cmd, d, base, now);
    var row := s.objects[cmd.id];
    RowIsPatched(row, cmd);
    if PatchIsNoOp(row, cmd) {
      NoRecords(s, cmd.id, row);
    } else {
      PatchRecords(s, cmd.id, row, cmd, d, base, now);
    }
    hide PatchedRow;
  }

  lemma AcceptedDeletion(s: State, now: int, cmd: Cmd, es: seq<Entry>, d: Delta)
    requires cmd.Delete? && Accepts(s, now, cmd, es, d)
    ensures DeleteGuards(s.objects, cmd) && IsListing(s.objects, cmd.id, es)
    ensures forall k :: 0 <= k < |es| ==> es[k].id in s.objects
    ensures d == DeleteDelta(s.objects, es, now)
  {
    AcceptedDelete(s, now, cmd, es, d);
    hide IsListing, DeleteDelta;
  }

  lemma DeletionRows(s: State, now: int, x: Id, es: seq<Entry>, base: nat)
    requires IsListing(s.objects, x, es) && forall k :: 0 <= k < |es| ==> es[k].id in s.objects
    ensures RowsDeleted(s.objects, Merge(s, DeleteDelta(s.objects, es, now), base, now).objects, x)
  {
    var o := s.objects;
    DeleteTombstones(o, es);
    forall i | i in o ensures i in Ids(es) <==> Beneath(o, i, x) {
      ListedIsBeneath(o, x, es, i);
    }
    hide IsListing, Ids, DeletedRows, DeletedBlobs, Tombstones, Beneath;
  }

  lemma DeletionRecords(s: State, s': State, x: Id, es: seq<Entry>)
    requires Rooted(s.objects) && SubtreeDeleted(s, s', x, es)
    ensures RecordsDeleted(s, s', x)
  {
    var o, n := s.objects, |s.log|;
    ListingHasNoRepeats(o, x, es);
    forall m | n <= m < |s'.log| ensures s'.log[m].oid == es[m - n].id && Beneath(o, s'.log[m].oid, x)
                                         && s'.log[m].action == Deleted && s'.log[m].oid in o
                                         && s'.log[m].revision == o[s'.log[m].oid].revision + 1 {
      assert s'.log[n + (m - n)] == s'.log[m];
      assert es[m - n].id in Ids(es);
      ListedIsBeneath(o, x, es, es[m - n].id);
    }
    forall i | i in o && Beneath(o, i, x) ensures exists m :: n <= m < |s'.log| && s'.log[m].oid == i {
      ListedIsBeneath(o, x, es, i);
      var k :| 0 <= k < |es| && es[k].id == i;
      assert s'.log[n + k].oid == i;
    }
    hide IsListing, TombstonedIn, Beneath, Ids, Rooted;
    forall m, k | n <= m < k < |s'.log| ensures s'.log[m].oid != s'.log[k].oid {
      assert es[m - n].id != es[k - n].id;
    }
  }

  lemma FreedExactly(o: Objects, x: Id, es: seq<Entry>, b: Blob)
    requires IsListing(o, x, es)
    ensures b in DeletedBlobs(o, es) <==> Frees(o, x, b)
  {
    DeletedQueue(o, es, b);
    hide IsListing, DeletedBlobs;
    forall i | i in o ensures i in Ids(es) <==> Beneath(o, i, x) {
      ListedIsBeneath(o, x, es, i);
    }
    hide Ids, Beneath;
  }

  lemma DeletionQueue(s: State, now: int, x: Id, es: seq<Entry>, base: nat)
    requires IsListing(s.objects, x, es) && forall k :: 0 <= k < |es| ==> es[k].id in s.objects
    ensures QueueDeleted(s, Merge(s, DeleteDelta(s.objects, es, now), base, now), x, now)
  {
    hide IsListing, Ids, DeletedRows, DeletedBlobs, Tombstones, Frees, Stamp;
    forall b: Blob ensures b in DeletedBlobs(s.objects, es) <==> Frees(s.objects, x, b) {
      FreedExactly(s.objects, x, es, b);
    }
  }

  lemma DeleteEffect(s: State, s': State, now: int, cmd: Cmd, es: seq<Entry>, d: Delta, base: nat)
    requires Rooted(s.objects) && cmd.Delete? && Mutates(s, s', now, cmd, es, d, base)
    ensures DeleteWrites(s, s', cmd, now)
  {
    hide Accepts, Rooted, IsListing, RowsDeleted, RecordsDeleted, QueueDeleted, DeleteGuards, SubtreeDeleted;
    AcceptedDeletion(s, now, cmd, es, d);
    DeleteTombstonesSubtree(s, s', now, cmd, es, d, base);
    DeletionRows(s, now, cmd.id, es, base);
    DeletionRecords(s, s', cmd.id, es);
    DeletionQueue(s, now, cmd.id, es, base);
    hide DeletedRows, DeletedBlobs, Tombstones, Stamp;
    assert s.uploads + d.uploads == s.uploads;
  }

  lemma CommitEffect(s: State, s': State, now: int, cmd: Cmd, es: seq<Entry>, d: Delta, base: nat)
    requires cmd.Commit? && Mutates(s, s', now, cmd, es, d, base)
    ensures CommitWrites(s, s', cmd)
  {
    if s.uploads[cmd.upload].state == Completed {
      NoDeltaKeepsBlobs(s, base, now);
    }
  }

  /** What an accepted mutation writes, and nothing else. */
  lemma MutationWrites(s: State, s': State, now: int, cmd: Cmd, es: seq<Entry>, d: Delta, base: nat)
    requires Rooted(s.objects) && Mutates(s, s', now, cmd, es, d, base)
    ensures Writes(s, s', cmd, now) && Appends(s, s', now, base)
  {
    MergeAppends(s, d, base, now);
    hide Mutates, Rooted, CreateWrites, PatchWrites, DeleteWrites, CommitWrites, Appends;
    assert s' == Merge(s, d, base, now) by { MutatesMerges(s, s', now, cmd, es, d, base); }
    match cmd
    case Create(_, _, _, _, _) => CreateEffect(s, s', now, cmd, es, d, base);
    case Patch(_, _, _, _, _) => PatchEffect(s, s', now, cmd, es, d, base);
    case Delete(_, _, _) => DeleteEffect(s, s', now, cmd, es, d, base);
    case Commit(_, _, _, _, _) => CommitEffect(s, s', now, cmd, es, d, base);
  }

  lemma MutatesMerges(s: State, s': State, now: int, cmd: Cmd, es: seq<Entry>, d: Delta, base: nat)
    requires Mutates(s, s', now, cmd, es, d, base)
    ensures s' == Merge(s, d, base, now)
  {
  }

  /** No lost update: a mutation sent with a revision takes effect only on that revision. */
  lemma MatchedRevision(s: State, s': State, now: int, cmd: Cmd, es: seq<Entry>, d: Delta, base: nat)
    requires Rooted(s.objects) && Mutates(s, s', now, cmd, es, d, base)
    requires !cmd.Create? && cmd.ifMatch.Some?
    ensures cmd.id in s.objects && s.objects[cmd.id].revision == cmd.ifMatch.value
  {
    MutationWrites(s, s', now, cmd, es, d, base);
    hide Mutates, Rooted;
  }

  // ---------------------------------------------------------------------
  // Session and queue operations
  // ---------------------------------------------------------------------

  ghost predicate Opens(s: State, s': State, u: UploadId, oid: Id, expiresAt: int) {
    && u !in s.uploads && oid in s.objects
    && s' == s.(uploads := s.uploads[u := Upload(oid, Initiating, Blob(u), expiresAt)])
  }

  /** Ready after initiating, completing after ready; each may be repeated. */
  ghost predicate Advances(s: State, s': State, u: UploadId, to: UploadState) {
    && u in s.uploads
    && ((to == Ready && s.uploads[u].state in {Initiating, Ready}) ||
        (to == Completing && s.uploads[u].state in {Ready, Completing}))
    && s' == s.(uploads := s.uploads[u := s.uploads[u].(state := to)])
  }

  ghost predicate Aborts(s: State, s': State, u: UploadId, notBefore: int) {
    && u in s.uploads && s.uploads[u].state != Completed
    && s' == s.(
         uploads := s.uploads[u := s.uploads[u].(state := Aborted)],
         gc := if s.uploads[u].blob in s.gc then s.gc
               else s.gc[s.uploads[u].blob := GcRow(notBefore, 0)])
  }

  /** A session that has not ended and whose time is up. */
  predicate IsDue(up: Upload, now: int) {
    up.state in {Initiating, Ready, Completing} && up.expiresAt <= now
  }

  predicate HeldBy(ups: map<UploadId, Upload>, us: set<UploadId>, b: Blob) {
    exists u :: u in us && u in ups && ups[u].blob == b
  }

  ghost predicate Expires(s: State, s': State, us: set<UploadId>, now: int) {
    && (forall u :: u in us ==> u in s.uploads && IsDue(s.uploads[u], now))
    && s' == s.(uploads := s'.uploads, gc := s'.gc)
    && s'.uploads.Keys == s.uploads.Keys
    && (forall u :: u in s.uploads ==>
          s'.uploads[u] == if u in us then s.uploads[u].(state := Expired) else s.uploads[u])
    && (forall b :: b in s'.gc <==> b in s.gc || HeldBy(s.uploads, us, b))
    && forall b :: b in s'.gc ==> s'.gc[b] == if b in s.gc then s.gc[b] else GcRow(now, 0)
  }

  /** A claim hides due entries of blobs no live object points at for five minutes. */
  ghost predicate Leases(s: State, s': State, bs: set<Blob>, now: int) {
    && (forall b :: b in bs ==>
          && b in s.gc && s.gc[b].notBefore <= now
          && forall i :: i in s.objects && !s.objects[i].deleted ==> s.objects[i].blob != Some(b))
    && s' == s.(gc := s'.gc, claimed := s.claimed + bs)
    && s'.gc.Keys == s.gc.Keys
    && forall b :: b in s.gc ==> s'.gc[b] == if b in bs then GcRow(now + 300, s.gc[b].attempts) else s.gc[b]
  }

  ghost predicate Finishes(s: State, s': State, b: Blob) {
    s' == s.(gc := map v | v in s.gc && v != b :: s.gc[v], collected := s.collected + {b})
  }

  ghost predicate BacksOff(s: State, s': State, b: Blob, retryAt: int) {
    b in s.gc && s' == s.(gc := s.gc[b := GcRow(retryAt, s.gc[b].attempts + 1)])
  }

  ghost predicate SideWrites(s: State, s': State, op: SideOp) {
    match op
    case OpenUpload(u, oid, expiresAt) => Opens(s, s', u, oid, expiresAt)
    case AdvanceUpload(u, to) => Advances(s, s', u, to)
    case AbortUpload(u, notBefore) => Aborts(s, s', u, notBefore)
    case ExpireUploads(us, now) => Expires(s, s', us, now)
    case ClaimGc(bs, now) => Leases(s, s', bs, now)
    case FinishGc(b) => Finishes(s, s', b)
    case FailGc(b, retryAt) => BacksOff(s, s', b, retryAt)
  }

  lemma ExpiryEffect(s: State, us: set<UploadId>, now: int)
    requires SideEnabled(s, ExpireUploads(us, now))
    ensures Expires(s, SideApply(s, ExpireUploads(us, now)), us, now)
  {
    var s' := SideApply(s, ExpireUploads(us, now));
    assert forall b :: b in ExpiredBlobs(s.uploads, us) <==> HeldBy(s.uploads, us, b);
  }

  lemma LeaseEffect(s: State, bs: set<Blob>, now: int)
    requires SideEnabled(s, ClaimGc(bs, now))
    ensures Leases(s, SideApply(s, ClaimGc(bs, now)), bs, now)
  {
    forall b, i | b in bs && i in s.objects && !s.objects[i].deleted ensures s.objects[i].blob != Some(b) {
      if s.objects[i].blob == Some(b) { assert PointsAt(s.objects, i, b); }
    }
  }

  /** What each session and queue operation finds and writes, and nothing else. */
  lemma SideOpWrites(s: State, op: SideOp)
    requires SideEnabled(s, op)
    ensures SideWrites(s, SideApply(s, op), op)
  {
    match op
    case ExpireUploads(us, now) => ExpiryEffect(s, us, now);
    case ClaimGc(bs, now) => LeaseEffect(s, bs, now);
    case _ =>
  }
}
