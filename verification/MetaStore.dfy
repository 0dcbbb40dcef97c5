/** The in-memory store object: every operation one step under a lock, committing
    all of its effects or none, and each proved to be the atomic operation. */
module MetaStore {
  import opened Types
  import opened Tree
  import opened TreeInvariants
  import opened Store
  import opened StoreTheorems
  import opened Worklist
  import opened Effects

  ghost predicate Numbered(log: seq<Change>) {
    forall k :: 0 <= k < |log| ==> log[k].seqNo == k + 1
  }

  /** `s'` is the outcome of `cmd` on `s`, with the Changes `cs` it appended. */
  ghost predicate Performed(s: State, s': State, now: int, cmd: Cmd, es: seq<Entry>, cs: seq<Change>) {
    exists d :: Mutates(s, s', now, cmd, es, d, |s.log| + 1) && cs == Stamp(d.pending, |s.log| + 1, now)
  }

  lemma PerformedKeepsValid(s: State, s': State, now: int, cmd: Cmd, es: seq<Entry>, d: Delta)
    requires Inv(s) && Numbered(s.log) && Accepts(s, now, cmd, es, d) && s' == Merge(s, d, |s.log| + 1, now)
    ensures Inv(s') && Numbered(s'.log)
    ensures Performed(s, s', now, cmd, es, Stamp(d.pending, |s.log| + 1, now))
    ensures Writes(s, s', cmd, now) && Appended(s, s', now, Stamp(d.pending, |s.log| + 1, now))
  {
    hide Inv, Accepts, Writes, Appended;
    MutationKeepsInv(s, s', now, cmd, es, d, |s.log| + 1);
    PerformedWrites(s, s', now, cmd, es, d);
  }

  lemma PerformedWrites(s: State, s': State, now: int, cmd: Cmd, es: seq<Entry>, d: Delta)
    requires Inv(s) && Mutates(s, s', now, cmd, es, d, |s.log| + 1)
    ensures Writes(s, s', cmd, now) && Appended(s, s', now, Stamp(d.pending, |s.log| + 1, now))
  {
    hide Inv, Mutates, Writes, Appends, Appended, Rooted;
    InvRooted(s);
    MutationWrites(s, s', now, cmd, es, d, |s.log| + 1);
    MutatesMerges(s, s', now, cmd, es, d, |s.log| + 1);
    StampAppended(s, d, now);
  }

  lemma InvRooted(s: State)
    requires Inv(s)
    ensures Rooted(s.objects)
  {
  }

  lemma StampAppended(s: State, d: Delta, now: int)
    ensures Appended(s, Merge(s, d, |s.log| + 1, now), now, Stamp(d.pending, |s.log| + 1, now))
  {
  }

  lemma PerformedDeletes(s: State, s': State, now: int, cmd: Cmd, es: seq<Entry>, cs: seq<Change>)
    requires Inv(s) && cmd.Delete? && Performed(s, s', now, cmd, es, cs)
    ensures DeleteWrites(s, s', cmd, now) && Appended(s, s', now, cs)
  {
    hide Inv, Mutates, DeleteWrites, Appended;
    var d :| Mutates(s, s', now, cmd, es, d, |s.log| + 1) && cs == Stamp(d.pending, |s.log| + 1, now);
    PerformedWrites(s, s', now, cmd, es, d);
  }

  /** The target is live at another revision than the one the caller expects. */
  predicate Stale(o: Objects, i: Id, ifMatch: Option<nat>) {
    i in o && !o[i].deleted && ifMatch.Some? && ifMatch.value != o[i].revision
  }

  /** `cs` is what the log gained, numbered by position and stamped with the time. */
  ghost predicate Appended(s: State, s': State, now: int, cs: seq<Change>) {
    && s'.log == s.log + cs
    && forall k :: 0 <= k < |cs| ==> cs[k].seqNo == |s.log| + k + 1 && cs[k].at == now
  }

  function Enqueued(gc: map<Blob, GcRow>, bs: seq<Blob>, now: int): map<Blob, GcRow> {
    (map b | b in bs :: GcRow(now, 0)) + gc
  }

  lemma EnqueueOne(gc: map<Blob, GcRow>, bs: seq<Blob>, k: nat, now: int)
    requires k < |bs|
    ensures Enqueued(gc, bs[..k + 1], now) ==
            if bs[k] in Enqueued(gc, bs[..k], now) then Enqueued(gc, bs[..k], now)
            else Enqueued(gc, bs[..k], now)[bs[k] := GcRow(now, 0)]
  {
    assert bs[..k + 1] == bs[..k] + [bs[k]];
  }

  lemma {:induction false} DeletedPrefix(o: Objects, es: seq<Entry>, k: nat)
    requires k < |es| && es[k].id in o
    ensures Ids(es[..k + 1]) == Ids(es[..k]) + {es[k].id}
    ensures DeletedRows(o, es[..k + 1]) == DeletedRows(o, es[..k])[es[k].id := Tombstoned(o[es[k].id])]
    ensures es[..k + 1] == es[..k] + [es[k]] && es[..k + 1][..k] == es[..k]
  {
    assert es[..k + 1][k] == es[k];
    forall i ensures i in Ids(es[..k + 1]) <==> i in Ids(es[..k]) || i == es[k].id {
      if i in Ids(es[..k]) {
        var j :| 0 <= j < k && es[..k][j].id == i;
        assert es[..k + 1][j].id == i;
      }
    }
  }

  function BlobOf(row: Row): seq<Blob> {
    if row.blob.Some? then [row.blob.value] else []
  }

  /** The blobs of the listed rows, in listing order. */
  function BlobsOf(o: Objects, es: seq<Entry>): seq<Blob>
    requires forall k :: 0 <= k < |es| ==> es[k].id in o
  {
    if es == [] then [] else BlobsOf(o, es[..|es| - 1]) + BlobOf(o[es[|es| - 1].id])
  }

  lemma {:induction false} BlobsAreDeletedBlobs(o: Objects, es: seq<Entry>)
    requires forall k :: 0 <= k < |es| ==> es[k].id in o
    ensures forall b :: b in BlobsOf(o, es) <==> b in DeletedBlobs(o, es)
    decreases |es|
  {
    if es != [] {
      var n := |es| - 1;
      BlobsAreDeletedBlobs(o, es[..n]);
      assert es == es[..n] + [es[n]];
      forall b ensures b in DeletedBlobs(o, es) <==> b in DeletedBlobs(o, es[..n]) || o[es[n].id].blob == Some(b) {
        if b in DeletedBlobs(o, es[..n]) {
          var k :| 0 <= k < n && o[es[..n][k].id].blob == Some(b);
          assert o[es[k].id].blob == Some(b);
        }
      }
    }
  }

  lemma NotYetDeleted(o: Objects, es: seq<Entry>, k: nat)
    requires k < |es| && es[k].id in o
    requires forall j, m :: 0 <= j < m < |es| ==> es[j].id != es[m].id
    ensures es[k].id !in Ids(es[..k])
    ensures (o + DeletedRows(o, es[..k]))[es[k].id] == o[es[k].id]
  {
  }

  lemma TombstoneRows(o: Objects, es: seq<Entry>, k: nat)
    requires k < |es| && es[k].id in o
    requires forall j, m :: 0 <= j < m < |es| ==> es[j].id != es[m].id
    ensures var id := es[k].id;
            && id in o + DeletedRows(o, es[..k]) && (o + DeletedRows(o, es[..k]))[id] == o[id]
            && (o + DeletedRows(o, es[..k]))[id := Tombstoned(o[id])] == o + DeletedRows(o, es[..k + 1])
  {
    var id := es[k].id;
    NotYetDeleted(o, es, k);
    DeletedPrefix(o, es, k);
    var d := DeletedRows(o, es[..k]);
    assert (o + d)[id := Tombstoned(o[id])] == o + d[id := Tombstoned(o[id])];
  }

  /** A patch, map by map. */
  lemma PatchedMaps(o: Objects, ups: map<UploadId, Upload>, gc: map<Blob, GcRow>, row: Row, cmd: Cmd)
    requires cmd.Patch? && !PatchIsNoOp(row, cmd)
    ensures o + PatchDelta(row, cmd).rows == o[cmd.id := PatchedRow(row, cmd)]
    ensures ups + PatchDelta(row, cmd).uploads == ups
    ensures (PatchDelta(row, cmd).enqueue + gc) - PatchDelta(row, cmd).dequeue == gc
  {
    hide PatchedRow;
  }

  /** A content swap, map by map. */
  lemma SwappedMaps(o: Objects, ups: map<UploadId, Upload>, gc: map<Blob, GcRow>, upload: Upload, row: Row, cmd: Cmd)
    requires cmd.Commit? && !upload.state.Completed?
    ensures var d := CommitDelta(upload, row, cmd);
            var queued := if row.blob.Some? && row.blob.value != cmd.blob && row.blob.value !in gc
                          then gc[row.blob.value := GcRow(cmd.gcNotBefore, 0)] else gc;
            && o + d.rows == o[cmd.id := CommittedRow(row, cmd)]
            && ups + d.uploads == ups[cmd.upload := upload.(state := Completed)]
            && (d.enqueue + gc) - d.dequeue == queued - {cmd.blob}
  {
  }

  lemma NothingTombstoned(o: Objects, es: seq<Entry>)
    ensures es[..0] == [] && o + DeletedRows(o, []) == o && Tombstones(o, []) == [] && BlobsOf(o, []) == []
  {
  }

  /** One pass of the delete loop, on the records and blobs it gathers. */
  lemma TombstoneStep(o: Objects, es: seq<Entry>, k: nat)
    requires k < |es| && forall j :: 0 <= j < |es| ==> es[j].id in o
    ensures Tombstones(o, es[..k + 1]) ==
            Tombstones(o, es[..k]) + [Pending(es[k].id, o[es[k].id].revision + 1, Deleted)]
    ensures BlobsOf(o, es[..k + 1]) == BlobsOf(o, es[..k]) + BlobOf(o[es[k].id])
  {
    assert es[..k + 1][..k] == es[..k];
  }

  lemma EnqueuedIsDelta(o: Objects, es: seq<Entry>, gc: map<Blob, GcRow>, now: int)
    requires forall k :: 0 <= k < |es| ==> es[k].id in o
    ensures Enqueued(gc, BlobsOf(o, es), now) == (DeleteDelta(o, es, now).enqueue + gc) - {}
  {
    BlobsAreDeletedBlobs(o, es);
    var gathered := map b | b in BlobsOf(o, es) :: GcRow(now, 0);
    var listed := map b | b in DeletedBlobs(o, es) :: GcRow(now, 0);
    assert gathered == listed;
    assert (listed + gc) - {} == listed + gc;
  }

  /** A listed subtree is ready to be removed, and removing it is what the delete accepts. */
  lemma TargetsReady(s: State, now: int, cmd: Cmd, es: seq<Entry>)
    requires TreeInv(s.objects) && cmd.Delete? && cmd.id in s.objects && DeleteRowOk(s.objects[cmd.id], cmd)
    requires IsListing(s.objects, cmd.id, es) && (!cmd.recursive ==> NoLiveChildren(s.objects, cmd.id))
    ensures forall k :: 0 <= k < |es| ==> es[k].id in s.objects && !s.objects[es[k].id].deleted
    ensures forall j, k :: 0 <= j < k < |es| ==> es[j].id != es[k].id
    ensures Accepts(s, now, cmd, es, DeleteDelta(s.objects, es, now))
  {
    ListedInStore(s.objects, cmd.id, es);
    ListingHasNoRepeats(s.objects, cmd.id, es);
    forall k | 0 <= k < |es| ensures es[k].id in s.objects && !s.objects[es[k].id].deleted {
      assert Live(s.objects, es[k].id);
    }
  }

  lemma DeletePerformed(s: State, s': State, now: int, cmd: Cmd, es: seq<Entry>, cs: seq<Change>)
    requires Inv(s) && Numbered(s.log)
    requires cmd.Delete? && cmd.id in s.objects && DeleteRowOk(s.objects[cmd.id], cmd)
    requires IsListing(s.objects, cmd.id, es) && (!cmd.recursive ==> NoLiveChildren(s.objects, cmd.id))
    requires forall k :: 0 <= k < |es| ==> es[k].id in s.objects
    requires s' == Merge(s, DeleteDelta(s.objects, es, now), |s.log| + 1, now)
    requires cs == Stamp(Tombstones(s.objects, es), |s.log| + 1, now)
    ensures Inv(s') && Numbered(s'.log) && Performed(s, s', now, cmd, es, cs)
  {
    TargetsReady(s, now, cmd, es);
    PerformedKeepsValid(s, s', now, cmd, es, DeleteDelta(s.objects, es, now));
  }

  class InMemoryMetaStore {
    var objects: Objects
    var uploads: map<UploadId, Upload>
    var gc: map<Blob, GcRow>
    var changes: seq<Change>
    ghost var claimed: set<Blob>
    ghost var collected: set<Blob>

    ghost function Value(): State
      reads this
    {
      State(objects, uploads, gc, changes, claimed, collected)
    }

    ghost predicate Valid()
      reads this
    {
      Inv(Value()) && Numbered(changes)
    }

    constructor ()
      ensures Valid() && Initial(Value())
    {
      objects := map[ROOT := Row(1, Folder, [], None, map[], None, false)];
      uploads, gc, changes, claimed, collected := map[], map[], [], {}, {};
      new;
      InitialInv(Value());
    }

    /** Appends stamped records; sequence numbers are positions. */
    method AppendChanges(pending: seq<Pending>, now: int) returns (cs: seq<Change>)
      modifies this`changes
      ensures cs == Stamp(pending, |old(changes)| + 1, now)
      ensures changes == old(changes) + cs
    {
      cs := [];
      var k := 0;
      while k < |pending|
        invariant 0 <= k <= |pending| && |cs| == k
        invariant changes == old(changes) + cs
        invariant forall j :: 0 <= j < k ==> cs[j] == Stamp(pending, |old(changes)| + 1, now)[j]
      {
        var record := Change(|changes| + 1, pending[k].oid, pending[k].revision, pending[k].action, now);
        changes := changes + [record];
        cs := cs + [record];
        k := k + 1;
      }
    }

    /** Inserts the new row with its creation record. */
    method InsertObject(cmd: Cmd, now: int) returns (cs: seq<Change>)
      requires cmd.Create?
      modifies this
      ensures Value() == Merge(old(Value()), CreateDelta(cmd), |old(changes)| + 1, now)
      ensures cs == Stamp(CreateDelta(cmd).pending, |old(changes)| + 1, now)
    {
      objects := objects[cmd.id := NewRow(cmd)];
      cs := AppendChanges([Pending(cmd.id, 1, Created)], now);
      assert objects == old(objects) + CreateDelta(cmd).rows;
      assert uploads == old(uploads) + map[] && gc == (map[] + old(gc)) - {};
    }

    /** Rewrites a row in place with the records of one PATCH. */
    method UpdateObject(cmd: Cmd, row: Row, now: int) returns (cs: seq<Change>)
      requires cmd.Patch? && !PatchIsNoOp(row, cmd)
      modifies this
      ensures Value() == Merge(old(Value()), PatchDelta(row, cmd), |old(changes)| + 1, now)
      ensures cs == Stamp(PatchDelta(row, cmd).pending, |old(changes)| + 1, now)
    {
      hide Stamp, PatchedRow;
      var target := PatchedRow(row, cmd);
      objects := objects[cmd.id := target];
      var pending := [];
      if target.name != row.name {
        pending := pending + [Pending(cmd.id, target.revision, Renamed)];
      }
      if target.parent != row.parent {
        pending := pending + [Pending(cmd.id, target.revision, Moved)];
      }
      if target.metadata != row.metadata {
        pending := pending + [Pending(cmd.id, target.revision, MetadataUpdated)];
      }
      assert pending == PatchPending(cmd.id, row, cmd);
      cs := AppendChanges(pending, now);
      PatchedMaps(old(objects), old(uploads), old(gc), row, cmd);
    }

    /** Swaps the content pointer, queues the superseded blob, completes the session. */
    method SwapContent(cmd: Cmd, upload: Upload, row: Row, now: int) returns (cs: seq<Change>)
      requires cmd.Commit? && !upload.state.Completed?
      modifies this
      ensures Value() == Merge(old(Value()), CommitDelta(upload, row, cmd), |old(changes)| + 1, now)
      ensures cs == Stamp(CommitDelta(upload, row, cmd).pending, |old(changes)| + 1, now)
    {
      var action := if row.blob.None? then ContentReady else ContentReplaced;
      objects := objects[cmd.id := CommittedRow(row, cmd)];
      if row.blob.Some? && row.blob.value != cmd.blob {
        if row.blob.value !in gc {
          gc := gc[row.blob.value := GcRow(cmd.gcNotBefore, 0)];
        }
      }
      uploads := uploads[cmd.upload := upload.(state := Completed)];
      gc := gc - {cmd.blob};
      cs := AppendChanges([Pending(cmd.id, row.revision + 1, action)], now);
      hide Stamp;
      SwappedMaps(old(objects), old(uploads), old(gc), upload, row, cmd);
    }

    method CreateObject(cmd: Cmd, now: int) returns (r: Result<seq<Change>>)
      requires Valid() && cmd.Create? && WellFormed(cmd) && cmd.id !in objects
      modifies this
      ensures Valid()
      ensures r.Ok? ==> Performed(old(Value()), Value(), now, cmd, [], r.value)
      ensures r.Ok? ==> CreateWrites(old(Value()), Value(), cmd) && Appended(old(Value()), Value(), now, r.value)
      ensures r.Err? ==> Value() == old(Value())
      ensures !Live(old(objects), cmd.parent) <==> r == Err(ObjectNotFound)
      ensures Live(old(objects), cmd.parent) && old(objects)[cmd.parent].kind == File <==> r == Err(NotAFolder)
      ensures (&& Live(old(objects), cmd.parent) && old(objects)[cmd.parent].kind == Folder
               && exists j :: j in old(objects) && Named(old(objects), j, Some(cmd.parent), cmd.name))
              <==> r == Err(NameConflict)
      ensures r.Err? ==> r.error in {ObjectNotFound, NotAFolder, NameConflict}
    {
      hide Inv;
      if !Live(objects, cmd.parent) {
        return Err(ObjectNotFound);
      }
      if objects[cmd.parent].kind != Folder {
        return Err(NotAFolder);
      }
      if !NameFree(objects, cmd.id, Some(cmd.parent), cmd.name) {
        return Err(NameConflict);
      }
      ghost var s := Value();
      var cs := InsertObject(cmd, now);
      PerformedKeepsValid(s, Value(), now, cmd, [], CreateDelta(cmd));
      return Ok(cs);
    }

    method PatchObject(cmd: Cmd, now: int) returns (r: Result<seq<Change>>)
      requires Valid() && cmd.Patch? && WellFormed(cmd)
      modifies this
      ensures Valid()
      ensures r.Ok? ==> Performed(old(Value()), Value(), now, cmd, [], r.value)
      ensures r.Ok? ==> PatchWrites(old(Value()), Value(), cmd) && Appended(old(Value()), Value(), now, r.value)
      ensures r.Err? ==> Value() == old(Value())
      ensures r.Ok? <==> exists d :: Accepts(old(Value()), now, cmd, [], d)
      ensures !Live(old(objects), cmd.id) ==> r == Err(ObjectNotFound)
      ensures Stale(old(objects), cmd.id, cmd.ifMatch) ==> r == Err(RevisionConflict(old(objects)[cmd.id].revision))
      ensures r.Err? && r.error.RevisionConflict? ==> Stale(old(objects), cmd.id, cmd.ifMatch)
      ensures r == Err(ObjectNotFound) ==>
                !Live(old(objects), cmd.id) || (cmd.newParent.Some? && !Live(old(objects), cmd.newParent.value))
      ensures r == Err(InvalidRequest) ==> cmd.id == ROOT && cmd.newName.Some?
      ensures r == Err(InvalidMove) ==>
                && cmd.newParent.Some?
                && (cmd.id == ROOT ||
                    (old(objects)[cmd.id].kind == Folder && Under(old(objects), cmd.newParent.value, cmd.id)))
      ensures r == Err(NotAFolder) ==>
                && cmd.newParent.Some? && Live(old(objects), cmd.newParent.value)
                && old(objects)[cmd.newParent.value].kind == File
      ensures r == Err(NameConflict) ==>
                && Live(old(objects), cmd.id)
                && exists j :: j in old(objects) && j != cmd.id && Named(old(objects), j,
                     if cmd.newParent.Some? then cmd.newParent else old(objects)[cmd.id].parent,
                     if cmd.newName.Some? then cmd.newName.value else old(objects)[cmd.id].name)
      ensures r.Err? && !r.error.RevisionConflict? ==>
                r.error in {ObjectNotFound, InvalidRequest, InvalidMove, NotAFolder, NameConflict}
    {
      hide Inv, PatchWrites, ApplyPatch, PatchPending, Stamp, Numbered, Under;
      ghost var s := Value();
      if !Live(objects, cmd.id) {
        return Err(ObjectNotFound);
      }
      var row := objects[cmd.id];
      if !IfMatchOk(row.revision, cmd.ifMatch) {
        return Err(RevisionConflict(row.revision));
      }
      if cmd.id == ROOT && cmd.newParent.Some? {
        return Err(InvalidMove);
      }
      if cmd.id == ROOT && cmd.newName.Some? {
        return Err(InvalidRequest);
      }
      var target := PatchedRow(row, cmd);
      if PatchIsNoOp(row, cmd) {
        NoDeltaKeepsBlobs(s, |changes| + 1, now);
        PerformedKeepsValid(s, s, now, cmd, [], NO_DELTA);
        return Ok([]);
      }
      if target.parent != row.parent {
        if target.parent.None? {
          return Err(InvalidMove);
        }
        var destination := target.parent.value;
        if !Live(objects, destination) {
          return Err(ObjectNotFound);
        }
        if objects[destination].kind != Folder {
          return Err(NotAFolder);
        }
        AncestorWalkExact(objects, destination, cmd.id);
        if row.kind == Folder && IsSelfOrDescendant(objects, destination, cmd.id) {
          return Err(InvalidMove);
        }
      }
      if !NameFree(objects, cmd.id, target.parent, target.name) {
        return Err(NameConflict);
      }
      ghost var d := PatchDelta(row, cmd);
      assert Accepts(s, now, cmd, [], d);
      var cs := UpdateObject(cmd, row, now);
      PerformedKeepsValid(s, Value(), now, cmd, [], d);
      return Ok(cs);
    }

    /** Tombstones the listed rows one by one, remembering their blobs. */
    method TombstoneAll(es: seq<Entry>) returns (pending: seq<Pending>, collectable: seq<Blob>)
      requires forall k :: 0 <= k < |es| ==> es[k].id in objects && !objects[es[k].id].deleted
      requires forall j, k :: 0 <= j < k < |es| ==> es[j].id != es[k].id
      modifies this`objects
      ensures forall k :: 0 <= k < |es| ==> es[k].id in old(objects)
      ensures objects == old(objects) + DeletedRows(old(objects), es)
      ensures pending == Tombstones(old(objects), es)
      ensures collectable == BlobsOf(old(objects), es)
    {
      ghost var o := objects;
      pending, collectable := [], [];
      var k := 0;
      NothingTombstoned(o, es);
      hide DeletedRows, Tombstones, BlobsOf, BlobOf, Tombstoned;
      while k < |es|
        invariant 0 <= k <= |es| && |pending| == k
        invariant objects == o + DeletedRows(o, es[..k])
        invariant pending == Tombstones(o, es[..k])
        invariant collectable == BlobsOf(o, es[..k])
      {
        var id := es[k].id;
        TombstoneRows(o, es, k);
        TombstoneStep(o, es, k);
        var entry := objects[id];
        objects := objects[id := Tombstoned(entry)];
        pending := pending + [Pending(id, entry.revision + 1, Deleted)];
        collectable := collectable + BlobOf(entry);
        k := k + 1;
      }
      assert es[..k] == es;
    }

    /** A delete's whole effect: tombstones, queued blobs, records. */
    method RemoveListed(es: seq<Entry>, now: int) returns (cs: seq<Change>)
      requires forall k :: 0 <= k < |es| ==> es[k].id in objects && !objects[es[k].id].deleted
      requires forall j, k :: 0 <= j < k < |es| ==> es[j].id != es[k].id
      modifies this
      ensures forall k :: 0 <= k < |es| ==> es[k].id in old(objects)
      ensures Value() == Merge(old(Value()), DeleteDelta(old(objects), es, now), |old(changes)| + 1, now)
      ensures cs == Stamp(Tombstones(old(objects), es), |old(changes)| + 1, now)
    {
      hide DeletedRows, DeletedBlobs, Tombstones, Enqueued, BlobsOf, Stamp;
      var pending, collectable := TombstoneAll(es);
      EnqueueAll(collectable, now);
      cs := AppendChanges(pending, now);
      EnqueuedIsDelta(old(objects), es, old(gc), now);
      assert uploads == old(uploads) + map[];
    }

    method EnqueueAll(bs: seq<Blob>, notBefore: int)
      modifies this`gc
      ensures gc == Enqueued(old(gc), bs, notBefore)
    {
      var k := 0;
      while k < |bs|
        invariant 0 <= k <= |bs|
        invariant gc == Enqueued(old(gc), bs[..k], notBefore)
      {
        EnqueueOne(old(gc), bs, k, notBefore);
        if bs[k] !in gc {
          gc := gc[bs[k] := GcRow(notBefore, 0)];
        }
        k := k + 1;
      }
      assert bs[..k] == bs;
    }

    /** The rows a delete removes, or `None` when a folder still has live children. */
    method DeleteTargets(cmd: Cmd) returns (targets: Option<seq<Entry>>)
      requires cmd.Delete? && TreeInv(objects) && Live(objects, cmd.id)
      ensures targets.Some? ==> IsListing(objects, cmd.id, targets.value)
      ensures targets.Some? && !cmd.recursive ==> NoLiveChildren(objects, cmd.id)
      ensures targets.None? <==> !cmd.recursive && !NoLiveChildren(objects, cmd.id)
    {
      var row := objects[cmd.id];
      if row.kind == Folder && cmd.recursive {
        var es := Descendants(objects, cmd.id);
        return Some(es);
      }
      var children := set i | i in objects && !objects[i].deleted && objects[i].parent == Some(cmd.id);
      ChildrenSet(objects, cmd.id, children);
      if row.kind == Folder && children != {} {
        return None;
      }
      NoChildrenHere(objects, cmd.id, children);
      LeafListing(objects, cmd.id);
      return Some([Entry(0, cmd.id)]);
    }

    /** Commits the removal of a listed subtree. */
    method PerformDelete(cmd: Cmd, targets: seq<Entry>, now: int) returns (cs: seq<Change>)
      requires Valid() && cmd.Delete? && cmd.id in objects && DeleteRowOk(objects[cmd.id], cmd)
      requires IsListing(objects, cmd.id, targets) && (!cmd.recursive ==> NoLiveChildren(objects, cmd.id))
      modifies this
      ensures Valid() && Performed(old(Value()), Value(), now, cmd, targets, cs)
    {
      ghost var s := Value();
      assert (forall k :: 0 <= k < |targets| ==> targets[k].id in objects && !objects[targets[k].id].deleted) &&
             (forall j, k :: 0 <= j < k < |targets| ==> targets[j].id != targets[k].id)
      by {
        TargetsReady(s, now, cmd, targets);
      }
      cs := RemoveListed(targets, now);
      DeletePerformed(s, Value(), now, cmd, targets, cs);
    }

    method DeleteObject(cmd: Cmd, now: int) returns (r: Result<seq<Change>>, ghost es: seq<Entry>)
      requires Valid() && cmd.Delete?
      modifies this
      ensures Valid()
      ensures r.Ok? ==> IsListing(old(objects), cmd.id, es) && Performed(old(Value()), Value(), now, cmd, es, r.value)
      ensures r.Err? ==> Value() == old(Value())
      ensures !Live(old(objects), cmd.id) <==> r == Err(ObjectNotFound)
      ensures r.Ok? ==> DeleteWrites(old(Value()), Value(), cmd, now) && Appended(old(Value()), Value(), now, r.value)
      ensures Stale(old(objects), cmd.id, cmd.ifMatch) ==> r == Err(RevisionConflict(old(objects)[cmd.id].revision))
      ensures r.Err? && r.error.RevisionConflict? ==> Stale(old(objects), cmd.id, cmd.ifMatch)
      ensures r == Err(InvalidRequest) ==> cmd.id == ROOT
      ensures r == Err(FolderNotEmpty) ==>
                && !cmd.recursive && cmd.id != ROOT
                && exists i :: Live(old(objects), i) && old(objects)[i].parent == Some(cmd.id)
      ensures r.Err? ==> r.error.RevisionConflict? || r.error in {ObjectNotFound, InvalidRequest, FolderNotEmpty}
    {
      assert TreeInv(objects);
      hide Inv, TreeInv;
      es := [];
      if !Live(objects, cmd.id) {
        return Err(ObjectNotFound), [];
      }
      var row := objects[cmd.id];
      if !IfMatchOk(row.revision, cmd.ifMatch) {
        return Err(RevisionConflict(row.revision)), [];
      }
      if cmd.id == ROOT {
        return Err(InvalidRequest), [];
      }
      var found := DeleteTargets(cmd);
      if found.None? {
        return Err(FolderNotEmpty), [];
      }
      var targets := found.value;
      ghost var s := Value();
      var cs := PerformDelete(cmd, targets, now);
      PerformedDeletes(s, Value(), now, cmd, targets, cs);
      return Ok(cs), targets;
    }

    method CommitContent(cmd: Cmd, now: int) returns (r: Result<seq<Change>>)
      requires Valid() && cmd.Commit?
      modifies this
      ensures Valid()
      ensures r.Ok? ==> Performed(old(Value()), Value(), now, cmd, [], r.value)
      ensures r.Ok? ==> CommitWrites(old(Value()), Value(), cmd) && Appended(old(Value()), Value(), now, r.value)
      ensures r.Err? ==> Value() == old(Value())
      ensures r.Ok? <==> exists d :: Accepts(old(Value()), now, cmd, [], d)
      ensures r.Ok? && old(uploads)[cmd.upload].state.Completed? ==> Value() == old(Value())
      ensures cmd.upload !in old(uploads) || old(uploads)[cmd.upload].state !in {Ready, Completing, Completed}
              <==> r == Err(UploadNotFound)
      ensures r == Err(Internal) ==>
                old(uploads)[cmd.upload].oid != cmd.id || old(uploads)[cmd.upload].blob != cmd.blob
      ensures r == Err(ObjectNotFound) ==> !Live(old(objects), cmd.id)
      ensures r == Err(NotAFile) ==> Live(old(objects), cmd.id) && old(objects)[cmd.id].kind == Folder
      ensures r.Err? && r.error.RevisionConflict? ==>
                Stale(old(objects), cmd.id, cmd.ifMatch) && r.error.current == old(objects)[cmd.id].revision
      ensures Stale(old(objects), cmd.id, cmd.ifMatch) ==> r.Err?
      ensures r.Err? ==> r.error.RevisionConflict? || r.error in {UploadNotFound, Internal, ObjectNotFound, NotAFile}
    {
      hide Inv;
      ghost var s := Value();
      if cmd.upload !in uploads || !Completable(uploads[cmd.upload].state) {
        return Err(UploadNotFound);
      }
      var upload := uploads[cmd.upload];
      if upload.oid != cmd.id || upload.blob != cmd.blob {
        return Err(Internal);
      }
      if !Live(objects, cmd.id) {
        return Err(ObjectNotFound);
      }
      var row := objects[cmd.id];
      if row.kind != File {
        return Err(NotAFile);
      }
      if !IfMatchOk(row.revision, cmd.ifMatch) {
        return Err(RevisionConflict(row.revision));
      }
      ghost var d := CommitDelta(upload, row, cmd);
      assert Accepts(s, now, cmd, [], d);
      if upload.state.Completed? {
        NoDeltaKeepsBlobs(s, |changes| + 1, now);
        PerformedKeepsValid(s, s, now, cmd, [], NO_DELTA);
        return Ok([]);
      }
      var cs := SwapContent(cmd, upload, row, now);
      PerformedKeepsValid(s, Value(), now, cmd, [], d);
      return Ok(cs);
    }

    // -------------------------------------------------------------------
    // Upload sessions and maintenance
    // -------------------------------------------------------------------

    /** `None`: the object row does not exist. Otherwise, whether a row was created. */
    method CreateUploadRecord(u: UploadId, oid: Id, expiresAt: int) returns (created: Option<bool>)
      requires Valid()
      modifies this
      ensures Valid()
      ensures created == Some(false) <==> u in old(uploads)
      ensures created == None <==> u !in old(uploads) && oid !in old(objects)
      ensures created == Some(true) ==> Opens(old(Value()), Value(), u, oid, expiresAt)
      ensures created == Some(true) <==> SideEnabled(old(Value()), OpenUpload(u, oid, expiresAt))
      ensures Value() == if created == Some(true) then SideApply(old(Value()), OpenUpload(u, oid, expiresAt))
                         else old(Value())
    {
      if u in uploads {
        return Some(false);
      }
      if oid !in objects {
        return None;
      }
      SideKeepsInv(Value(), OpenUpload(u, oid, expiresAt));
      uploads := uploads[u := Upload(oid, Initiating, Blob(u), expiresAt)];
      return Some(true);
    }

    method UpdateUploadState(u: UploadId, to: UploadState) returns (ok: bool)
      requires Valid()
      modifies this
      ensures Valid()
      ensures ok <==> u in old(uploads)
                      && ((to == Ready && old(uploads)[u].state in {Initiating, Ready}) ||
                          (to == Completing && old(uploads)[u].state in {Ready, Completing}))
      ensures ok ==> Advances(old(Value()), Value(), u, to)
      ensures ok == SideEnabled(old(Value()), AdvanceUpload(u, to))
      ensures Value() == if ok then SideApply(old(Value()), AdvanceUpload(u, to)) else old(Value())
    {
      if u !in uploads {
        return false;
      }
      var st := uploads[u].state;
      ok := (to.Ready? && (st.Initiating? || st.Ready?)) || (to.Completing? && (st.Ready? || st.Completing?));
      if ok {
        SideKeepsInv(Value(), AdvanceUpload(u, to));
        uploads := uploads[u := uploads[u].(state := to)];
      }
    }

    /** A completed session is never rolled back. */
    method AbortUploadRecord(u: UploadId, notBefore: int)
      requires Valid()
      modifies this
      ensures Valid()
      ensures Value() == if SideEnabled(old(Value()), AbortUpload(u, notBefore))
                         then SideApply(old(Value()), AbortUpload(u, notBefore)) else old(Value())
      ensures if u in old(uploads) && old(uploads)[u].state != Completed
              then Aborts(old(Value()), Value(), u, notBefore) else Value() == old(Value())
    {
      if u !in uploads || uploads[u].state.Completed? {
        return;
      }
      ghost var s := Value();
      MarkAborted(u, notBefore);
      SideKeepsValid(s, Value(), AbortUpload(u, notBefore));
    }

    method MarkAborted(u: UploadId, notBefore: int)
      requires u in uploads
      modifies this`uploads, this`gc
      ensures Value() == SideApply(old(Value()), AbortUpload(u, notBefore))
    {
      var blob := uploads[u].blob;
      uploads := uploads[u := uploads[u].(state := Aborted)];
      if blob !in gc {
        gc := gc[blob := GcRow(notBefore, 0)];
      }
      assert gc == map[blob := GcRow(notBefore, 0)] + old(gc);
    }

    /** The claim's two statements: the state change, then one queue insert per session. */
    method MarkExpired(us: set<UploadId>, now: int)
      requires us <= uploads.Keys
      modifies this`uploads, this`gc
      ensures Value() == SideApply(old(Value()), ExpireUploads(us, now))
    {
      EnqueueExpired(us, now);
      uploads := uploads + ExpiredRows(uploads, us);
    }

    method EnqueueExpired(us: set<UploadId>, now: int)
      requires us <= uploads.Keys
      modifies this`gc
      ensures gc == ExpiredQueue(uploads, us, now) + old(gc)
    {
      var done: set<UploadId> := {};
      var todo := us;
      while todo != {}
        invariant todo <= us && done == us - todo
        invariant gc == ExpiredQueue(uploads, done, now) + old(gc)
        decreases |todo|
      {
        var u :| u in todo;
        ExpiredQueueStep(uploads, done, u, old(gc), now);
        if uploads[u].blob !in gc {
          gc := gc[uploads[u].blob := GcRow(now, 0)];
        }
        done := done + {u};
        todo := todo - {u};
      }
      assert done == us;
    }

    /** Marks up to `limit` sessions past their expiry and queues their blobs. */
    method ClaimExpiredUploads(now: int, limit: nat) returns (us: set<UploadId>)
      requires Valid()
      modifies this
      ensures Valid()
      ensures us <= DueUploads(old(uploads), now) && |us| <= limit
      ensures |us| < limit ==> us == DueUploads(old(uploads), now)
      ensures Value() == SideApply(old(Value()), ExpireUploads(us, now))
      ensures Expires(old(Value()), Value(), us, now)
      ensures |us| < limit ==> forall u :: u in old(uploads) && IsDue(old(uploads)[u], now) ==> u in us
      ensures DueUploads(uploads, now) == DueUploads(old(uploads), now) - us
    {
      hide Inv;
      us := TakeSome(DueUploads(uploads, now), limit);
      ghost var s := Value();
      MarkExpired(us, now);
      SideKeepsValid(s, Value(), ExpireUploads(us, now));
      DueAfterExpiry(s.uploads, us, now);
    }

    /** Leases up to `limit` due entries whose blob no live object points at. */
    method ClaimGcBatch(now: int, limit: nat) returns (bs: set<Blob>)
      requires Valid()
      modifies this
      ensures Valid()
      ensures bs <= DueEntries(old(gc), now) && |bs| <= limit
      ensures |bs| < limit ==> bs == DueEntries(old(gc), now)
      ensures Value() == SideApply(old(Value()), ClaimGc(bs, now))
      ensures Leases(old(Value()), Value(), bs, now)
      ensures |bs| < limit ==> forall b :: b in old(gc) && old(gc)[b].notBefore <= now ==> b in bs
      ensures DueEntries(gc, now) == DueEntries(old(gc), now) - bs
    {
      hide Inv;
      ghost var s := Value();
      var due := Collectable(objects, gc, now);
      AllDueCollectable(s, now);
      bs := TakeSome(due, limit);
      gc := gc + LeasedRows(gc, bs, now);
      claimed := claimed + bs;
      SideKeepsValid(s, Value(), ClaimGc(bs, now));
      DueAfterLease(s.gc, bs, now);
    }

    method FinishCollection(b: Blob)
      requires Valid() && b in claimed
      modifies this
      ensures Valid() && Value() == SideApply(old(Value()), Store.FinishGc(b))
      ensures Finishes(old(Value()), Value(), b)
    {
      ghost var s := Value();
      gc := gc - {b};
      collected := collected + {b};
      SideKeepsValid(s, Value(), Store.FinishGc(b));
    }

    method FailCollection(b: Blob, retryAt: int)
      requires Valid() && b in claimed
      modifies this
      ensures Valid() && Value() == SideApply(old(Value()), Store.FailGc(b, retryAt))
      ensures if b in old(gc) then BacksOff(old(Value()), Value(), b, retryAt) else Value() == old(Value())
    {
      if b !in gc {
        return;
      }
      ghost var s := Value();
      BackOff(b, retryAt);
      SideKeepsValid(s, Value(), Store.FailGc(b, retryAt));
    }

    method BackOff(b: Blob, retryAt: int)
      modifies this`gc
      ensures Value() == SideApply(old(Value()), Store.FailGc(b, retryAt))
    {
      if b in gc {
        gc := gc[b := GcRow(retryAt, gc[b].attempts + 1)];
      }
    }
  }

  /** Sessions past their expiry that still hold provider state. */
  function DueUploads(ups: map<UploadId, Upload>, now: int): set<UploadId> {
    set u | u in ups && PendingUpload(ups[u].state) && ups[u].expiresAt <= now
  }

  function DueEntries(gc: map<Blob, GcRow>, now: int): set<Blob> {
    set b | b in gc && gc[b].notBefore <= now
  }

  /** `LIMIT`: all of `s` when it fits, otherwise `limit` of its members. */
  method TakeSome<T(==)>(s: set<T>, limit: nat) returns (r: set<T>)
    ensures r <= s && |r| <= limit
    ensures |r| < limit ==> r == s
  {
    r := {};
    var todo := s;
    while todo != {} && |r| < limit
      invariant r !! todo && r + todo == s && |r| <= limit
      decreases |todo|
    {
      var x :| x in todo;
      r := r + {x};
      todo := todo - {x};
    }
  }

  lemma ExpiredQueueStep(ups: map<UploadId, Upload>, done: set<UploadId>, u: UploadId, gc: map<Blob, GcRow>, now: int)
    requires u in ups
    ensures var queue := ExpiredQueue(ups, done, now) + gc;
            ExpiredQueue(ups, done + {u}, now) + gc ==
            if ups[u].blob in queue then queue else queue[ups[u].blob := GcRow(now, 0)]
  {
    assert ExpiredBlobs(ups, done + {u}) == ExpiredBlobs(ups, done) + {ups[u].blob};
  }

  function LiveBlobs(o: Objects): set<Blob> {
    set i | i in o && !o[i].deleted && o[i].blob.Some? :: o[i].blob.value
  }

  function Collectable(o: Objects, gc: map<Blob, GcRow>, now: int): set<Blob> {
    DueEntries(gc, now) - LiveBlobs(o)
  }

  /** The live-pointer filter never withholds an entry: nothing queued is live. */
  lemma AllDueCollectable(s: State, now: int)
    requires Inv(s)
    ensures Collectable(s.objects, s.gc, now) == DueEntries(s.gc, now)
    ensures forall b :: b in s.gc ==> !LiveBlob(s.objects, b)
  {
    forall b | b in s.gc ensures b !in LiveBlobs(s.objects) && !LiveBlob(s.objects, b) {
      LiveBlobsAreSafe(s, b);
      if b in LiveBlobs(s.objects) {
        var i :| i in s.objects && !s.objects[i].deleted && s.objects[i].blob == Some(b);
        LivePointer(s.objects, i, b);
      }
    }
  }

  lemma LivePointer(o: Objects, i: Id, b: Blob)
    requires PointsAt(o, i, b)
    ensures LiveBlob(o, b)
  {
  }

  lemma DueAfterExpiry(ups: map<UploadId, Upload>, us: set<UploadId>, now: int)
    requires us <= ups.Keys
    ensures DueUploads(ups + ExpiredRows(ups, us), now) == DueUploads(ups, now) - us
  {
  }

  lemma DueAfterLease(gc: map<Blob, GcRow>, bs: set<Blob>, now: int)
    requires bs <= gc.Keys
    ensures DueEntries(gc + LeasedRows(gc, bs, now), now) == DueEntries(gc, now) - bs
  {
  }

  lemma SideKeepsValid(s: State, s': State, op: SideOp)
    requires Inv(s) && Numbered(s.log) && SideEnabled(s, op) && s' == SideApply(s, op)
    ensures Inv(s') && Numbered(s'.log)
    ensures SideWrites(s, s', op)
  {
    SideOpWrites(s, op);
    SideKeepsInv(s, op);
    CompletedUntouched(s, op, ROOT);
  }

  lemma ChildrenSet(o: Objects, x: Id, children: set<Id>)
    requires children == set i | i in o && !o[i].deleted && o[i].parent == Some(x)
    ensures NoLiveChildren(o, x) <==> children == {}
  {
    forall i ensures Live(o, i) && o[i].parent == Some(x) <==> i in children {}
  }

  /** The children set is empty whenever a delete gets this far: checked for a
      folder, and nothing hangs under a file. */
  lemma NoChildrenHere(o: Objects, x: Id, children: set<Id>)
    requires TreeInv(o) && Live(o, x)
    requires o[x].kind == Folder ==> children == {}
    requires NoLiveChildren(o, x) <==> children == {}
    ensures NoLiveChildren(o, x)
  {
    forall i | Live(o, i) && o[x].kind == File ensures o[i].parent != Some(x) {
      assert i != ROOT ==> ParentOk(o, i);
    }
  }
}
